# LRU cache — a Dafny model

This project models `LruCache`, the bounded least-recently-used cache in
`src/LruCache.php`. It also proves properties of the model.

The cache holds two things:

- a capacity, `$size`, fixed by the constructor;
- an ordered PHP array, `$data`. Its first entry is the least recently used and its last entry the most recently used.

Its operations:

- `get` returns the value of a key and moves that key to the end. On a missing key it throws.
- `set` refuses keys that are neither integers nor strings. An existing key is overwritten and moved to the end. A new key is appended; if the cache is full, the first entry is evicted first.
- `remove` unsets a key.
- `removeEarliestUsedKey` and `changeKeyToLastUsed` are the two protected helpers that do the reordering.

The model has five modules:

- `LruSpec` (`lru_spec.dfy`) describes the cache as a value.
  - `Cache(size, keys, vals)` is the capacity, the key order of `$data` and its contents.
  - `Inv` is the invariant every operation keeps: a positive capacity, at most `size` entries, no key twice, and the order lists exactly the stored keys.
  - Each operation is a function on such values, with its own contract.
- `LruCacheClass` (`lru_cache.dfy`) is the class itself.
  - The fields are `size`, `keys` and `vals`, and the methods update them in place.
  - Each method is proved to leave exactly the state that the matching `LruSpec` function describes.
- `LruTraces` (`lru_traces.dfy`) covers whole runs of calls.
  - The invariant and the capacity bound hold after any sequence of calls.
  - Distinct keys fill the cache in order.
  - When the cache overflows, the first key set is evicted.
  - A read protects a key from the next eviction.
- `LruScenarios` (`lru_scenarios.dfy`) states the unit tests' scenarios as lemmas, and replays one of them on the object.
- `LruFindings` (`lru_findings.dfy`) models the eviction as PHP actually performs it. This exposes a defect with integer keys; see "Findings".

A failure is the single error `InvalidArgument`; PHP throws `\InvalidArgumentException` in every failing case. A failing call leaves the state unchanged.

The argument of `set` and of the constructor is a `PhpValue`. That type tells integers, strings, booleans, floats, null, arrays and objects apart, so that the code's type checks can be modelled.

Keys are `Key = IntKey | StrKey`. Values are a type parameter `V`.

## Model

| member | source | states |
|---|---|---|
| LruSpec.KeyOf | src/LruCache.php:45-47 | `set` accepts a key if and only if it is an integer or a string, and the accepted key stands for that same PHP value |
| LruSpec.KeyOfPhpOf | src/LruCache.php:45-47 | every integer or string key passes the type check of `set` unchanged |
| LruSpec.New | src/LruCache.php:21-28 | construction succeeds if and only if the size is an integer greater than zero; the new cache has that capacity, is empty and satisfies the invariant |
| LruSpec.RemoveKey | src/LruCache.php:63 | `unset` on the key order removes exactly the given key, leaves the other keys, changes nothing when the key is absent, and keeps the keys distinct |
| LruSpec.RemoveKeyAt | src/LruCache.php:73 | in a key order without duplicates, unsetting the key at position `i` splices out that position and keeps the order of the rest |
| LruSpec.MoveToEnd | src/LruCache.php:73-75 | unsetting a present key and appending it again moves it from its position to the end; the keys stay distinct and no key is gained or lost |
| LruSpec.ChangeKeyToLastUsed | src/LruCache.php:71-76 | the key moves to the last position, with the other keys in their old order; the value is replaced, every other entry is kept, and the count and invariant are kept |
| LruSpec.RemoveEarliestUsedKey | src/LruCache.php:66-69 | on a non-empty cache, the first (least recently used) key and its entry are dropped; the order of the rest and their values are kept, and the count drops by one; an empty cache is unchanged |
| LruSpec.Get | src/LruCache.php:30-41 | a miss fails and leaves the cache unchanged; a hit returns the stored value and moves the key to the last position, the other keys keeping their order; values, count and invariant are kept |
| LruSpec.SetKey | src/LruCache.php:49-58 | existing key: overwritten and moved last, nothing evicted. New key with room: appended. New key on a full cache: the first key is evicted, then the new key is appended. The key is always stored last with the new value; the only entry ever lost is the first, and only in the full case; the count grows by one only when there was room |
| LruSpec.Set | src/LruCache.php:43-59 | fails if and only if the key is neither an integer nor a string, before any change; on success the new cache is the one `LruSpec.SetKey` describes (promotion, or append, or eviction then append), the key holds the value, and the invariant and capacity are kept |
| LruSpec.Remove | src/LruCache.php:61-64 | afterwards the key is absent and every other entry is kept; a missing key is a no-op; a present key is spliced out of the order and the count drops by one |
| LruCacheClass.LruCache.constructor | src/LruCache.php:21-28 | a new object with capacity `n`, no entries, satisfying the invariant |
| LruCacheClass.LruCache.Create | src/LruCache.php:21-28 | the constructor with its argument check: fails exactly when `LruSpec.New` fails, otherwise returns a fresh object whose state is the cache `LruSpec.New` describes |
| LruCacheClass.LruCache.Get | src/LruCache.php:30-41 | the new state and the result are those of `LruSpec.Get`: a miss fails and changes nothing; a hit returns the stored value and leaves the key last, with the values unchanged |
| LruCacheClass.LruCache.Set | src/LruCache.php:43-59 | fails and changes nothing exactly when `LruSpec.Set` fails; otherwise the new state is that of `LruSpec.Set` |
| LruCacheClass.LruCache.Remove | src/LruCache.php:61-64 | the new state is that of `LruSpec.Remove` |
| LruCacheClass.LruCache.RemoveEarliestUsedKey | src/LruCache.php:66-69 | the new state is that of `LruSpec.RemoveEarliestUsedKey` |
| LruCacheClass.LruCache.ChangeKeyToLastUsed | src/LruCache.php:71-76 | unsetting and re-storing the key leaves the state of `LruSpec.ChangeKeyToLastUsed` |
| LruTraces.Step | src/LruCache.php:30-64 | any single call, whether `get`, `set` or `remove` and whether or not it fails, keeps the invariant and the capacity |
| LruTraces.Run | src/LruCache.php:30-64 | after any sequence of calls, the invariant holds and the count is at most the capacity |
| LruTraces.RunAppend | src/LruCache.php:30-64 | running two sequences of calls one after the other is the same as running them joined |
| LruTraces.FillInOrder | src/LruCache.php:54-58 | setting distinct new keys while there is room appends them in the order set; earlier entries keep their values and each new key holds its value |
| LruTraces.SetsUpToCapacityAreRetrievable | src/LruCache.php:30-58 | from an empty cache, after at most `size` calls of `set`, repeated keys allowed, every key that was set reads back the value of its last `set` |
| LruTraces.SetsWithRoom | src/LruCache.php:49-58 | while there is room for every call, a run of `set` calls evicts nothing: keys not set keep their values, each key set holds the value of its last `set`, and the count grows by at most the number of calls |
| LruTraces.FullSetEvictsFirst | src/LruCache.php:54-58 | a new key set on a cache holding `size` keys in the order set evicts the first and keeps the rest with their values |
| LruTraces.EvictionOrder | src/LruCache.php:43-69 | from an empty cache of capacity `n`, setting `n + 1` distinct keys evicts exactly the first; the other `n` are kept in order with their values |
| LruTraces.SetFullKeeps | src/LruCache.php:54-58 | on a full cache, a new key evicts only the first key; every other entry keeps its value, and the new key comes last |
| LruTraces.ReadProtectsFromEviction | src/LruCache.php:36-58 | on a full cache of capacity at least two, reading a key and then setting a new key keeps the read key with its value; the least recently used of the other keys is evicted instead |
| LruScenarios.CanSetAndGetValue | tests/unit/LruCacheTest.php:16-21 | a value that is set is read back |
| LruScenarios.SetInvalidKey | tests/unit/LruCacheTest.php:104-114 | `set` fails on null, false, true, an empty array, an object and 1.23 as key |
| LruScenarios.CanOverwriteExistingKey | tests/unit/LruCacheTest.php:32-38 | a second `set` of the same key wins |
| LruScenarios.CreateCacheWithInvalidSize | tests/unit/LruCacheTest.php:116-129 | construction fails for null, false, true, an empty array, an object, 1.23, 0, -1 and -1234 |
| LruScenarios.KeyValueIsNotSet | tests/unit/LruCacheTest.php:49-55 | `get` of a key never set fails and changes nothing |
| LruScenarios.OverflowRemovesEarliestUsedKey | tests/unit/LruCacheTest.php:57-74 | capacity 3, set foo, bar, baz, buz: foo is gone and the others keep 2, 3 and 4 |
| LruScenarios.SetTheSameKeyNotRemoveEarliestUsedKey | tests/unit/LruCacheTest.php:76-86 | capacity 3, set foo, baz, bar, then baz again: nothing is evicted and foo, baz and bar hold 1, 4 and 3 |
| LruScenarios.GetEarliestUsedKeyIsRemoved | tests/unit/LruCacheTest.php:91-102 | capacity 3, set foo, bar, baz, read foo, set buz: bar is evicted and the order is baz, foo, buz |
| LruScenarios.GetEarliestUsedKeyIsRemovedOnObject | tests/unit/LruCacheTest.php:88-102 | on the object, through the methods' contracts alone: after set foo, bar, baz, reading foo returns 1; after set buz, reading bar fails |
| LruScenarios.FillFooBarBaz | tests/unit/LruCacheTest.php:93-95 | on the object, three `set` calls on a new cache of capacity 3 leave foo, bar, baz in that order |
| LruFindings.RenumberKeys | src/LruCache.php:68 | PHP's renumbering of a key order gives position `i` the key `RenumberedAt`: an integer key becomes `next` plus the number of integer keys before it, a string key stays; the length is kept and the keys stay distinct |
| LruFindings.Rekey | src/LruCache.php:68 | each entry keeps its value under its new key, and the new keys are exactly the stored keys |
| LruFindings.Renumber | src/LruCache.php:68 | the array after renumbering: position `i` holds key `RenumberedAt(ks, i, next)` with the value of the entry that was at `i`; the keys stay distinct and match the contents |
| LruFindings.ArrayShift | src/LruCache.php:66-69 | `array_shift` as PHP performs it: an empty cache is unchanged; otherwise the first entry goes, the count drops by one, and the others keep their order and values, with integer keys renumbered from 0 |
| LruFindings.SetKeyAsWritten | src/LruCache.php:43-59 | `set` with that eviction: an existing key, or a new key while there is room, gives exactly the intended `LruSpec.SetKey`; a new key on a full cache comes after `ArrayShift`, and is appended, or overwrites in place a renumbered entry with the same key |
| LruFindings.ShiftAgreesOnStringKeys | src/LruCache.php:66-69 | on a cache whose keys are all strings, `array_shift` is exactly the intended eviction `LruSpec.RemoveEarliestUsedKey` |
| LruFindings.SetAgreesOnStringKeys | src/LruCache.php:43-59 | on a cache whose keys are all strings, `set` as written is exactly the intended `LruSpec.SetKey` |
| LruFindings.CollisionOverwritesInPlace | src/LruCache.php:54-58 | on a full cache whose second key is an integer key, setting the new key 0 as written loses an extra entry and leaves key 0 first in line for eviction; the intended `set` keeps the count and puts key 0 last |
| LruFindings.ShiftRenumbersIntegerKeys | src/LruCache.php:66-69 | capacity 2, set 5, 7, 9: as written the array ends as keys 0, 9 and `get(7)` fails; with the intended eviction the keys are 7, 9 and `get(7)` returns 2 |

## Findings

| source | as written | input that shows it | evidently intended | confidence | as-written member | corrected member |
|---|---|---|---|---|---|---|
| src/LruCache.php:68 | `removeEarliestUsedKey` uses `array_shift`. That drops the first entry and also renumbers every integer key of the array from 0 | `new LruCache(2)`, then `set(5, 1)`, `set(7, 2)`, `set(9, 3)`, `get(7)`: the surviving entry 7 has become key 0, so `get(7)` throws | drop only the first entry and keep the other keys, so `get(7)` returns 2 | high: the renumbering is the documented behaviour of `array_shift`; not executed | LruFindings.ShiftRenumbersIntegerKeys | LruSpec.RemoveEarliestUsedKey |
| src/LruCache.php:58 | after the renumbering eviction, `$this->data[$key] = $value` with a key that a renumbered entry now has overwrites that entry where it stands | `new LruCache(3)`, then `set(5, 1)`, `set(7, 2)`, `set(8, 3)`, `set(0, 4)`: the array becomes `[0 => 4, 1 => 3]`, so only two entries remain and 0 is the next to be evicted | append the new key last after evicting only the first entry, keeping three entries | high: follows from the documented behaviour of `array_shift`; not executed | LruFindings.CollisionOverwritesInPlace | LruSpec.SetKey |

The rest of the model uses the intended eviction. That covers `LruSpec.SetKey`, the class method `LruCacheClass.LruCache.RemoveEarliestUsedKey` and every lemma built on them. With string keys only, as in the unit tests, the two agree: `LruFindings.ShiftAgreesOnStringKeys` and `LruFindings.SetAgreesOnStringKeys` prove that `array_shift` and `set` as written then equal the intended eviction and `set`.

## Left out

- Numeric strings as keys: PHP stores `"1"` under the integer key `1`. Here `StrKey("1")` and `IntKey(1)` are different keys.
- Keys of other types in `get` and `remove`: those two methods do no type check. PHP converts booleans, floats and null to array keys (`true` to 1, `1.5` to 1, `null` to `""`), and arrays and objects make `array_key_exists` and `unset` fail or warn. The model's `Get` and `Remove` take only integer and string keys (`Key`).
- Exception classes and messages: every failure is the one error `InvalidArgument`.
- `get` on a missing key throws in the code. The model follows the code: it never returns a default value. The code has no operation to clear the cache and no array-style accessors, so the model has none either.
- The eviction test is `count($this->data) === $this->size` (src/LruCache.php:54). The model tests `Count(c) == c.size` in the same way. `LruTraces.Run` proves the count never exceeds the capacity, so a `>=` test would behave the same.
- `(int)$size` in the constructor changes nothing once `is_int` holds, so it is not modelled as a separate step.
- PHP's copy-on-assignment of values and object handles: values are an opaque type parameter `V`.
- `protected` visibility: `RemoveEarliestUsedKey` and `ChangeKeyToLastUsed` are ordinary methods of the class here. Dafny has no protected members.
- LruCacheClass.LruCache.constructor: it requires a positive capacity. The throwing check of `__construct` is `LruCacheClass.LruCache.Create`, since a Dafny constructor cannot fail.
- LruCacheClass.LruCache.RemoveEarliestUsedKey: models the intended eviction, which keeps the integer keys of the remaining entries. The renumbering `array_shift` performs is modelled only in `LruFindings` (see "Findings").
