/**
  `removeEarliestUsedKey` as written calls PHP's `array_shift`, which does
  more than drop the first entry: it renumbers every integer key of the array
  0, 1, 2, ... in order, leaving string keys as they are. With integer keys the
  surviving entries of an eviction therefore change their keys. This module
  models that behaviour and exhibits an input on which `get` then fails for a
  key that was set and not evicted. The rest of the model uses the intended
  eviction, LruSpec.RemoveEarliestUsedKey, which keeps the other keys.
 */
module LruFindings {
  import opened LruSpec

  /** How many keys of `s` are integer keys. */
  function IntKeys(s: seq<Key>): (n: nat)
    ensures n <= |s|
  {
    if s == [] then 0 else (if s[0].IntKey? then 1 else 0) + IntKeys(s[1..])
  }

  /**
    The key that position `i` of `ks` gets when PHP renumbers the integer keys
    from `next` on: the integer keys before it are counted, string keys are kept.
   */
  function RenumberedAt(ks: seq<Key>, i: nat, next: int): (k: Key)
    requires i < |ks|
    ensures k.IntKey? == ks[i].IntKey?
  {
    if ks[i].IntKey? then IntKey(next + IntKeys(ks[..i])) else ks[i]
  }

  /** The keys `ks` after PHP renumbers the integer keys from `next` on, in order; string keys are kept. */
  function RenumberKeys(ks: seq<Key>, next: int): (r: seq<Key>)
    requires NoDup(ks)
    ensures |r| == |ks| && NoDup(r)
    ensures forall x :: x in r && x.IntKey? ==> x.i >= next
    ensures forall i :: 0 <= i < |ks| ==> r[i] == RenumberedAt(ks, i, next)
    decreases |ks|
  {
    if ks == [] then []
    else
      var first := if ks[0].IntKey? then IntKey(next) else ks[0];
      var next' := if ks[0].IntKey? then next + 1 else next;
      var rest := RenumberKeys(ks[1..], next');
      assert first !in rest by {
        if first.StrKey? {
          forall i | 0 <= i < |ks| - 1 ensures rest[i] != first {
            assert rest[i] == RenumberedAt(ks[1..], i, next');
            assert ks[1..][i] in ks[1..];
          }
        }
      }
      var r := [first] + rest;
      assert r[1..] == rest;
      forall i | 1 <= i < |ks| ensures r[i] == RenumberedAt(ks, i, next) {
        RenumberedStep(ks, i, next);
        assert r[i] == rest[i - 1];
      }
      r
  }

  /** The entries of `vals` at the keys `ks`, stored under the keys `ks'` at the same positions. */
  function Rekey<V>(ks: seq<Key>, ks': seq<Key>, vals: map<Key, V>): (m: map<Key, V>)
    requires |ks| == |ks'| && NoDup(ks') && forall k :: k in ks ==> k in vals
    ensures forall x :: x in m <==> x in ks'
    ensures forall i :: 0 <= i < |ks| ==> m[ks'[i]] == vals[ks[i]]
    decreases |ks|
  {
    if ks == [] then map[]
    else
      var rest := Rekey(ks[1..], ks'[1..], vals);
      var m := rest[ks'[0] := vals[ks[0]]];
      forall i | 1 <= i < |ks| ensures m[ks'[i]] == vals[ks[i]] {
        assert ks'[i] == ks'[1..][i - 1] && ks[i] == ks[1..][i - 1];
      }
      m
  }

  /**
    The keys and entries of `ks` (with contents `vals`) after PHP renumbers
    the integer keys from `next` on; every position keeps its entry's value.
   */
  function Renumber<V>(ks: seq<Key>, vals: map<Key, V>, next: int): (r: (seq<Key>, map<Key, V>))
    requires NoDup(ks) && forall k :: k in ks ==> k in vals
    ensures |r.0| == |ks| && NoDup(r.0)
    ensures forall x :: x in r.1 <==> x in r.0
    ensures forall i :: 0 <= i < |ks| ==> r.0[i] == RenumberedAt(ks, i, next)
    ensures forall i :: 0 <= i < |ks| ==> r.1[r.0[i]] == vals[ks[i]]
  {
    var keys := RenumberKeys(ks, next);
    (keys, Rekey(ks, keys, vals))
  }

  /** The numbering at position `i > 0` of `ks` is the numbering at `i - 1` of its tail. */
  lemma RenumberedStep(ks: seq<Key>, i: nat, next: int)
    requires 0 < i < |ks|
    ensures RenumberedAt(ks, i, next) == RenumberedAt(ks[1..], i - 1, if ks[0].IntKey? then next + 1 else next)
  {
    assert ks[..i][1..] == ks[1..][..i - 1];
    assert ks[..i][0] == ks[0];
    assert ks[1..][i - 1] == ks[i];
  }

  /**
    PHP's `array_shift` on the cache's array: the first entry goes; the others
    keep their order and values, integer keys being renumbered from 0.
   */
  function ArrayShift<V>(c: Cache<V>): (d: Cache<V>)
    requires Inv(c)
    ensures Inv(d) && d.size == c.size
    ensures c.keys == [] ==> d == c
    ensures c.keys != [] ==> Count(d) == Count(c) - 1
    ensures c.keys != [] ==> forall i :: 0 <= i < |d.keys| ==>
      d.keys[i] == RenumberedAt(c.keys[1..], i, 0) && d.vals[d.keys[i]] == c.vals[c.keys[i + 1]]
  {
    if c.keys == [] then c
    else
      var r := Renumber(c.keys[1..], c.vals, 0);
      assert forall i :: 0 <= i < |r.0| ==> c.keys[1..][i] == c.keys[i + 1];
      Cache(c.size, r.0, r.1)
  }

  /**
    `set` as written, after the type check. An existing key, or a new key with
    room left, behaves as intended. A new key on a full cache comes after
    `array_shift`; when it collides with a renumbered key, the assignment
    overwrites that entry where it sits instead of appending.
   */
  function SetKeyAsWritten<V>(c: Cache<V>, k: Key, v: V): (d: Cache<V>)
    requires Inv(c)
    ensures Inv(d) && d.size == c.size
    ensures k in d.vals && d.vals[k] == v
    ensures k in c.vals || Count(c) < c.size ==> d == SetKey(c, k, v)
    ensures k !in c.vals && Count(c) == c.size ==>
      var e := ArrayShift(c);
      && (k in e.vals ==> d.keys == e.keys && d.vals == e.vals[k := v])
      && (k !in e.vals ==> d.keys == e.keys + [k] && d.vals == e.vals[k := v])
  {
    if k in c.vals then ChangeKeyToLastUsed(c, k, v)
    else
      var e := if Count(c) == c.size then ArrayShift(c) else c;
      if k in e.vals then Cache(e.size, e.keys, e.vals[k := v])
      else
        AppendNoDup(e.keys, k);
        Cache(e.size, e.keys + [k], e.vals[k := v])
  }

  /** On string keys `array_shift` renumbers nothing: it is the intended eviction. */
  lemma ShiftAgreesOnStringKeys<V>(c: Cache<V>)
    requires Inv(c) && forall k :: k in c.keys ==> k.StrKey?
    ensures ArrayShift(c) == RemoveEarliestUsedKey(c)
  {
    if c.keys != [] {
      var ks := c.keys[1..];
      assert forall k :: k in ks ==> k in c.keys;
      RenumberStrings(ks, 0);
      var e := c.vals - {c.keys[0]};
      assert forall x :: x in e <==> x in ks by {
        assert c.keys == [c.keys[0]] + ks;
      }
      RekeyIdentity(ks, c.vals, e);
    }
  }

  /** Renumbering keys that are all strings changes none of them. */
  lemma RenumberStrings(ks: seq<Key>, next: int)
    requires NoDup(ks) && forall k :: k in ks ==> k.StrKey?
    ensures RenumberKeys(ks, next) == ks
  {
    var r := RenumberKeys(ks, next);
    forall i | 0 <= i < |ks| ensures r[i] == ks[i] {
      assert ks[i] in ks;
    }
  }

  /** Re-keying entries onto the same keys gives back the map holding those entries. */
  lemma RekeyIdentity<V>(ks: seq<Key>, vals: map<Key, V>, e: map<Key, V>)
    requires NoDup(ks) && forall k :: k in ks ==> k in vals
    requires forall x :: x in e <==> x in ks
    requires forall x :: x in e ==> e[x] == vals[x]
    ensures Rekey(ks, ks, vals) == e
  {
    var m := Rekey(ks, ks, vals);
    forall x | x in m ensures m[x] == e[x] {
      var i :| 0 <= i < |ks| && ks[i] == x;
    }
  }

  /** On a cache whose keys are all strings, `set` as written is the intended `set`. */
  lemma SetAgreesOnStringKeys<V>(c: Cache<V>, k: Key, v: V)
    requires Inv(c) && forall x :: x in c.keys ==> x.StrKey?
    ensures SetKeyAsWritten(c, k, v) == SetKey(c, k, v)
  {
    if k !in c.vals && Count(c) == c.size {
      ShiftAgreesOnStringKeys(c);
    }
  }

  /**
    A second effect of the renumbering: on a full cache whose second key is an
    integer key, a new key 0 collides with the renumbered entry. As written it
    overwrites that entry in place, so the cache loses one more entry and the
    key just set is the first in line for eviction; as intended, nothing else
    is lost and the key comes last.
   */
  lemma CollisionOverwritesInPlace<V>(c: Cache<V>, v: V)
    requires Inv(c) && Count(c) == c.size >= 2 && c.keys[1].IntKey? && IntKey(0) !in c.vals
    ensures var d := SetKeyAsWritten(c, IntKey(0), v);
      && Count(d) == Count(c) - 1
      && d.keys[0] == IntKey(0)
    ensures var d := SetKey(c, IntKey(0), v);
      && Count(d) == Count(c)
      && d.keys[|d.keys| - 1] == IntKey(0)
  {
    var e := ArrayShift(c);
    assert e.keys[0] == IntKey(0) by {
      assert c.keys[1..][..0] == [];
    }
  }

  // The states of the counterexample, one call at a time.

  function One(): (c: Cache<int>) {
    Cache(2, [IntKey(5)], map[IntKey(5) := 1])
  }

  function Two(): (c: Cache<int>) {
    Cache(2, [IntKey(5), IntKey(7)], map[IntKey(5) := 1, IntKey(7) := 2])
  }

  lemma FirstTwoSets()
    ensures SetKeyAsWritten(Cache(2, [], map[]), IntKey(5), 1) == One()
    ensures SetKey(Cache(2, [], map[]), IntKey(5), 1) == One()
    ensures Inv(One()) && SetKeyAsWritten(One(), IntKey(7), 2) == Two()
    ensures SetKey(One(), IntKey(7), 2) == Two()
  {
    assert [] + [IntKey(5)] == [IntKey(5)];
    assert [IntKey(5)] + [IntKey(7)] == [IntKey(5), IntKey(7)];
  }

  lemma ShiftTwo()
    ensures Inv(Two()) && ArrayShift(Two()) == Cache(2, [IntKey(0)], map[IntKey(0) := 2])
  {
    var c2 := Two();
    assert c2.keys[1..] == [IntKey(7)];
    assert [IntKey(7)][1..] == [];
    assert NoDup([IntKey(7)]) && c2.vals[IntKey(7)] == 2;
    assert Renumber([], c2.vals, 1) == ([], map[]);
    assert [IntKey(0)] + [] == [IntKey(0)];
  }

  lemma ThirdSet()
    ensures Inv(Two())
    ensures SetKeyAsWritten(Two(), IntKey(9), 3) == Cache(2, [IntKey(0), IntKey(9)], map[IntKey(0) := 2, IntKey(9) := 3])
    ensures SetKey(Two(), IntKey(9), 3) == Cache(2, [IntKey(7), IntKey(9)], map[IntKey(7) := 2, IntKey(9) := 3])
  {
    ShiftTwo();
    var c2 := Two();
    assert c2.keys[1..] + [IntKey(9)] == [IntKey(7), IntKey(9)];
    assert (c2.vals - {IntKey(5)})[IntKey(9) := 3] == map[IntKey(7) := 2, IntKey(9) := 3];
    assert [IntKey(0)] + [IntKey(9)] == [IntKey(0), IntKey(9)];
  }

  /**
    On a cache of capacity 2, `set(5)`, `set(7)`, `set(9)`: as written, the
    eviction of 5 turns key 7 into key 0, so `get(7)` fails although 7 was
    the second most recently set key; the intended eviction keeps 7 with its value.
   */
  lemma ShiftRenumbersIntegerKeys()
    ensures var c := SetKeyAsWritten(SetKeyAsWritten(SetKeyAsWritten(Cache(2, [], map[]), IntKey(5), 1), IntKey(7), 2), IntKey(9), 3);
      && c.keys == [IntKey(0), IntKey(9)]
      && Get(c, IntKey(7)).1 == Err(InvalidArgument)
    ensures var d := SetKey(SetKey(SetKey(Cache(2, [], map[]), IntKey(5), 1), IntKey(7), 2), IntKey(9), 3);
      && d.keys == [IntKey(7), IntKey(9)]
      && Get(d, IntKey(7)).1 == Ok(2)
  {
    FirstTwoSets();
    ThirdSet();
  }
}
