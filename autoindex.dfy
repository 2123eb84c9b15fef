/**
 * `autoindex`, the dictionary `to_json` uses to number source files and
 * names: looking up a key that is not there yet stores the next value of a
 * counter that starts at 0. Python dictionaries keep their keys in insertion
 * order, so the keys in order of their numbers are the keys in the order they
 * were first looked up.
 */
module AutoIndexing {

  /** The dictionary as a value: the number of each key, and the keys in insertion order. */
  datatype Interner = Interner(ids: map<string, nat>, keys: seq<string>)
  {
    /** Key `keys[i]` has number `i`, and every key with a number is listed. */
    predicate Valid()
    {
      (forall i :: 0 <= i < |keys| ==> keys[i] in ids && ids[keys[i]] == i)
      && (forall s :: s in ids ==> ids[s] < |keys| && keys[ids[s]] == s)
    }
  }

  /** A fresh `autoindex()`. */
  const Empty: Interner := Interner(map[], [])

  /** Whether no key is listed twice. */
  predicate Distinct(xs: seq<string>)
  {
    forall i, j :: 0 <= i < j < |xs| ==> xs[i] != xs[j]
  }

  lemma ValidKeysDistinct(t: Interner)
    requires t.Valid()
    ensures Distinct(t.keys)
    ensures forall s :: s in t.ids <==> s in t.keys
  {
    forall s | s in t.keys ensures s in t.ids {
      var i :| 0 <= i < |t.keys| && t.keys[i] == s;
    }
  }

  /**
   * `d[key]` on an `autoindex`: the number of `key`, a key seen for the first
   * time getting the next number.
   */
  function Intern(t: Interner, s: string): (r: (Interner, nat))
    requires t.Valid()
    ensures r.0.Valid()
    ensures r.1 < |r.0.keys| && r.0.keys[r.1] == s
    ensures r.0.keys == if s in t.keys then t.keys else t.keys + [s]
  {
    ValidKeysDistinct(t);
    if s in t.ids then (t, t.ids[s])
    else (Interner(t.ids[s := |t.keys|], t.keys + [s]), |t.keys|)
  }

  /** A lookup never renumbers a key that already has a number. */
  lemma InternKeeps(t: Interner, s: string)
    requires t.Valid()
    ensures forall x :: x in t.ids ==> x in Intern(t, s).0.ids && Intern(t, s).0.ids[x] == t.ids[x]
  {
    ValidKeysDistinct(t);
  }

  /** The keys `xs` leave after `acc` when each is kept at its first occurrence only. */
  function FirstSeen(acc: seq<string>, xs: seq<string>): seq<string>
    decreases |xs|
  {
    if xs == [] then acc
    else FirstSeen(if xs[0] in acc then acc else acc + [xs[0]], xs[1..])
  }

  /** Looking up every key of `xs` in turn. */
  function InternAll(t: Interner, xs: seq<string>): (r: Interner)
    requires t.Valid()
    ensures r.Valid()
    decreases |xs|
  {
    if xs == [] then t else InternAll(Intern(t, xs[0]).0, xs[1..])
  }

  /** After a series of lookups the keys are listed in the order they were first looked up. */
  lemma {:induction false} InternAllFirstSeen(t: Interner, xs: seq<string>)
    requires t.Valid()
    ensures InternAll(t, xs).Valid()
    ensures InternAll(t, xs).keys == FirstSeen(t.keys, xs)
    decreases |xs|
  {
    if xs != [] {
      InternAllFirstSeen(Intern(t, xs[0]).0, xs[1..]);
    }
  }

  /** The position of the first occurrence of `s` in `xs`. */
  function Occurrence(xs: seq<string>, s: string): (i: nat)
    requires s in xs
    ensures i < |xs| && xs[i] == s
    ensures forall k :: 0 <= k < i ==> xs[k] != s
  {
    if xs[0] == s then 0 else 1 + Occurrence(xs[1..], s)
  }

  /**
   * First-seen order: starting from nothing, the keys are exactly those of
   * `xs`, each once, and a key listed before another first occurs earlier in `xs`.
   */
  lemma FirstSeenOrder(xs: seq<string>)
    ensures Distinct(FirstSeen([], xs))
    ensures forall s :: s in FirstSeen([], xs) <==> s in xs
    ensures forall i, j :: 0 <= i < j < |FirstSeen([], xs)| ==>
      Occurrence(xs, FirstSeen([], xs)[i]) < Occurrence(xs, FirstSeen([], xs)[j])
  {
    FirstSeenFrom([], xs);
  }

  /** What was listed stays listed, in front. */
  lemma {:induction false} FirstSeenPrefix(acc: seq<string>, rest: seq<string>)
    ensures |acc| <= |FirstSeen(acc, rest)| && FirstSeen(acc, rest)[..|acc|] == acc
    decreases |rest|
  {
    if rest != [] {
      var acc' := if rest[0] in acc then acc else acc + [rest[0]];
      FirstSeenPrefix(acc', rest[1..]);
      assert FirstSeen(acc, rest)[..|acc'|][..|acc|] == FirstSeen(acc, rest)[..|acc|];
    }
  }

  /** The keys listed are those already listed and those still to come. */
  lemma {:induction false} FirstSeenMembers(acc: seq<string>, rest: seq<string>)
    ensures forall s :: s in FirstSeen(acc, rest) <==> s in acc || s in rest
    decreases |rest|
  {
    if rest != [] {
      var acc' := if rest[0] in acc then acc else acc + [rest[0]];
      FirstSeenMembers(acc', rest[1..]);
      assert rest == [rest[0]] + rest[1..];
    }
  }

  /** No key is listed twice. */
  lemma {:induction false} FirstSeenDistinct(acc: seq<string>, rest: seq<string>)
    requires Distinct(acc)
    ensures Distinct(FirstSeen(acc, rest))
    decreases |rest|
  {
    if rest != [] {
      var acc' := if rest[0] in acc then acc else acc + [rest[0]];
      FirstSeenDistinct(acc', rest[1..]);
    }
  }

  /** A key listed after `acc` was not in `acc` and comes from `rest`. */
  lemma {:induction false} FirstSeenNew(acc: seq<string>, rest: seq<string>)
    ensures forall i :: |acc| <= i < |FirstSeen(acc, rest)| ==>
      FirstSeen(acc, rest)[i] !in acc && FirstSeen(acc, rest)[i] in rest
    decreases |rest|
  {
    if rest != [] {
      var x := rest[0];
      var acc' := if x in acc then acc else acc + [x];
      FirstSeenNew(acc', rest[1..]);
      FirstSeenPrefix(acc', rest[1..]);
      var r := FirstSeen(acc, rest);
      forall i | |acc| <= i < |r| ensures r[i] !in acc && r[i] in rest {
        if i < |acc'| {
          assert r[..|acc'|][i] == acc'[i] == x;
        } else {
          assert r[i] in rest[1..];
        }
      }
    }
  }

  /** A key listed before another after `acc` first occurs earlier in `rest`. */
  lemma {:induction false} FirstSeenOccurrence(acc: seq<string>, rest: seq<string>)
    requires Distinct(acc)
    ensures forall i :: |acc| <= i < |FirstSeen(acc, rest)| ==> FirstSeen(acc, rest)[i] in rest
    ensures forall i, j :: |acc| <= i < j < |FirstSeen(acc, rest)| ==>
      Occurrence(rest, FirstSeen(acc, rest)[i]) < Occurrence(rest, FirstSeen(acc, rest)[j])
    decreases |rest|
  {
    FirstSeenNew(acc, rest);
    if rest != [] {
      var x := rest[0];
      var acc' := if x in acc then acc else acc + [x];
      var r := FirstSeen(acc, rest);
      assert r == FirstSeen(acc', rest[1..]);
      FirstSeenOccurrence(acc', rest[1..]);
      FirstSeenNew(acc', rest[1..]);
      FirstSeenPrefix(acc', rest[1..]);
      forall i, j | |acc| <= i < j < |r|
        ensures Occurrence(rest, r[i]) < Occurrence(rest, r[j])
      {
        assert r[j] !in acc' && r[j] in rest[1..];
        assert r[j] != x;
        if i < |acc'| {
          assert r[..|acc'|][i] == acc'[i] == x;
        } else {
          assert r[i] !in acc' && r[i] in rest[1..];
          assert r[i] != x;
          assert Occurrence(rest, r[i]) == 1 + Occurrence(rest[1..], r[i]);
          assert Occurrence(rest, r[j]) == 1 + Occurrence(rest[1..], r[j]);
        }
      }
    }
  }

  /** The general case: `acc` holds distinct keys already listed and `rest` is still to come. */
  lemma FirstSeenFrom(acc: seq<string>, rest: seq<string>)
    requires Distinct(acc)
    ensures Distinct(FirstSeen(acc, rest))
    ensures forall s :: s in FirstSeen(acc, rest) <==> s in acc || s in rest
    ensures |acc| <= |FirstSeen(acc, rest)| && FirstSeen(acc, rest)[..|acc|] == acc
    ensures forall i :: |acc| <= i < |FirstSeen(acc, rest)| ==>
      FirstSeen(acc, rest)[i] !in acc && FirstSeen(acc, rest)[i] in rest
    ensures forall i, j :: |acc| <= i < j < |FirstSeen(acc, rest)| ==>
      Occurrence(rest, FirstSeen(acc, rest)[i]) < Occurrence(rest, FirstSeen(acc, rest)[j])
  {
    FirstSeenDistinct(acc, rest);
    FirstSeenMembers(acc, rest);
    FirstSeenPrefix(acc, rest);
    FirstSeenNew(acc, rest);
    FirstSeenOccurrence(acc, rest);
  }

  /**
   * The `autoindex` object itself: its dictionary, with the keys in insertion
   * order, and the next value of its counter.
   */
  class AutoIndex {
    var ids: map<string, nat>
    var keys: seq<string>
    var next: nat

    ghost predicate Valid()
      reads this
    {
      Interner(ids, keys).Valid() && next == |keys|
    }

    /** The dictionary as a value. */
    function Model(): Interner
      reads this
    {
      Interner(ids, keys)
    }

    /** `autoindex()`: an empty dictionary over a counter at 0. */
    constructor ()
      ensures Valid() && Model() == Empty
    {
      ids, keys, next := map[], [], 0;
    }

    /** `self[key]`: the number of `key`, storing the counter's next value for a new key. */
    method Get(key: string) returns (id: nat)
      requires Valid()
      modifies this
      ensures Valid()
      ensures (Model(), id) == Intern(old(Model()), key)
    {
      if key in ids {
        id := ids[key];
      } else {
        id := next;
        next := next + 1;
        ids := ids[key := id];
        keys := keys + [key];
      }
    }

    /**
     * `[k for k, _ in sorted(self.items(), key=lambda ki: ki[1])]`: every key
     * once, in increasing order of number, which is insertion order.
     */
    method SortedKeys() returns (ks: seq<string>)
      requires Valid()
      ensures ks == Model().keys
      ensures |ks| == |ids|
      ensures forall s :: s in ids <==> s in ks
      ensures forall i, j :: 0 <= i < j < |ks| ==> ids[ks[i]] < ids[ks[j]]
    {
      ks := keys;
      ValidKeysDistinct(Model());
      assert ids.Keys == set s | s in keys;
      DistinctCard(keys);
    }
  }

  /** A list of distinct keys has as many elements as the set of them. */
  lemma {:induction false} DistinctCard(xs: seq<string>)
    requires Distinct(xs)
    ensures |set s | s in xs| == |xs|
    decreases |xs|
  {
    if xs != [] {
      DistinctCard(xs[1..]);
      assert (set s | s in xs) == (set s | s in xs[1..]) + {xs[0]};
      assert xs[0] !in xs[1..];
    }
  }
}
