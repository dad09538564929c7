/** The per-category dictionaries that the statistics code builds inside a
    forEach: on first sight of a key its entry starts at zero, then the
    record's value is added. A JavaScript object lists its keys in the order
    they were first inserted, so the keys are modelled as a sequence in
    first-seen order beside the dictionary. */
module Grouping {
  import opened Common

  /** The dictionary built by `if (!m[k]) m[k] = 0; m[k] += val(x)` for every x of s,
      where k = key(x). (Resetting an entry that holds 0 to 0 changes nothing.) */
  function GroupSum<T>(s: seq<T>, key: T -> string, val: T -> int): map<string, int>
    decreases |s|
  {
    if s == [] then map[]
    else
      var m := GroupSum(s[..|s| - 1], key, val);
      var x := s[|s| - 1];
      m[key(x) := (if key(x) in m then m[key(x)] else 0) + val(x)]
  }

  /** The keys of s in the order they are first seen: the order of Object.keys. */
  function FirstSeen<T>(s: seq<T>, key: T -> string): seq<string>
    decreases |s|
  {
    if s == [] then []
    else
      var ks := FirstSeen(s[..|s| - 1], key);
      var k := key(s[|s| - 1]);
      if k in ks then ks else ks + [k]
  }

  /** Each key of s appears once among the first-seen keys, and nothing else does. */
  lemma FirstSeenMeaning<T>(s: seq<T>, key: T -> string)
    ensures Distinct(FirstSeen(s, key))
    ensures forall i :: 0 <= i < |s| ==> key(s[i]) in FirstSeen(s, key)
    ensures forall k :: k in FirstSeen(s, key) ==> exists i :: 0 <= i < |s| && key(s[i]) == k
  {
    FirstSeenDistinct(s, key);
    FirstSeenCovers(s, key);
    FirstSeenWitnessed(s, key);
  }

  lemma {:induction false} FirstSeenDistinct<T>(s: seq<T>, key: T -> string)
    ensures Distinct(FirstSeen(s, key))
    decreases |s|
  {
    if s != [] {
      FirstSeenDistinct(s[..|s| - 1], key);
    }
  }

  lemma {:induction false} FirstSeenCovers<T>(s: seq<T>, key: T -> string)
    ensures forall i :: 0 <= i < |s| ==> key(s[i]) in FirstSeen(s, key)
    decreases |s|
  {
    if s != [] {
      var front := s[..|s| - 1];
      FirstSeenCovers(front, key);
      forall i | 0 <= i < |s| - 1
        ensures key(s[i]) in FirstSeen(s, key)
      {
        assert s[i] == front[i];
      }
    }
  }

  lemma {:induction false} FirstSeenWitnessed<T>(s: seq<T>, key: T -> string)
    ensures forall k :: k in FirstSeen(s, key) ==> exists i :: 0 <= i < |s| && key(s[i]) == k
    decreases |s|
  {
    if s != [] {
      var front := s[..|s| - 1];
      FirstSeenWitnessed(front, key);
      forall k | k in FirstSeen(s, key)
        ensures exists i :: 0 <= i < |s| && key(s[i]) == k
      {
        if k in FirstSeen(front, key) {
          var i :| 0 <= i < |front| && key(front[i]) == k;
          assert s[i] == front[i];
        } else {
          assert key(s[|s| - 1]) == k;
        }
      }
    }
  }

  lemma FirstSeenSnoc<T>(s: seq<T>, x: T, key: T -> string)
    ensures FirstSeen(s + [x], key)
            == if key(x) in FirstSeen(s, key) then FirstSeen(s, key) else FirstSeen(s, key) + [key(x)]
  {
    assert (s + [x])[..|s|] == s;
  }

  /** The sum of the dictionary's entries over the keys ks (0 for a missing key). */
  function SumOver(m: map<string, int>, ks: seq<string>): int
    decreases |ks|
  {
    if ks == [] then 0
    else SumOver(m, ks[..|ks| - 1]) + (if ks[|ks| - 1] in m then m[ks[|ks| - 1]] else 0)
  }

  /** The selector "records whose key is k". */
  function KeyIs<T>(key: T -> string, k: string): T -> bool
  {
    x => key(x) == k
  }

  /** The dictionary has exactly one entry per key present in the input. */
  lemma {:induction false} GroupSumKeys<T>(s: seq<T>, key: T -> string, val: T -> int)
    ensures GroupSum(s, key, val).Keys == Elements(FirstSeen(s, key))
    decreases |s|
  {
    if s != [] {
      GroupSumKeys(s[..|s| - 1], key, val);
    }
  }

  /** Each entry is the sum of val over the records carrying that key, so an
      entry starts at zero on first sight and a missing key has no records. */
  lemma {:induction false} GroupSumAt<T>(s: seq<T>, key: T -> string, val: T -> int, k: string)
    ensures (if k in GroupSum(s, key, val) then GroupSum(s, key, val)[k] else 0)
            == Sum(Filter(s, KeyIs(key, k)), val)
    decreases |s|
  {
    if s != [] {
      var front, x := s[..|s| - 1], s[|s| - 1];
      assert s == front + [x];
      GroupSumAt(front, key, val, k);
      FilterSnoc(front, x, KeyIs(key, k));
      if key(x) == k {
        SumSnoc(Filter(front, KeyIs(key, k)), x, val);
      }
    }
  }

  /** Changing the entry of a key outside ks leaves the sum over ks unchanged. */
  lemma {:induction false} SumOverUpdateOutside(m: map<string, int>, ks: seq<string>, k: string, v: int)
    requires k !in ks
    ensures SumOver(m[k := v], ks) == SumOver(m, ks)
    decreases |ks|
  {
    if ks != [] {
      SumOverUpdateOutside(m, ks[..|ks| - 1], k, v);
    }
  }

  /** Changing the entry of a key that occurs once in ks changes the sum by the difference. */
  lemma {:induction false} SumOverUpdateInside(m: map<string, int>, ks: seq<string>, k: string, v: int)
    requires Distinct(ks) && k in ks
    ensures SumOver(m[k := v], ks) == SumOver(m, ks) - (if k in m then m[k] else 0) + v
    decreases |ks|
  {
    var front, last := ks[..|ks| - 1], ks[|ks| - 1];
    assert ks == front + [last];
    if last == k {
      assert k !in front;
      SumOverUpdateOutside(m, front, k, v);
    } else {
      assert k in front;
      SumOverUpdateInside(m, front, k, v);
    }
  }

  /** Adding d to the entry of k, appending k to the keys on first sight, adds d
      to the sum over the keys. */
  lemma SumOverAdd(m: map<string, int>, ks: seq<string>, k: string, d: int)
    requires Distinct(ks) && (k in m <==> k in ks)
    ensures SumOver(m[k := (if k in m then m[k] else 0) + d], if k in ks then ks else ks + [k])
            == SumOver(m, ks) + d
  {
    var v := (if k in m then m[k] else 0) + d;
    if k in ks {
      SumOverUpdateInside(m, ks, k, v);
    } else {
      SumOverUpdateOutside(m, ks, k, v);
      assert (ks + [k])[..|ks|] == ks;
    }
  }

  /** Summing the dictionary over all its keys gives the sum over all records:
      every record is counted in exactly one entry. */
  lemma {:induction false} GroupSumTotal<T>(s: seq<T>, key: T -> string, val: T -> int)
    ensures SumOver(GroupSum(s, key, val), FirstSeen(s, key)) == Sum(s, val)
    decreases |s|
  {
    if s != [] {
      var front, x := s[..|s| - 1], s[|s| - 1];
      GroupSumTotal(front, key, val);
      GroupSumKeys(front, key, val);
      FirstSeenDistinct(front, key);
      SumOverAdd(GroupSum(front, key, val), FirstSeen(front, key), key(x), val(x));
    }
  }
}
