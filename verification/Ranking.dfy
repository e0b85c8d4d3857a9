// Who charges first (crates/control/src/controller.rs:915-931): a stable sort by rank, laxity and energy.
module Ranking {
  import opened Basics

  // No laxity is an infinite one.
  datatype Key = Key(rank: int, laxity: Option<real>, sessionKwh: real)

  predicate LessLaxity(a: Option<real>, b: Option<real>) {
    a.Some? && (b.None? || a.value < b.value)
  }

  predicate Less(a: Key, b: Key) {
    || a.rank < b.rank
    || (a.rank == b.rank
        && (LessLaxity(a.laxity, b.laxity) || (a.laxity == b.laxity && a.sessionKwh < b.sessionKwh)))
  }

  // i comes before j. Equal keys keep the order of the numbers.
  predicate Precedes(keys: seq<Key>, i: nat, j: nat)
    requires i < |keys| && j < |keys|
  {
    Less(keys[i], keys[j]) || (keys[i] == keys[j] && i < j)
  }

  predicate Numbers(s: seq<nat>, n: nat) {
    forall k :: 0 <= k < |s| ==> s[k] < n
  }

  predicate Ascending(s: seq<nat>) {
    forall k, l :: 0 <= k < l < |s| ==> s[k] < s[l]
  }

  ghost predicate Ranked(s: seq<nat>, keys: seq<Key>)
    requires Numbers(s, |keys|)
  {
    forall k, l :: 0 <= k < l < |s| ==> Precedes(keys, s[k], s[l])
  }

  // Behind every number whose key is not greater.
  function Insert(s: seq<nat>, i: nat, keys: seq<Key>): (r: seq<nat>)
    requires i < |keys| && Numbers(s, |keys|)
    ensures Numbers(r, |keys|) && |r| == |s| + 1
  {
    if s == [] || !Less(keys[i], keys[s[|s| - 1]]) then s + [i]
    else Insert(s[..|s| - 1], i, keys) + [s[|s| - 1]]
  }

  // The stable sort.
  function Sort(s: seq<nat>, keys: seq<Key>): (r: seq<nat>)
    requires Numbers(s, |keys|)
    ensures Numbers(r, |keys|) && |r| == |s|
  {
    if s == [] then [] else Insert(Sort(s[..|s| - 1], keys), s[|s| - 1], keys)
  }

  lemma Trichotomy(a: Key, b: Key)
    ensures Less(a, b) || a == b || Less(b, a)
    ensures !(Less(a, b) && Less(b, a))
  {
  }

  lemma Transitive(keys: seq<Key>, i: nat, j: nat, k: nat)
    requires i < |keys| && j < |keys| && k < |keys|
    requires Precedes(keys, i, j) && Precedes(keys, j, k)
    ensures Precedes(keys, i, k)
  {
  }

  lemma {:induction false} InsertMembers(s: seq<nat>, i: nat, keys: seq<Key>)
    requires i < |keys| && Numbers(s, |keys|)
    ensures forall j :: j in Insert(s, i, keys) <==> j in s || j == i
    decreases |s|
  {
    if s != [] && Less(keys[i], keys[s[|s| - 1]]) {
      InsertMembers(s[..|s| - 1], i, keys);
      assert s == s[..|s| - 1] + [s[|s| - 1]];
    }
  }

  lemma {:induction false} InsertRanks(s: seq<nat>, i: nat, keys: seq<Key>)
    requires i < |keys| && Numbers(s, |keys|) && Ranked(s, keys)
    requires forall j :: j in s ==> j < i
    ensures Ranked(Insert(s, i, keys), keys)
    decreases |s|
  {
    if s == [] {
    } else {
      var init, last := s[..|s| - 1], s[|s| - 1];
      if Less(keys[i], keys[last]) {
        assert forall j :: j in init ==> j in s;
        InsertRanks(init, i, keys);
        InsertMembers(init, i, keys);
        forall k | 0 <= k < |Insert(init, i, keys)|
          ensures Precedes(keys, Insert(init, i, keys)[k], last)
        {
          assert Insert(init, i, keys)[k] in Insert(init, i, keys);
        }
      } else {
        assert last in s;
        Trichotomy(keys[i], keys[last]);
        forall k | 0 <= k < |s|
          ensures Precedes(keys, s[k], i)
        {
          if k < |s| - 1 {
            Transitive(keys, s[k], last, i);
          }
        }
      }
    }
  }

  // The sort ranks and keeps every number.
  lemma {:induction false} SortRanks(s: seq<nat>, keys: seq<Key>)
    requires Numbers(s, |keys|) && Ascending(s)
    ensures Ranked(Sort(s, keys), keys)
    ensures forall j :: j in Sort(s, keys) <==> j in s
    decreases |s|
  {
    if s != [] {
      var init, last := s[..|s| - 1], s[|s| - 1];
      SortRanks(init, keys);
      InsertRanks(Sort(init, keys), last, keys);
      InsertMembers(Sort(init, keys), last, keys);
      assert s == init + [last];
    }
  }

  lemma RankedIsDistinct(s: seq<nat>, keys: seq<Key>)
    requires Numbers(s, |keys|) && Ranked(s, keys)
    ensures forall k, l :: 0 <= k < l < |s| ==> s[k] != s[l]
  {
  }

  // Whoever is in the first n precedes everybody who is not.
  lemma PrefixPrecedes(s: seq<nat>, keys: seq<Key>, n: nat, i: nat, j: nat)
    requires Numbers(s, |keys|) && Ascending(s) && n <= |s|
    requires i in Sort(s, keys)[..n] && j in s && j !in Sort(s, keys)[..n]
    ensures i < |keys| && j < |keys| && Precedes(keys, i, j)
  {
    SortRanks(s, keys);
    var order := Sort(s, keys);
    var k :| 0 <= k < n && order[..n][k] == i;
    var l :| 0 <= l < |order| && order[l] == j;
    assert order == order[..n] + order[n..];
    assert l >= n;
  }
}
