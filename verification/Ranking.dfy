/**
 The order the router walks the nodes in: tier first, then measured latency,
 ties broken by the order the operator wrote. Nodes are shared references, so a
 ranking is over references and one snapshot of their keys.
 */
module Ranking {
  type Ref = nat

  /** Stands in for the latency of a node without a single answer. */
  const UNMEASURED: nat := 0xFFFF_FFFF

  datatype Key = Key(tier: nat, emaUs: nat)

  predicate KeyLess(a: Key, b: Key) {
    a.tier < b.tier || (a.tier == b.tier && a.emaUs < b.emaUs)
  }

  ghost predicate Distinct(s: seq<Ref>) {
    forall i, j :: 0 <= i < j < |s| ==> s[i] != s[j]
  }

  ghost predicate Covers(keys: map<Ref, Key>, s: seq<Ref>) {
    forall i :: 0 <= i < |s| ==> s[i] in keys
  }

  /** `a` stands before `b` in the configured order. */
  ghost predicate WrittenBefore(all: seq<Ref>, a: Ref, b: Ref) {
    exists i, j :: 0 <= i < j < |all| && all[i] == a && all[j] == b
  }

  /** `a` belongs ahead of `b`: a smaller key, or an equal key written earlier. */
  ghost predicate Ahead(all: seq<Ref>, keys: map<Ref, Key>, a: Ref, b: Ref)
    requires a in keys && b in keys
  {
    KeyLess(keys[a], keys[b]) || (keys[a] == keys[b] && WrittenBefore(all, a, b))
  }

  ghost predicate InOrder(all: seq<Ref>, keys: map<Ref, Key>, s: seq<Ref>)
    requires Covers(keys, s)
  {
    forall i, j :: 0 <= i < j < |s| ==> Ahead(all, keys, s[i], s[j])
  }

  /** A stable sort of `all` by key: the same nodes, in order. */
  ghost predicate IsRanking(all: seq<Ref>, keys: map<Ref, Key>, ranked: seq<Ref>) {
    multiset(ranked) == multiset(all) && Covers(keys, ranked) && InOrder(all, keys, ranked)
  }

  // ---------------------------------------------------------------------
  // Sorting
  // ---------------------------------------------------------------------

  /** Places a node ahead of the first one that does not belong before it. */
  function Insert(r: Ref, sorted: seq<Ref>, keys: map<Ref, Key>): (out: seq<Ref>)
    requires r in keys && Covers(keys, sorted)
    ensures multiset(out) == multiset([r] + sorted)
    ensures Covers(keys, out)
  {
    if sorted == [] then [r]
    else if KeyLess(keys[sorted[0]], keys[r]) then
      assert sorted == [sorted[0]] + sorted[1..];
      [sorted[0]] + Insert(r, sorted[1..], keys)
    else [r] + sorted
  }

  function Rank(all: seq<Ref>, keys: map<Ref, Key>): (ranked: seq<Ref>)
    requires Covers(keys, all)
    ensures multiset(ranked) == multiset(all)
    ensures Covers(keys, ranked)
  {
    if all == [] then []
    else
      assert all == [all[0]] + all[1..];
      Insert(all[0], Rank(all[1..], keys), keys)
  }

  /** Inserting a node written before all the others keeps the order. */
  lemma {:induction false} InsertInOrder(all: seq<Ref>, keys: map<Ref, Key>, r: Ref, sorted: seq<Ref>)
    requires r in keys && Covers(keys, sorted) && InOrder(all, keys, sorted)
    requires forall x :: x in sorted ==> WrittenBefore(all, r, x)
    ensures InOrder(all, keys, Insert(r, sorted, keys))
  {
    var out := Insert(r, sorted, keys);
    if sorted != [] && KeyLess(keys[sorted[0]], keys[r]) {
      var rest := Insert(r, sorted[1..], keys);
      InsertInOrder(all, keys, r, sorted[1..]);
      forall j | 0 <= j < |rest| ensures Ahead(all, keys, sorted[0], rest[j]) {
        assert rest[j] in multiset(rest);
        assert rest[j] in [r] + sorted[1..];
        if rest[j] != r {
          var k :| 0 <= k < |sorted[1..]| && sorted[1..][k] == rest[j];
          assert sorted[k + 1] == rest[j];
        }
      }
    } else if sorted != [] {
      forall j | 0 <= j < |sorted| ensures Ahead(all, keys, r, sorted[j]) {
        assert sorted[j] in sorted;
        if j > 0 {
          assert Ahead(all, keys, sorted[0], sorted[j]);
        }
      }
    }
  }

  lemma InOrderUnderLongerList(all: seq<Ref>, keys: map<Ref, Key>, s: seq<Ref>)
    requires all != [] && Covers(keys, s) && InOrder(all[1..], keys, s)
    ensures InOrder(all, keys, s)
  {}

  /** Ranking loses no node, adds none, and orders them stably. */
  lemma {:induction false} RankIsRanking(all: seq<Ref>, keys: map<Ref, Key>)
    requires Covers(keys, all)
    ensures IsRanking(all, keys, Rank(all, keys))
  {
    if all != [] {
      var rest := Rank(all[1..], keys);
      RankIsRanking(all[1..], keys);
      InOrderUnderLongerList(all, keys, rest);
      forall x | x in rest ensures WrittenBefore(all, all[0], x) {
        assert x in multiset(all[1..]);
        var j :| 0 <= j < |all[1..]| && all[1..][j] == x;
        assert all[0] == all[0] && all[j + 1] == x;
      }
      InsertInOrder(all, keys, all[0], rest);
    }
  }

  // ---------------------------------------------------------------------
  // There is only one
  // ---------------------------------------------------------------------

  /** Two orders of the same nodes begin with the same node. */
  lemma HeadsAgree(all: seq<Ref>, keys: map<Ref, Key>, s: seq<Ref>, t: seq<Ref>)
    requires Distinct(all) && Covers(keys, s) && Covers(keys, t) && s != [] && t != []
    requires s[0] in t && t[0] in s && InOrder(all, keys, s) && InOrder(all, keys, t)
    ensures s[0] == t[0]
  {}

  lemma SameElements(s: seq<Ref>, t: seq<Ref>)
    requires multiset(s) == multiset(t)
    ensures |s| == |t| && forall x :: x in s <==> x in t
  {
    assert |multiset(s)| == |s| && |multiset(t)| == |t|;
    assert forall x :: x in s <==> x in multiset(s);
    assert forall x :: x in t <==> x in multiset(t);
  }

  lemma TailsAgree(s: seq<Ref>, t: seq<Ref>)
    requires s != [] && t != [] && s[0] == t[0] && multiset(s) == multiset(t)
    ensures multiset(s[1..]) == multiset(t[1..])
  {
    assert s == [s[0]] + s[1..] && t == [t[0]] + t[1..];
    assert multiset(s[1..]) == multiset(s) - multiset{s[0]};
    assert multiset(t[1..]) == multiset(t) - multiset{t[0]};
  }

  lemma InOrderTail(all: seq<Ref>, keys: map<Ref, Key>, s: seq<Ref>)
    requires s != [] && Covers(keys, s) && InOrder(all, keys, s)
    ensures Covers(keys, s[1..]) && InOrder(all, keys, s[1..])
  {}

  lemma {:induction false} OrderIsUnique(all: seq<Ref>, keys: map<Ref, Key>, s: seq<Ref>, t: seq<Ref>)
    requires Distinct(all) && Covers(keys, s) && Covers(keys, t)
    requires multiset(s) == multiset(t) && InOrder(all, keys, s) && InOrder(all, keys, t)
    ensures s == t
  {
    SameElements(s, t);
    if s != [] {
      assert s[0] in s && t[0] in t;
      HeadsAgree(all, keys, s, t);
      TailsAgree(s, t);
      InOrderTail(all, keys, s);
      InOrderTail(all, keys, t);
      OrderIsUnique(all, keys, s[1..], t[1..]);
      assert s == [s[0]] + s[1..] && t == [t[0]] + t[1..];
    }
  }

  /** Any stable sort computes this ranking. */
  lemma RankingIsUnique(all: seq<Ref>, keys: map<Ref, Key>, ranked: seq<Ref>)
    requires Distinct(all) && Covers(keys, all) && IsRanking(all, keys, ranked)
    ensures ranked == Rank(all, keys)
  {
    RankIsRanking(all, keys);
    OrderIsUnique(all, keys, ranked, Rank(all, keys));
  }

  /** Tier first, then latency: a smaller key always stands ahead. */
  lemma SmallerKeyStandsAhead(all: seq<Ref>, keys: map<Ref, Key>, ranked: seq<Ref>, i: nat, j: nat)
    requires IsRanking(all, keys, ranked) && i < |ranked| && j < |ranked|
    requires || keys[ranked[i]].tier < keys[ranked[j]].tier
             || (keys[ranked[i]].tier == keys[ranked[j]].tier && keys[ranked[i]].emaUs < keys[ranked[j]].emaUs)
    ensures i < j
  {}

  /** Nodes that cannot be told apart stand in the order they were written in. */
  lemma TiesStandAsWritten(all: seq<Ref>, keys: map<Ref, Key>, ranked: seq<Ref>, a: nat, b: nat, i: nat, j: nat)
    requires Distinct(all) && IsRanking(all, keys, ranked) && a < b < |all| && i < |ranked| && j < |ranked|
    requires ranked[i] == all[a] && ranked[j] == all[b]
    requires keys[all[a]].tier == keys[all[b]].tier && keys[all[a]].emaUs == keys[all[b]].emaUs
    ensures i < j
  {}

  /** A node nothing has measured stands behind every measured node of its tier. */
  lemma UnmeasuredRanksLast(all: seq<Ref>, keys: map<Ref, Key>, ranked: seq<Ref>, i: nat, j: nat)
    requires IsRanking(all, keys, ranked) && i < |ranked| && j < |ranked|
    requires keys[ranked[i]].tier == keys[ranked[j]].tier
    requires keys[ranked[i]].emaUs < UNMEASURED == keys[ranked[j]].emaUs
    ensures i < j
  {}
}
