/**
 Requests inside the running system: the tables a request walks are the ones
 reloads and ranking rounds published while it was in flight. What routing
 promises slot by slot becomes a promise about every node that stays in the
 configuration for the request's whole life.
 */
module Requests {
  import opened SlotMask
  import opened Ranking
  import opened Publication
  import opened Routing
  import opened RoutingTheorems
  import T = Topology

  /** A round's walk goes over the table published in state `w`, in its order. */
  ghost predicate Walks(w: World, round: Round) {
    var ranked := w.published.ranked;
    && InRange(w, ranked) && |round.ranked| == |ranked|
    && forall i :: 0 <= i < |ranked| ==>
         round.ranked[i].node.name == w.nodes[ranked[i]].name && round.ranked[i].node.slot == w.nodes[ranked[i]].id
  }

  /** Round `r` loaded the table in state `loads[r]`, somewhere in `from..to`. */
  ghost predicate InFlight(run: seq<World>, script: seq<Round>, loads: seq<nat>, from: nat, to: nat) {
    && IsRun(run) && from <= to < |run| && |loads| == |script|
    && (forall r :: 0 <= r < |loads| ==> from <= loads[r] <= to)
    && (forall r :: 0 <= r < |script| ==> Walks(run[loads[r]], script[r]))
  }

  // ---------------------------------------------------------------------
  // A published order, node by node
  // ---------------------------------------------------------------------

  lemma RankedOnce(t: Table, i: nat, j: nat)
    requires Distinct(t.all) && IsRanking(t.all, t.keys, t.ranked) && i < j < |t.ranked|
    ensures t.ranked[i] != t.ranked[j]
  {
    assert Ahead(t.all, t.keys, t.ranked[i], t.ranked[j]);
  }

  lemma RankedIsListed(t: Table, i: nat) returns (k: nat)
    requires IsRanking(t.all, t.keys, t.ranked) && i < |t.ranked|
    ensures k < |t.all| && t.all[k] == t.ranked[i]
  {
    SameElements(t.ranked, t.all);
    assert t.ranked[i] in t.ranked;
    k :| 0 <= k < |t.all| && t.all[k] == t.ranked[i];
  }

  /** Two places in the order are two nodes: no name and no slot comes twice. */
  lemma RankedApart(w: World, t: Table, i: nat, j: nat)
    requires GoodTable(w, t) && i < j < |t.ranked| && InRange(w, t.ranked)
    ensures w.nodes[t.ranked[i]].id != w.nodes[t.ranked[j]].id
    ensures w.nodes[t.ranked[i]].name != w.nodes[t.ranked[j]].name
  {
    RankedOnce(t, i, j);
    var a := RankedIsListed(t, i);
    var b := RankedIsListed(t, j);
    var nodes := At(w.nodes, t.all);
    assert nodes[a] == w.nodes[t.ranked[i]] && nodes[b] == w.nodes[t.ranked[j]];
    assert T.Slotted(nodes);
  }

  lemma PublishedIsGood(run: seq<World>, k: nat)
    requires IsRun(run) && k < |run|
    ensures GoodTable(run[k], run[k].published)
  {
    NoLostReload(run, k);
    assert GoodTable(run[k], run[k].tables[|run[k].tables| - 1]);
  }

  lemma WalkHasDistinctSlots(w: World, round: Round)
    requires GoodTable(w, w.published) && Walks(w, round)
    ensures DistinctSlots(round.ranked)
  {
    forall i, j | 0 <= i < j < |round.ranked| ensures round.ranked[i].node.slot != round.ranked[j].node.slot {
      RankedApart(w, w.published, i, j);
    }
  }

  /** The publication protocol discharges what routing assumes of its tables:
      whatever reloads and ranking rounds land between its rounds, a request
      only ever walks tables whose slots are distinct. */
  lemma InFlightIsValid(run: seq<World>, script: seq<Round>, loads: seq<nat>, from: nat, to: nat)
    requires InFlight(run, script, loads, from, to)
    ensures ValidScript(script)
  {
    forall r | 0 <= r < |script| ensures DistinctSlots(script[r].ranked) {
      PublishedIsGood(run, loads[r]);
      WalkHasDistinctSlots(run[loads[r]], script[r]);
    }
  }

  // ---------------------------------------------------------------------
  // Nodes that stay
  // ---------------------------------------------------------------------

  /** The name stays configured while the request is in flight. */
  ghost predicate StaysThroughout(run: seq<World>, name: string, slot: nat, from: nat, to: nat) {
    && from <= to < |run| && StaysOn(run[from], name, slot)
    && forall k :: from <= k <= to ==> Stays(run[k], name)
  }

  lemma WalkKeepsSlot(w: World, round: Round, name: string, slot: Slot, i: nat)
    requires GoodTable(w, w.published) && Walks(w, round) && On(w, w.published.all, name, slot)
    requires i < |round.ranked| && round.ranked[i].node.name == name
    ensures round.ranked[i].node.slot == slot
  {
    var k := RankedIsListed(w.published, i);
    assert w.nodes[w.published.all[k]].name == name;
  }

  lemma StaysKeepsSlot(run: seq<World>, script: seq<Round>, loads: seq<nat>, from: nat, to: nat, name: string,
                       slot: Slot)
    requires InFlight(run, script, loads, from, to) && StaysThroughout(run, name, slot, from, to)
    ensures KeepsSlot(script, name, slot)
  {
    forall r, i | 0 <= r < |script| && 0 <= i < |script[r].ranked| && script[r].ranked[i].node.name == name
      ensures script[r].ranked[i].node.slot == slot
    {
      PublishedIsGood(run, loads[r]);
      NameKeepsSlotAndSpend(run, from, loads[r], name, slot);
      WalkKeepsSlot(run[loads[r]], script[r], name, slot, i);
    }
  }

  /** While the name is listed under its slot nobody else is. */
  lemma WalkOwnsSlot(w: World, round: Round, name: string, slot: Slot, i: nat)
    requires GoodTable(w, w.published) && Walks(w, round)
    requires Lists(w, w.published.all, name) && On(w, w.published.all, name, slot)
    requires i < |round.ranked| && round.ranked[i].node.slot == slot
    ensures round.ranked[i].node.name == name
  {
    var all := w.published.all;
    var j :| 0 <= j < |all| && all[j] < |w.nodes| && w.nodes[all[j]].name == name;
    var k := RankedIsListed(w.published, i);
    var nodes := At(w.nodes, all);
    assert nodes[j] == w.nodes[all[j]] && nodes[k] == w.nodes[all[k]];
    assert T.Slotted(nodes);
  }

  lemma StaysOwnsSlot(run: seq<World>, script: seq<Round>, loads: seq<nat>, from: nat, to: nat, name: string,
                      slot: Slot)
    requires InFlight(run, script, loads, from, to) && StaysThroughout(run, name, slot, from, to)
    ensures OwnsSlot(script, name, slot)
  {
    forall r, i | 0 <= r < |script| && 0 <= i < |script[r].ranked| && script[r].ranked[i].node.slot == slot
      ensures script[r].ranked[i].node.name == name
    {
      PublishedIsGood(run, loads[r]);
      NameKeepsSlotAndSpend(run, from, loads[r], name, slot);
      WalkOwnsSlot(run[loads[r]], script[r], name, slot, i);
    }
  }

  /** A node that stays in the configuration is attempted, and billed, at most
      once per request, through every interleaving of reloads and rankings. */
  lemma StayingNodeAskedOnce(run: seq<World>, script: seq<Round>, loads: seq<nat>, from: nat, to: nat,
                             methodId: nat, name: string, slot: Slot)
    requires InFlight(run, script, loads, from, to) && StaysThroughout(run, name, slot, from, to)
    ensures var b := Bookings(script, RouteOf(script, methodId).reports);
            forall i, j :: 0 <= i < |b| && 0 <= j < |b| && b[i].node.name == b[j].node.name == name ==> i == j
  {
    InFlightIsValid(run, script, loads, from, to);
    StaysKeepsSlot(run, script, loads, from, to, name, slot);
    OnceByNameIfSlotIsKept(script, methodId, name, slot);
  }

  /** The name's place in the table a round walked. */
  lemma StayingNodeIsWalked(w: World, round: Round, name: string, slot: Slot) returns (i: nat)
    requires GoodTable(w, w.published) && Walks(w, round)
    requires Lists(w, w.published.all, name) && On(w, w.published.all, name, slot)
    ensures i < |round.ranked| && round.ranked[i].node.name == name && round.ranked[i].node.slot == slot
  {
    var t := w.published;
    var j :| 0 <= j < |t.all| && t.all[j] < |w.nodes| && w.nodes[t.all[j]].name == name;
    SameElements(t.all, t.ranked);
    assert t.all[j] in t.all;
    i :| 0 <= i < |t.ranked| && t.ranked[i] == t.all[j];
  }

  /** A node that stays in the configuration had its own turn, under its own
      name, before the request is answered 502 for want of nodes. */
  lemma StayingNodeHadItsTurn(run: seq<World>, script: seq<Round>, loads: seq<nat>, from: nat, to: nat,
                              methodId: nat, name: string, slot: Slot)
    requires InFlight(run, script, loads, from, to) && StaysThroughout(run, name, slot, from, to)
    requires var t := RouteOf(script, methodId);
             t.outcome == AllNodesFailed && t.reports != [] && t.reports[|t.reports| - 1].ending.Exhausted?
    ensures var t := RouteOf(script, methodId);
            exists r :: 0 <= r < |t.reports| && HadOwnTurn(script[r], t.reports[r], name)
  {
    InFlightIsValid(run, script, loads, from, to);
    StaysOwnsSlot(run, script, loads, from, to, name, slot);
    var last := |RouteOf(script, methodId).reports| - 1;
    PublishedIsGood(run, loads[last]);
    NameKeepsSlotAndSpend(run, from, loads[last], name, slot);
    var i := StayingNodeIsWalked(run[loads[last]], script[last], name, slot);
    HonestByNameIfSlotIsOwn(script, methodId, i);
  }
}
