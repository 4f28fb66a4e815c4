/**
 A name's health across reloads. Every reload builds a new node for a name and
 copies the old node's average and deadline; attempts still in flight on the old
 node report to the old one. Exactly the observations of one node at a time carry
 over: the newest built for the name.
 */
module Carryover {
  import opened Wrappers
  import opened Topology
  import opened Ranking
  import opened Publication
  import Recycling

  datatype Vitals = Vitals(emaUs: nat, untilS: nat)

  /** A reload holds the lock and has built its set. */
  ghost predicate Pending(w: World) {
    w.holder.Some? && w.holder.value < |w.actors| && w.actors[w.holder.value].ReloadReady?
  }

  /** The newest set built: one about to be published, or else the published one. */
  ghost function NewestSet(w: World): seq<Ref> {
    if Pending(w) then w.actors[w.holder.value].refs else w.published.all
  }

  ghost predicate Configured(w: World, name: string) {
    Inv(w) && Stays(w, name)
  }

  lemma NewestIsGood(w: World)
    requires Inv(w)
    ensures GoodSet(w, NewestSet(w))
  {
    if Pending(w) {
      assert GoodActor(w, w.holder.value);
    } else {
      assert GoodTable(w, w.tables[|w.tables| - 1]);
    }
  }

  /** The node whose observations carry over. */
  ghost function Newest(w: World, name: string): (r: Ref)
    requires Configured(w, name)
    ensures r < |w.nodes| && w.nodes[r].name == name && r in NewestSet(w)
  {
    var refs := NewestSet(w);
    var i :| 0 <= i < |refs| && refs[i] < |w.nodes| && w.nodes[refs[i]].name == name;
    refs[i]
  }

  ghost function VitalsOf(w: World, name: string): Vitals
    requires Configured(w, name)
  {
    var node := w.nodes[Newest(w, name)];
    Vitals(node.emaUs, node.untilS)
  }

  lemma OneOfAName(w: World, refs: seq<Ref>, r: Ref, q: Ref)
    requires GoodSet(w, refs) && r in refs && q in refs && w.nodes[r].name == w.nodes[q].name
    ensures r == q
  {
    var nodes := At(w.nodes, refs);
    var i :| 0 <= i < |refs| && refs[i] == r;
    var j :| 0 <= j < |refs| && refs[j] == q;
    assert nodes[i] == w.nodes[r] && nodes[j] == w.nodes[q];
  }

  /** There is one node of the name in the newest set. */
  lemma NewestIsOnly(w: World, name: string, r: Ref)
    requires Configured(w, name) && r in NewestSet(w) && r < |w.nodes| && w.nodes[r].name == name
    ensures r == Newest(w, name)
  {
    NewestIsGood(w);
    OneOfAName(w, NewestSet(w), r, Newest(w, name));
  }

  /** A step that leaves the newest set and its nodes' names alone. */
  lemma SameNewest(w: World, w': World, name: string)
    requires Configured(w, name) && Configured(w', name)
    requires NewestSet(w') == NewestSet(w) && SameIdentity(w.nodes, w'.nodes)
    ensures Newest(w', name) == Newest(w, name)
  {
    NewestIsOnly(w', name, Newest(w, name));
  }

  /** The new node of a surviving name has the old one's vitals. */
  lemma CopyKeepsVitals(w: World, out: seq<Node>, incoming: seq<Node>, usage': seq<nat>, r: Ref, i: nat)
    requires GoodSet(w, w.published.all) && Assigned(At(w.nodes, w.published.all), incoming, w.usage, out, usage')
    requires r in w.published.all && i < |out| && out[i].name == w.nodes[r].name
    ensures out[i].emaUs == w.nodes[r].emaUs && out[i].untilS == w.nodes[r].untilS
  {
    var prev := At(w.nodes, w.published.all);
    var j :| 0 <= j < |w.published.all| && w.published.all[j] == r;
    assert prev[j] == w.nodes[r];
    SurvivorUntouched(prev, incoming, w.usage, out, usage', j, i);
  }

  lemma AssignedNewest(w: World, w': World, a: nat, out: seq<Node>, usage': seq<nat>)
    requires Inv(w) && Assign(w, w', a, out, usage')
    ensures NewestSet(w) == w.published.all && NewestSet(w') == seq(|out|, i => |w.nodes| + i)
    ensures w'.nodes == w.nodes + out
  {
    assert GoodActor(w, a);
  }

  /** Building a new set copies the old node's vitals into the new one. */
  lemma AssignCopies(w: World, w': World, name: string, a: nat, out: seq<Node>, usage': seq<nat>)
    requires Configured(w, name) && Configured(w', name) && Assign(w, w', a, out, usage')
    ensures VitalsOf(w', name) == VitalsOf(w, name)
  {
    AssignedNewest(w, w', a, out, usage');
    NewestIsGood(w);
    var i :| 0 <= i < |out| && |w.nodes| + i == Newest(w', name);
    assert out[i] == w'.nodes[Newest(w', name)];
    CopyKeepsVitals(w, out, w.actors[a].nodes, usage', Newest(w, name), i);
  }

  /** Publishing changes which table is read, not which set is newest. */
  lemma CommitKeepsNewest(w: World, w': World, step: Step)
    requires Inv(w) && Takes(w, w', step) && (step.CommitReloadStep? || step.CommitRerankStep?)
    ensures NewestSet(w') == NewestSet(w)
  {
    assert GoodActor(w, step.a);
  }

  lemma OtherStepsKeepNewest(w: World, w': World, step: Step)
    requires Inv(w) && Takes(w, w', step)
    requires !step.AssignStep? && !step.CommitReloadStep? && !step.CommitRerankStep?
    ensures NewestSet(w') == NewestSet(w) && SameIdentity(w.nodes, w'.nodes)
  {
    if step.LockStep? || step.UnlockStep? || step.RejectStep? || step.ReadForRerankStep? {
      assert GoodActor(w, step.a);
    }
  }

  ghost predicate Counts(w: World, step: Step, name: string)
    requires Configured(w, name)
  {
    step.ObserveStep? && step.r == Newest(w, name)
  }

  /** One step: an observation counts for the name exactly if it is made on the
      newest node built for it, and nothing else moves the name's vitals. */
  lemma StepVitals(w: World, w': World, step: Step, name: string)
    requires Configured(w, name) && Configured(w', name) && Takes(w, w', step)
    ensures VitalsOf(w', name) == if Counts(w, step, name) then Vitals(step.emaUs, step.untilS) else VitalsOf(w, name)
  {
    if step.AssignStep? {
      AssignCopies(w, w', name, step.a, step.out, step.counters);
    } else {
      if step.CommitReloadStep? || step.CommitRerankStep? {
        CommitKeepsNewest(w, w', step);
      } else {
        OtherStepsKeepNewest(w, w', step);
      }
      SameNewest(w, w', name);
    }
  }

  // ---------------------------------------------------------------------
  // Whole runs
  // ---------------------------------------------------------------------

  ghost predicate TakesAt(run: seq<World>, steps: seq<Step>, i: nat)
    requires i + 1 < |run| && i < |steps|
  {
    Takes(run[i], run[i + 1], steps[i])
  }

  ghost predicate RunsBy(run: seq<World>, steps: seq<Step>) {
    |run| == |steps| + 1 && forall i :: 0 <= i < |steps| ==> TakesAt(run, steps, i)
  }

  ghost predicate ConfiguredAt(run: seq<World>, name: string, j: nat)
    requires j < |run|
  {
    Configured(run[j], name)
  }

  ghost predicate AlwaysConfigured(run: seq<World>, name: string) {
    forall j :: 0 <= j < |run| ==> ConfiguredAt(run, name, j)
  }

  /** The name's vitals in every state. */
  ghost function VitalsAlong(run: seq<World>, name: string): (v: seq<Vitals>)
    requires AlwaysConfigured(run, name)
    ensures |v| == |run|
  {
    seq(|run|, j requires 0 <= j < |run| => assert ConfiguredAt(run, name, j); VitalsOf(run[j], name))
  }

  /** What each step observed of the newest node of the moment, if it did. */
  ghost function SeenAlong(run: seq<World>, steps: seq<Step>, name: string): (seen: seq<Option<Vitals>>)
    requires AlwaysConfigured(run, name) && |steps| <= |run|
    ensures |seen| == |steps|
  {
    seq(|steps|, j requires 0 <= j < |steps| =>
      assert ConfiguredAt(run, name, j);
      if Counts(run[j], steps[j], name) then Some(Vitals(steps[j].emaUs, steps[j].untilS)) else None)
  }

  /** Each value is the one just seen, or else the one before. */
  ghost predicate Remembers(v: seq<Vitals>, seen: seq<Option<Vitals>>, j: nat)
    requires |v| == |seen| + 1 && j < |seen|
  {
    v[j + 1] == if seen[j].Some? then seen[j].value else v[j]
  }

  /** `p` saw the value last. */
  ghost predicate SeenLast(seen: seq<Option<Vitals>>, p: nat, k: nat, value: Vitals) {
    p < k <= |seen| && seen[p] == Some(value) && forall q :: p < q < k ==> seen[q] == None
  }

  /** The value at `k` is the last one seen before it, or the first. */
  ghost predicate IsLastSeen(v: seq<Vitals>, seen: seq<Option<Vitals>>, k: nat)
    requires |v| == |seen| + 1 && k < |v|
  {
    || (exists p :: SeenLast(seen, p, k, v[k]))
    || (v[k] == v[0] && forall q :: 0 <= q < k ==> seen[q] == None)
  }

  lemma {:induction false} LastSeenIsKept(v: seq<Vitals>, seen: seq<Option<Vitals>>, k: nat)
    requires |v| == |seen| + 1 && k < |v| && forall j :: 0 <= j < |seen| ==> Remembers(v, seen, j)
    ensures IsLastSeen(v, seen, k)
  {
    if k > 0 {
      var j := k - 1;
      var was := v[j];
      LastSeenIsKept(v, seen, j);
      assert Remembers(v, seen, j);
      if seen[j].Some? {
        assert SeenLast(seen, j, k, v[k]);
      } else if p: nat :| SeenLast(seen, p, j, was) {
        assert SeenLast(seen, p, k, v[k]);
      }
    }
  }

  lemma RunRemembers(run: seq<World>, steps: seq<Step>, name: string, j: nat)
    requires RunsBy(run, steps) && AlwaysConfigured(run, name) && j < |steps|
    ensures Remembers(VitalsAlong(run, name), SeenAlong(run, steps, name), j)
  {
    assert TakesAt(run, steps, j) && ConfiguredAt(run, name, j) && ConfiguredAt(run, name, j + 1);
    StepVitals(run[j], run[j + 1], steps[j], name);
  }

  /**
   Through every interleaving of reloads, rankings and attempts, the health a name
   carries is what was last observed on the newest node of the moment. Whatever an
   attempt reports to any other node of that name, the published one included once
   a reload has copied it, is lost.
   */
  lemma HealthCarriesOver(run: seq<World>, steps: seq<Step>, name: string, k: nat)
    requires RunsBy(run, steps) && AlwaysConfigured(run, name) && k < |run|
    ensures IsLastSeen(VitalsAlong(run, name), SeenAlong(run, steps, name), k)
  {
    forall j | 0 <= j < |steps| ensures Remembers(VitalsAlong(run, name), SeenAlong(run, steps, name), j) {
      RunRemembers(run, steps, name, j);
    }
    LastSeenIsKept(VitalsAlong(run, name), SeenAlong(run, steps, name), k);
  }

  /** Between reloads the newest node is the published one: the name's vitals are
      what the router and the next ranking read. */
  lemma PublishedIsNewest(w: World, name: string, r: Ref)
    requires Configured(w, name) && !Pending(w)
    requires r in w.published.all && r < |w.nodes| && w.nodes[r].name == name
    ensures r == Newest(w, name) && VitalsOf(w, name) == Vitals(w.nodes[r].emaUs, w.nodes[r].untilS)
  {
    NewestIsOnly(w, name, r);
  }

  // ---------------------------------------------------------------------
  // A penalty that is lost
  // ---------------------------------------------------------------------

  lemma BuiltAgain(prev: seq<Node>)
    requires prev == [Recycling.Fresh("flaky", 0, 0), Recycling.Fresh("other", 1, 1)]
    ensures Assigned(prev, prev, Recycling.ZEROS, prev, Recycling.ZEROS)
  {
    assert Listed(prev, prev[0].name) && Listed(prev, prev[1].name);
  }

  /** A reload of the same configuration, up to where it has copied the health. */
  lemma CopyTaken() returns (run: seq<World>)
    ensures IsRun(run) && |run| == 4
    ensures var w := run[3];
            && w.nodes == [Recycling.Fresh("flaky", 0, 0), Recycling.Fresh("other", 1, 1),
                           Recycling.Fresh("flaky", 0, 0), Recycling.Fresh("other", 1, 1)]
            && w.published.all == [0, 1] && w.actors == [ReloadReady([2, 3])]
  {
    run := Recycling.StartTwo("flaky", "other");
    var w1 := run[1];
    var prev := At(w1.nodes, w1.published.all);
    assert prev == w1.nodes;
    BuiltAgain(prev);
    var w2 := Become(w1, 0, ReloadLocked(prev)).(holder := Some(0));
    Recycling.RunSnoc(run, w2, LockStep(0, ReloadLocked(prev)));
    assert seq(|prev|, i => |w2.nodes| + i) == [2, 3];
    var w3 := Become(w2, 0, ReloadReady([2, 3])).(nodes := w1.nodes + prev);
    Recycling.RunSnoc(run + [w2], w3, AssignStep(0, prev, Recycling.ZEROS));
    run := run + [w2] + [w3];
  }

  /** In this state the name is listed by a node with this deadline. */
  ghost predicate PublishedWith(w: World, name: string, untilS: nat) {
    exists r :: r in w.published.all && r < |w.nodes| && w.nodes[r].name == name && w.nodes[r].untilS == untilS
  }

  lemma FailThenPublish(run: seq<World>, untilS: nat) returns (w4: World, w5: World)
    requires IsRun(run) && |run| == 4
    requires var w := run[3];
             && w.nodes == [Recycling.Fresh("flaky", 0, 0), Recycling.Fresh("other", 1, 1),
                            Recycling.Fresh("flaky", 0, 0), Recycling.Fresh("other", 1, 1)]
             && w.published.all == [0, 1] && w.actors == [ReloadReady([2, 3])]
    ensures IsRun(run + [w4] + [w5]) && PublishedWith(w4, "flaky", untilS) && PublishedWith(w5, "flaky", 0)
  {
    var w3 := run[3];
    w4 := w3.(nodes := w3.nodes[0 := w3.nodes[0].(emaUs := UNMEASURED, untilS := untilS)]);
    Recycling.RunSnoc(run, w4, ObserveStep(0, UNMEASURED, untilS));
    Recycling.TwoTiers(w4.nodes, 2, 3);
    var table := Table([2, 3], [2, 3], KeysOf(w4.nodes));
    w5 := Become(w4, 0, Finished).(published := table, tables := w4.tables + [table],
                                   commits := w4.commits + [table.all]);
    Recycling.RunSnoc(run + [w4], w5, CommitReloadStep(0, table));
    assert w4.published.all[0] == 0 && w4.nodes[0].untilS == untilS && w4.nodes[0].name == "flaky";
    assert w5.published.all[0] == 2 && w5.nodes[2].untilS == 0 && w5.nodes[2].name == "flaky";
  }

  /**
   A reload of the same configuration copies the node's health; then an attempt on
   the old node fails, and its penalty goes to the old node; then the reload
   publishes the new one, which takes traffic at once.
   */
  lemma PenaltyIsLost(untilS: nat) returns (run: seq<World>)
    ensures IsRun(run) && |run| == 6
    ensures PublishedWith(run[4], "flaky", untilS) && PublishedWith(run[5], "flaky", 0)
  {
    run := CopyTaken();
    var w4, w5 := FailThenPublish(run, untilS);
    run := run + [w4] + [w5];
  }
}
