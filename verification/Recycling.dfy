/**
 The two ways a promise by name breaks, in the running system: reloads that land
 between two rounds of one request, step by step through the publication
 protocol, with the slots the allocator has to hand out.
 */
module Recycling {
  import opened Wrappers
  import opened SlotMask
  import opened CostTable
  import opened Ranking
  import opened Publication
  import opened RoutingTheorems
  import opened ByName
  import opened Requests
  import R = Routing
  import T = Topology

  // ---------------------------------------------------------------------
  // A reload, from lock to unlock
  // ---------------------------------------------------------------------

  ghost predicate AtRest(w: World) {
    w.holder == None && w.actors == [Idle] && InRange(w, w.published.all)
  }

  lemma RunSnoc(run: seq<World>, w: World, step: Publication.Step)
    requires IsRun(run) && Takes(run[|run| - 1], w, step)
    ensures IsRun(run + [w])
  {
    assert Next(run[|run| - 1], w);
    forall i | 0 <= i < |run + [w]| - 1 ensures Publication.StepAt(run + [w], i) {
      if i < |run| - 1 {
        assert Publication.StepAt(run, i);
      }
    }
  }

  ghost function NewRefs(w: World, out: seq<T.Node>): seq<Ref> {
    seq(|out|, i => |w.nodes| + i)
  }

  /** Everything a reload does to a world at rest. */
  ghost function AfterReload(w: World, out: seq<T.Node>, usage': seq<nat>, ranked: seq<Ref>): World {
    var table := Publication.Table(NewRefs(w, out), ranked, KeysOf(w.nodes + out));
    w.(nodes := w.nodes + out, usage := usage', published := table,
       tables := w.tables + [table], commits := w.commits + [table.all])
  }

  lemma Reload(run: seq<World>, incoming: seq<T.Node>, out: seq<T.Node>, usage': seq<nat>, ranked: seq<Ref>)
    returns (longer: seq<World>)
    requires IsRun(run) && AtRest(run[|run| - 1]) && T.Acceptable(incoming)
    requires var w := run[|run| - 1];
             && T.Assigned(At(w.nodes, w.published.all), incoming, w.usage, out, usage')
             && IsRanking(NewRefs(w, out), KeysOf(w.nodes + out), ranked)
    ensures IsRun(longer) && run <= longer && |longer| == |run| + 4
    ensures longer[|longer| - 1] == AfterReload(run[|run| - 1], out, usage', ranked)
  {
    var w := run[|run| - 1];
    var w1 := Become(w, 0, ReloadLocked(incoming)).(holder := Some(0));
    RunSnoc(run, w1, LockStep(0, ReloadLocked(incoming)));
    var w2 := Become(w1, 0, ReloadReady(NewRefs(w, out))).(nodes := w.nodes + out, usage := usage');
    RunSnoc(run + [w1], w2, AssignStep(0, out, usage'));
    var table := Publication.Table(NewRefs(w, out), ranked, KeysOf(w.nodes + out));
    var w3 := Become(w2, 0, Finished).(published := table, tables := w.tables + [table],
                                       commits := w.commits + [table.all]);
    RunSnoc(run + [w1] + [w2], w3, CommitReloadStep(0, table));
    var w4 := Become(w3, 0, Idle).(holder := None);
    RunSnoc(run + [w1] + [w2] + [w3], w4, UnlockStep(0));
    longer := run + [w1] + [w2] + [w3] + [w4];
    assert w4.actors == w.actors;
  }

  // ---------------------------------------------------------------------
  // Small node sets
  // ---------------------------------------------------------------------

  /** A freshly built node: unmeasured, no penalty. */
  ghost function Fresh(name: string, id: nat, tier: nat): T.Node {
    T.Node(name, id, tier, 1, UNMEASURED, 0)
  }

  const ZEROS: seq<nat> := seq(MAX_NODES, i => 0)

  /** Two nodes on tiers of their own rank as written. */
  lemma TwoTiers(nodes: seq<T.Node>, a: Ref, b: Ref)
    requires a < |nodes| && b < |nodes| && a != b && nodes[a].tier < nodes[b].tier
    ensures IsRanking([a, b], KeysOf(nodes), [a, b])
  {}

  /** A client just started over two nodes on slots 0 and 1. */
  lemma StartTwo(first: string, second: string) returns (run: seq<World>)
    requires first != second
    ensures IsRun(run) && |run| == 2 && AtRest(run[1])
    ensures run[0].nodes == run[1].nodes == [Fresh(first, 0, 0), Fresh(second, 1, 1)] && run[1].usage == ZEROS
    ensures run[0].published == run[1].published == Publication.Table([0, 1], [0, 1], KeysOf(run[0].nodes))
  {
    var nodes := [Fresh(first, 0, 0), Fresh(second, 1, 1)];
    TwoTiers(nodes, 0, 1);
    var table := Publication.Table([0, 1], [0, 1], KeysOf(nodes));
    var w := World(nodes, ZEROS, ZEROS, ZEROS, table, None, [], [[0, 1]], [table], []);
    assert seq(|nodes|, i => i) == [0, 1];
    assert Start(w);
    assert IsRun([w]);
    var w1 := w.(actors := [Idle]);
    RunSnoc([w], w1, SpawnStep);
    run := [w] + [w1];
  }

  // ---------------------------------------------------------------------
  // A slot changes hands
  // ---------------------------------------------------------------------

  lemma ReplacedByOne(prev: seq<T.Node>, name: string)
    requires !T.Listed(prev, name)
    ensures T.Assigned(prev, [Fresh(name, 0, 0)], ZEROS, [Fresh(name, 0, 0)], ZEROS)
  {}

  /** One reload replaces both nodes by a newcomer, which gets the lowest slot. */
  lemma ReplaceBoth(first: string, second: string, newcomer: string) returns (run: seq<World>)
    requires first != second && newcomer != first && newcomer != second
    ensures IsRun(run) && |run| == 6 && AtRest(run[5])
    ensures run[0].nodes == [Fresh(first, 0, 0), Fresh(second, 1, 1)] && run[0].published.ranked == [0, 1]
    ensures run[5].nodes == run[0].nodes + [Fresh(newcomer, 0, 0)] && run[5].usage == ZEROS
    ensures run[5].published.all == run[5].published.ranked == [2]
  {
    run := StartTwo(first, second);
    var w, out := run[1], [Fresh(newcomer, 0, 0)];
    var prev := At(w.nodes, w.published.all);
    assert prev[0] == w.nodes[0] && prev[1] == w.nodes[1];
    ReplacedByOne(prev, newcomer);
    assert NewRefs(w, out) == [2];
    assert IsRanking([2], KeysOf(w.nodes + out), [2]);
    run := Reload(run, out, out, ZEROS, [2]);
  }

  ghost function RecyclingScript(costs: CostTable.Table): seq<R.Round> {
    [R.Round([R.Visit(R.Node("gone", 0, 0, costs), false, R.Permit(R.Token(0, R.Retryable))),
            R.Visit(R.Node("busy", 1, 0, costs), false, R.Permit(R.NoToken(1)))], R.Closed),
     R.Round([R.Visit(R.Node("newcomer", 0, 0, costs), false, R.Permit(R.Token(0, R.Final)))], R.Closed)]
  }

  lemma BeforeTheReload(costs: CostTable.Table)
    requires Cost(costs, 0) != UNPRICED
    ensures R.StepOf(RecyclingScript(costs)[0], 0, {}, false)
         == R.Step(R.Report([R.Attempted(Cost(costs, 0), R.Retryable), R.RateLimited(1)], R.Slept(1)), {0}, None)
  {
    var ranked := RecyclingScript(costs)[0].ranked;
    var verdicts := [R.Attempted(Cost(costs, 0), R.Retryable), R.RateLimited(1)];
    var none: set<Slot> := {};
    assert none + {0} == {0};
    assert R.Walk(ranked[1..], 0, {0}, false) == R.Walked([R.RateLimited(1)], {0});
    assert R.Walk(ranked, 0, {}, false) == R.Walked(verdicts, {0});
    assert verdicts[1..] == [R.RateLimited(1)];
    assert R.ShortestWait(verdicts) == Some(1);
  }

  lemma AfterTheReload(costs: CostTable.Table)
    ensures R.StepOf(RecyclingScript(costs)[1], 0, {0}, false)
         == R.Step(R.Report([R.AlreadyTried], R.Exhausted), {0}, Some(R.AllNodesFailed))
  {
    assert R.Walk(RecyclingScript(costs)[1].ranked, 0, {0}, false) == R.Walked([R.AlreadyTried], {0});
  }

  /** A reload between two rounds hands the slot of a failed node to a newcomer.
      The newcomer would have answered; it is never asked, and the client gets
      a 502. */
  lemma RecycledSlotIsNeverAsked(costs: CostTable.Table)
    requires Cost(costs, 0) != UNPRICED
    ensures R.ValidScript(RecyclingScript(costs))
    ensures R.RouteOf(RecyclingScript(costs), 0).outcome == R.AllNodesFailed
    ensures R.RouteOf(RecyclingScript(costs)[1..], 0).outcome == R.Forwarded
  {
    var script := RecyclingScript(costs);
    BeforeTheReload(costs);
    AfterTheReload(costs);
    assert script[1..][0] == script[1];
    assert R.Run(script[1..], 0, {0}, false).outcome == R.AllNodesFailed;
    assert R.Run(script, 0, {}, false).outcome == R.Run(script[1..], 0, {0}, false).outcome;
    assert R.StepOf(script[1], 0, {}, false).returned == Some(R.Forwarded) by {
      assert R.Walk(script[1].ranked, 0, {}, false).verdicts == [R.Attempted(Cost(costs, 0), R.Final)];
    }
  }

  /** A request of two rounds that reads the tables of the first and last states. */
  lemma ReadsFirstAndLast(run: seq<World>, script: seq<R.Round>)
    requires IsRun(run) && |script| == 2
    requires Requests.Walks(run[0], script[0]) && Requests.Walks(run[|run| - 1], script[1])
    ensures InFlight(run, script, [0, |run| - 1], 0, |run| - 1)
  {}

  lemma RecyclingWalks(w: World, w': World, costs: CostTable.Table)
    requires w.nodes == [Fresh("gone", 0, 0), Fresh("busy", 1, 1)] && w.published.ranked == [0, 1]
    requires w'.nodes == w.nodes + [Fresh("newcomer", 0, 0)] && w'.published.ranked == [2]
    ensures Requests.Walks(w, RecyclingScript(costs)[0]) && Requests.Walks(w', RecyclingScript(costs)[1])
  {}

  lemma RecycledIsDishonest(costs: CostTable.Table)
    requires Cost(costs, 0) != UNPRICED
    ensures !Honest(RecyclingScript(costs), 0)
  {
    var script, st := RecyclingScript(costs), [FRESH, Standing({0}, false)];
    BeforeTheReload(costs);
    AfterTheReload(costs);
    assert GoesTo(RuleOf(0), script[0], st[0], st[1]);
    PlayAlong(RuleOf(0), script, st);
    RunIsPlay(script, 0, FRESH);
    var reports := R.RouteOf(script, 0).reports;
    forall p | 0 <= p < |reports| ensures !HadOwnTurn(script[p], reports[p], "newcomer") {
      assert p == 0 || p == 1;
    }
    assert script[1].ranked[0].node.name == "newcomer";
    assert !OwnTurn(script, reports, "newcomer");
  }

  /**
   A 502 for a node that was never asked, in the running system. The request reads
   the table of the first state, the node on slot 0 fails and the other is
   rate-limited; a reload replaces both; the request reads the table of the last
   state, finds the newcomer's slot tried, and gives up. The newcomer would have
   answered.
   */
  lemma RecyclingHappens(costs: CostTable.Table) returns (run: seq<World>)
    requires Cost(costs, 0) != UNPRICED
    ensures InFlight(run, RecyclingScript(costs), [0, 5], 0, 5)
    ensures R.RouteOf(RecyclingScript(costs), 0).outcome == R.AllNodesFailed
    ensures !Honest(RecyclingScript(costs), 0)
    ensures R.RouteOf(RecyclingScript(costs)[1..], 0).outcome == R.Forwarded
  {
    run := ReplaceBoth("gone", "busy", "newcomer");
    RecyclingWalks(run[0], run[5], costs);
    ReadsFirstAndLast(run, RecyclingScript(costs));
    RecycledSlotIsNeverAsked(costs);
    RecycledIsDishonest(costs);
  }

  // ---------------------------------------------------------------------
  // A name changes slots
  // ---------------------------------------------------------------------

  ghost function MovingTables(costs: CostTable.Table): seq<seq<R.Node>> {
    [[R.Node("mover", 0, 0, costs), R.Node("other", 1, 0, costs)],
     [R.Node("tenant", 0, 0, costs), R.Node("mover", 1, 0, costs)]]
  }

  /** The mover fails on its first slot after a wait for a permit, and is asked
      again on its second. */
  ghost function MovingScript(costs: CostTable.Table): seq<R.Round> {
    Staged(MovingTables(costs), 0, 0, 1)
  }

  lemma MoverIsBookedTwice(costs: CostTable.Table)
    requires Cost(costs, 0) != UNPRICED
    ensures BookedTwice(MovingScript(costs), 0, "mover")
  {
    var tables := MovingTables(costs);
    assert Proper(tables[0]) && Proper(tables[1]);
    assert Passable(tables, 0, 1, 0);
    StagedBooksTwice(tables, 0, "mover", 0, 0, 1, 1);
  }

  lemma TenantStaysMoverReturns(prev: seq<T.Node>)
    requires prev == [Fresh("tenant", 0, 0)]
    ensures T.Assigned(prev, [Fresh("tenant", 0, 0), Fresh("mover", 0, 1)], ZEROS,
                       [Fresh("tenant", 0, 0), Fresh("mover", 1, 1)], ZEROS)
  {
    var out := [Fresh("tenant", 0, 0), Fresh("mover", 1, 1)];
    assert prev[0].name == out[0].name;
    assert T.Listed(prev, out[0].name) && !T.Listed(prev, "mover");
    assert out[0].id == 0;
    assert T.HeldBefore(prev, out, 1, 0);
  }

  /** A reload that lists the mover again beside the tenant of its old slot. */
  lemma TakeBack(run: seq<World>) returns (longer: seq<World>)
    requires IsRun(run) && AtRest(run[|run| - 1])
    requires var w := run[|run| - 1];
             |w.nodes| == 3 && w.nodes[2] == Fresh("tenant", 0, 0) && w.published.all == [2] && w.usage == ZEROS
    ensures IsRun(longer) && run <= longer && |longer| == |run| + 4
    ensures var w, w' := run[|run| - 1], longer[|longer| - 1];
            w'.nodes == w.nodes + [Fresh("tenant", 0, 0), Fresh("mover", 1, 1)] && w'.published.ranked == [3, 4]
  {
    var w, out := run[|run| - 1], [Fresh("tenant", 0, 0), Fresh("mover", 1, 1)];
    var prev := At(w.nodes, w.published.all);
    assert prev[0] == w.nodes[2];
    assert prev == [Fresh("tenant", 0, 0)];
    TenantStaysMoverReturns(prev);
    assert NewRefs(w, out) == [3, 4];
    TwoTiers(w.nodes + out, 3, 4);
    TwoNames("tenant", "mover", 0, 0);
    longer := Reload(run, [Fresh("tenant", 0, 0), Fresh("mover", 0, 1)], out, ZEROS, [3, 4]);
  }

  lemma TwoNames(first: string, second: string, a: nat, b: nat)
    requires first != second
    ensures T.Acceptable([Fresh(first, a, 0), Fresh(second, b, 1)])
  {}

  lemma LeaveAndReturn() returns (run: seq<World>)
    ensures IsRun(run) && |run| == 10
    ensures run[0].nodes == [Fresh("mover", 0, 0), Fresh("other", 1, 1)] && run[0].published.ranked == [0, 1]
    ensures run[9].nodes == run[0].nodes + [Fresh("tenant", 0, 0)] + [Fresh("tenant", 0, 0), Fresh("mover", 1, 1)]
    ensures run[9].published.ranked == [3, 4]
  {
    var shorter := ReplaceBoth("mover", "other", "tenant");
    run := TakeBack(shorter);
  }

  lemma MovingWalks(w: World, w': World, costs: CostTable.Table)
    requires w.nodes == [Fresh("mover", 0, 0), Fresh("other", 1, 1)] && w.published.ranked == [0, 1]
    requires w'.nodes == w.nodes + [Fresh("tenant", 0, 0)] + [Fresh("tenant", 0, 0), Fresh("mover", 1, 1)]
    requires w'.published.ranked == [3, 4]
    ensures Requests.Walks(w, MovingScript(costs)[0]) && Requests.Walks(w', MovingScript(costs)[1])
  {
    assert MovingScript(costs)[0] == Parked(MovingTables(costs)[0], 0);
    assert MovingScript(costs)[1] == Open(MovingTables(costs)[1]);
  }

  /**
   One node billed twice for one request, in the running system. It fails on its
   slot, a reload drops it and hands the slot on, a second reload takes it back on
   the next slot, and the request asks it again.
   */
  lemma MovingHappens(costs: CostTable.Table) returns (run: seq<World>)
    requires Cost(costs, 0) != UNPRICED
    ensures InFlight(run, MovingScript(costs), [0, 9], 0, 9)
    ensures BookedTwice(MovingScript(costs), 0, "mover")
  {
    MoverIsBookedTwice(costs);
    run := LeaveAndReturn();
    MovingWalks(run[0], run[9], costs);
    ReadsFirstAndLast(run, MovingScript(costs));
  }
}
