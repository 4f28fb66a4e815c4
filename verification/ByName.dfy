/**
 What routing promises slot by slot, judged by name: exactly which sequences of
 tables let a request give up on a node it never asked, and exactly which let it
 ask and bill one node twice. Both take a reload that gives a slot, or a name, a
 new partner while the request is in flight.
 */
module ByName {
  import opened Wrappers
  import opened SlotMask
  import opened CostTable
  import opened Routing
  import opened RoutingTheorems

  /** What every published table guarantees: no slot and no name comes twice. */
  ghost predicate Proper(table: seq<Node>) {
    forall i, j :: 0 <= i < j < |table| ==> table[i].slot != table[j].slot && table[i].name != table[j].name
  }

  ghost predicate AllProper(tables: seq<seq<Node>>) {
    forall r :: 0 <= r < |tables| ==> Proper(tables[r])
  }

  ghost predicate Walks(round: Round, table: seq<Node>) {
    |round.ranked| == |table| && forall i :: 0 <= i < |table| ==> round.ranked[i].node == table[i]
  }

  /** The script's rounds read these tables; what the nodes answer is open. */
  ghost predicate Over(script: seq<Round>, tables: seq<seq<Node>>) {
    |script| == |tables| && forall r :: 0 <= r < |script| ==> Walks(script[r], tables[r])
  }

  lemma OverIsValid(script: seq<Round>, tables: seq<seq<Node>>)
    requires Over(script, tables) && AllProper(tables)
    ensures ValidScript(script)
  {
    forall r | 0 <= r < |script| ensures DistinctSlots(script[r].ranked) {
      assert Walks(script[r], tables[r]) && Proper(tables[r]);
    }
  }

  // ---------------------------------------------------------------------
  // Rounds a request gets past
  // ---------------------------------------------------------------------

  /** A round with nothing left to try returns. */
  lemma AllTriedReturns(round: Round, methodId: nat, b: Standing)
    requires DistinctSlots(round.ranked) && SlotsOf(round.ranked) <= b.tried
    ensures StepOf(round, methodId, b.tried, b.failOpen).returned.Some?
  {
    var w := Walk(round.ranked, methodId, b.tried, b.failOpen);
    WalkIsPointwise(round.ranked, methodId, b.tried, b.failOpen);
    ExhaustedIff(round, methodId, b.tried, b.failOpen, w);
    forall i | 0 <= i < |w.verdicts| ensures w.verdicts[i].AlreadyTried? {
      assert round.ranked[i].node.slot in SlotsOf(round.ranked);
    }
  }

  /** A round that is not the last one met a slot not tried before it. */
  lemma PassedMeans(script: seq<Round>, methodId: nat, p: nat)
    requires ValidScript(script) && p + 1 < |RouteOf(script, methodId).reports|
    ensures exists k ::
              0 <= k < |script[p].ranked| && script[p].ranked[k].node.slot !in Before(script, methodId, FRESH, p).tried
  {
    RoundAt(script, methodId, FRESH, p);
    var b := Before(script, methodId, FRESH, p);
    if SlotsOf(script[p].ranked) <= b.tried {
      AllTriedReturns(script[p], methodId, b);
    }
  }

  lemma {:induction false} TriedOnlyGrows(rule: Rule, script: seq<Round>, at: Standing, p: nat, q: nat)
    requires p <= q <= |script|
    requires forall round: Round, b: Standing :: b.tried <= rule(round, b).tried
    ensures StandingAt(rule, script, at, p).tried <= StandingAt(rule, script, at, q).tried
    decreases q
  {
    if q > 0 {
      var next := Advance(rule(script[0], at), at);
      if p > 0 {
        TriedOnlyGrows(rule, script[1..], next, p - 1, q - 1);
      } else {
        TriedOnlyGrows(rule, script[1..], next, 0, q - 1);
      }
    }
  }

  lemma {:induction false} StandingNext(rule: Rule, script: seq<Round>, at: Standing, p: nat)
    requires p < |script|
    ensures var b := StandingAt(rule, script, at, p);
            StandingAt(rule, script, at, p + 1) == Advance(rule(script[p], b), b)
    decreases p
  {
    var next := Advance(rule(script[0], at), at);
    if p > 0 {
      StandingNext(rule, script[1..], next, p - 1);
      assert script[1..][p - 1] == script[p];
    }
  }

  /** What a round tried stays tried in every later one. */
  lemma StaysTried(script: seq<Round>, methodId: nat, r: nat, p: nat, slot: Slot)
    requires r < p <= |script|
    requires var b := Before(script, methodId, FRESH, r); slot in StepOf(script[r], methodId, b.tried, b.failOpen).tried
    ensures slot in Before(script, methodId, FRESH, p).tried
  {
    StandingNext(RuleOf(methodId), script, FRESH, r);
    TriedOnlyGrows(RuleOf(methodId), script, FRESH, r + 1, p);
  }

  // ---------------------------------------------------------------------
  // A run along known standings
  // ---------------------------------------------------------------------

  ghost predicate GoesTo(rule: Rule, round: Round, a: Standing, b: Standing) {
    rule(round, a).returned.None? && b == Advance(rule(round, a), a)
  }

  lemma {:induction false} PlayAlong(rule: Rule, script: seq<Round>, st: seq<Standing>)
    requires 0 < |st| <= |script|
    requires forall p :: 0 <= p < |st| - 1 ==> GoesTo(rule, script[p], st[p], st[p + 1])
    requires rule(script[|st| - 1], st[|st| - 1]).returned.Some?
    ensures var t := Play(rule, script, st[0]);
            |t.reports| == |st| && forall p :: 0 <= p < |st| ==> t.reports[p] == rule(script[p], st[p]).report
  {
    if |st| > 1 {
      assert GoesTo(rule, script[0], st[0], st[1]);
      forall p | 0 <= p < |st[1..]| - 1 ensures GoesTo(rule, script[1..][p], st[1..][p], st[1..][p + 1]) {
        assert GoesTo(rule, script[p + 1], st[p + 1], st[p + 2]);
      }
      PlayAlong(rule, script[1..], st[1..]);
      var t, rest := Play(rule, script, st[0]), Play(rule, script[1..], st[1]);
      forall p | 0 < p < |st| ensures t.reports[p] == rule(script[p], st[p]).report {
        assert t.reports[p] == rest.reports[p - 1] && script[1..][p - 1] == script[p];
      }
    }
  }

  // ---------------------------------------------------------------------
  // Staging a request: wait, park on one node, wait, then ask everybody
  // ---------------------------------------------------------------------

  const TAKEN: Grant := Token(0, Retryable)

  function Waiting(table: seq<Node>): Round {
    Round(seq(|table|, k requires 0 <= k < |table| => Visit(table[k], false, Permit(NoToken(0)))), Closed)
  }

  function Parked(table: seq<Node>, i: nat): Round {
    Round(seq(|table|, k requires 0 <= k < |table| => Visit(table[k], k != i, NoPermit)), Woken(TAKEN))
  }

  function Open(table: seq<Node>): Round {
    Round(seq(|table|, k requires 0 <= k < |table| => Visit(table[k], false, Permit(TAKEN))), Closed)
  }

  function Staged(tables: seq<seq<Node>>, r: nat, i: nat, q: nat): (script: seq<Round>)
    ensures |script| == |tables|
  {
    seq(|tables|, p requires 0 <= p < |tables| =>
      if p == r then Parked(tables[p], i) else if p == q then Open(tables[p]) else Waiting(tables[p]))
  }

  lemma StagedIsOver(tables: seq<seq<Node>>, r: nat, i: nat, q: nat)
    ensures Over(Staged(tables, r, i, q), tables)
  {}

  lemma NobodyMarked(visits: seq<Visit>, verdicts: seq<Verdict>)
    requires |verdicts| <= |visits| && forall k :: 0 <= k < |verdicts| ==> !Marks(verdicts[k])
    ensures Marked(visits, verdicts) == {}
  {}

  /** Nobody has had a turn in the round. */
  ghost predicate Idle(report: Report) {
    !report.ending.Served? && forall k :: 0 <= k < |report.verdicts| ==> !Marks(report.verdicts[k])
  }

  /** Every node is spent or rate-limited, and one is rate-limited. */
  lemma SleepsOn(round: Round, methodId: nat, verdicts: seq<Verdict>, k: nat)
    requires k < |verdicts| <= |round.ranked| && verdicts[k].RateLimited?
    requires forall l :: 0 <= l < |verdicts| ==> verdicts[l].AlreadyTried? || verdicts[l].RateLimited?
    ensures End(round, methodId, verdicts, false).Slept?
  {
    assert verdicts[k] in verdicts;
  }

  lemma WaitingVerdicts(table: seq<Node>, methodId: nat, tried: set<Slot>)
    requires Proper(table)
    ensures var w := Walk(Waiting(table).ranked, methodId, tried, false);
            && w.tried == tried && |w.verdicts| == |table|
            && forall l :: 0 <= l < |table| ==>
               w.verdicts[l] == if table[l].slot in tried then AlreadyTried else RateLimited(0)
  {
    var visits := Waiting(table).ranked;
    WalkIsPointwise(visits, methodId, tried, false);
    NobodyMarked(visits, Walk(visits, methodId, tried, false).verdicts);
  }

  lemma WaitingStep(table: seq<Node>, methodId: nat, tried: set<Slot>, k: nat)
    requires Proper(table) && k < |table| && table[k].slot !in tried
    ensures var s := StepOf(Waiting(table), methodId, tried, false);
            s.returned.None? && s.tried == tried && s.report.ending.Slept? && Idle(s.report)
  {
    WaitingVerdicts(table, methodId, tried);
    SleepsOn(Waiting(table), methodId, Walk(Waiting(table).ranked, methodId, tried, false).verdicts, k);
  }

  lemma ParkedVerdicts(table: seq<Node>, i: nat, methodId: nat)
    requires Proper(table) && i < |table|
    ensures var w := Walk(Parked(table, i).ranked, methodId, {}, false);
            && w.tried == {} && |w.verdicts| == |table|
            && forall k :: 0 <= k < |table| ==> w.verdicts[k] == if k == i then Saturated else Penalized
  {
    var visits := Parked(table, i).ranked;
    WalkIsPointwise(visits, methodId, {}, false);
    NobodyMarked(visits, Walk(visits, methodId, {}, false).verdicts);
  }

  lemma OneSaturated(verdicts: seq<Verdict>, i: nat)
    requires i < |verdicts|
    requires forall k :: 0 <= k < |verdicts| ==> verdicts[k] == if k == i then Saturated else Penalized
    ensures ShortestWait(verdicts) == None && FirstSaturated(verdicts) == Some(i)
  {
    assert verdicts[i] in verdicts;
  }

  /** Nobody but one saturated node is left, and its turn comes. */
  lemma ServesParked(round: Round, methodId: nat, verdicts: seq<Verdict>, i: nat)
    requires i < |verdicts| <= |round.ranked| && round.parking == Woken(TAKEN)
    requires forall k :: 0 <= k < |verdicts| ==> verdicts[k] == if k == i then Saturated else Penalized
    ensures End(round, methodId, verdicts, false) == Served(i, Admit(round.ranked[i].node, methodId, TAKEN))
  {
    OneSaturated(verdicts, i);
  }

  lemma ParkedStep(table: seq<Node>, i: nat, methodId: nat)
    requires Proper(table) && i < |table|
    ensures var s := StepOf(Parked(table, i), methodId, {}, false);
            && s.returned.None? && s.tried == {table[i].slot}
            && s.report.ending == Served(i, Admit(table[i], methodId, TAKEN))
            && forall k :: 0 <= k < |s.report.verdicts| ==> !Marks(s.report.verdicts[k])
  {
    ParkedVerdicts(table, i, methodId);
    ServesParked(Parked(table, i), methodId, Walk(Parked(table, i).ranked, methodId, {}, false).verdicts, i);
  }

  /** Every node is spent and none of them stopped the walk. */
  lemma GivesUpOn(round: Round, methodId: nat, verdicts: seq<Verdict>)
    requires |verdicts| <= |round.ranked|
    requires forall l :: 0 <= l < |verdicts| ==> Spent(verdicts[l]) && !Stops(verdicts[l])
    ensures End(round, methodId, verdicts, false).Exhausted?
  {}

  lemma OpenVerdicts(table: seq<Node>, methodId: nat, tried: set<Slot>)
    requires Proper(table)
    ensures var w := Walk(Open(table).ranked, methodId, tried, false);
            && |w.verdicts| == |table|
            && forall k :: 0 <= k < |table| ==>
                 w.verdicts[k] == if table[k].slot in tried then AlreadyTried else Admit(table[k], methodId, TAKEN)
  {
    WalkIsPointwise(Open(table).ranked, methodId, tried, false);
  }

  lemma OpenStep(table: seq<Node>, methodId: nat, tried: set<Slot>)
    requires Proper(table)
    ensures var s := StepOf(Open(table), methodId, tried, false);
            && s.returned.Some? && s.report.ending.Exhausted? && |s.report.verdicts| == |table|
            && forall k :: 0 <= k < |table| ==>
                 s.report.verdicts[k] ==
                 if table[k].slot in tried then AlreadyTried else Admit(table[k], methodId, TAKEN)
  {
    OpenVerdicts(table, methodId, tried);
    GivesUpOn(Open(table), methodId, Walk(Open(table).ranked, methodId, tried, false).verdicts);
  }

  /** A request can get from the start to round `r`, and with one slot tried there
      on to round `q`, whatever the nodes in between do but answer. */
  ghost predicate Passable(tables: seq<seq<Node>>, r: nat, q: nat, slot: Slot)
    requires r < q < |tables|
  {
    && (forall p :: 0 <= p < r ==> tables[p] != [])
    && (forall p :: r < p < q ==> ListsOther(tables[p], slot))
  }

  ghost predicate ListsOther(table: seq<Node>, slot: Slot) {
    exists k :: 0 <= k < |table| && table[k].slot != slot
  }

  /** Where the staged request stands before each round. */
  ghost function Standings(r: nat, q: nat, slot: Slot): (st: seq<Standing>)
    ensures |st| == q + 1
  {
    seq(q + 1, p => if p <= r then FRESH else Standing({slot}, false))
  }

  lemma StagedGoes(tables: seq<seq<Node>>, r: nat, i: nat, q: nat, methodId: nat, p: nat)
    requires AllProper(tables) && p < q < |tables| && r < q && i < |tables[r]|
             && Passable(tables, r, q, tables[r][i].slot)
    ensures var st := Standings(r, q, tables[r][i].slot);
            GoesTo(RuleOf(methodId), Staged(tables, r, i, q)[p], st[p], st[p + 1])
    ensures var st := Standings(r, q, tables[r][i].slot);
            p != r ==> Idle(RuleOf(methodId)(Staged(tables, r, i, q)[p], st[p]).report)
  {
    assert Proper(tables[p]);
    if p == r {
      ParkedStep(tables[r], i, methodId);
    } else if p < r {
      WaitingStep(tables[p], methodId, {}, 0);
    } else {
      assert ListsOther(tables[p], tables[r][i].slot);
      var k :| 0 <= k < |tables[p]| && tables[p][k].slot != tables[r][i].slot;
      WaitingStep(tables[p], methodId, {tables[r][i].slot}, k);
    }
  }

  lemma StagedEnds(tables: seq<seq<Node>>, r: nat, i: nat, q: nat, methodId: nat)
    requires AllProper(tables) && r < q < |tables| && i < |tables[r]|
    ensures var st := Standings(r, q, tables[r][i].slot);
            RuleOf(methodId)(Staged(tables, r, i, q)[q], st[q]).returned.Some?
  {
    assert Proper(tables[q]);
    OpenStep(tables[q], methodId, {tables[r][i].slot});
  }

  /** The staged request plays its rounds one by one, up to round `q`. */
  lemma StagedPlays(tables: seq<seq<Node>>, r: nat, i: nat, q: nat, methodId: nat)
    requires AllProper(tables) && r < q < |tables| && i < |tables[r]| && Passable(tables, r, q, tables[r][i].slot)
    ensures var script, st := Staged(tables, r, i, q), Standings(r, q, tables[r][i].slot);
            var reports := RouteOf(script, methodId).reports;
            && |reports| == q + 1
            && forall p :: 0 <= p <= q ==> reports[p] == RuleOf(methodId)(script[p], st[p]).report
  {
    var script, st, rule := Staged(tables, r, i, q), Standings(r, q, tables[r][i].slot), RuleOf(methodId);
    forall p | 0 <= p < q ensures GoesTo(rule, script[p], st[p], st[p + 1]) {
      StagedGoes(tables, r, i, q, methodId, p);
    }
    StagedEnds(tables, r, i, q, methodId);
    PlayAlong(rule, script, st);
    RunIsPlay(script, methodId, FRESH);
  }

  /** What the staged request reports: a turn for the parked node in round `r`, a
      turn for everybody on another slot in round `q`, and nothing else. */
  lemma StagedRun(tables: seq<seq<Node>>, r: nat, i: nat, q: nat, methodId: nat)
    requires AllProper(tables) && r < q < |tables| && i < |tables[r]| && Passable(tables, r, q, tables[r][i].slot)
    ensures var reports := RouteOf(Staged(tables, r, i, q), methodId).reports;
            && |reports| == q + 1
            && (forall p :: 0 <= p < q && p != r ==> Idle(reports[p]))
            && reports[r].ending == Served(i, Admit(tables[r][i], methodId, TAKEN))
            && (forall k :: 0 <= k < |reports[r].verdicts| ==> !Marks(reports[r].verdicts[k]))
            && reports[q] == StepOf(Open(tables[q]), methodId, {tables[r][i].slot}, false).report
            && reports[q].ending.Exhausted?
  {
    StagedPlays(tables, r, i, q, methodId);
    var reports := RouteOf(Staged(tables, r, i, q), methodId).reports;
    forall p | 0 <= p < q && p != r ensures Idle(reports[p]) {
      StagedGoes(tables, r, i, q, methodId, p);
    }
    assert Proper(tables[q]) && Proper(tables[r]);
    OpenStep(tables[q], methodId, {tables[r][i].slot});
    ParkedStep(tables[r], i, methodId);
  }

  // ---------------------------------------------------------------------
  // An honest 502, by name
  // ---------------------------------------------------------------------

  ghost predicate OwnTurn(script: seq<Round>, reports: seq<Report>, name: string)
    requires Fits(script, reports)
  {
    exists r :: 0 <= r < |reports| && HadOwnTurn(script[r], reports[r], name)
  }

  ghost predicate AskedAll(script: seq<Round>, reports: seq<Report>, round: Round)
    requires Fits(script, reports)
  {
    forall i :: 0 <= i < |round.ranked| ==> OwnTurn(script, reports, round.ranked[i].node.name)
  }

  ghost predicate GaveUp(reports: seq<Report>) {
    reports != [] && reports[|reports| - 1].ending.Exhausted?
  }

  /** If the request gave up, every node of the table it read last had its own
      turn, under its own name. */
  ghost predicate Honest(script: seq<Round>, methodId: nat) {
    var reports := RouteOf(script, methodId).reports;
    GaveUp(reports) ==> AskedAll(script, reports, script[|reports| - 1])
  }

  /** A slot is listed under one name and later under another, with no empty table
      to end the request before that. */
  ghost predicate ChangesHands(tables: seq<seq<Node>>, r: nat, i: nat, q: nat, j: nat) {
    && r < q < |tables| && i < |tables[r]| && j < |tables[q]|
    && tables[r][i].slot == tables[q][j].slot && tables[r][i].name != tables[q][j].name
    && forall p :: 0 <= p < q ==> tables[p] != []
  }

  lemma GaveUpTried(script: seq<Round>, methodId: nat)
    requires ValidScript(script) && GaveUp(RouteOf(script, methodId).reports)
    ensures var t := RouteOf(script, methodId); SlotsOf(script[|t.reports| - 1].ranked) <= t.tried
  {
    var last := |RouteOf(script, methodId).reports| - 1;
    RoundAt(script, methodId, FRESH, last);
    ExhaustedLeavesNothing(script[last], methodId, Before(script, methodId, FRESH, last));
  }

  lemma GaveUpTurn(script: seq<Round>, methodId: nat, slot: Slot)
    requires ValidScript(script) && GaveUp(RouteOf(script, methodId).reports)
    requires slot in SlotsOf(script[|RouteOf(script, methodId).reports| - 1].ranked)
    ensures TurnTaken(script, RouteOf(script, methodId).reports, slot)
  {
    GaveUpTried(script, methodId);
    TriedHadTurn(script, methodId, FRESH, slot);
  }

  lemma PassedTables(script: seq<Round>, tables: seq<seq<Node>>, methodId: nat, q: nat)
    requires Over(script, tables) && ValidScript(script) && q < |RouteOf(script, methodId).reports|
    ensures forall p :: 0 <= p < q ==> tables[p] != []
  {
    forall p | 0 <= p < q ensures tables[p] != [] {
      PassedMeans(script, methodId, p);
      assert Walks(script[p], tables[p]);
    }
  }

  /** A slot that never changed hands has the same name in a table passed and in
      the table read last. */
  lemma SameHands(tables: seq<seq<Node>>, r: nat, k: nat, q: nat, i: nat)
    requires AllProper(tables) && r <= q < |tables| && k < |tables[r]| && i < |tables[q]|
    requires tables[r][k].slot == tables[q][i].slot && (forall p :: 0 <= p < q ==> tables[p] != [])
    requires !ChangesHands(tables, r, k, q, i)
    ensures tables[r][k].name == tables[q][i].name
  {
    assert Proper(tables[q]);
  }

  lemma TurnIsOwn(script: seq<Round>, tables: seq<seq<Node>>, methodId: nat, i: nat)
    requires Over(script, tables) && AllProper(tables)
    requires forall r, k, q, j :: !ChangesHands(tables, r, k, q, j)
    requires var reports := RouteOf(script, methodId).reports; GaveUp(reports) && i < |script[|reports| - 1].ranked|
    ensures var reports := RouteOf(script, methodId).reports;
            OwnTurn(script, reports, script[|reports| - 1].ranked[i].node.name)
  {
    OverIsValid(script, tables);
    var reports := RouteOf(script, methodId).reports;
    var last := |reports| - 1;
    var node := script[last].ranked[i].node;
    assert node.slot in SlotsOf(script[last].ranked);
    GaveUpTurn(script, methodId, node.slot);
    var r :| 0 <= r < |reports| && HadItsTurn(script[r], reports[r], node.slot);
    var k := TurnAt(script[r], reports[r], node.slot);
    assert Walks(script[r], tables[r]) && Walks(script[last], tables[last]);
    PassedTables(script, tables, methodId, last);
    SameHands(tables, r, k, last, i);
  }

  /** The place in the table of the node that had the slot's turn. */
  lemma TurnAt(round: Round, report: Report, slot: Slot) returns (k: nat)
    requires Matches(round, report) && HadItsTurn(round, report, slot)
    ensures k < |round.ranked| && round.ranked[k].node.slot == slot
    ensures HadOwnTurn(round, report, round.ranked[k].node.name)
  {
    if i :| 0 <= i < |report.verdicts| && round.ranked[i].node.slot == slot && Marks(report.verdicts[i]) {
      k := i;
    } else {
      k := report.ending.at;
    }
  }

  /** Of two tables between which a slot changes hands, the closest: no table in
      between lists the slot at all. */
  lemma ClosestChange(tables: seq<seq<Node>>, r: nat, i: nat, q: nat, j: nat)
    returns (r': nat, i': nat, q': nat, j': nat)
    requires ChangesHands(tables, r, i, q, j)
    ensures ChangesHands(tables, r', i', q', j')
    ensures forall p, k :: r' < p < q' && 0 <= k < |tables[p]| ==> tables[p][k].slot != tables[r'][i'].slot
    decreases q - r
  {
    if p, k :| r < p < q && 0 <= k < |tables[p]| && tables[p][k].slot == tables[r][i].slot {
      if tables[p][k].name != tables[r][i].name {
        r', i', q', j' := ClosestChange(tables, r, i, p, k);
      } else {
        r', i', q', j' := ClosestChange(tables, p, k, q, j);
      }
    } else {
      r', i', q', j' := r, i, q, j;
    }
  }

  lemma IdleGivesNoTurn(round: Round, report: Report, name: string)
    requires Matches(round, report) && Idle(report)
    ensures !HadOwnTurn(round, report, name)
  {}

  lemma ParkedTurn(round: Round, report: Report, i: nat, v: Verdict, name: string)
    requires Matches(round, report) && report.ending == Served(i, v) && round.ranked[i].node.name != name
    requires forall k :: 0 <= k < |report.verdicts| ==> !Marks(report.verdicts[k])
    ensures !HadOwnTurn(round, report, name)
  {}

  lemma OpenGivesTriedNoTurn(table: seq<Node>, methodId: nat, j: nat)
    requires Proper(table) && j < |table|
    ensures !HadOwnTurn(Open(table), StepOf(Open(table), methodId, {table[j].slot}, false).report, table[j].name)
  {
    OpenStep(table, methodId, {table[j].slot});
  }

  /** Round by round, the staged request gives the slot's new holder no turn. */
  lemma StagedGivesNoTurn(tables: seq<seq<Node>>, r: nat, i: nat, q: nat, j: nat, methodId: nat, p: nat)
    requires AllProper(tables) && ChangesHands(tables, r, i, q, j) && Passable(tables, r, q, tables[r][i].slot)
    requires p < |RouteOf(Staged(tables, r, i, q), methodId).reports|
    ensures p <= q && !HadOwnTurn(Staged(tables, r, i, q)[p], RouteOf(Staged(tables, r, i, q), methodId).reports[p],
                                  tables[q][j].name)
  {
    var script, name := Staged(tables, r, i, q), tables[q][j].name;
    StagedRun(tables, r, i, q, methodId);
    var reports := RouteOf(script, methodId).reports;
    if p == q {
      assert Proper(tables[q]);
      OpenGivesTriedNoTurn(tables[q], methodId, j);
    } else if p == r {
      ParkedTurn(script[r], reports[r], i, Admit(tables[r][i], methodId, TAKEN), name);
    } else {
      IdleGivesNoTurn(script[p], reports[p], name);
    }
  }

  lemma NobodyOnIt(tables: seq<seq<Node>>, r: nat, i: nat, q: nat, j: nat)
    requires ChangesHands(tables, r, i, q, j)
    requires forall p, k :: r < p < q && 0 <= k < |tables[p]| ==> tables[p][k].slot != tables[r][i].slot
    ensures Passable(tables, r, q, tables[r][i].slot)
  {
    forall p | r < p < q ensures ListsOther(tables[p], tables[r][i].slot) {
      assert tables[p][0].slot != tables[r][i].slot;
    }
  }

  /** The request gave up on round `q`, with node `j` of its table never asked. */
  ghost predicate GaveUpOn(script: seq<Round>, reports: seq<Report>, q: nat, j: nat)
    requires Fits(script, reports)
  {
    && |reports| == q + 1 && GaveUp(reports) && j < |script[q].ranked|
    && !OwnTurn(script, reports, script[q].ranked[j].node.name)
  }

  /** One node of the last table without a turn of its own is enough. */
  lemma OneUnasked(script: seq<Round>, methodId: nat, q: nat, j: nat)
    requires GaveUpOn(script, RouteOf(script, methodId).reports, q, j)
    ensures !Honest(script, methodId)
  {}

  lemma StagedNeverAsks(tables: seq<seq<Node>>, r: nat, i: nat, q: nat, j: nat, methodId: nat)
    requires AllProper(tables) && ChangesHands(tables, r, i, q, j) && Passable(tables, r, q, tables[r][i].slot)
    ensures !OwnTurn(Staged(tables, r, i, q), RouteOf(Staged(tables, r, i, q), methodId).reports, tables[q][j].name)
  {
    var script, name := Staged(tables, r, i, q), tables[q][j].name;
    var reports := RouteOf(script, methodId).reports;
    forall p | 0 <= p < |reports| ensures !HadOwnTurn(script[p], reports[p], name) {
      StagedGivesNoTurn(tables, r, i, q, j, methodId, p);
    }
  }

  lemma StagedGivesUp(tables: seq<seq<Node>>, r: nat, i: nat, q: nat, methodId: nat)
    requires AllProper(tables) && r < q < |tables| && i < |tables[r]| && Passable(tables, r, q, tables[r][i].slot)
    ensures var reports := RouteOf(Staged(tables, r, i, q), methodId).reports; |reports| == q + 1 && GaveUp(reports)
  {
    StagedRun(tables, r, i, q, methodId);
  }

  lemma StagedGivesUpOn(tables: seq<seq<Node>>, r: nat, i: nat, q: nat, j: nat, methodId: nat)
    requires AllProper(tables) && ChangesHands(tables, r, i, q, j) && Passable(tables, r, q, tables[r][i].slot)
    ensures GaveUpOn(Staged(tables, r, i, q), RouteOf(Staged(tables, r, i, q), methodId).reports, q, j)
  {
    StagedGivesUp(tables, r, i, q, methodId);
    StagedNeverAsks(tables, r, i, q, j, methodId);
    assert Staged(tables, r, i, q)[q].ranked[j].node == tables[q][j];
  }

  /** The staged request gives up on the slot's new holder without asking it. */
  lemma StagedIsDishonest(tables: seq<seq<Node>>, r: nat, i: nat, q: nat, j: nat, methodId: nat)
    requires AllProper(tables) && ChangesHands(tables, r, i, q, j)
    requires forall p, k :: r < p < q && 0 <= k < |tables[p]| ==> tables[p][k].slot != tables[r][i].slot
    ensures !Honest(Staged(tables, r, i, q), methodId)
  {
    NobodyOnIt(tables, r, i, q, j);
    StagedGivesUpOn(tables, r, i, q, j, methodId);
    OneUnasked(Staged(tables, r, i, q), methodId, q, j);
  }

  lemma UnchangedIsHonest(script: seq<Round>, tables: seq<seq<Node>>, methodId: nat)
    requires Over(script, tables) && AllProper(tables) && forall r, k, q, j :: !ChangesHands(tables, r, k, q, j)
    ensures Honest(script, methodId)
  {
    var reports := RouteOf(script, methodId).reports;
    if GaveUp(reports) {
      var last := script[|reports| - 1];
      forall i | 0 <= i < |last.ranked| ensures OwnTurn(script, reports, last.ranked[i].node.name) {
        TurnIsOwn(script, tables, methodId, i);
      }
    }
  }

  lemma ChangedIsDishonest(tables: seq<seq<Node>>, methodId: nat, r: nat, i: nat, q: nat, j: nat)
    returns (script: seq<Round>)
    requires AllProper(tables) && ChangesHands(tables, r, i, q, j)
    ensures Over(script, tables) && !Honest(script, methodId)
  {
    var r', i', q', j' := ClosestChange(tables, r, i, q, j);
    StagedIsDishonest(tables, r', i', q', j', methodId);
    StagedIsOver(tables, r', i', q');
    script := Staged(tables, r', i', q');
  }

  /**
   By name, a 502 for want of nodes is honest over a sequence of tables, whatever
   the nodes answer and whatever they charge, exactly when no slot changes hands
   between two tables a request can read.
   */
  lemma HonestByNameIff(tables: seq<seq<Node>>, methodId: nat)
    requires AllProper(tables)
    ensures (forall script :: Over(script, tables) ==> Honest(script, methodId))
       <==> (forall r, i, q, j :: !ChangesHands(tables, r, i, q, j))
  {
    if r, i, q, j :| ChangesHands(tables, r, i, q, j) {
      var script := ChangedIsDishonest(tables, methodId, r, i, q, j);
    } else {
      forall script: seq<Round> | Over(script, tables) ensures Honest(script, methodId) {
        UnchangedIsHonest(script, tables, methodId);
      }
    }
  }

  // ---------------------------------------------------------------------
  // At most once, by name
  // ---------------------------------------------------------------------

  /** The round booked its `k`-th node, on the walk or after parking on it. */
  ghost predicate Books(round: Round, report: Report, k: nat, v: Verdict) {
    v.Attempted? && ((k < |report.verdicts| && report.verdicts[k] == v) || report.ending == Served(k, v))
  }

  lemma {:induction false} WalkBooked(visits: seq<Visit>, verdicts: seq<Verdict>, k: nat)
    requires k < |verdicts| <= |visits| && verdicts[k].Attempted?
    ensures Booking(visits[k].node, verdicts[k].cost) in WalkBookings(visits, verdicts)
  {
    if k > 0 {
      WalkBooked(visits[1..], verdicts[1..], k - 1);
    }
  }

  lemma {:induction false} WalkBookedBy(visits: seq<Visit>, verdicts: seq<Verdict>, x: Booking) returns (k: nat)
    requires |verdicts| <= |visits| && x in WalkBookings(visits, verdicts)
    ensures k < |verdicts| && verdicts[k].Attempted? && visits[k].node == x.node
  {
    if x in BookingOf(visits[0].node, verdicts[0]) {
      k := 0;
    } else {
      k := WalkBookedBy(visits[1..], verdicts[1..], x);
      k := k + 1;
    }
  }

  lemma RoundBooked(round: Round, report: Report, k: nat, v: Verdict)
    requires Matches(round, report) && k < |round.ranked| && Books(round, report, k, v)
    ensures Booking(round.ranked[k].node, v.cost) in RoundBookings(round, report)
  {
    if k < |report.verdicts| && report.verdicts[k] == v {
      WalkBooked(round.ranked, report.verdicts, k);
    }
  }

  lemma RoundBookedBy(round: Round, report: Report, x: Booking) returns (k: nat, v: Verdict)
    requires Matches(round, report) && x in RoundBookings(round, report)
    ensures k < |round.ranked| && Books(round, report, k, v) && round.ranked[k].node == x.node
  {
    if x in WalkBookings(round.ranked, report.verdicts) {
      k := WalkBookedBy(round.ranked, report.verdicts, x);
      v := report.verdicts[k];
    } else {
      k, v := report.ending.at, report.ending.verdict;
    }
  }

  lemma {:induction false} Booked(script: seq<Round>, reports: seq<Report>, r: nat, k: nat, v: Verdict)
    requires Fits(script, reports) && r < |reports| && k < |script[r].ranked| && Books(script[r], reports[r], k, v)
    ensures Booking(script[r].ranked[k].node, v.cost) in Bookings(script, reports)
  {
    if r == 0 {
      RoundBooked(script[0], reports[0], k, v);
    } else {
      Booked(script[1..], reports[1..], r - 1, k, v);
    }
  }

  lemma {:induction false} BookedBy(script: seq<Round>, reports: seq<Report>, x: Booking)
    returns (r: nat, k: nat, v: Verdict)
    requires Fits(script, reports) && x in Bookings(script, reports)
    ensures r < |reports| && k < |script[r].ranked| && Books(script[r], reports[r], k, v)
            && script[r].ranked[k].node == x.node
  {
    if x in RoundBookings(script[0], reports[0]) {
      r := 0;
      k, v := RoundBookedBy(script[0], reports[0], x);
    } else {
      r, k, v := BookedBy(script[1..], reports[1..], x);
      r := r + 1;
    }
  }

  ghost predicate BookedTwice(script: seq<Round>, methodId: nat, name: string) {
    TwiceIn(Bookings(script, RouteOf(script, methodId).reports), name)
  }

  ghost predicate TwiceIn(b: seq<Booking>, name: string) {
    exists i, j :: 0 <= i < j < |b| && b[i].node.name == name && b[j].node.name == name
  }

  lemma TwoOfAName(b: seq<Booking>, x: Booking, y: Booking)
    requires x in b && y in b && x != y && x.node.name == y.node.name
    ensures TwiceIn(b, x.node.name)
  {
    var k :| 0 <= k < |b| && b[k] == x;
    var l :| 0 <= l < |b| && b[l] == y;
    assert if k < l then b[k].node.name == x.node.name else b[l].node.name == x.node.name;
  }

  ghost predicate Priced(node: Node, methodId: nat) {
    Cost(node.costs, methodId) != UNPRICED
  }

  /** The name is listed under one slot and later under another, priced under
      both, and a request that tried the first can get as far as the second. */
  ghost predicate Moves(tables: seq<seq<Node>>, methodId: nat, name: string, r: nat, i: nat, q: nat, j: nat) {
    && r < q < |tables| && i < |tables[r]| && j < |tables[q]|
    && tables[r][i].name == name && tables[q][j].name == name && tables[r][i].slot != tables[q][j].slot
    && Priced(tables[r][i], methodId) && Priced(tables[q][j], methodId)
    && Passable(tables, r, q, tables[r][i].slot)
  }

  lemma AdmitsPriced(node: Node, methodId: nat)
    requires Priced(node, methodId)
    ensures Admit(node, methodId, TAKEN) == Attempted(Cost(node.costs, methodId), Retryable)
  {}

  lemma StagedBooks(tables: seq<seq<Node>>, methodId: nat, name: string, r: nat, i: nat, q: nat, j: nat)
    requires AllProper(tables) && Moves(tables, methodId, name, r, i, q, j)
    ensures var b := Bookings(Staged(tables, r, i, q), RouteOf(Staged(tables, r, i, q), methodId).reports);
            && Booking(tables[r][i], Cost(tables[r][i].costs, methodId)) in b
            && Booking(tables[q][j], Cost(tables[q][j].costs, methodId)) in b
  {
    var script := Staged(tables, r, i, q);
    StagedRun(tables, r, i, q, methodId);
    assert Proper(tables[q]);
    OpenStep(tables[q], methodId, {tables[r][i].slot});
    var reports := RouteOf(script, methodId).reports;
    AdmitsPriced(tables[r][i], methodId);
    AdmitsPriced(tables[q][j], methodId);
    Booked(script, reports, r, i, Attempted(Cost(tables[r][i].costs, methodId), Retryable));
    Booked(script, reports, q, j, Attempted(Cost(tables[q][j].costs, methodId), Retryable));
  }

  lemma StagedBooksTwice(tables: seq<seq<Node>>, methodId: nat, name: string, r: nat, i: nat, q: nat, j: nat)
    requires AllProper(tables) && Moves(tables, methodId, name, r, i, q, j)
    ensures BookedTwice(Staged(tables, r, i, q), methodId, name)
  {
    StagedBooks(tables, methodId, name, r, i, q, j);
    TwoOfAName(Bookings(Staged(tables, r, i, q), RouteOf(Staged(tables, r, i, q), methodId).reports),
               Booking(tables[r][i], Cost(tables[r][i].costs, methodId)),
               Booking(tables[q][j], Cost(tables[q][j].costs, methodId)));
  }

  /** What a round booked it tried. */
  lemma BookedIsTried(script: seq<Round>, methodId: nat, r: nat, k: nat, v: Verdict)
    requires ValidScript(script) && r < |RouteOf(script, methodId).reports|
    requires k < |script[r].ranked| && Books(script[r], RouteOf(script, methodId).reports[r], k, v)
    ensures var b := Before(script, methodId, FRESH, r);
            script[r].ranked[k].node.slot in StepOf(script[r], methodId, b.tried, b.failOpen).tried
  {
    RoundAt(script, methodId, FRESH, r);
    var b := Before(script, methodId, FRESH, r);
    RoundBooksOnce(script[r], methodId, b.tried, b.failOpen);
    var s := StepOf(script[r], methodId, b.tried, b.failOpen);
    RoundBooked(script[r], s.report, k, v);
  }

  lemma BookedRoundsPass(script: seq<Round>, tables: seq<seq<Node>>, methodId: nat, r: nat, k: nat, v: Verdict, q: nat)
    requires Over(script, tables) && AllProper(tables)
    requires r < q < |RouteOf(script, methodId).reports|
    requires k < |script[r].ranked| && Books(script[r], RouteOf(script, methodId).reports[r], k, v)
    ensures Passable(tables, r, q, script[r].ranked[k].node.slot)
  {
    OverIsValid(script, tables);
    var slot := script[r].ranked[k].node.slot;
    BookedIsTried(script, methodId, r, k, v);
    forall p | 0 <= p < q ensures tables[p] != [] && (r < p ==> ListsOther(tables[p], slot)) {
      PassedMeans(script, methodId, p);
      assert Walks(script[p], tables[p]);
      var l :| 0 <= l < |script[p].ranked|
          && script[p].ranked[l].node.slot !in Before(script, methodId, FRESH, p).tried;
      if r < p {
        StaysTried(script, methodId, r, p, slot);
        assert tables[p][l].slot != slot;
      }
    }
  }

  /** Two rounds that booked the name, the earlier one first. */
  lemma MovesBetween(script: seq<Round>, tables: seq<seq<Node>>, methodId: nat, r: nat, i: nat, v: Verdict, q: nat,
                     j: nat)
    requires Over(script, tables) && AllProper(tables)
    requires r < q < |RouteOf(script, methodId).reports|
    requires i < |script[r].ranked| && Books(script[r], RouteOf(script, methodId).reports[r], i, v)
    requires i < |tables[r]| && j < |tables[q]| && tables[r][i].slot != tables[q][j].slot
             && tables[r][i].name == tables[q][j].name
    requires Priced(tables[r][i], methodId) && Priced(tables[q][j], methodId)
    ensures Moves(tables, methodId, tables[r][i].name, r, i, q, j)
  {
    BookedRoundsPass(script, tables, methodId, r, i, v, q);
    assert Walks(script[r], tables[r]);
  }

  /** The table and the place in it that a booking comes from. */
  lemma BookedWhere(script: seq<Round>, tables: seq<seq<Node>>, reports: seq<Report>, x: Booking)
    returns (r: nat, k: nat, v: Verdict)
    requires Over(script, tables) && Fits(script, reports) && x in Bookings(script, reports)
    ensures r < |reports| && k < |script[r].ranked| && Books(script[r], reports[r], k, v)
    ensures k < |tables[r]| && tables[r][k] == x.node
  {
    r, k, v := BookedBy(script, reports, x);
    assert Walks(script[r], tables[r]);
  }

  lemma RoundsDiffer(tables: seq<seq<Node>>, r: nat, i: nat, q: nat, j: nat)
    requires AllProper(tables) && r < |tables| && q < |tables| && i < |tables[r]| && j < |tables[q]|
    requires tables[r][i].name == tables[q][j].name && tables[r][i].slot != tables[q][j].slot
    ensures r != q
  {
    assert Proper(tables[r]);
  }

  lemma TwoBookingsMove(script: seq<Round>, tables: seq<seq<Node>>, methodId: nat, reports: seq<Report>, x: Booking,
                        y: Booking)
    returns (r: nat, i: nat, q: nat, j: nat)
    requires Over(script, tables) && AllProper(tables) && reports == RouteOf(script, methodId).reports
    requires x in Bookings(script, reports) && y in Bookings(script, reports)
    requires x.node.name == y.node.name && x.node.slot != y.node.slot
    requires Priced(x.node, methodId) && Priced(y.node, methodId)
    ensures Moves(tables, methodId, x.node.name, r, i, q, j)
  {
    var v, w;
    r, i, v := BookedWhere(script, tables, reports, x);
    q, j, w := BookedWhere(script, tables, reports, y);
    RoundsDiffer(tables, r, i, q, j);
    if r < q {
      MovesBetween(script, tables, methodId, r, i, v, q, j);
    } else {
      MovesBetween(script, tables, methodId, q, j, w, r, i);
      r, i, q, j := q, j, r, i;
    }
  }

  /**
   By name, some request over a sequence of tables bills a node twice, exactly
   when the node moves to another slot while a request can be in flight.
   */
  lemma AskedTwiceIff(tables: seq<seq<Node>>, methodId: nat, name: string)
    requires AllProper(tables)
    ensures (exists script :: Over(script, tables) && BookedTwice(script, methodId, name))
       <==> (exists r, i, q, j :: Moves(tables, methodId, name, r, i, q, j))
  {
    if r, i, q, j :| Moves(tables, methodId, name, r, i, q, j) {
      StagedBooksTwice(tables, methodId, name, r, i, q, j);
      StagedIsOver(tables, r, i, q);
    }
    if script :| Over(script, tables) && BookedTwice(script, methodId, name) {
      OverIsValid(script, tables);
      OneAttemptOneBooking(script, methodId);
      var reports := RouteOf(script, methodId).reports;
      var b := Bookings(script, reports);
      var i, j :| 0 <= i < j < |b| && b[i].node.name == name && b[j].node.name == name;
      var r, k, q, l := TwoBookingsMove(script, tables, methodId, reports, b[i], b[j]);
    }
  }
}
