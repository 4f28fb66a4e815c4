/**
 The law of a request, in the terms of what it meets and reports, with nothing of
 how the router computes it: what was said to every node in every round, how every
 round ended, when the request went on, and what the client got. Every run obeys
 the law, and the law leaves a run no choice.
 */
module RoutingLaw {
  import opened Wrappers
  import opened SlotMask
  import opened CostTable
  import opened Routing
  import opened RoutingTheorems
  import ByName
  import Billing

  // ---------------------------------------------------------------------
  // What is said to a node
  // ---------------------------------------------------------------------

  /** The node can be billed for the method: its counter is not above its threshold
      and its table has a price for the method, which the largest number is not. */
  ghost predicate CanServe(node: Node, methodId: nat, used: nat) {
    used <= node.threshold && methodId < |node.costs| && node.costs[methodId] != 0xFFFF_FFFF
  }

  /** With a permit in hand: no token, no attempt; with one, an attempt at the
      table's price exactly if the node can serve, or else a refusal. */
  ghost predicate GrantLaw(node: Node, methodId: nat, grant: Grant, v: Verdict) {
    && (v.RateLimited? <==> grant.NoToken?)
    && (v.RateLimited? ==> v.wait == grant.wait)
    && (v.Attempted? <==> grant.Token? && CanServe(node, methodId, grant.used))
    && (v.Attempted? ==> v.cost == node.costs[methodId] && v.answer == grant.answer)
    && (v.Skipped? <==> grant.Token? && !CanServe(node, methodId, grant.used))
  }

  /** A node is left alone if it had its turn, or is penalized while penalties count;
      it is saturated if it has no permit to give; otherwise it answers. */
  ghost predicate VisitLaw(visit: Visit, methodId: nat, tried: bool, open: bool, v: Verdict) {
    && (v.AlreadyTried? <==> tried)
    && (v.Penalized? <==> !tried && visit.penalized && !open)
    && (v.Saturated? <==> !tried && (open || !visit.penalized) && visit.offer.NoPermit?)
    && (!tried && (open || !visit.penalized) && visit.offer.Permit? ==>
      GrantLaw(visit.node, methodId, visit.offer.grant, v))
  }

  /** The attempt was the request's last: answered, or dropped. */
  ghost predicate Settles(v: Verdict) {
    v.Attempted? && (v.answer == Final || v.answer == Dropped)
  }

  ghost predicate Stopped(verdicts: seq<Verdict>) {
    verdicts != [] && Settles(verdicts[|verdicts| - 1])
  }

  // ---------------------------------------------------------------------
  // How a round ends
  // ---------------------------------------------------------------------

  ghost predicate Meets(verdicts: seq<Verdict>, v: Verdict) {
    exists i :: 0 <= i < |verdicts| && verdicts[i] == v
  }

  ghost predicate MeetsRateLimit(verdicts: seq<Verdict>) {
    exists i :: 0 <= i < |verdicts| && verdicts[i].RateLimited?
  }

  /** The walk neither stopped nor met a rate limit. */
  ghost predicate NothingToSleepOn(verdicts: seq<Verdict>) {
    !Stopped(verdicts) && !MeetsRateLimit(verdicts)
  }

  ghost predicate FirstBusy(verdicts: seq<Verdict>, at: nat) {
    at < |verdicts| && verdicts[at] == Saturated && forall i :: 0 <= i < at ==> verdicts[i] != Saturated
  }

  /** A rate limit is slept on, for the shortest wait met. */
  ghost predicate SleepLaw(verdicts: seq<Verdict>, ending: Ending) {
    && (ending.Slept? <==> !Stopped(verdicts) && MeetsRateLimit(verdicts))
    && (ending.Slept? ==> Meets(verdicts, RateLimited(ending.wait)))
    && (ending.Slept? ==>
      forall i :: 0 <= i < |verdicts| && verdicts[i].RateLimited? ==> ending.wait <= verdicts[i].wait)
  }

  /** With no rate limit to sleep on, the best-ranked busy node is waited for: a 502
      exactly on a closed semaphore, out of time exactly if the wait was abandoned,
      and otherwise its turn, like any other node's. */
  ghost predicate ParkLaw(round: Round, methodId: nat, verdicts: seq<Verdict>, ending: Ending) {
    var parks := NothingToSleepOn(verdicts) && Meets(verdicts, Saturated);
    && (ending.Shut? <==> parks && round.parking.Closed?)
    && (ending.GaveUpWaiting? <==> parks && round.parking.Abandoned?)
    && (ending.Served? <==> parks && round.parking.Woken?)
    && (ending.Shut? || ending.GaveUpWaiting? || ending.Served? ==> FirstBusy(verdicts, ending.at))
    && (ending.Served? && ending.at < |round.ranked| ==>
      GrantLaw(round.ranked[ending.at].node, methodId, round.parking.grant, ending.verdict))
  }

  /** With nobody to wait for: once, penalties are dropped; then the request gives up. */
  ghost predicate GiveUpLaw(verdicts: seq<Verdict>, open: bool, ending: Ending) {
    var nobody := NothingToSleepOn(verdicts) && !Meets(verdicts, Saturated);
    && (ending.FellOpen? <==> nobody && !open && Meets(verdicts, Penalized))
    && (ending.Exhausted? <==> nobody && (open || !Meets(verdicts, Penalized)))
  }

  ghost predicate EndingLaw(round: Round, methodId: nat, open: bool, verdicts: seq<Verdict>, ending: Ending) {
    && (ending.Stopped? <==> Stopped(verdicts))
    && SleepLaw(verdicts, ending)
    && ParkLaw(round, methodId, verdicts, ending)
    && GiveUpLaw(verdicts, open, ending)
  }

  // ---------------------------------------------------------------------
  // A whole run
  // ---------------------------------------------------------------------

  /** The slot was attempted or refused in the round, on the walk or after a wait. */
  ghost predicate GotTurn(round: Round, report: Report, slot: Slot)
    requires Matches(round, report)
  {
    || (exists i ::
          0 <= i < |report.verdicts| && round.ranked[i].node.slot == slot
          && (report.verdicts[i].Attempted? || report.verdicts[i].Skipped?))
    || (&& report.ending.Served? && round.ranked[report.ending.at].node.slot == slot
        && (report.ending.verdict.Attempted? || report.ending.verdict.Skipped?))
  }

  ghost predicate TriedBefore(script: seq<Round>, reports: seq<Report>, r: nat, slot: Slot)
    requires Fits(script, reports) && r <= |reports|
  {
    exists q :: 0 <= q < r && GotTurn(script[q], reports[q], slot)
  }

  ghost predicate OpenBefore(reports: seq<Report>, r: nat)
    requires r <= |reports|
  {
    exists q :: 0 <= q < r && reports[q].ending.FellOpen?
  }

  /** Round `r` asks its nodes in ranked order, up to the one that settles the
      request, and ends as the law says. */
  ghost predicate RoundLaw(script: seq<Round>, methodId: nat, reports: seq<Report>, r: nat)
    requires Fits(script, reports) && r < |reports|
  {
    var round, verdicts, open := script[r], reports[r].verdicts, OpenBefore(reports, r);
    && (forall i :: 0 <= i < |verdicts| ==>
      var tried := TriedBefore(script, reports, r, round.ranked[i].node.slot);
      VisitLaw(round.ranked[i], methodId, tried, open, verdicts[i]))
    && (forall i :: 0 <= i < |verdicts| - 1 ==> !Settles(verdicts[i]))
    && (|verdicts| == |round.ranked| || Stopped(verdicts))
    && EndingLaw(round, methodId, open, verdicts, reports[r].ending)
  }

  /** Another round follows a sleep, a fail-open, and the turn of a parked node that
      did not settle the request. */
  ghost predicate GoesOnAfter(ending: Ending) {
    ending.Slept? || ending.FellOpen? || (ending.Served? && !Settles(ending.verdict))
  }

  /** The attempt that ended the round was answered for good. */
  ghost predicate Answered(report: Report) {
    || (&& report.ending.Stopped? && report.verdicts != []
        && report.verdicts[|report.verdicts| - 1].Attempted? && report.verdicts[|report.verdicts| - 1].answer == Final)
    || (report.ending.Served? && report.ending.verdict.Attempted? && report.ending.verdict.answer == Final)
  }

  /** The client gets an answer exactly if the last attempt was answered, a 502
      exactly if the last round gave up or found the semaphore closed, and runs out
      of time otherwise. */
  ghost predicate OutcomeLaw(reports: seq<Report>, outcome: Outcome) {
    && (outcome == Forwarded <==> reports != [] && Answered(reports[|reports| - 1]))
    && (outcome == AllNodesFailed <==>
      && reports != []
      && (reports[|reports| - 1].ending.Exhausted? || reports[|reports| - 1].ending.Shut?))
  }

  ghost predicate Lawful(script: seq<Round>, methodId: nat, reports: seq<Report>, outcome: Outcome) {
    && Fits(script, reports)
    && (forall r :: 0 <= r < |reports| ==> RoundLaw(script, methodId, reports, r))
    && (forall r :: 0 <= r < |reports| - 1 ==> GoesOnAfter(reports[r].ending))
    && (|reports| == |script| || (reports != [] && !GoesOnAfter(reports[|reports| - 1].ending)))
    && OutcomeLaw(reports, outcome)
  }

  // ---------------------------------------------------------------------
  // Every run obeys it
  // ---------------------------------------------------------------------

  lemma AdmitObeys(node: Node, methodId: nat, grant: Grant)
    ensures GrantLaw(node, methodId, grant, Admit(node, methodId, grant))
  {}

  lemma DecideObeys(visit: Visit, methodId: nat, tried: set<Slot>, open: bool)
    ensures VisitLaw(visit, methodId, visit.node.slot in tried, open, Decide(visit, methodId, tried, open))
  {
    if visit.offer.Permit? {
      AdmitObeys(visit.node, methodId, visit.offer.grant);
    }
  }

  lemma MeetsIs(verdicts: seq<Verdict>)
    ensures forall v :: Meets(verdicts, v) <==> v in verdicts
    ensures MeetsRateLimit(verdicts) <==> ShortestWait(verdicts).Some?
    ensures Meets(verdicts, Saturated) <==> FirstSaturated(verdicts).Some?
    ensures Meets(verdicts, Penalized) <==> AnyPenalized(verdicts)
  {
    if MeetsRateLimit(verdicts) {
      var i :| 0 <= i < |verdicts| && verdicts[i].RateLimited?;
      assert verdicts[i] in verdicts;
    }
  }

  lemma EndObeys(round: Round, methodId: nat, verdicts: seq<Verdict>, open: bool)
    requires |verdicts| <= |round.ranked|
    ensures EndingLaw(round, methodId, open, verdicts, End(round, methodId, verdicts, open))
  {
    MeetsIs(verdicts);
    var ending := End(round, methodId, verdicts, open);
    if ending.Served? {
      AdmitObeys(round.ranked[ending.at].node, methodId, round.parking.grant);
    }
    if ending.Slept? {
      forall i | 0 <= i < |verdicts| && verdicts[i].RateLimited? ensures ending.wait <= verdicts[i].wait {
        assert verdicts[i] in verdicts;
      }
    }
  }

  /** On the walk, marking a slot is giving it its turn. */
  lemma WalkTries(visits: seq<Visit>, verdicts: seq<Verdict>, slot: Slot)
    requires |verdicts| <= |visits|
    ensures slot in Marked(visits, verdicts)
       <==> exists i :: 0 <= i < |verdicts| && visits[i].node.slot == slot
                        && (verdicts[i].Attempted? || verdicts[i].Skipped?)
  {}

  lemma ServeTries(round: Round, report: Report, tried: set<Slot>, slot: Slot)
    requires Matches(round, report) && report.ending.Served?
    ensures var node := round.ranked[report.ending.at].node;
            slot in Mark(report.ending.verdict, node.slot, tried)
            <==> slot in tried
                 || (node.slot == slot && (report.ending.verdict.Attempted? || report.ending.verdict.Skipped?))
  {}

  /** What is tried after a round was tried before it or got its turn in it. */
  lemma StepTries(round: Round, methodId: nat, tried: set<Slot>, open: bool, slot: Slot)
    requires DistinctSlots(round.ranked)
    ensures var s := StepOf(round, methodId, tried, open);
            slot in s.tried <==> slot in tried || GotTurn(round, s.report, slot)
  {
    var w, s := Walk(round.ranked, methodId, tried, open), StepOf(round, methodId, tried, open);
    WalkIsPointwise(round.ranked, methodId, tried, open);
    WalkTries(round.ranked, w.verdicts, slot);
    if s.report.ending.Served? {
      ServeTries(round, s.report, w.tried, slot);
    }
  }

  lemma TriedOneMore(script: seq<Round>, reports: seq<Report>, q: nat, slot: Slot)
    requires Fits(script, reports) && q < |reports|
    ensures TriedBefore(script, reports, q + 1, slot)
       <==> TriedBefore(script, reports, q, slot) || GotTurn(script[q], reports[q], slot)
    ensures OpenBefore(reports, q + 1) <==> OpenBefore(reports, q) || reports[q].ending.FellOpen?
  {}

  /** A round's report, and the standing it leaves. */
  lemma RoundIsStep(script: seq<Round>, methodId: nat, q: nat)
    requires q < |RouteOf(script, methodId).reports|
    ensures var b := Before(script, methodId, FRESH, q);
            var s := StepOf(script[q], methodId, b.tried, b.failOpen);
            && RouteOf(script, methodId).reports[q] == s.report
            && Before(script, methodId, FRESH, q + 1) == Advance(s, b)
  {
    RoundAt(script, methodId, FRESH, q);
    ByName.StandingNext(RuleOf(methodId), script, FRESH, q);
  }

  /** The standing is what the reports before round `r` say. */
  ghost predicate Reported(script: seq<Round>, reports: seq<Report>, r: nat, b: Standing)
    requires Fits(script, reports) && r <= |reports|
  {
    && (forall slot: Slot :: slot in b.tried <==> TriedBefore(script, reports, r, slot))
    && (b.failOpen <==> OpenBefore(reports, r))
  }

  lemma ReportedOneMore(script: seq<Round>, methodId: nat, reports: seq<Report>, q: nat, b: Standing, next: Standing)
    requires ValidScript(script) && Fits(script, reports) && q < |reports| && Reported(script, reports, q, b)
    requires reports[q] == StepOf(script[q], methodId, b.tried, b.failOpen).report
    requires next == Advance(StepOf(script[q], methodId, b.tried, b.failOpen), b)
    ensures Reported(script, reports, q + 1, next)
  {
    forall slot: Slot ensures slot in next.tried <==> TriedBefore(script, reports, q + 1, slot) {
      StepTries(script[q], methodId, b.tried, b.failOpen, slot);
      TriedOneMore(script, reports, q, slot);
    }
    TriedOneMore(script, reports, q, 0);
  }

  /** Round `q` leads from one standing to the next, with the report given. */
  ghost predicate LeadsOn(script: seq<Round>, methodId: nat, reports: seq<Report>, st: seq<Standing>, q: nat)
    requires |reports| <= |script| && |st| == |reports| + 1 && q < |reports|
  {
    var s := StepOf(script[q], methodId, st[q].tried, st[q].failOpen);
    reports[q] == s.report && st[q + 1] == Advance(s, st[q])
  }

  lemma {:induction false} ReportedAlong(script: seq<Round>, methodId: nat, reports: seq<Report>, st: seq<Standing>,
                                         r: nat)
    requires ValidScript(script) && Fits(script, reports) && |st| == |reports| + 1 && st[0] == FRESH && r <= |reports|
    requires forall q :: 0 <= q < |reports| ==> LeadsOn(script, methodId, reports, st, q)
    ensures Reported(script, reports, r, st[r])
  {
    if r > 0 {
      ReportedAlong(script, methodId, reports, st, r - 1);
      assert LeadsOn(script, methodId, reports, st, r - 1);
      ReportedOneMore(script, methodId, reports, r - 1, st[r - 1], st[r]);
    }
  }

  ghost function StandingsOf(script: seq<Round>, methodId: nat, n: nat): (st: seq<Standing>)
    requires n <= |script|
    ensures |st| == n + 1 && forall q :: 0 <= q <= n ==> st[q] == Before(script, methodId, FRESH, q)
  {
    seq(n + 1, q requires 0 <= q <= n => Before(script, methodId, FRESH, q))
  }

  lemma RoundLeadsOn(script: seq<Round>, methodId: nat, q: nat)
    requires q < |RouteOf(script, methodId).reports|
    ensures var reports := RouteOf(script, methodId).reports;
            LeadsOn(script, methodId, reports, StandingsOf(script, methodId, |reports|), q)
  {
    RoundIsStep(script, methodId, q);
  }

  /** Before round `r` the run stands where its reports so far say. */
  lemma StandingIsReported(script: seq<Round>, methodId: nat, r: nat)
    requires ValidScript(script) && r <= |RouteOf(script, methodId).reports|
    ensures Reported(script, RouteOf(script, methodId).reports, r, Before(script, methodId, FRESH, r))
  {
    var reports := RouteOf(script, methodId).reports;
    var st := StandingsOf(script, methodId, |reports|);
    forall q | 0 <= q < |reports| ensures LeadsOn(script, methodId, reports, st, q) {
      RoundLeadsOn(script, methodId, q);
    }
    ReportedAlong(script, methodId, reports, st, r);
  }

  ghost predicate WalkLaw(round: Round, methodId: nat, b: Standing, verdicts: seq<Verdict>) {
    && |verdicts| <= |round.ranked|
    && (forall i :: 0 <= i < |verdicts| ==>
      VisitLaw(round.ranked[i], methodId, round.ranked[i].node.slot in b.tried, b.failOpen, verdicts[i]))
    && (forall i :: 0 <= i < |verdicts| - 1 ==> !Settles(verdicts[i]))
    && (|verdicts| == |round.ranked| || Stopped(verdicts))
  }

  lemma WalkObeys(round: Round, methodId: nat, b: Standing)
    requires DistinctSlots(round.ranked)
    ensures WalkLaw(round, methodId, b, Walk(round.ranked, methodId, b.tried, b.failOpen).verdicts)
  {
    var verdicts := Walk(round.ranked, methodId, b.tried, b.failOpen).verdicts;
    WalkIsPointwise(round.ranked, methodId, b.tried, b.failOpen);
    forall i | 0 <= i < |verdicts|
      ensures VisitLaw(round.ranked[i], methodId, round.ranked[i].node.slot in b.tried, b.failOpen, verdicts[i])
    {
      DecideObeys(round.ranked[i], methodId, b.tried, b.failOpen);
    }
  }

  lemma StepObeys(round: Round, methodId: nat, b: Standing)
    requires DistinctSlots(round.ranked)
    ensures var report := StepOf(round, methodId, b.tried, b.failOpen).report;
            && WalkLaw(round, methodId, b, report.verdicts)
            && EndingLaw(round, methodId, b.failOpen, report.verdicts, report.ending)
  {
    WalkObeys(round, methodId, b);
    EndObeys(round, methodId, Walk(round.ranked, methodId, b.tried, b.failOpen).verdicts, b.failOpen);
  }

  lemma LawFromStanding(script: seq<Round>, methodId: nat, reports: seq<Report>, r: nat, b: Standing)
    requires Fits(script, reports) && r < |reports| && Reported(script, reports, r, b)
    requires WalkLaw(script[r], methodId, b, reports[r].verdicts)
    requires EndingLaw(script[r], methodId, b.failOpen, reports[r].verdicts, reports[r].ending)
    ensures RoundLaw(script, methodId, reports, r)
  {}

  /** One round of a run, from where it stands. */
  lemma RoundObeys(script: seq<Round>, methodId: nat, r: nat)
    requires ValidScript(script) && r < |RouteOf(script, methodId).reports|
    ensures RoundLaw(script, methodId, RouteOf(script, methodId).reports, r)
  {
    var b := Before(script, methodId, FRESH, r);
    StandingIsReported(script, methodId, r);
    RoundIsStep(script, methodId, r);
    StepObeys(script[r], methodId, b);
    LawFromStanding(script, methodId, RouteOf(script, methodId).reports, r, b);
  }

  lemma ReturnObeys(round: Round, methodId: nat, b: Standing)
    ensures var s := StepOf(round, methodId, b.tried, b.failOpen);
            && (s.returned.None? <==> GoesOnAfter(s.report.ending))
            && (s.returned == Some(Forwarded) <==> Answered(s.report))
            && (s.returned == Some(AllNodesFailed) <==> s.report.ending.Exhausted? || s.report.ending.Shut?)
  {}

  lemma NoRounds(script: seq<Round>, methodId: nat)
    requires RouteOf(script, methodId).reports == []
    ensures script == [] && RouteOf(script, methodId).outcome == TimedOut
  {}

  /** Every run obeys the law. */
  lemma RouteIsLawful(script: seq<Round>, methodId: nat)
    requires ValidScript(script)
    ensures var t := RouteOf(script, methodId); Lawful(script, methodId, t.reports, t.outcome)
  {
    var t := RouteOf(script, methodId);
    forall r | 0 <= r < |t.reports|
      ensures RoundLaw(script, methodId, t.reports, r)
      ensures r < |t.reports| - 1 ==> GoesOnAfter(t.reports[r].ending)
    {
      RoundObeys(script, methodId, r);
      RoundAt(script, methodId, FRESH, r);
      ReturnObeys(script[r], methodId, Before(script, methodId, FRESH, r));
    }
    if t.reports != [] {
      var last := |t.reports| - 1;
      RoundAt(script, methodId, FRESH, last);
      ReturnObeys(script[last], methodId, Before(script, methodId, FRESH, last));
    } else {
      NoRounds(script, methodId);
    }
  }

  // ---------------------------------------------------------------------
  // It leaves no choice
  // ---------------------------------------------------------------------

  lemma GrantLawDecides(node: Node, methodId: nat, grant: Grant, v: Verdict, w: Verdict)
    requires GrantLaw(node, methodId, grant, v) && GrantLaw(node, methodId, grant, w)
    ensures v == w
  {}

  lemma VisitLawDecides(visit: Visit, methodId: nat, tried: bool, open: bool, v: Verdict, w: Verdict)
    requires VisitLaw(visit, methodId, tried, open, v) && VisitLaw(visit, methodId, tried, open, w)
    ensures v == w
  {
    if !tried && (open || !visit.penalized) && visit.offer.Permit? {
      GrantLawDecides(visit.node, methodId, visit.offer.grant, v, w);
    }
  }

  lemma EndingLawDecides(round: Round, methodId: nat, open: bool, verdicts: seq<Verdict>, e: Ending, f: Ending)
    requires |verdicts| <= |round.ranked|
    requires EndingLaw(round, methodId, open, verdicts, e) && EndingLaw(round, methodId, open, verdicts, f)
    ensures e == f
  {
    if e.Slept? {
      var i :| 0 <= i < |verdicts| && verdicts[i] == RateLimited(e.wait);
      var j :| 0 <= j < |verdicts| && verdicts[j] == RateLimited(f.wait);
      assert e.wait <= verdicts[j].wait && f.wait <= verdicts[i].wait;
    } else if e.Served? {
      GrantLawDecides(round.ranked[e.at].node, methodId, round.parking.grant, e.verdict, f.verdict);
    }
  }

  lemma WalkLawDecides(round: Round, methodId: nat, b: Standing, v: seq<Verdict>, w: seq<Verdict>)
    requires WalkLaw(round, methodId, b, v) && WalkLaw(round, methodId, b, w)
    ensures v == w
  {
    forall i | 0 <= i < |v| && i < |w| ensures v[i] == w[i] {
      VisitLawDecides(round.ranked[i], methodId, round.ranked[i].node.slot in b.tried, b.failOpen, v[i], w[i]);
    }
  }

  /** The law as seen from a standing that says what the reports say. */
  lemma LawToStanding(script: seq<Round>, methodId: nat, reports: seq<Report>, r: nat, b: Standing)
    requires Fits(script, reports) && r < |reports| && Reported(script, reports, r, b)
    requires RoundLaw(script, methodId, reports, r)
    ensures WalkLaw(script[r], methodId, b, reports[r].verdicts)
    ensures EndingLaw(script[r], methodId, b.failOpen, reports[r].verdicts, reports[r].ending)
  {}

  lemma ReportedByPrefix(script: seq<Round>, x: seq<Report>, y: seq<Report>, r: nat, b: Standing)
    requires Fits(script, x) && Fits(script, y) && r <= |x| && r <= |y| && x[..r] == y[..r]
    requires Reported(script, x, r, b)
    ensures Reported(script, y, r, b)
  {
    assert forall q :: 0 <= q < r ==> x[q] == x[..r][q] == y[..r][q] == y[q];
  }

  /** Two lawful runs that agreed so far agree on the next round. */
  lemma NextRoundAgrees(script: seq<Round>, methodId: nat, x: seq<Report>, y: seq<Report>, r: nat, b: Standing)
    requires Fits(script, x) && Fits(script, y) && r < |x| && r < |y| && x[..r] == y[..r]
    requires Reported(script, x, r, b)
    requires RoundLaw(script, methodId, x, r) && RoundLaw(script, methodId, y, r)
    ensures x[r] == y[r]
  {
    ReportedByPrefix(script, x, y, r, b);
    LawToStanding(script, methodId, x, r, b);
    LawToStanding(script, methodId, y, r, b);
    WalkLawDecides(script[r], methodId, b, x[r].verdicts, y[r].verdicts);
    EndingLawDecides(script[r], methodId, b.failOpen, x[r].verdicts, x[r].ending, y[r].ending);
  }

  lemma PrefixGrows(x: seq<Report>, y: seq<Report>, r: nat)
    requires r < |x| && r < |y| && x[..r] == y[..r] && x[r] == y[r]
    ensures x[..r + 1] == y[..r + 1]
  {
    assert x[..r + 1] == x[..r] + [x[r]] && y[..r + 1] == y[..r] + [y[r]];
  }

  /** Both obey the law in round `q`, and the first stands as it reports. */
  ghost predicate BothObey(script: seq<Round>, methodId: nat, x: seq<Report>, y: seq<Report>, q: nat)
    requires Fits(script, x) && Fits(script, y) && q < |x| && q < |y|
  {
    && RoundLaw(script, methodId, x, q) && RoundLaw(script, methodId, y, q)
    && exists b :: Reported(script, x, q, b)
  }

  lemma {:induction false} PrefixesAgree(script: seq<Round>, methodId: nat, x: seq<Report>, y: seq<Report>, r: nat)
    requires Fits(script, x) && Fits(script, y) && r <= |x| && r <= |y|
    requires forall q :: 0 <= q < r ==> BothObey(script, methodId, x, y, q)
    ensures x[..r] == y[..r]
  {
    if r > 0 {
      PrefixesAgree(script, methodId, x, y, r - 1);
      assert BothObey(script, methodId, x, y, r - 1);
      var b :| Reported(script, x, r - 1, b);
      NextRoundAgrees(script, methodId, x, y, r - 1, b);
      PrefixGrows(x, y, r - 1);
    }
  }

  lemma RoutesAgree(script: seq<Round>, methodId: nat, y: seq<Report>, outcome: Outcome, r: nat)
    requires ValidScript(script) && Lawful(script, methodId, y, outcome)
    requires r <= |y| && r <= |RouteOf(script, methodId).reports|
    ensures RouteOf(script, methodId).reports[..r] == y[..r]
  {
    var x := RouteOf(script, methodId).reports;
    forall q | 0 <= q < r ensures BothObey(script, methodId, x, y, q) {
      RoundObeys(script, methodId, q);
      StandingIsReported(script, methodId, q);
    }
    PrefixesAgree(script, methodId, x, y, r);
  }

  lemma SameLength(script: seq<Round>, methodId: nat, x: seq<Report>, o: Outcome, y: seq<Report>, p: Outcome)
    requires Lawful(script, methodId, x, o) && Lawful(script, methodId, y, p)
    requires |x| <= |y| && x == y[..|x|]
    ensures x == y && o == p
  {
    assert forall i :: 0 <= i < |x| ==> y[i] == y[..|x|][i] == x[i];
  }

  /** The law leaves a run no choice: whatever obeys it is what routing does. */
  lemma LawfulIsRoute(script: seq<Round>, methodId: nat, reports: seq<Report>, outcome: Outcome)
    requires ValidScript(script)
    ensures Lawful(script, methodId, reports, outcome)
       <==> var t := RouteOf(script, methodId); reports == t.reports && outcome == t.outcome
  {
    RouteIsLawful(script, methodId);
    var t := RouteOf(script, methodId);
    if Lawful(script, methodId, reports, outcome) {
      if |t.reports| <= |reports| {
        RoutesAgree(script, methodId, reports, outcome, |t.reports|);
        SameLength(script, methodId, t.reports, t.outcome, reports, outcome);
      } else {
        RoutesAgree(script, methodId, reports, outcome, |reports|);
        SameLength(script, methodId, reports, outcome, t.reports, t.outcome);
      }
    }
  }

  // ---------------------------------------------------------------------
  // Billing's check is the router's
  // ---------------------------------------------------------------------

  /** In state `s` of the node's slot, flight `f` is this visit: it holds the node's
      permit and reads the counter the visit reads. */
  ghost predicate IsVisit(s: Billing.State, f: nat, node: Node, used: nat) {
    && f < |s.flights| && s.flights[f].phase == Billing.Holding && s.flights[f].owner < |s.owners|
    && s.owners[s.flights[f].owner].threshold == node.threshold && s.owners[s.flights[f].owner].costs == node.costs
    && s.usage == used
  }

  ghost predicate CanCheck(s: Billing.State, f: nat, methodId: nat, cost: Price) {
    exists s' :: Billing.Check(s, s', f, methodId) && s'.flights[f].phase == Billing.Checked(cost)
  }

  /** An attempt is a check of the billing protocol that was enabled, at the price
      attempted; a refusal is one that was not. */
  lemma AttemptIsACheck(node: Node, methodId: nat, grant: Grant, v: Verdict, s: Billing.State, f: nat)
    requires GrantLaw(node, methodId, grant, v) && grant.Token? && IsVisit(s, f, node, grant.used)
    ensures v.Attempted? ==> CanCheck(s, f, methodId, v.cost)
    ensures v.Skipped? ==> forall s' :: !Billing.Check(s, s', f, methodId)
  {
    if v.Attempted? {
      var s' := s.(flights := s.flights[f := s.flights[f].(phase := Billing.Checked(v.cost))]);
      assert Billing.Check(s, s', f, methodId);
    }
  }
}
