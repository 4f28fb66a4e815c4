/**
 The router's own loops: a bitmask of tried slots, a running minimum of the
 rate-limit waits, the first saturated node met, and a flag for penalties seen.
 Each method is proved to compute what `Routing` says a round and a request mean.
 */
module Router {
  import opened Wrappers
  import opened SlotMask
  import opened CostTable
  import opened Routing

  // ---------------------------------------------------------------------
  // The running variables of one walk
  // ---------------------------------------------------------------------

  ghost predicate IsShortest(verdicts: seq<Verdict>, best: Option<nat>) {
    match best
    case None => forall i :: 0 <= i < |verdicts| ==> !verdicts[i].RateLimited?
    case Some(b) =>
      && RateLimited(b) in verdicts
      && forall i :: 0 <= i < |verdicts| && verdicts[i].RateLimited? ==> b <= verdicts[i].wait
  }

  ghost predicate IsFirst(verdicts: seq<Verdict>, saturated: Option<nat>) {
    match saturated
    case None => forall i :: 0 <= i < |verdicts| ==> !verdicts[i].Saturated?
    case Some(at) =>
      && at < |verdicts| && verdicts[at].Saturated?
      && forall i :: 0 <= i < at ==> !verdicts[i].Saturated?
  }

  lemma RunningVariablesMean(verdicts: seq<Verdict>, best: Option<nat>, saturated: Option<nat>)
    requires IsShortest(verdicts, best) && IsFirst(verdicts, saturated)
    ensures best == ShortestWait(verdicts)
    ensures saturated == FirstSaturated(verdicts)
  {}

  lemma ShortestStep(verdicts: seq<Verdict>, best: Option<nat>, v: Verdict)
    requires IsShortest(verdicts, best)
    ensures IsShortest(verdicts + [v],
                       if v.RateLimited? && (best.None? || v.wait < best.value) then Some(v.wait) else best)
  {}

  lemma FirstStep(verdicts: seq<Verdict>, saturated: Option<nat>, v: Verdict)
    requires IsFirst(verdicts, saturated)
    ensures IsFirst(verdicts + [v], if v.Saturated? && saturated.None? then Some(|verdicts|) else saturated)
  {}

  lemma PenalizedStep(verdicts: seq<Verdict>, v: Verdict)
    ensures AnyPenalized(verdicts + [v]) <==> AnyPenalized(verdicts) || v.Penalized?
  {
    if i :| 0 <= i < |verdicts| && verdicts[i].Penalized? {
      assert (verdicts + [v])[i].Penalized?;
    }
    assert (verdicts + [v])[|verdicts|] == v;
  }

  lemma {:induction false} WalkBookingsSnoc(visits: seq<Visit>, verdicts: seq<Verdict>, v: Verdict)
    requires |verdicts| < |visits|
    ensures WalkBookings(visits, verdicts + [v]) ==
            WalkBookings(visits, verdicts) + BookingOf(visits[|verdicts|].node, v)
  {
    if verdicts == [] {
      assert ([] + [v])[1..] == [];
    } else {
      assert (verdicts + [v])[1..] == verdicts[1..] + [v];
      WalkBookingsSnoc(visits[1..], verdicts[1..], v);
    }
  }

  /** What the loop still owes: the walk of the nodes not visited yet. */
  ghost predicate Continues(visits: seq<Visit>, methodId: nat, tried0: set<Slot>, failOpen: bool,
                            i: nat, verdicts: seq<Verdict>, tried: set<Slot>)
    requires i <= |visits|
  {
    var rest := Walk(visits[i..], methodId, tried, failOpen);
    Walk(visits, methodId, tried0, failOpen) == Walked(verdicts + rest.verdicts, rest.tried)
  }

  lemma WalkStep(visits: seq<Visit>, methodId: nat, tried0: set<Slot>, failOpen: bool,
                 i: nat, verdicts: seq<Verdict>, tried: set<Slot>)
    requires i < |visits| && Continues(visits, methodId, tried0, failOpen, i, verdicts, tried)
    ensures var v := Decide(visits[i], methodId, tried, failOpen);
            var tried1 := Mark(v, visits[i].node.slot, tried);
            if Stops(v) then Walk(visits, methodId, tried0, failOpen) == Walked(verdicts + [v], tried1)
            else Continues(visits, methodId, tried0, failOpen, i + 1, verdicts + [v], tried1)
  {
    var v := Decide(visits[i], methodId, tried, failOpen);
    var tried1 := Mark(v, visits[i].node.slot, tried);
    assert visits[i..][0] == visits[i] && visits[i..][1..] == visits[i + 1..];
    if !Stops(v) {
      var rest := Walk(visits[i + 1..], methodId, tried1, failOpen);
      assert verdicts + ([v] + rest.verdicts) == (verdicts + [v]) + rest.verdicts;
    }
  }

  // ---------------------------------------------------------------------
  // One round
  // ---------------------------------------------------------------------

  /** What admission comes to, before anything is sent. */
  datatype Admission = Ready(cost: Price) | Skip | Wait(time: nat)

  /** Checks the quota and the price, and adds the cost. `booked` is what is added
      to the node's counter. */
  method BookCost(node: Node, methodId: nat, used: nat) returns (a: Admission, booked: seq<Booking>)
    ensures a == match Book(node, methodId, used) { case None => Skip case Some(cost) => Ready(cost) }
    ensures booked == if a.Ready? then [Booking(node, a.cost)] else []
  {
    if used > node.threshold {
      return Skip, [];
    }
    var cost := Cost(node.costs, methodId);
    if cost == UNPRICED {
      return Skip, [];
    }
    return Ready(cost), [Booking(node, cost)];
  }

  /** With the permit in hand: take a token, then book. */
  method AdmitWithPermit(node: Node, methodId: nat, grant: Grant) returns (a: Admission, booked: seq<Booking>)
    ensures match a
            case Ready(cost) => grant.Token? && Book(node, methodId, grant.used) == Some(cost)
                && booked == [Booking(node, cost)]
            case Skip => grant.Token? && Book(node, methodId, grant.used) == None && booked == []
            case Wait(time) => grant == NoToken(time) && booked == []
  {
    match grant {
      case NoToken(wait) => a, booked := Wait(wait), [];
      case Token(used, _) => a, booked := BookCost(node, methodId, used);
    }
  }

  /** Sends one attempt; how it ends is the environment's. */
  method AttemptOn(node: Node, ending: Answer) returns (answer: Answer, sent: seq<Slot>)
    ensures answer == ending && sent == [node.slot]
  {
    answer, sent := ending, [node.slot];
  }

  /** Admit the request on the node, mark the slot if it had its turn, and send the
      attempt if it was let in. */
  method Serve(node: Node, methodId: nat, grant: Grant, mask0: bv64)
    returns (v: Verdict, mask: bv64, booked: seq<Booking>, sent: seq<Slot>)
    ensures v == Admit(node, methodId, grant)
    ensures Members(mask) == Mark(v, node.slot, Members(mask0))
    ensures booked == BookingOf(node, v) && sent == SentTo(booked)
  {
    mask, sent := mask0, [];
    var a;
    a, booked := AdmitWithPermit(node, methodId, grant);
    match a {
      case Wait(time) => v := RateLimited(time);
      case Skip =>
        v := Skipped;
        mask := MarkTried(mask, node.slot);
      case Ready(cost) =>
        mask := MarkTried(mask, node.slot);
        var answer;
        answer, sent := AttemptOn(node, grant.answer);
        v := Attempted(cost, answer);
    }
  }

  /** One turn of the inner loop: the verdict on a node, and its bit. */
  method VisitNode(visit: Visit, methodId: nat, mask0: bv64, failOpen: bool)
    returns (v: Verdict, mask: bv64, booked: seq<Booking>, sent: seq<Slot>)
    ensures v == Decide(visit, methodId, Members(mask0), failOpen)
    ensures Members(mask) == Mark(v, visit.node.slot, Members(mask0))
    ensures booked == BookingOf(visit.node, v) && sent == SentTo(booked)
  {
    mask, booked, sent := mask0, [], [];
    var tried := IsTried(mask, visit.node.slot);
    if tried {
      v := AlreadyTried;
    } else if !failOpen && visit.penalized {
      v := Penalized;
    } else {
      match visit.offer {
        case NoPermit => v := Saturated;
        case Permit(grant) => v, mask, booked, sent := Serve(visit.node, methodId, grant, mask);
      }
    }
  }

  method WalkRound(visits: seq<Visit>, methodId: nat, mask0: bv64, failOpen: bool)
    returns (verdicts: seq<Verdict>, mask: bv64, best: Option<nat>, saturated: Option<nat>,
             penalized: bool, booked: seq<Booking>, sent: seq<Slot>)
    ensures Walk(visits, methodId, Members(mask0), failOpen) == Walked(verdicts, Members(mask))
    ensures best == ShortestWait(verdicts) && saturated == FirstSaturated(verdicts)
    ensures penalized <==> AnyPenalized(verdicts)
    ensures |verdicts| <= |visits| && booked == WalkBookings(visits, verdicts)
    ensures sent == SentTo(booked)
  {
    ghost var tried0 := Members(mask0);
    verdicts, mask, best, saturated, penalized, booked, sent := [], mask0, None, None, false, [], [];
    var i := 0;
    while i < |visits|
      invariant i <= |visits| && |verdicts| == i
      invariant Continues(visits, methodId, tried0, failOpen, i, verdicts, Members(mask))
      invariant IsShortest(verdicts, best) && IsFirst(verdicts, saturated)
      invariant penalized <==> AnyPenalized(verdicts)
      invariant booked == WalkBookings(visits, verdicts) && sent == SentTo(booked)
    {
      WalkStep(visits, methodId, tried0, failOpen, i, verdicts, Members(mask));
      var v, mask1, paid, tries := VisitNode(visits[i], methodId, mask, failOpen);
      ShortestStep(verdicts, best, v);
      FirstStep(verdicts, saturated, v);
      PenalizedStep(verdicts, v);
      WalkBookingsSnoc(visits, verdicts, v);
      SentToConcat(booked, paid);

      penalized := penalized || v.Penalized?;
      if v.RateLimited? && (best.None? || v.wait < best.value) {
        best := Some(v.wait);
      }
      if v.Saturated? && saturated.None? {
        saturated := Some(i);
      }
      mask, booked, sent, verdicts := mask1, booked + paid, sent + tries, verdicts + [v];
      if v.Attempted? && !v.answer.Retryable? {
        RunningVariablesMean(verdicts, best, saturated);
        return;
      }
      i := i + 1;
    }
    assert visits[i..] == [] && verdicts + [] == verdicts;
    RunningVariablesMean(verdicts, best, saturated);
  }

  function SentTo(booked: seq<Booking>): seq<Slot> {
    if booked == [] then [] else [booked[0].node.slot] + SentTo(booked[1..])
  }

  /** One attempt for every booking, to the slot booked, in the same order. */
  lemma {:induction false} SentToEach(booked: seq<Booking>)
    ensures |SentTo(booked)| == |booked|
    ensures forall i :: 0 <= i < |booked| ==> SentTo(booked)[i] == booked[i].node.slot
  {
    if booked != [] {
      SentToEach(booked[1..]);
    }
  }

  lemma {:induction false} SentToConcat(a: seq<Booking>, b: seq<Booking>)
    ensures SentTo(a + b) == SentTo(a) + SentTo(b)
  {
    if a == [] {
      assert [] + b == b;
    } else {
      assert (a + b)[1..] == a[1..] + b;
      SentToConcat(a[1..], b);
    }
  }

  // ---------------------------------------------------------------------
  // The whole request
  // ---------------------------------------------------------------------

  /** What the outer loop still owes: the run of the rounds not begun yet. */
  ghost predicate Owes(script: seq<Round>, methodId: nat, r: nat, reports: seq<Report>, tried: set<Slot>,
                       failOpen: bool)
    requires r <= |script|
  {
    var rest := Run(script[r..], methodId, tried, failOpen);
    RouteOf(script, methodId) == Trace(reports + rest.reports, rest.tried, rest.outcome)
  }

  lemma RunCons(round: Round, rest: seq<Round>, methodId: nat, tried: set<Slot>, failOpen: bool)
    ensures var s := StepOf(round, methodId, tried, failOpen);
            var t := Run([round] + rest, methodId, tried, failOpen);
            match s.returned
            case Some(outcome) => t == Trace([s.report], s.tried, outcome)
            case None =>
              var u := Run(rest, methodId, s.tried, failOpen || s.report.ending.FellOpen?);
              t == Trace([s.report] + u.reports, u.tried, u.outcome)
  {
    assert ([round] + rest)[1..] == rest;
  }

  lemma ReportsAssociate(a: seq<Report>, b: Report, c: seq<Report>)
    ensures a + ([b] + c) == (a + [b]) + c
  {}

  /** The rest of a run from round `r` on begins with that round. */
  lemma RunFrom(script: seq<Round>, methodId: nat, r: nat, tried: set<Slot>, failOpen: bool)
    requires r < |script|
    ensures var s := StepOf(script[r], methodId, tried, failOpen);
            var u := Run(script[r + 1..], methodId, s.tried, failOpen || s.report.ending.FellOpen?);
            Run(script[r..], methodId, tried, failOpen) ==
            match s.returned
            case Some(outcome) => Trace([s.report], s.tried, outcome)
            case None => Trace([s.report] + u.reports, u.tried, u.outcome)
  {
    assert script[r..] == [script[r]] + script[r + 1..];
    RunCons(script[r], script[r + 1..], methodId, tried, failOpen);
  }

  lemma RunReturns(script: seq<Round>, methodId: nat, r: nat, reports: seq<Report>, tried: set<Slot>, failOpen: bool)
    requires r < |script| && Owes(script, methodId, r, reports, tried, failOpen)
    requires StepOf(script[r], methodId, tried, failOpen).returned.Some?
    ensures var s := StepOf(script[r], methodId, tried, failOpen);
            RouteOf(script, methodId) == Trace(reports + [s.report], s.tried, s.returned.value)
  {
    RunFrom(script, methodId, r, tried, failOpen);
  }

  /** What is owed, given the rest of the run. */
  lemma OwesGiven(script: seq<Round>, methodId: nat, r: nat, reports: seq<Report>, at: set<Slot>, open: bool, u: Trace)
    requires r <= |script| && u == Run(script[r..], methodId, at, open)
    requires RouteOf(script, methodId) == Trace(reports + u.reports, u.tried, u.outcome)
    ensures Owes(script, methodId, r, reports, at, open)
  {}

  lemma RunGoesOn(script: seq<Round>, methodId: nat, r: nat, reports: seq<Report>, tried: set<Slot>, failOpen: bool)
    requires r < |script| && Owes(script, methodId, r, reports, tried, failOpen)
    requires StepOf(script[r], methodId, tried, failOpen).returned.None?
    ensures var s := StepOf(script[r], methodId, tried, failOpen);
            Owes(script, methodId, r + 1, reports + [s.report], s.tried, failOpen || s.report.ending.FellOpen?)
  {
    var s := StepOf(script[r], methodId, tried, failOpen);
    var open := failOpen || s.report.ending.FellOpen?;
    var u := Run(script[r + 1..], methodId, s.tried, open);
    RunFrom(script, methodId, r, tried, failOpen);
    ReportsAssociate(reports, s.report, u.reports);
    OwesGiven(script, methodId, r + 1, reports + [s.report], s.tried, open, u);
  }

  lemma {:induction false} BookingsSnoc(script: seq<Round>, reports: seq<Report>, report: Report)
    requires Fits(script, reports) && |reports| < |script| && Matches(script[|reports|], report)
    ensures Fits(script, reports + [report])
    ensures Bookings(script, reports + [report]) ==
            Bookings(script, reports) + RoundBookings(script[|reports|], report)
  {
    if reports == [] {
      assert ([] + [report])[1..] == [];
      assert Bookings(script[1..], []) == [];
    } else {
      assert (reports + [report])[0] == reports[0];
      assert (reports + [report])[1..] == reports[1..] + [report];
      assert script[1..][|reports| - 1] == script[|reports|];
      BookingsSnoc(script[1..], reports[1..], report);
    }
  }

  /** After the walk: sleep, park on the saturated node, drop the penalty check,
      or give up. `paid` and `tries` are what the parked node was billed and sent. */
  method FinishRound(round: Round, methodId: nat, verdicts: seq<Verdict>, mask0: bv64, failOpen: bool,
                     best: Option<nat>, saturated: Option<nat>, penalized: bool)
    returns (ending: Ending, mask: bv64, paid: seq<Booking>, tries: seq<Slot>)
    requires |verdicts| <= |round.ranked|
    requires best == ShortestWait(verdicts) && saturated == FirstSaturated(verdicts)
    requires penalized <==> AnyPenalized(verdicts)
    ensures ending == End(round, methodId, verdicts, failOpen)
    ensures paid == if ending.Served? then BookingOf(round.ranked[ending.at].node, ending.verdict) else []
    ensures tries == SentTo(paid)
    ensures Members(mask) == if ending.Served?
                             then Mark(ending.verdict, round.ranked[ending.at].node.slot, Members(mask0))
                             else Members(mask0)
  {
    mask, paid, tries := mask0, [], [];
    if verdicts != [] && Stops(verdicts[|verdicts| - 1]) {
      ending := Stopped;
    } else if best.Some? {
      ending := Slept(best.value);
    } else if saturated.None? {
      if penalized && !failOpen {
        ending := FellOpen;
      } else {
        ending := Exhausted;
      }
    } else {
      match round.parking {
        case Closed => ending := Shut(saturated.value);
        case Abandoned => ending := GaveUpWaiting(saturated.value);
        case Woken(grant) =>
          var v;
          v, mask, paid, tries := Serve(round.ranked[saturated.value].node, methodId, grant, mask);
          ending := Served(saturated.value, v);
      }
    }
  }

  method PlayRound(round: Round, methodId: nat, mask0: bv64, failOpen: bool)
    returns (report: Report, mask: bv64, returned: Option<Outcome>, booked: seq<Booking>, sent: seq<Slot>)
    ensures StepOf(round, methodId, Members(mask0), failOpen) == Step(report, Members(mask), returned)
    ensures Matches(round, report) && booked == RoundBookings(round, report)
    ensures sent == SentTo(booked)
  {
    var verdicts, best, saturated, penalized;
    verdicts, mask, best, saturated, penalized, booked, sent := WalkRound(round.ranked, methodId, mask0, failOpen);
    var ending, mask1, paid, tries :=
      FinishRound(round, methodId, verdicts, mask, failOpen, best, saturated, penalized);
    SentToConcat(booked, paid);
    mask, booked, sent, report := mask1, booked + paid, sent + tries, Report(verdicts, ending);
    returned := Returned(verdicts, ending);
  }

  /** The request is settled, with everything it did accounted for. */
  ghost predicate Settles(script: seq<Round>, methodId: nat, reports: seq<Report>, tried: set<Slot>, outcome: Outcome,
                          booked: seq<Booking>, sent: seq<Slot>)
  {
    && RouteOf(script, methodId) == Trace(reports, tried, outcome)
    && Fits(script, reports) && booked == Bookings(script, reports) && sent == SentTo(booked)
  }

  /** The request is between rounds. */
  ghost predicate UnderWay(script: seq<Round>, methodId: nat, reports: seq<Report>, tried: set<Slot>, failOpen: bool,
                           booked: seq<Booking>, sent: seq<Slot>)
  {
    && Fits(script, reports) && Owes(script, methodId, |reports|, reports, tried, failOpen)
    && booked == Bookings(script, reports) && sent == SentTo(booked)
  }

  lemma OneMoreRound(script: seq<Round>, methodId: nat, reports: seq<Report>, tried: set<Slot>, failOpen: bool,
                     booked: seq<Booking>, sent: seq<Slot>, s: Step, paid: seq<Booking>, tries: seq<Slot>)
    requires |reports| < |script| && UnderWay(script, methodId, reports, tried, failOpen, booked, sent)
    requires s == StepOf(script[|reports|], methodId, tried, failOpen)
    requires paid == RoundBookings(script[|reports|], s.report) && tries == SentTo(paid)
    ensures match s.returned
            case Some(outcome) =>
                Settles(script, methodId, reports + [s.report], s.tried, outcome, booked + paid, sent + tries)
            case None =>
                UnderWay(script, methodId, reports + [s.report], s.tried, failOpen || s.report.ending.FellOpen?,
                         booked + paid, sent + tries)
  {
    if s.returned.Some? {
      RunReturns(script, methodId, |reports|, reports, tried, failOpen);
    } else {
      RunGoesOn(script, methodId, |reports|, reports, tried, failOpen);
    }
    BookingsSnoc(script, reports, s.report);
    SentToConcat(booked, paid);
  }

  lemma NotBegun(script: seq<Round>, methodId: nat)
    ensures UnderWay(script, methodId, [], {}, false, [], [])
  {
    var t := RouteOf(script, methodId);
    assert script[0..] == script && [] + t.reports == t.reports;
  }

  lemma OutOfTime(script: seq<Round>, methodId: nat, reports: seq<Report>, tried: set<Slot>, failOpen: bool,
                  booked: seq<Booking>, sent: seq<Slot>)
    requires |reports| == |script| && UnderWay(script, methodId, reports, tried, failOpen, booked, sent)
    ensures Settles(script, methodId, reports, tried, TimedOut, booked, sent)
  {
    assert script[|script|..] == [] && reports + [] == reports;
  }

  /**
   Routes one request. The routing table is read again at the start of every
   round, so a reload or a new ranking reaches the retry loop; running out of
   script is the global budget expiring.
   */
  method Route(script: seq<Round>, methodId: nat)
    returns (outcome: Outcome, mask: bv64, reports: seq<Report>, booked: seq<Booking>, sent: seq<Slot>)
    ensures RouteOf(script, methodId) == Trace(reports, Members(mask), outcome)
    ensures Fits(script, reports) && booked == Bookings(script, reports)
    ensures sent == SentTo(booked)
  {
    EmptyMaskRefines();
    NotBegun(script, methodId);
    mask, reports, booked, sent := 0, [], [], [];
    var failOpen := false;
    var r := 0;
    while r < |script|
      invariant r <= |script| && |reports| == r
      invariant UnderWay(script, methodId, reports, Members(mask), failOpen, booked, sent)
    {
      ghost var tried := Members(mask);
      var report, mask1, returned, paid, tries := PlayRound(script[r], methodId, mask, failOpen);
      OneMoreRound(script, methodId, reports, tried, failOpen, booked, sent,
                   Step(report, Members(mask1), returned), paid, tries);
      mask, reports, booked, sent := mask1, reports + [report], booked + paid, sent + tries;
      if returned.Some? {
        outcome := returned.value;
        return;
      }
      failOpen := failOpen || report.ending.FellOpen?;
      r := r + 1;
    }
    outcome := TimedOut;
    OutOfTime(script, methodId, reports, Members(mask), failOpen, booked, sent);
  }
}
