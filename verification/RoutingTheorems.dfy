/**
 What routing promises over whole requests, for every sequence of routing
 tables and every answer the nodes may give: one attempt and one booking per
 slot, an honest 502, bounded retrying, and the order nodes are offered a
 request in.
 */
module RoutingTheorems {
  import opened Wrappers
  import opened SlotMask
  import opened CostTable
  import opened Routing

  // ---------------------------------------------------------------------
  // One walk, node by node
  // ---------------------------------------------------------------------

  ghost function Marked(visits: seq<Visit>, verdicts: seq<Verdict>): set<Slot>
    requires |verdicts| <= |visits|
  {
    set i | 0 <= i < |verdicts| && Marks(verdicts[i]) :: visits[i].node.slot
  }

  /** Every verdict is the one its node gets when judged alone. */
  ghost predicate JudgedAlone(visits: seq<Visit>, methodId: nat, tried: set<Slot>, failOpen: bool,
                              verdicts: seq<Verdict>)
  {
    && |verdicts| <= |visits|
    && forall i :: 0 <= i < |verdicts| ==> verdicts[i] == Decide(visits[i], methodId, tried, failOpen)
  }

  /** A walk ends early only on the attempt that ends the request. */
  ghost predicate StopsOnlyAtEnd(visits: seq<Visit>, verdicts: seq<Verdict>) {
    && (forall i :: 0 <= i < |verdicts| - 1 ==> !Stops(verdicts[i]))
    && (|verdicts| < |visits| ==> verdicts != [] && Stops(verdicts[|verdicts| - 1]))
  }

  /** A walk is a map: each node is judged as if it were alone, because no two
      ranked nodes share a slot. */
  ghost predicate IsPointwise(visits: seq<Visit>, methodId: nat, tried: set<Slot>, failOpen: bool, w: Walked) {
    && JudgedAlone(visits, methodId, tried, failOpen, w.verdicts)
    && StopsOnlyAtEnd(visits, w.verdicts)
    && w.tried == tried + Marked(visits, w.verdicts)
  }

  lemma MarkedCons(visits: seq<Visit>, verdicts: seq<Verdict>)
    requires 0 < |verdicts| <= |visits|
    ensures Marked(visits, verdicts) ==
            Marked(visits[1..], verdicts[1..]) + if Marks(verdicts[0]) then {visits[0].node.slot} else {}
  {}

  lemma JudgedAloneCons(visits: seq<Visit>, methodId: nat, tried: set<Slot>, failOpen: bool, v: Verdict,
                        rest: seq<Verdict>)
    requires visits != [] && DistinctSlots(visits)
    requires v == Decide(visits[0], methodId, tried, failOpen)
    requires JudgedAlone(visits[1..], methodId, Mark(v, visits[0].node.slot, tried), failOpen, rest)
    ensures JudgedAlone(visits, methodId, tried, failOpen, [v] + rest)
  {}

  lemma StopsOnlyAtEndCons(visits: seq<Visit>, v: Verdict, rest: seq<Verdict>)
    requires visits != [] && !Stops(v) && StopsOnlyAtEnd(visits[1..], rest)
    ensures StopsOnlyAtEnd(visits, [v] + rest)
  {}

  lemma {:induction false} WalkIsPointwise(visits: seq<Visit>, methodId: nat, tried: set<Slot>, failOpen: bool)
    requires DistinctSlots(visits)
    ensures IsPointwise(visits, methodId, tried, failOpen, Walk(visits, methodId, tried, failOpen))
  {
    if visits != [] {
      var v := Decide(visits[0], methodId, tried, failOpen);
      if Stops(v) {
        MarkedCons(visits, [v]);
      } else {
        var rest := Walk(visits[1..], methodId, Mark(v, visits[0].node.slot, tried), failOpen);
        WalkIsPointwise(visits[1..], methodId, Mark(v, visits[0].node.slot, tried), failOpen);
        JudgedAloneCons(visits, methodId, tried, failOpen, v, rest.verdicts);
        StopsOnlyAtEndCons(visits, v, rest.verdicts);
        MarkedCons(visits, [v] + rest.verdicts);
        assert ([v] + rest.verdicts)[1..] == rest.verdicts;
      }
    }
  }

  // ---------------------------------------------------------------------
  // One round
  // ---------------------------------------------------------------------

  /** A verdict that leaves nothing to wait for and nothing to come back to. */
  predicate Spent(v: Verdict) {
    v.AlreadyTried? || v.Skipped? || v.Attempted?
  }

  /** How a round can end with nothing to wait for, read off its verdicts. */
  lemma NothingToWaitFor(round: Round, methodId: nat, verdicts: seq<Verdict>, failOpen: bool)
    requires |verdicts| <= |round.ranked|
    ensures var ending := End(round, methodId, verdicts, failOpen);
            && (ending.Exhausted? || ending.FellOpen?
                <==> !ending.Stopped?
                     && forall i :: 0 <= i < |verdicts| ==> verdicts[i].Penalized? || Spent(verdicts[i]))
            && (ending.FellOpen? ==> !failOpen && AnyPenalized(verdicts))
            && (ending.Exhausted? ==> failOpen || !AnyPenalized(verdicts))
  {
    var wait := ShortestWait(verdicts);
    var at := FirstSaturated(verdicts);
    if wait.None? && at.None? {
      forall i | 0 <= i < |verdicts| ensures verdicts[i].Penalized? || Spent(verdicts[i]) {
        assert verdicts[i] in verdicts;
      }
    } else if wait.Some? {
      var i :| 0 <= i < |verdicts| && verdicts[i] == RateLimited(wait.value);
    }
  }

  lemma TriedIffSpent(visits: seq<Visit>, methodId: nat, tried: set<Slot>, failOpen: bool, w: Walked, i: nat)
    requires DistinctSlots(visits) && IsPointwise(visits, methodId, tried, failOpen, w) && i < |w.verdicts|
    ensures Spent(w.verdicts[i]) <==> visits[i].node.slot in w.tried
  {
    if Marks(w.verdicts[i]) {
      assert visits[i].node.slot in Marked(visits, w.verdicts);
    } else if !w.verdicts[i].AlreadyTried? {
      assert visits[i].node.slot !in Marked(visits, w.verdicts);
    }
  }

  /** A round gives up exactly when the walk ran to its end and every slot of
      the table it read has been tried. */
  lemma ExhaustedIff(round: Round, methodId: nat, tried: set<Slot>, failOpen: bool, w: Walked)
    requires DistinctSlots(round.ranked) && IsPointwise(round.ranked, methodId, tried, failOpen, w)
    ensures var ending := End(round, methodId, w.verdicts, failOpen);
            && (ending.Exhausted? <==> !ending.Stopped? && SlotsOf(round.ranked) <= w.tried)
            && (ending.Exhausted? ==> |w.verdicts| == |round.ranked|
                                      && forall i :: 0 <= i < |w.verdicts| ==> Spent(w.verdicts[i]))
  {
    NothingToWaitFor(round, methodId, w.verdicts, failOpen);
    forall i | 0 <= i < |w.verdicts|
      ensures Spent(w.verdicts[i]) <==> round.ranked[i].node.slot in w.tried
      ensures round.ranked[i].node.slot in SlotsOf(round.ranked)
      ensures w.verdicts[i].Penalized? ==> !failOpen
    {
      TriedIffSpent(round.ranked, methodId, tried, failOpen, w, i);
    }
  }

  /** Before the penalty check is dropped, every node not under a penalty has
      had its turn, and none is rate-limited or saturated. */
  lemma FellOpenMeans(round: Round, methodId: nat, tried: set<Slot>, failOpen: bool, w: Walked)
    requires DistinctSlots(round.ranked) && IsPointwise(round.ranked, methodId, tried, failOpen, w)
    requires End(round, methodId, w.verdicts, failOpen).FellOpen?
    ensures !failOpen && |w.verdicts| == |round.ranked|
    ensures forall i :: 0 <= i < |w.verdicts| ==> w.verdicts[i].Penalized? || Spent(w.verdicts[i])
    ensures forall i :: 0 <= i < |round.ranked| && !round.ranked[i].penalized ==> round.ranked[i].node.slot in w.tried
  {
    NothingToWaitFor(round, methodId, w.verdicts, failOpen);
    forall i | 0 <= i < |w.verdicts| && !round.ranked[i].penalized
      ensures round.ranked[i].node.slot in w.tried
    {
      TriedIffSpent(round.ranked, methodId, tried, failOpen, w, i);
    }
  }

  // ---------------------------------------------------------------------
  // One attempt, one booking
  // ---------------------------------------------------------------------

  /** Bookings made while the tried set grew from `before` to `after`: each on a
      slot of its own that was untried and now is tried, each for the node's
      price of this method. */
  ghost predicate GoodBookings(b: seq<Booking>, methodId: nat, before: set<Slot>, after: set<Slot>) {
    && (forall i :: 0 <= i < |b| ==>
      && b[i].node.slot !in before && b[i].node.slot in after
      && b[i].cost == Cost(b[i].node.costs, methodId) != UNPRICED)
    && (forall i, j :: 0 <= i < j < |b| ==> b[i].node.slot != b[j].node.slot)
  }

  lemma GoodConcat(a: seq<Booking>, b: seq<Booking>, methodId: nat, s0: set<Slot>, s1: set<Slot>, s2: set<Slot>)
    requires s0 <= s1 <= s2 && GoodBookings(a, methodId, s0, s1) && GoodBookings(b, methodId, s1, s2)
    ensures GoodBookings(a + b, methodId, s0, s2)
  {}

  lemma GoodServe(node: Node, methodId: nat, grant: Grant, tried: set<Slot>)
    requires node.slot !in tried
    ensures var v := Admit(node, methodId, grant);
            GoodBookings(BookingOf(node, v), methodId, tried, Mark(v, node.slot, tried))
  {}

  lemma {:induction false} WalkBooksOnce(visits: seq<Visit>, methodId: nat, tried: set<Slot>, failOpen: bool)
    ensures var w := Walk(visits, methodId, tried, failOpen);
            GoodBookings(WalkBookings(visits, w.verdicts), methodId, tried, w.tried)
  {
    if visits != [] {
      var v := Decide(visits[0], methodId, tried, failOpen);
      var tried1 := Mark(v, visits[0].node.slot, tried);
      var head := BookingOf(visits[0].node, v);
      assert GoodBookings(head, methodId, tried, tried1) by {
        if v.Attempted? {
          GoodServe(visits[0].node, methodId, visits[0].offer.grant, tried);
        }
      }
      var w := Walk(visits, methodId, tried, failOpen);
      if Stops(v) {
        assert w.verdicts[1..] == [];
        assert WalkBookings(visits, w.verdicts) == head + [] == head;
      } else {
        var rest := Walk(visits[1..], methodId, tried1, failOpen);
        WalkBooksOnce(visits[1..], methodId, tried1, failOpen);
        assert w.verdicts[1..] == rest.verdicts;
        GoodConcat(head, WalkBookings(visits[1..], rest.verdicts), methodId, tried, tried1, rest.tried);
      }
    }
  }

  /** A parked request's node was untried when the walk ended. */
  lemma ParkedNodeIsUntried(round: Round, methodId: nat, tried: set<Slot>, failOpen: bool)
    requires DistinctSlots(round.ranked)
    ensures var w := Walk(round.ranked, methodId, tried, failOpen);
            var ending := End(round, methodId, w.verdicts, failOpen);
            ending.Served? ==> round.ranked[ending.at].node.slot !in w.tried
  {
    var w := Walk(round.ranked, methodId, tried, failOpen);
    var ending := End(round, methodId, w.verdicts, failOpen);
    WalkIsPointwise(round.ranked, methodId, tried, failOpen);
    if ending.Served? {
      TriedIffSpent(round.ranked, methodId, tried, failOpen, w, ending.at);
    }
  }

  /** Only the parked node's turn is taken outside the walk. */
  lemma ServedIsAdmitted(round: Round, methodId: nat, verdicts: seq<Verdict>, failOpen: bool)
    requires |verdicts| <= |round.ranked|
    ensures var ending := End(round, methodId, verdicts, failOpen);
            ending.Served? ==> round.parking.Woken?
                               && ending.verdict == Admit(round.ranked[ending.at].node, methodId, round.parking.grant)
  {}

  lemma RoundBooksOnce(round: Round, methodId: nat, tried: set<Slot>, failOpen: bool)
    requires DistinctSlots(round.ranked)
    ensures var s := StepOf(round, methodId, tried, failOpen);
            GoodBookings(RoundBookings(round, s.report), methodId, tried, s.tried)
  {
    var w := Walk(round.ranked, methodId, tried, failOpen);
    var ending := End(round, methodId, w.verdicts, failOpen);
    var booked := WalkBookings(round.ranked, w.verdicts);
    WalkBooksOnce(round.ranked, methodId, tried, failOpen);
    if ending.Served? {
      var node := round.ranked[ending.at].node;
      ParkedNodeIsUntried(round, methodId, tried, failOpen);
      ServedIsAdmitted(round, methodId, w.verdicts, failOpen);
      GoodServe(node, methodId, round.parking.grant, w.tried);
      GoodConcat(booked, BookingOf(node, ending.verdict), methodId, tried, w.tried,
                 Mark(ending.verdict, node.slot, w.tried));
    } else {
      assert booked + [] == booked;
    }
  }

  lemma {:induction false} RunBooksOnce(script: seq<Round>, methodId: nat, tried: set<Slot>, failOpen: bool)
    requires ValidScript(script)
    ensures var t := Run(script, methodId, tried, failOpen);
            GoodBookings(Bookings(script, t.reports), methodId, tried, t.tried)
    decreases |script|
  {
    if script != [] {
      var s := StepOf(script[0], methodId, tried, failOpen);
      var t := Run(script, methodId, tried, failOpen);
      var head := RoundBookings(script[0], s.report);
      RoundBooksOnce(script[0], methodId, tried, failOpen);
      if s.returned.Some? {
        assert t.reports[1..] == [];
        assert Bookings(script, t.reports) == head + [] == head;
      } else {
        var rest := Run(script[1..], methodId, s.tried, failOpen || s.report.ending.FellOpen?);
        RunBooksOnce(script[1..], methodId, s.tried, failOpen || s.report.ending.FellOpen?);
        assert t.reports[1..] == rest.reports;
        GoodConcat(head, Bookings(script[1..], rest.reports), methodId, tried, s.tried, rest.tried);
      }
    }
  }

  lemma {:induction false} BookingsFill(b: seq<Booking>, methodId: nat, before: set<Slot>, after: set<Slot>)
    requires before <= after && GoodBookings(b, methodId, before, after)
    ensures |b| + |before| <= |after|
  {
    if b == [] {
      SubsetIsSmaller(before, after);
    } else {
      var last := b[|b| - 1].node.slot;
      BookingsFill(b[..|b| - 1], methodId, before, after - {last});
      assert |after - {last}| == |after| - 1;
    }
  }

  /** Over all rounds of a request, whatever is reloaded between them: no slot
      is booked twice, every booking is the node's price for the method, and no
      more than 64 attempts are made. */
  lemma OneAttemptOneBooking(script: seq<Round>, methodId: nat)
    requires ValidScript(script)
    ensures var t := RouteOf(script, methodId);
            var b := Bookings(script, t.reports);
            && GoodBookings(b, methodId, {}, t.tried)
            && |b| <= |t.tried| <= MAX_NODES
  {
    var t := RouteOf(script, methodId);
    RunBooksOnce(script, methodId, {}, false);
    BookingsFill(Bookings(script, t.reports), methodId, {}, t.tried);
    SlotSetIsSmall(t.tried);
  }

  /** The counters after a request's bookings were added one by one. */
  function BillAll(usage: seq<nat>, b: seq<Booking>): (r: seq<nat>)
    requires |usage| == MAX_NODES
    ensures |r| == MAX_NODES
  {
    if b == [] then usage
    else
      var rest := BillAll(usage, b[..|b| - 1]);
      var last := b[|b| - 1];
      rest[last.node.slot := rest[last.node.slot] + last.cost]
  }

  ghost predicate BookedOn(b: seq<Booking>, slot: Slot) {
    exists i :: 0 <= i < |b| && b[i].node.slot == slot
  }

  lemma {:induction false} BillsOnce(usage: seq<nat>, b: seq<Booking>, methodId: nat, before: set<Slot>,
                                     after: set<Slot>, slot: Slot)
    requires |usage| == MAX_NODES && GoodBookings(b, methodId, before, after)
    ensures !BookedOn(b, slot) ==> BillAll(usage, b)[slot] == usage[slot]
    ensures forall i :: 0 <= i < |b| && b[i].node.slot == slot ==>
              BillAll(usage, b)[slot] == usage[slot] + Cost(b[i].node.costs, methodId)
  {
    if b != [] {
      var n := |b| - 1;
      BillsOnce(usage, b[..n], methodId, before, after, slot);
      if b[n].node.slot == slot {
        assert !BookedOn(b[..n], slot);
      } else if BookedOn(b[..n], slot) {
        var i :| 0 <= i < n && b[..n][i].node.slot == slot;
        assert b[i].node.slot == slot;
      }
    }
  }

  /** A request moves the counter of each slot it attempted by one price of the
      one node it attempted there, and no other counter at all. */
  lemma RequestChargesEachSlotOnce(script: seq<Round>, methodId: nat, usage: seq<nat>, slot: Slot)
    requires ValidScript(script) && |usage| == MAX_NODES
    ensures var b := Bookings(script, RouteOf(script, methodId).reports);
            && (!BookedOn(b, slot) ==> BillAll(usage, b)[slot] == usage[slot])
            && (forall i :: 0 <= i < |b| && b[i].node.slot == slot ==>
                BillAll(usage, b)[slot] == usage[slot] + Cost(b[i].node.costs, methodId))
  {
    OneAttemptOneBooking(script, methodId);
    var t := RouteOf(script, methodId);
    BillsOnce(usage, Bookings(script, t.reports), methodId, {}, t.tried, slot);
  }

  /** Every table of the script that lists `name` lists it under `slot`. */
  ghost predicate KeepsSlot(script: seq<Round>, name: string, slot: Slot) {
    forall r, i :: 0 <= r < |script| && 0 <= i < |script[r].ranked| && script[r].ranked[i].node.name == name
      ==> script[r].ranked[i].node.slot == slot
  }

  ghost predicate BookedUnder(b: seq<Booking>, name: string, slot: Slot) {
    forall i :: 0 <= i < |b| && b[i].node.name == name ==> b[i].node.slot == slot
  }

  lemma {:induction false} WalkBookedUnder(visits: seq<Visit>, verdicts: seq<Verdict>, name: string, slot: Slot)
    requires |verdicts| <= |visits|
    requires forall i :: 0 <= i < |visits| && visits[i].node.name == name ==> visits[i].node.slot == slot
    ensures BookedUnder(WalkBookings(visits, verdicts), name, slot)
  {
    if verdicts != [] {
      WalkBookedUnder(visits[1..], verdicts[1..], name, slot);
    }
  }

  lemma {:induction false} RunBookedUnder(script: seq<Round>, reports: seq<Report>, name: string, slot: Slot)
    requires Fits(script, reports) && KeepsSlot(script, name, slot)
    ensures BookedUnder(Bookings(script, reports), name, slot)
  {
    if reports != [] {
      WalkBookedUnder(script[0].ranked, reports[0].verdicts, name, slot);
      RunBookedUnder(script[1..], reports[1..], name, slot);
    }
  }

  /** Judged by name: a node that keeps its slot while it is listed is attempted
      at most once, however many reloads land in between. */
  lemma OnceByNameIfSlotIsKept(script: seq<Round>, methodId: nat, name: string, slot: Slot)
    requires ValidScript(script) && KeepsSlot(script, name, slot)
    ensures var b := Bookings(script, RouteOf(script, methodId).reports);
            forall i, j :: 0 <= i < |b| && 0 <= j < |b| && b[i].node.name == b[j].node.name == name ==> i == j
  {
    OneAttemptOneBooking(script, methodId);
    RunBookedUnder(script, RouteOf(script, methodId).reports, name, slot);
  }

  // ---------------------------------------------------------------------
  // Every round of a run
  // ---------------------------------------------------------------------

  datatype Standing = Standing(tried: set<Slot>, failOpen: bool)

  /** How one round is played from a standing; the lemmas below hold for any. */
  type Rule = (Round, Standing) -> Step

  ghost function RuleOf(methodId: nat): Rule {
    (round: Round, at: Standing) => StepOf(round, methodId, at.tried, at.failOpen)
  }

  ghost function Advance(s: Step, at: Standing): Standing {
    Standing(s.tried, at.failOpen || s.report.ending.FellOpen?)
  }

  /** What a request has tried, and whether it ignores penalties, before round `r`. */
  ghost function StandingAt(rule: Rule, script: seq<Round>, at: Standing, r: nat): Standing
    requires r <= |script|
    decreases r
  {
    if r == 0 then at else StandingAt(rule, script[1..], Advance(rule(script[0], at), at), r - 1)
  }

  ghost function Before(script: seq<Round>, methodId: nat, at: Standing, r: nat): Standing
    requires r <= |script|
  {
    StandingAt(RuleOf(methodId), script, at, r)
  }

  ghost function Prepend(report: Report, t: Trace): Trace {
    Trace([report] + t.reports, t.tried, t.outcome)
  }

  ghost function Play(rule: Rule, script: seq<Round>, at: Standing): Trace
    decreases |script|
  {
    if script == [] then Trace([], at.tried, TimedOut)
    else
      var s := rule(script[0], at);
      match s.returned
      case Some(outcome) => Trace([s.report], s.tried, outcome)
      case None => Prepend(s.report, Play(rule, script[1..], Advance(s, at)))
  }

  lemma {:induction false} RunIsPlay(script: seq<Round>, methodId: nat, at: Standing)
    ensures Run(script, methodId, at.tried, at.failOpen) == Play(RuleOf(methodId), script, at)
    decreases |script|
  {
    if script != [] {
      var s := StepOf(script[0], methodId, at.tried, at.failOpen);
      assert RuleOf(methodId)(script[0], at) == s;
      if s.returned.None? {
        RunIsPlay(script[1..], methodId, Advance(s, at));
      }
    }
  }

  /** Step `s` is round `r` of the trace: the last one exactly if it returned or
      nothing was left of the script. */
  ghost predicate Plays(t: Trace, r: nat, rounds: nat, s: Step) {
    && r < |t.reports| && t.reports[r] == s.report
    && (r + 1 < |t.reports| ==> s.returned.None?)
    && (r + 1 == |t.reports| && s.returned.Some? ==> t.tried == s.tried && t.outcome == s.returned.value)
    && (r + 1 == |t.reports| && s.returned.None? ==> r + 1 == rounds && t.outcome == TimedOut)
  }

  lemma {:induction false} PlayAt(rule: Rule, script: seq<Round>, at: Standing, r: nat)
    requires r < |Play(rule, script, at).reports|
    ensures r < |script| && Plays(Play(rule, script, at), r, |script|, rule(script[r], StandingAt(rule, script, at, r)))
    decreases |script|
  {
    var s := rule(script[0], at);
    if s.returned.None? {
      var rest := Play(rule, script[1..], Advance(s, at));
      if r > 0 {
        PlayAt(rule, script[1..], Advance(s, at), r - 1);
        assert script[1..][r - 1] == script[r];
      } else if rest.reports == [] {
        assert script[1..] == [];
      }
    }
  }

  /** Round `r` of a run is a round played from where the earlier ones left off. */
  lemma RoundAt(script: seq<Round>, methodId: nat, at: Standing, r: nat)
    requires r < |Run(script, methodId, at.tried, at.failOpen).reports|
    ensures var b := Before(script, methodId, at, r);
            Plays(Run(script, methodId, at.tried, at.failOpen), r, |script|,
                  StepOf(script[r], methodId, b.tried, b.failOpen))
  {
    RunIsPlay(script, methodId, at);
    PlayAt(RuleOf(methodId), script, at, r);
  }

  const FRESH: Standing := Standing({}, false)

  // ---------------------------------------------------------------------
  // An honest 502
  // ---------------------------------------------------------------------

  /** Round `r` gave the slot its turn: an attempt, or a refusal that will not
      change for this request. */
  ghost predicate HadItsTurn(round: Round, report: Report, slot: Slot)
    requires Matches(round, report)
  {
    || (exists i :: 0 <= i < |report.verdicts| && round.ranked[i].node.slot == slot && Marks(report.verdicts[i]))
    || (report.ending.Served? && round.ranked[report.ending.at].node.slot == slot && Marks(report.ending.verdict))
  }

  /** Some round of the run gave the slot its turn. */
  ghost predicate TurnTaken(script: seq<Round>, reports: seq<Report>, slot: Slot)
    requires Fits(script, reports)
  {
    exists r :: 0 <= r < |reports| && HadItsTurn(script[r], reports[r], slot)
  }

  lemma StepTriedHadTurn(round: Round, methodId: nat, tried: set<Slot>, failOpen: bool, slot: Slot)
    requires DistinctSlots(round.ranked)
    requires slot in StepOf(round, methodId, tried, failOpen).tried && slot !in tried
    ensures HadItsTurn(round, StepOf(round, methodId, tried, failOpen).report, slot)
  {
    var w := Walk(round.ranked, methodId, tried, failOpen);
    WalkIsPointwise(round.ranked, methodId, tried, failOpen);
    if slot in w.tried {
      assert slot in Marked(round.ranked, w.verdicts);
    }
  }

  lemma TurnTakenLater(script: seq<Round>, report: Report, reports: seq<Report>, slot: Slot)
    requires script != [] && Matches(script[0], report) && Fits(script[1..], reports)
    requires TurnTaken(script[1..], reports, slot)
    ensures Fits(script, [report] + reports) && TurnTaken(script, [report] + reports, slot)
  {
    var r :| 0 <= r < |reports| && HadItsTurn(script[1..][r], reports[r], slot);
    assert HadItsTurn(script[r + 1], ([report] + reports)[r + 1], slot);
  }

  /** The tried set holds no slot that was not given its turn in some round. */
  lemma {:induction false} TriedHadTurn(script: seq<Round>, methodId: nat, at: Standing, slot: Slot)
    requires ValidScript(script)
    requires slot in Run(script, methodId, at.tried, at.failOpen).tried && slot !in at.tried
    ensures TurnTaken(script, Run(script, methodId, at.tried, at.failOpen).reports, slot)
    decreases |script|
  {
    var s := StepOf(script[0], methodId, at.tried, at.failOpen);
    if slot in s.tried {
      StepTriedHadTurn(script[0], methodId, at.tried, at.failOpen, slot);
      assert HadItsTurn(script[0], Run(script, methodId, at.tried, at.failOpen).reports[0], slot);
    } else {
      var next := Advance(s, at);
      TriedHadTurn(script[1..], methodId, next, slot);
      TurnTakenLater(script, s.report, Run(script[1..], methodId, next.tried, next.failOpen).reports, slot);
    }
  }

  /** Everything the table holds has been spent: no node of it is left to ask,
      to wait for, or to come back to. */
  ghost predicate NothingLeft(round: Round, report: Report, tried: set<Slot>) {
    && |report.verdicts| == |round.ranked|
    && (forall i :: 0 <= i < |report.verdicts| ==> Spent(report.verdicts[i]))
    && SlotsOf(round.ranked) <= tried
  }

  lemma ExhaustedLeavesNothing(round: Round, methodId: nat, b: Standing)
    requires DistinctSlots(round.ranked)
    ensures var s := StepOf(round, methodId, b.tried, b.failOpen);
            s.report.ending.Exhausted? ==> NothingLeft(round, s.report, s.tried)
  {
    var w := Walk(round.ranked, methodId, b.tried, b.failOpen);
    WalkIsPointwise(round.ranked, methodId, b.tried, b.failOpen);
    ExhaustedIff(round, methodId, b.tried, b.failOpen, w);
  }

  /** A round answers 502 when it is exhausted, or on a closed semaphore. */
  lemma BadGatewayMeans(round: Round, methodId: nat, b: Standing)
    ensures var s := StepOf(round, methodId, b.tried, b.failOpen);
            s.returned == Some(AllNodesFailed)
            <==> s.report.ending.Exhausted? || (s.report.ending.Shut? && round.parking.Closed?)
  {}

  /** A 502 is answered on a closed semaphore, or when every slot of the table
      read last was given its turn during this very request; never while one of
      that table's nodes is merely rate-limited, saturated or penalized. */
  lemma HonestBadGateway(script: seq<Round>, methodId: nat)
    requires ValidScript(script) && RouteOf(script, methodId).outcome == AllNodesFailed
    ensures var t := RouteOf(script, methodId);
            && t.reports != []
            && var last := |t.reports| - 1;
            || (t.reports[last].ending.Shut? && script[last].parking.Closed?)
            || (&& t.reports[last].ending.Exhausted?
                && NothingLeft(script[last], t.reports[last], t.tried)
                && forall slot :: slot in SlotsOf(script[last].ranked) ==> TurnTaken(script, t.reports, slot))
  {
    var t := RouteOf(script, methodId);
    var last := |t.reports| - 1;
    RoundAt(script, methodId, FRESH, last);
    ExhaustedLeavesNothing(script[last], methodId, Before(script, methodId, FRESH, last));
    BadGatewayMeans(script[last], methodId, Before(script, methodId, FRESH, last));
    forall slot | slot in t.tried ensures TurnTaken(script, t.reports, slot) {
      TriedHadTurn(script, methodId, FRESH, slot);
    }
  }

  /** Judged by name: behind a 502, a node whose slot no other name held while
      the request ran had its own turn. */
  lemma HonestByNameIfSlotIsOwn(script: seq<Round>, methodId: nat, i: nat)
    requires ValidScript(script) && RouteOf(script, methodId).outcome == AllNodesFailed
    requires var t := RouteOf(script, methodId);
             t.reports != [] && t.reports[|t.reports| - 1].ending.Exhausted?
             && i < |script[|t.reports| - 1].ranked|
             && OwnsSlot(script, script[|t.reports| - 1].ranked[i].node.name,
                         script[|t.reports| - 1].ranked[i].node.slot)
    ensures var t := RouteOf(script, methodId);
            var node := script[|t.reports| - 1].ranked[i].node;
            exists r :: 0 <= r < |t.reports| && HadOwnTurn(script[r], t.reports[r], node.name)
  {
    HonestBadGateway(script, methodId);
    var t := RouteOf(script, methodId);
    var last := script[|t.reports| - 1].ranked;
    var slot := last[i].node.slot;
    assert slot in SlotsOf(last);
    assert TurnTaken(script, t.reports, slot);
    var r :| 0 <= r < |t.reports| && HadItsTurn(script[r], t.reports[r], slot);
    assert HadOwnTurn(script[r], t.reports[r], last[i].node.name);
  }

  /** No table of the script gives the slot to anybody else. */
  ghost predicate OwnsSlot(script: seq<Round>, name: string, slot: Slot) {
    forall r, j :: 0 <= r < |script| && 0 <= j < |script[r].ranked| && script[r].ranked[j].node.slot == slot
      ==> script[r].ranked[j].node.name == name
  }

  ghost predicate HadOwnTurn(round: Round, report: Report, name: string)
    requires Matches(round, report)
  {
    || (exists i :: 0 <= i < |report.verdicts| && round.ranked[i].node.name == name && Marks(report.verdicts[i]))
    || (report.ending.Served? && round.ranked[report.ending.at].node.name == name && Marks(report.ending.verdict))
  }

  // ---------------------------------------------------------------------
  // Bounded retrying
  // ---------------------------------------------------------------------

  /** The round ended in a wait for a rate limit to pass. */
  predicate Waited(ending: Ending) {
    ending.Slept? || (ending.Served? && ending.verdict.RateLimited?)
  }

  ghost function Left(tried: set<Slot>, failOpen: bool): int {
    MAX_NODES - |tried| + if failOpen then 0 else 1
  }

  /** A round that neither returns nor waits drops the penalty check for the
      first time, or tries a slot no earlier round had. */
  lemma GoesOnMeans(round: Round, methodId: nat, tried: set<Slot>, failOpen: bool)
    requires DistinctSlots(round.ranked)
    requires var s := StepOf(round, methodId, tried, failOpen); s.returned.None? && !Waited(s.report.ending)
    ensures var s := StepOf(round, methodId, tried, failOpen);
            || (s.report.ending.FellOpen? && !failOpen)
            || exists slot :: slot in s.tried && slot !in tried
  {
    var s := StepOf(round, methodId, tried, failOpen);
    var ending := s.report.ending;
    if ending.Served? {
      ParkedNodeIsUntried(round, methodId, tried, failOpen);
      ServedIsAdmitted(round, methodId, s.report.verdicts, failOpen);
      assert round.ranked[ending.at].node.slot in s.tried;
    } else {
      NothingToWaitFor(round, methodId, s.report.verdicts, failOpen);
    }
  }

  lemma RoundDecreases(round: Round, methodId: nat, tried: set<Slot>, failOpen: bool)
    requires DistinctSlots(round.ranked)
    ensures var s := StepOf(round, methodId, tried, failOpen);
            var left := Left(s.tried, failOpen || s.report.ending.FellOpen?);
            && 0 <= left <= Left(tried, failOpen)
            && (s.returned.None? && !Waited(s.report.ending) ==> left < Left(tried, failOpen))
  {
    var s := StepOf(round, methodId, tried, failOpen);
    SlotSetIsSmall(s.tried);
    SubsetIsSmaller(tried, s.tried);
    if s.returned.None? && !Waited(s.report.ending) {
      GoesOnMeans(round, methodId, tried, failOpen);
    }
  }

  /** The request goes around again at once: penalties dropped, or a parked
      node's turn over without an answer. */
  predicate GoesOn(ending: Ending) {
    ending.FellOpen? || (ending.Served? && Marks(ending.verdict) && !Stops(ending.verdict))
  }

  function Rushes(reports: seq<Report>): nat {
    if reports == [] then 0 else (if GoesOn(reports[0].ending) then 1 else 0) + Rushes(reports[1..])
  }

  function Waits(reports: seq<Report>): nat {
    if reports == [] then 0 else (if Waited(reports[0].ending) then 1 else 0) + Waits(reports[1..])
  }

  /** A round returns, waits, or goes around at once, and only one of the three. */
  lemma RoundsAreThree(round: Round, methodId: nat, tried: set<Slot>, failOpen: bool)
    ensures var s := StepOf(round, methodId, tried, failOpen);
            && (GoesOn(s.report.ending) <==> s.returned.None? && !Waited(s.report.ending))
            && (Waited(s.report.ending) ==> s.returned.None?)
  {
    var s := StepOf(round, methodId, tried, failOpen);
    ServedIsAdmitted(round, methodId, s.report.verdicts, failOpen);
  }

  lemma {:induction false} RushesBounded(script: seq<Round>, methodId: nat, tried: set<Slot>, failOpen: bool)
    requires ValidScript(script)
    ensures var reports := Run(script, methodId, tried, failOpen).reports;
            && Rushes(reports) <= Left(tried, failOpen)
            && |reports| <= Rushes(reports) + Waits(reports) + 1
    decreases |script|
  {
    SlotSetIsSmall(tried);
    if script != [] {
      var t := Run(script, methodId, tried, failOpen);
      var s := StepOf(script[0], methodId, tried, failOpen);
      RoundDecreases(script[0], methodId, tried, failOpen);
      RoundsAreThree(script[0], methodId, tried, failOpen);
      if s.returned.Some? {
        assert t.reports[1..] == [];
      } else {
        RushesBounded(script[1..], methodId, s.tried, failOpen || s.report.ending.FellOpen?);
        assert t.reports[1..] == Run(script[1..], methodId, s.tried, failOpen || s.report.ending.FellOpen?).reports;
      }
    }
  }

  /** Whatever is reloaded and whatever the nodes answer, at most 65 rounds go
      around again at once; every other round but the last waited for a rate
      limit to pass. */
  lemma RetryingIsBounded(script: seq<Round>, methodId: nat)
    requires ValidScript(script)
    ensures var reports := RouteOf(script, methodId).reports;
            Rushes(reports) <= 65 && |reports| <= 66 + Waits(reports)
  {
    RushesBounded(script, methodId, {}, false);
  }

  // ---------------------------------------------------------------------
  // The order nodes are offered the request in
  // ---------------------------------------------------------------------

  /** A round judges its nodes in ranked order, each on its own merits; the
      request moves past a node only if that node was tried before, refused,
      is penalized, rate-limited or saturated, or failed its attempt. A sleep
      is exactly as long as the shortest wait met. */
  ghost predicate InRankedOrder(round: Round, methodId: nat, b: Standing, report: Report) {
    && JudgedAlone(round.ranked, methodId, b.tried, b.failOpen, report.verdicts)
    && StopsOnlyAtEnd(round.ranked, report.verdicts)
    && (report.ending.Slept? ==>
      && RateLimited(report.ending.wait) in report.verdicts
      && forall v :: v in report.verdicts && v.RateLimited? ==> report.ending.wait <= v.wait)
  }

  lemma RoundInRankedOrder(round: Round, methodId: nat, b: Standing)
    requires DistinctSlots(round.ranked)
    ensures InRankedOrder(round, methodId, b, StepOf(round, methodId, b.tried, b.failOpen).report)
  {
    WalkIsPointwise(round.ranked, methodId, b.tried, b.failOpen);
    SleepIsShortest(round, methodId, Walk(round.ranked, methodId, b.tried, b.failOpen).verdicts, b.failOpen);
  }

  lemma SleepIsShortest(round: Round, methodId: nat, verdicts: seq<Verdict>, failOpen: bool)
    requires |verdicts| <= |round.ranked|
    ensures var ending := End(round, methodId, verdicts, failOpen);
            ending.Slept? ==> ShortestWait(verdicts) == Some(ending.wait)
  {}

  lemma OfferedInRankedOrder(script: seq<Round>, methodId: nat, r: nat)
    requires ValidScript(script) && r < |RouteOf(script, methodId).reports|
    ensures InRankedOrder(script[r], methodId, Before(script, methodId, FRESH, r), RouteOf(script, methodId).reports[r])
  {
    RoundAt(script, methodId, FRESH, r);
    RoundInRankedOrder(script[r], methodId, Before(script, methodId, FRESH, r));
  }

  /** Penalties are ignored only from a round on that some round fell open before. */
  lemma {:induction false} FailOpenHasARound(rule: Rule, script: seq<Round>, at: Standing, r: nat) returns (q: nat)
    requires r <= |script| && StandingAt(rule, script, at, r).failOpen && !at.failOpen
    ensures q < r && rule(script[q], StandingAt(rule, script, at, q)).report.ending.FellOpen?
    decreases r
  {
    var next := Advance(rule(script[0], at), at);
    if next.failOpen {
      q := 0;
    } else {
      q := FailOpenHasARound(rule, script[1..], next, r - 1);
      assert script[1..][q] == script[q + 1];
      q := q + 1;
    }
  }

  /** A node found penalized is let in only after an earlier round of the same
      request in which every node without a penalty had its turn and none was
      rate-limited or saturated. */
  lemma PenalizedOnlyAfterFailOpen(script: seq<Round>, methodId: nat, r: nat, i: nat)
    requires ValidScript(script) && r < |RouteOf(script, methodId).reports|
    requires i < |RouteOf(script, methodId).reports[r].verdicts| && script[r].ranked[i].penalized
    requires var v := RouteOf(script, methodId).reports[r].verdicts[i]; !v.AlreadyTried? && !v.Penalized?
    ensures exists q :: 0 <= q < r && OpenedAt(script, methodId, q)
  {
    OfferedInRankedOrder(script, methodId, r);
    var q := FailOpenHasARound(RuleOf(methodId), script, FRESH, r);
    RoundAt(script, methodId, FRESH, q);
    var b := Before(script, methodId, FRESH, q);
    WalkIsPointwise(script[q].ranked, methodId, b.tried, b.failOpen);
    FellOpenMeans(script[q], methodId, b.tried, b.failOpen, Walk(script[q].ranked, methodId, b.tried, b.failOpen));
    assert OpenedAt(script, methodId, q);
  }

  /** Round `q` found nothing but penalized nodes and nodes that had their turn. */
  ghost predicate OpenedAt(script: seq<Round>, methodId: nat, q: nat)
    requires q < |RouteOf(script, methodId).reports|
  {
    var report := RouteOf(script, methodId).reports[q];
    && report.ending.FellOpen? && |report.verdicts| == |script[q].ranked|
    && forall i :: 0 <= i < |report.verdicts| ==> report.verdicts[i].Penalized? || Spent(report.verdicts[i])
  }
}
