/**
 The meaning of routing one request: the decision taken at every node the walk
 visits, how a round ends, and the whole run over a routing table that may be
 replaced between any two rounds. Tried slots are a plain set here; `Router`
 computes the same thing with a bitmask and running variables.

 The environment is a script of rounds. Each round carries the table read at
 its start and, for every node, what that node would answer if asked: whether a
 penalty stands, whether a permit and a rate-limit token can be had, what the
 usage counter reads, how the attempt ends. Nothing relates one round's answers
 to another's. A script that runs out, and a `Dropped` or `Abandoned` answer,
 are the global time budget expiring at an await.
 */
module Routing {
  import opened Wrappers
  import opened SlotMask
  import opened CostTable

  // ---------------------------------------------------------------------
  // What the walk meets
  // ---------------------------------------------------------------------

  datatype Node = Node(name: string, slot: Slot, threshold: nat, costs: Table)

  datatype Answer = Final | Retryable | Dropped

  /** With a permit in hand: the rate limiter's answer, then the counter read. */
  datatype Grant = NoToken(wait: nat) | Token(used: nat, answer: Answer)

  datatype Offer = NoPermit | Permit(grant: Grant)

  datatype Visit = Visit(node: Node, penalized: bool, offer: Offer)

  /** Waiting for a permit on a saturated node. */
  datatype Parking = Closed | Abandoned | Woken(grant: Grant)

  datatype Round = Round(ranked: seq<Visit>, parking: Parking)

  /** The topology invariant: ranked nodes hold distinct slots. */
  ghost predicate DistinctSlots(visits: seq<Visit>) {
    forall i, j :: 0 <= i < j < |visits| ==> visits[i].node.slot != visits[j].node.slot
  }

  ghost predicate ValidScript(script: seq<Round>) {
    forall i :: 0 <= i < |script| ==> DistinctSlots(script[i].ranked)
  }

  ghost function SlotsOf(visits: seq<Visit>): set<Slot> {
    set i | 0 <= i < |visits| :: visits[i].node.slot
  }

  // ---------------------------------------------------------------------
  // Deciding on one node
  // ---------------------------------------------------------------------

  datatype Verdict =
    | AlreadyTried
    | Penalized
    | Skipped
    | RateLimited(wait: nat)
    | Saturated
    | Attempted(cost: Price, answer: Answer)

  /** The quota and price check: what is booked, or nothing. */
  function Book(node: Node, methodId: nat, used: nat): Option<Price> {
    if used > node.threshold then None
    else if Cost(node.costs, methodId) == UNPRICED then None
    else Some(Cost(node.costs, methodId))
  }

  function Admit(node: Node, methodId: nat, grant: Grant): Verdict {
    match grant
    case NoToken(wait) => RateLimited(wait)
    case Token(used, answer) =>
      match Book(node, methodId, used)
      case None => Skipped
      case Some(cost) => Attempted(cost, answer)
  }

  function Decide(visit: Visit, methodId: nat, tried: set<Slot>, failOpen: bool): Verdict {
    if visit.node.slot in tried then AlreadyTried
    else if !failOpen && visit.penalized then Penalized
    else match visit.offer
      case NoPermit => Saturated
      case Permit(grant) => Admit(visit.node, methodId, grant)
  }

  /** The node had its turn: served the attempt, or cannot serve this request. */
  predicate Marks(v: Verdict) {
    v.Skipped? || v.Attempted?
  }

  /** The attempt settled the request, or the request was dropped during it. */
  predicate Stops(v: Verdict) {
    v.Attempted? && !v.answer.Retryable?
  }

  // ---------------------------------------------------------------------
  // Walking one round
  // ---------------------------------------------------------------------

  datatype Walked = Walked(verdicts: seq<Verdict>, tried: set<Slot>)

  function Mark(v: Verdict, slot: Slot, tried: set<Slot>): set<Slot> {
    if Marks(v) then tried + {slot} else tried
  }

  function Walk(visits: seq<Visit>, methodId: nat, tried: set<Slot>, failOpen: bool): (w: Walked)
    ensures |w.verdicts| <= |visits|
    ensures tried <= w.tried
  {
    if visits == [] then Walked([], tried)
    else
      var v := Decide(visits[0], methodId, tried, failOpen);
      var tried1 := Mark(v, visits[0].node.slot, tried);
      if Stops(v) then Walked([v], tried1)
      else
        var rest := Walk(visits[1..], methodId, tried1, failOpen);
        Walked([v] + rest.verdicts, rest.tried)
  }

  /** The shortest rate-limit wait met, if any. */
  function ShortestWait(verdicts: seq<Verdict>): (r: Option<nat>)
    ensures r.None? <==> forall v :: v in verdicts ==> !v.RateLimited?
    ensures r.Some? ==> RateLimited(r.value) in verdicts
    ensures r.Some? ==> forall v :: v in verdicts && v.RateLimited? ==> r.value <= v.wait
  {
    if verdicts == [] then None
    else
      var rest := ShortestWait(verdicts[1..]);
      assert forall v :: v in verdicts <==> v == verdicts[0] || v in verdicts[1..];
      if !verdicts[0].RateLimited? then rest
      else if rest.Some? && rest.value <= verdicts[0].wait then rest
      else Some(verdicts[0].wait)
  }

  /** The best-ranked saturated node, if any. */
  function FirstSaturated(verdicts: seq<Verdict>): (r: Option<nat>)
    ensures r.None? <==> forall v :: v in verdicts ==> !v.Saturated?
    ensures r.Some? ==> r.value < |verdicts| && verdicts[r.value].Saturated?
    ensures r.Some? ==> forall i :: 0 <= i < r.value ==> !verdicts[i].Saturated?
  {
    if verdicts == [] then None
    else if verdicts[0].Saturated? then Some(0)
    else match FirstSaturated(verdicts[1..])
      case None => None
      case Some(i) => Some(i + 1)
  }

  predicate AnyPenalized(verdicts: seq<Verdict>) {
    exists i :: 0 <= i < |verdicts| && verdicts[i].Penalized?
  }

  // ---------------------------------------------------------------------
  // Ending a round, and the whole run
  // ---------------------------------------------------------------------

  datatype Ending =
    | Stopped                              // the walk's last attempt ended the request
    | Slept(wait: nat)                     // waited out a rate limit, then another round
    | FellOpen                             // next round ignores penalties
    | Exhausted                            // nothing left: 502
    | Shut(at: nat)                        // a closed semaphore: 502
    | GaveUpWaiting(at: nat)               // dropped while parked on a saturated node
    | Served(at: nat, verdict: Verdict)    // the saturated node's turn came

  datatype Report = Report(verdicts: seq<Verdict>, ending: Ending)

  datatype Outcome = Forwarded | AllNodesFailed | TimedOut

  datatype Trace = Trace(reports: seq<Report>, tried: set<Slot>, outcome: Outcome)

  function End(round: Round, methodId: nat, verdicts: seq<Verdict>, failOpen: bool): (e: Ending)
    requires |verdicts| <= |round.ranked|
    ensures e.Stopped? <==> verdicts != [] && Stops(verdicts[|verdicts| - 1])
    ensures e.Served? ==> e.at < |verdicts| && verdicts[e.at].Saturated?
  {
    if verdicts != [] && Stops(verdicts[|verdicts| - 1]) then Stopped
    else match (ShortestWait(verdicts), FirstSaturated(verdicts))
      case (Some(wait), _) => Slept(wait)
      case (None, Some(at)) =>
        (match round.parking
         case Closed => Shut(at)
         case Abandoned => GaveUpWaiting(at)
         case Woken(grant) => Served(at, Admit(round.ranked[at].node, methodId, grant)))
      case (None, None) =>
        if !failOpen && AnyPenalized(verdicts) then FellOpen else Exhausted
  }

  /** What an attempt's end means for the client. */
  function Settled(answer: Answer): Outcome {
    if answer.Final? then Forwarded else TimedOut
  }

  /** The outcome a round returns with, or nothing if another round follows. */
  function Returned(verdicts: seq<Verdict>, ending: Ending): Option<Outcome>
    requires ending.Stopped? ==> verdicts != [] && verdicts[|verdicts| - 1].Attempted?
  {
    match ending
    case Stopped => Some(Settled(verdicts[|verdicts| - 1].answer))
    case Exhausted => Some(AllNodesFailed)
    case Shut(_) => Some(AllNodesFailed)
    case GaveUpWaiting(_) => Some(TimedOut)
    case Served(_, v) => if Stops(v) then Some(Settled(v.answer)) else None
    case Slept(_) => None
    case FellOpen => None
  }

  /** One round: what is reported, what has been tried by its end, and the
      outcome it returns with, if it returns. */
  datatype Step = Step(report: Report, tried: set<Slot>, returned: Option<Outcome>)

  function StepOf(round: Round, methodId: nat, tried: set<Slot>, failOpen: bool): (s: Step)
    ensures Matches(round, s.report)
    ensures tried <= s.tried
  {
    var w := Walk(round.ranked, methodId, tried, failOpen);
    var ending := End(round, methodId, w.verdicts, failOpen);
    Step(Report(w.verdicts, ending),
         if ending.Served? then Mark(ending.verdict, round.ranked[ending.at].node.slot, w.tried) else w.tried,
         Returned(w.verdicts, ending))
  }

  predicate Matches(round: Round, report: Report) {
    && |report.verdicts| <= |round.ranked|
    && (report.ending.Served? ==> report.ending.at < |round.ranked|)
  }

  function Run(script: seq<Round>, methodId: nat, tried: set<Slot>, failOpen: bool): (t: Trace)
    ensures Fits(script, t.reports)
    ensures tried <= t.tried
    decreases |script|
  {
    if script == [] then Trace([], tried, TimedOut)
    else
      var s := StepOf(script[0], methodId, tried, failOpen);
      if s.returned.Some? then Trace([s.report], s.tried, s.returned.value)
      else
        var rest := Run(script[1..], methodId, s.tried, failOpen || s.report.ending.FellOpen?);
        Trace([s.report] + rest.reports, rest.tried, rest.outcome)
  }

  predicate Fits(script: seq<Round>, reports: seq<Report>) {
    |reports| <= |script| && forall i :: 0 <= i < |reports| ==> Matches(script[i], reports[i])
  }

  /** Routing one request: nothing tried yet, penalties respected. */
  function RouteOf(script: seq<Round>, methodId: nat): Trace {
    Run(script, methodId, {}, false)
  }

  // ---------------------------------------------------------------------
  // What was billed and what was sent
  // ---------------------------------------------------------------------

  datatype Booking = Booking(node: Node, cost: Price)

  function BookingOf(node: Node, v: Verdict): seq<Booking> {
    if v.Attempted? then [Booking(node, v.cost)] else []
  }

  function WalkBookings(visits: seq<Visit>, verdicts: seq<Verdict>): seq<Booking>
    requires |verdicts| <= |visits|
  {
    if verdicts == [] then []
    else BookingOf(visits[0].node, verdicts[0]) + WalkBookings(visits[1..], verdicts[1..])
  }

  function RoundBookings(round: Round, report: Report): seq<Booking>
    requires Matches(round, report)
  {
    WalkBookings(round.ranked, report.verdicts)
    + if report.ending.Served? then BookingOf(round.ranked[report.ending.at].node, report.ending.verdict) else []
  }

  function Bookings(script: seq<Round>, reports: seq<Report>): seq<Booking>
    requires Fits(script, reports)
  {
    if reports == [] then []
    else RoundBookings(script[0], reports[0]) + Bookings(script[1..], reports[1..])
  }
}
