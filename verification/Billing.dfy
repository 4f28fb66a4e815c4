/**
 Billing one quota slot under every interleaving.

 Any number of requests check the slot's counter and, as a separate step, add
 to it; period resets zero it; reloads replace the node that owns it while
 requests admitted by the old node are still in flight. A request holds one of
 its node's permits from before the check until after the attempt.
 */
module Billing {
  import opened CostTable

  /** The counter is a `u64`; its additions wrap. */
  const U64: nat := 0x1_0000_0000_0000_0000

  /** One node that owned the slot at some time: each reload builds a new one,
      with its own semaphore. */
  datatype Owner = Owner(threshold: nat, maxConcurrent: nat, costs: Table)

  /** Where one admission stands. */
  datatype Phase =
    | Holding                // permit taken
    | Checked(cost: Price)   // counter read and found below the threshold
    | Sending                // cost added, attempt in flight
    | Gone                   // permit returned

  datatype Flight = Flight(owner: nat, phase: Phase)

  datatype State = State(usage: nat, owners: seq<Owner>, flights: seq<Flight>)

  // ---------------------------------------------------------------------
  // Sums over the requests in flight
  // ---------------------------------------------------------------------

  function Sum(fs: seq<Flight>, w: Flight -> nat): nat {
    if fs == [] then 0 else Sum(fs[..|fs| - 1], w) + w(fs[|fs| - 1])
  }

  lemma SumSnoc(fs: seq<Flight>, f: Flight, w: Flight -> nat)
    ensures Sum(fs + [f], w) == Sum(fs, w) + w(f)
  {
    assert (fs + [f])[..|fs|] == fs;
  }

  lemma {:induction false} SumUpdate(fs: seq<Flight>, i: nat, f: Flight, w: Flight -> nat)
    requires i < |fs|
    ensures Sum(fs[i := f], w) + w(fs[i]) == Sum(fs, w) + w(f)
  {
    var n := |fs| - 1;
    if i == n {
      assert fs[i := f][..n] == fs[..n];
    } else {
      SumUpdate(fs[..n], i, f, w);
      assert fs[i := f][..n] == fs[..n][i := f];
    }
  }

  /** Pointwise `a <= p * b + c` carries over to the sums. */
  lemma {:induction false} SumBound(fs: seq<Flight>, a: Flight -> nat, p: nat, b: Flight -> nat, c: Flight -> nat)
    requires forall i :: 0 <= i < |fs| ==> a(fs[i]) <= p * b(fs[i]) + c(fs[i])
    ensures Sum(fs, a) <= p * Sum(fs, b) + Sum(fs, c)
  {
    if fs != [] {
      var n := |fs| - 1;
      SumBound(fs[..n], a, p, b, c);
      assert a(fs[n]) <= p * b(fs[n]) + c(fs[n]);
      Distribute(p, Sum(fs[..n], b), b(fs[n]));
    }
  }

  lemma Distribute(p: int, x: int, y: int)
    ensures p * (x + y) == p * x + p * y
  {}

  /** Costs checked but not yet added, over requests of owners before `n`. */
  ghost function PendingBelow(n: nat): Flight -> nat {
    (f: Flight) => if f.owner < n && f.phase.Checked? then f.phase.cost else 0
  }

  ghost function HoldsPermit(owner: nat): Flight -> nat {
    (f: Flight) => if f.owner == owner && !f.phase.Gone? then 1 else 0
  }

  ghost function Pending(s: State): nat {
    Sum(s.flights, PendingBelow(|s.owners|))
  }

  ghost function Holders(s: State, owner: nat): nat {
    Sum(s.flights, HoldsPermit(owner))
  }

  // ---------------------------------------------------------------------
  // The bound
  // ---------------------------------------------------------------------

  /** Highest price on a table; unpriced methods are never billed. */
  function Highest(costs: Table): (p: nat)
    ensures forall i :: 0 <= i < |costs| && costs[i] != UNPRICED ==> costs[i] <= p
  {
    if costs == [] then 0
    else
      var n := |costs| - 1;
      var rest := Highest(costs[..n]);
      assert forall i :: 0 <= i < n ==> costs[..n][i] == costs[i];
      if costs[n] != UNPRICED && costs[n] > rest then costs[n] else rest
  }

  function MaxThreshold(owners: seq<Owner>): (t: nat)
    ensures forall i :: 0 <= i < |owners| ==> owners[i].threshold <= t
  {
    if owners == [] then 0
    else
      var n := |owners| - 1;
      var rest := MaxThreshold(owners[..n]);
      assert forall i :: 0 <= i < n ==> owners[..n][i] == owners[i];
      if owners[n].threshold > rest then owners[n].threshold else rest
  }

  /** The highest threshold is some owner's own. */
  lemma {:induction false} MaxThresholdIsOwned(owners: seq<Owner>) returns (i: nat)
    requires owners != []
    ensures i < |owners| && owners[i].threshold == MaxThreshold(owners)
  {
    var n := |owners| - 1;
    if n == 0 || owners[n].threshold > MaxThreshold(owners[..n]) {
      i := n;
    } else {
      i := MaxThresholdIsOwned(owners[..n]);
    }
  }

  /** What can be in flight at once: each owner's permits at its highest price. */
  function InFlight(owners: seq<Owner>): nat {
    if owners == [] then 0
    else
      var n := |owners| - 1;
      InFlight(owners[..n]) + Highest(owners[n].costs) * owners[n].maxConcurrent
  }

  function Bound(owners: seq<Owner>): nat {
    MaxThreshold(owners) + InFlight(owners)
  }

  lemma BoundGrows(owners: seq<Owner>, o: Owner)
    ensures Bound(owners) <= Bound(owners + [o])
    ensures InFlight(owners) <= InFlight(owners + [o])
  {
    assert (owners + [o])[..|owners|] == owners;
  }

  // ---------------------------------------------------------------------
  // Steps
  // ---------------------------------------------------------------------

  /** A permit is free and is taken, at once or after waiting for it. */
  ghost predicate Enter(s: State, s': State, owner: nat) {
    && owner < |s.owners| && Holders(s, owner) < s.owners[owner].maxConcurrent
    && s' == s.(flights := s.flights + [Flight(owner, Holding)])
  }

  /** The counter is read and the method priced; both let the request through. */
  ghost predicate Check(s: State, s': State, i: nat, methodId: nat) {
    && i < |s.flights| && s.flights[i].phase.Holding? && s.flights[i].owner < |s.owners|
    && var o := s.owners[s.flights[i].owner];
    && s.usage <= o.threshold && Cost(o.costs, methodId) != UNPRICED
    && s' == s.(flights := s.flights[i := s.flights[i].(phase := Checked(Cost(o.costs, methodId)))])
  }

  /** The atomic add, and the attempt begins. */
  ghost predicate Add(s: State, s': State, i: nat) {
    && i < |s.flights| && s.flights[i].phase.Checked?
    && s' == s.(usage := (s.usage + s.flights[i].phase.cost) % U64,
                flights := s.flights[i := s.flights[i].(phase := Sending)])
  }

  /** The permit goes back: no rate-limit token, quota spent, method unpriced,
      attempt over, or the request dropped at an await. */
  ghost predicate Leave(s: State, s': State, i: nat) {
    && i < |s.flights| && (s.flights[i].phase.Holding? || s.flights[i].phase.Sending?)
    && s' == s.(flights := s.flights[i := s.flights[i].(phase := Gone)])
  }

  /** A billing period rolled over. */
  ghost predicate Reset(s: State, s': State) {
    s' == s.(usage := 0)
  }

  /** A reload: the same name under new limits, or a new name that takes the
      slot over and zeroes it. */
  ghost predicate Reload(s: State, s': State, o: Owner, recycled: bool) {
    s' == s.(owners := s.owners + [o], usage := if recycled then 0 else s.usage)
  }

  ghost predicate Next(s: State, s': State) {
    || (exists owner :: Enter(s, s', owner))
    || (exists i, methodId :: Check(s, s', i, methodId))
    || (exists i :: Add(s, s', i))
    || (exists i :: Leave(s, s', i))
    || Reset(s, s')
    || (exists o, recycled :: Reload(s, s', o, recycled))
  }

  ghost predicate StepAt(run: seq<State>, i: nat)
    requires i + 1 < |run|
  {
    Next(run[i], run[i + 1])
  }

  ghost predicate IsRun(run: seq<State>) {
    run != [] && forall i :: 0 <= i < |run| - 1 ==> StepAt(run, i)
  }

  // ---------------------------------------------------------------------
  // The invariant
  // ---------------------------------------------------------------------

  ghost predicate FlightsOk(s: State) {
    forall i :: 0 <= i < |s.flights| ==>
      && s.flights[i].owner < |s.owners|
      && (s.flights[i].phase.Checked? ==>
        s.flights[i].phase.cost <= Highest(s.owners[s.flights[i].owner].costs))
  }

  ghost predicate PermitsOk(s: State) {
    forall o :: 0 <= o < |s.owners| ==> Holders(s, o) <= s.owners[o].maxConcurrent
  }

  function Max(a: nat, b: nat): nat { if a <= b then b else a }

  /** Any state the slot can be in: whatever the usage file said in the counter, even
      more than the limits now in force allow, and requests of earlier owners still
      in flight. */
  ghost predicate Start(s: State) {
    FlightsOk(s) && PermitsOk(s)
  }

  /** What the counter holds and what is about to be added to it. */
  ghost function Owed(s: State): nat {
    s.usage + Pending(s)
  }

  /** `first` is what was owed at the start. */
  ghost predicate Inv(s: State, first: nat) {
    FlightsOk(s) && PermitsOk(s) && Owed(s) <= Max(first, Bound(s.owners))
  }

  /** Everything pending is held under a permit, at no more than its owner's
      highest price. */
  lemma {:induction false} PendingFitsInFlight(s: State, n: nat)
    requires FlightsOk(s) && PermitsOk(s) && n <= |s.owners|
    ensures Sum(s.flights, PendingBelow(n)) <= InFlight(s.owners[..n])
  {
    if n == 0 {
      SumBound(s.flights, PendingBelow(0), 0, HoldsPermit(0), (f: Flight) => 0);
      AllZero(s.flights);
    } else {
      var o := n - 1;
      var p := Highest(s.owners[o].costs);
      PendingFitsInFlight(s, o);
      SumBound(s.flights, PendingBelow(n), p, HoldsPermit(o), PendingBelow(o));
      MulMonotone(p, Holders(s, o), s.owners[o].maxConcurrent);
      assert s.owners[..n][..o] == s.owners[..o];
    }
  }

  lemma {:induction false} AllZero(fs: seq<Flight>)
    ensures Sum(fs, (f: Flight) => 0) == 0
  {
    if fs != [] {
      AllZero(fs[..|fs| - 1]);
    }
  }

  lemma MulMonotone(p: nat, x: nat, y: nat)
    requires x <= y
    ensures p * x <= p * y
  {}

  lemma EnterKeepsInv(s: State, s': State, first: nat, owner: nat)
    requires Inv(s, first) && Enter(s, s', owner)
    ensures Inv(s', first)
  {
    var f := Flight(owner, Holding);
    SumSnoc(s.flights, f, PendingBelow(|s.owners|));
    forall o | 0 <= o < |s.owners| ensures Holders(s', o) <= s.owners[o].maxConcurrent {
      SumSnoc(s.flights, f, HoldsPermit(o));
    }
  }

  /** Changing one flight without taking a permit it did not have. */
  lemma MoveFlight(s: State, i: nat, phase: Phase)
    requires FlightsOk(s) && PermitsOk(s) && i < |s.flights| && !s.flights[i].phase.Gone?
    requires phase.Checked? ==> phase.cost <= Highest(s.owners[s.flights[i].owner].costs)
    ensures var s' := s.(flights := s.flights[i := s.flights[i].(phase := phase)]);
            && FlightsOk(s') && PermitsOk(s')
            && Pending(s') + (if s.flights[i].phase.Checked? then s.flights[i].phase.cost else 0)
               == Pending(s) + (if phase.Checked? then phase.cost else 0)
  {
    var f := s.flights[i].(phase := phase);
    var s' := s.(flights := s.flights[i := f]);
    SumUpdate(s.flights, i, f, PendingBelow(|s.owners|));
    forall o | 0 <= o < |s.owners| ensures Holders(s', o) <= s.owners[o].maxConcurrent {
      SumUpdate(s.flights, i, f, HoldsPermit(o));
    }
  }

  /** The check passed, so the counter was at or below this owner's threshold,
      and all that is pending is under permits. */
  lemma CheckKeepsInv(s: State, s': State, first: nat, i: nat, methodId: nat)
    requires Inv(s, first) && Check(s, s', i, methodId)
    ensures Inv(s', first)
  {
    var o := s.owners[s.flights[i].owner];
    MoveFlight(s, i, Checked(Cost(o.costs, methodId)));
    PendingFitsInFlight(s', |s'.owners|);
    assert s'.owners[..|s'.owners|] == s'.owners;
  }

  /** Even an add that wraps keeps the bound; what it would come to without
      wrapping is within the bound as well. */
  lemma AddKeepsInv(s: State, s': State, first: nat, i: nat)
    requires Inv(s, first) && Add(s, s', i)
    ensures Inv(s', first)
    ensures s.usage + s.flights[i].phase.cost <= Max(first, Bound(s.owners))
    ensures s'.usage != s.usage + s.flights[i].phase.cost ==> Max(first, Bound(s.owners)) >= U64
  {
    MoveFlight(s, i, Sending);
    ModIsSmaller(s.usage + s.flights[i].phase.cost);
  }

  lemma ModIsSmaller(x: nat)
    ensures x % U64 <= x && (x < U64 ==> x % U64 == x)
  {}

  lemma LeaveKeepsInv(s: State, s': State, first: nat, i: nat)
    requires Inv(s, first) && Leave(s, s', i)
    ensures Inv(s', first)
  {
    MoveFlight(s, i, Gone);
  }

  /** Nobody in flight is of the owner just added. */
  lemma NewOwnerIsIdle(s: State)
    requires FlightsOk(s)
    ensures Sum(s.flights, PendingBelow(|s.owners| + 1)) <= Pending(s)
    ensures Holders(s, |s.owners|) == 0
  {
    var n := |s.owners|;
    SumBound(s.flights, PendingBelow(n + 1), 0, HoldsPermit(0), PendingBelow(n));
    SumBound(s.flights, HoldsPermit(n), 0, HoldsPermit(0), (f: Flight) => 0);
    AllZero(s.flights);
  }

  lemma ReloadKeepsInv(s: State, s': State, first: nat, o: Owner, recycled: bool)
    requires Inv(s, first) && Reload(s, s', o, recycled)
    ensures Inv(s', first)
  {
    BoundGrows(s.owners, o);
    NewOwnerIsIdle(s);
    forall k | 0 <= k < |s'.owners| ensures Holders(s', k) <= s'.owners[k].maxConcurrent {
      assert Holders(s', k) == Holders(s, k);
    }
  }

  lemma NextKeepsInv(s: State, s': State, first: nat)
    requires Inv(s, first) && Next(s, s')
    ensures Inv(s', first)
    ensures Bound(s.owners) <= Bound(s'.owners)
  {
    if owner: nat :| Enter(s, s', owner) {
      EnterKeepsInv(s, s', first, owner);
    } else if i: nat, methodId: nat :| Check(s, s', i, methodId) {
      CheckKeepsInv(s, s', first, i, methodId);
    } else if i: nat :| Add(s, s', i) {
      AddKeepsInv(s, s', first, i);
    } else if i: nat :| Leave(s, s', i) {
      LeaveKeepsInv(s, s', first, i);
    } else if o, recycled :| Reload(s, s', o, recycled) {
      ReloadKeepsInv(s, s', first, o, recycled);
      BoundGrows(s.owners, o);
    } else {
      assert Reset(s, s');
    }
  }

  /** Owners only accumulate, so the bound in force at the end covers every
      earlier moment. */
  lemma {:induction false} BoundOnlyGrows(run: seq<State>, i: nat, j: nat)
    requires IsRun(run) && i <= j < |run|
    ensures Bound(run[i].owners) <= Bound(run[j].owners)
    decreases j - i
  {
    if i < j {
      BoundOnlyGrows(run, i, j - 1);
      var s, s' := run[j - 1], run[j];
      assert StepAt(run, j - 1);
      if o, recycled :| Reload(s, s', o, recycled) {
        BoundGrows(s.owners, o);
      }
    }
  }

  /**
   Bounded overspend. In every state of every run, what the counter holds plus
   what has been checked but not yet added stays within the highest threshold
   plus, for every node that owned the slot so far, its permits at its highest
   price; or, if it began above that, within what it began with.
   */
  lemma {:induction false} OverspendIsBounded(run: seq<State>, k: nat)
    requires IsRun(run) && Start(run[0]) && k < |run|
    ensures Inv(run[k], Owed(run[0]))
    ensures run[k].usage + Pending(run[k]) <= Max(Owed(run[0]), Bound(run[k].owners))
  {
    if k > 0 {
      OverspendIsBounded(run, k - 1);
      assert StepAt(run, k - 1);
      NextKeepsInv(run[k - 1], run[k], Owed(run[0]));
    }
  }

  lemma NothingInFlight(s: State)
    requires s.flights == []
    ensures Start(s) && Owed(s) == s.usage
  {
    forall o | 0 <= o < |s.owners| ensures Holders(s, o) == 0 {}
  }

  // ---------------------------------------------------------------------
  // Wrapping
  // ---------------------------------------------------------------------

  /** The step from `k` adds past the end of the counter. */
  ghost predicate WrapsAt(run: seq<State>, k: nat)
    requires k + 1 < |run|
  {
    exists i: nat :: Add(run[k], run[k + 1], i) && run[k].usage + run[k].flights[i].phase.cost >= U64
  }

  /** No addition wraps before the bound in force reaches 64 bits. */
  lemma WrapNeedsBound(run: seq<State>, k: nat)
    requires IsRun(run) && Start(run[0]) && k + 1 < |run| && WrapsAt(run, k)
    ensures Max(Owed(run[0]), Bound(run[k].owners)) >= U64
  {
    OverspendIsBounded(run, k);
    var i: nat :| Add(run[k], run[k + 1], i) && run[k].usage + run[k].flights[i].phase.cost >= U64;
    AddKeepsInv(run[k], run[k + 1], Owed(run[0]), i);
  }

  // ---------------------------------------------------------------------
  // The monthly limit
  // ---------------------------------------------------------------------

  /** `monthly_limit` scaled by `spillover_percent`: multiplied in 128 bits, then
      cut back to 64. */
  function SpilloverThreshold(monthlyLimit: nat, percent: nat): nat {
    (monthlyLimit * percent / 100) % U64
  }

  lemma Hundredth(product: nat, limit: nat)
    requires product <= 100 * limit
    ensures product / 100 <= limit && 100 * (product / 100) <= product < 100 * (product / 100 + 1)
  {}

  lemma ThresholdBelowLimit(monthlyLimit: nat, percent: nat)
    requires monthlyLimit < U64 && percent <= 100
    ensures SpilloverThreshold(monthlyLimit, percent) <= monthlyLimit
    ensures 100 * SpilloverThreshold(monthlyLimit, percent) <= monthlyLimit * percent
    ensures monthlyLimit * percent < 100 * (SpilloverThreshold(monthlyLimit, percent) + 1)
  {
    MulMonotone(monthlyLimit, percent, 100);
    Hundredth(monthlyLimit * percent, monthlyLimit);
    ModIsSmaller(monthlyLimit * percent / 100);
  }

  ghost predicate NoReload(run: seq<State>) {
    forall i :: 0 <= i < |run| ==> run[i].owners == run[0].owners
  }

  /** Between reloads the slot never spends past the monthly limit, provided the
      reserve below it covers the permits, at their highest prices, of every node
      that may still have requests in flight. */
  lemma StaysWithinMonthlyLimit(run: seq<State>, k: nat, monthlyLimit: nat)
    requires IsRun(run) && k < |run| && NoReload(run) && Start(run[0]) && Owed(run[0]) <= monthlyLimit < U64
    requires Bound(run[0].owners) <= monthlyLimit
    ensures run[k].usage <= monthlyLimit
    ensures k + 1 < |run| ==> !WrapsAt(run, k)
  {
    OverspendIsBounded(run, k);
    if k + 1 < |run| && WrapsAt(run, k) {
      WrapNeedsBound(run, k);
    }
  }

  // ---------------------------------------------------------------------
  // Once the requests of earlier nodes are done
  // ---------------------------------------------------------------------

  /** Every request admitted by an earlier owner has given its permit back. */
  ghost predicate Drained(s: State) {
    forall i :: 0 <= i < |s.flights| && s.flights[i].owner != |s.owners| - 1 ==> s.flights[i].phase.Gone?
  }

  ghost predicate DrainedAt(run: seq<State>, i: nat)
    requires i < |run|
  {
    Drained(run[i])
  }

  /** The same slot as if its present owner had always been the only one. */
  ghost function Alone(s: State): State
    requires s.owners != []
  {
    State(s.usage, [s.owners[|s.owners| - 1]], AllOf(s.flights))
  }

  ghost function AllOf(fs: seq<Flight>): (r: seq<Flight>)
    ensures |r| == |fs| && forall i :: 0 <= i < |fs| ==> r[i] == Flight(0, fs[i].phase)
  {
    seq(|fs|, i requires 0 <= i < |fs| => Flight(0, fs[i].phase))
  }

  lemma {:induction false} SumOfAll(fs: seq<Flight>, w: Flight -> nat, v: Flight -> nat)
    requires forall i :: 0 <= i < |fs| ==> v(Flight(0, fs[i].phase)) == w(fs[i])
    ensures Sum(AllOf(fs), v) == Sum(fs, w)
  {
    if fs != [] {
      var n := |fs| - 1;
      SumOfAll(fs[..n], w, v);
      assert AllOf(fs)[..n] == AllOf(fs[..n]);
    }
  }

  lemma AloneSums(s: State)
    requires s.owners != [] && Drained(s)
    ensures Holders(Alone(s), 0) == Holders(s, |s.owners| - 1)
    ensures FlightsOk(s) ==> Pending(Alone(s)) == Pending(s)
  {
    SumOfAll(s.flights, HoldsPermit(|s.owners| - 1), HoldsPermit(0));
    if FlightsOk(s) {
      SumOfAll(s.flights, PendingBelow(|s.owners|), PendingBelow(1));
    }
  }

  lemma AloneStarts(s: State)
    requires s.owners != [] && Drained(s) && Start(s)
    ensures Start(Alone(s)) && Owed(Alone(s)) == Owed(s)
  {
    AloneSums(s);
    assert s.owners[|s.owners| - 1] == Alone(s).owners[0];
  }

  lemma AloneEnters(s: State, s': State, owner: nat)
    requires s.owners != [] && Drained(s) && Drained(s') && Enter(s, s', owner)
    ensures Enter(Alone(s), Alone(s'), 0)
  {
    assert s'.flights[|s.flights|] == Flight(owner, Holding);
    AloneSums(s);
    assert Alone(s').flights == Alone(s).flights + [Flight(0, Holding)];
  }

  lemma AloneMoves(s: State, i: nat, phase: Phase)
    requires s.owners != [] && i < |s.flights|
    ensures AllOf(s.flights[i := s.flights[i].(phase := phase)]) == AllOf(s.flights)[i := Flight(0, phase)]
  {}

  lemma AloneChecks(s: State, s': State, i: nat, methodId: nat)
    requires s.owners != [] && Drained(s) && Check(s, s', i, methodId)
    ensures Check(Alone(s), Alone(s'), i, methodId)
  {
    AloneMoves(s, i, s'.flights[i].phase);
  }

  lemma AloneNext(s: State, s': State)
    requires s.owners != [] && Drained(s) && Drained(s') && Next(s, s') && s'.owners == s.owners
    ensures Next(Alone(s), Alone(s'))
  {
    if owner: nat :| Enter(s, s', owner) {
      AloneEnters(s, s', owner);
    } else if i: nat, methodId: nat :| Check(s, s', i, methodId) {
      AloneChecks(s, s', i, methodId);
    } else if i: nat :| Add(s, s', i) {
      AloneMoves(s, i, Sending);
      assert Add(Alone(s), Alone(s'), i);
    } else if i: nat :| Leave(s, s', i) {
      AloneMoves(s, i, Gone);
      assert Leave(Alone(s), Alone(s'), i);
    } else {
      assert Reset(s, s');
    }
  }

  ghost function AllAlone(run: seq<State>): (r: seq<State>)
    requires forall i :: 0 <= i < |run| ==> run[i].owners != []
    ensures |r| == |run| && forall i :: 0 <= i < |run| ==> r[i] == Alone(run[i])
  {
    seq(|run|, i requires 0 <= i < |run| => Alone(run[i]))
  }

  lemma AloneRuns(run: seq<State>)
    requires IsRun(run) && NoReload(run) && run[0].owners != []
    requires forall i :: 0 <= i < |run| ==> DrainedAt(run, i)
    ensures IsRun(AllAlone(run)) && NoReload(AllAlone(run))
  {
    forall i | 0 <= i < |run| - 1 ensures StepAt(AllAlone(run), i) {
      assert StepAt(run, i) && DrainedAt(run, i) && DrainedAt(run, i + 1);
      AloneNext(run[i], run[i + 1]);
    }
  }

  /** Once the requests of earlier owners are done, and as long as no new one is
      admitted through them, the present owner's own reserve is enough: its threshold
      is its limit cut by the spillover percent, and what that leaves has to cover
      its own permits at its own highest price. */
  lemma OwnReserveIsEnough(run: seq<State>, k: nat, monthlyLimit: nat, percent: nat)
    requires IsRun(run) && k < |run| && NoReload(run) && run[0].owners != [] && Start(run[0])
    requires forall i :: 0 <= i < |run| ==> DrainedAt(run, i)
    requires Owed(run[0]) <= monthlyLimit < U64 && percent <= 100
    requires var o := run[0].owners[|run[0].owners| - 1];
             && o.threshold == SpilloverThreshold(monthlyLimit, percent)
             && Highest(o.costs) * o.maxConcurrent <= monthlyLimit - o.threshold
    ensures run[k].usage <= monthlyLimit
  {
    assert DrainedAt(run, 0);
    AloneStarts(run[0]);
    AloneRuns(run);
    BoundOfOne(run[0].owners[|run[0].owners| - 1]);
    StaysWithinMonthlyLimit(AllAlone(run), k, monthlyLimit);
  }

  lemma BoundOfOne(o: Owner)
    ensures Bound([o]) == o.threshold + Highest(o.costs) * o.maxConcurrent
  {
    assert [o][..0] == [];
    assert MaxThreshold([]) == 0 && InFlight([]) == 0;
  }

  // ---------------------------------------------------------------------
  // The bound is met
  // ---------------------------------------------------------------------

  lemma {:induction false} EveryFlightHolds(fs: seq<Flight>)
    requires forall i :: 0 <= i < |fs| ==> fs[i].owner == 0 && !fs[i].phase.Gone?
    ensures Sum(fs, HoldsPermit(0)) == |fs|
  {
    if fs != [] {
      EveryFlightHolds(fs[..|fs| - 1]);
    }
  }

  lemma RunSnoc(run: seq<State>, s: State)
    requires IsRun(run) && Next(run[|run| - 1], s)
    ensures IsRun(run + [s])
  {
    forall i | 0 <= i < |run| ensures StepAt(run + [s], i) {
      if i < |run| - 1 {
        assert StepAt(run, i);
      }
    }
  }

  /** One more request takes a permit and reads a counter nobody has added to. */
  lemma OneMoreChecked(s: State, o: Owner, methodId: nat) returns (mid: State, s': State)
    requires s.owners == [o] && s.usage <= o.threshold && Cost(o.costs, methodId) != UNPRICED
    requires forall i :: 0 <= i < |s.flights| ==> s.flights[i].owner == 0 && !s.flights[i].phase.Gone?
    requires |s.flights| < o.maxConcurrent
    ensures Next(s, mid) && Next(mid, s')
    ensures s' == s.(flights := s.flights + [Flight(0, Checked(Cost(o.costs, methodId)))])
  {
    EveryFlightHolds(s.flights);
    mid := s.(flights := s.flights + [Flight(0, Holding)]);
    assert Enter(s, mid, 0);
    var booked := Flight(0, Checked(Cost(o.costs, methodId)));
    s' := s.(flights := s.flights + [booked]);
    assert s'.flights == mid.flights[|s.flights| := booked];
    assert Check(mid, s', |s.flights|, methodId);
  }

  ghost predicate CheckedFrom(s: State, o: Owner, p: Price, k: nat, n: nat) {
    s.owners == [o] && |s.flights| == n && forall i :: k <= i < n ==> s.flights[i] == Flight(0, Checked(p))
  }

  lemma {:induction false} AllCheck(o: Owner, methodId: nat, n: nat) returns (run: seq<State>)
    requires Cost(o.costs, methodId) != UNPRICED && n <= o.maxConcurrent
    ensures IsRun(run) && NoReload(run) && run[0] == State(o.threshold, [o], [])
    ensures run[|run| - 1].usage == o.threshold && CheckedFrom(run[|run| - 1], o, Cost(o.costs, methodId), 0, n)
  {
    if n == 0 {
      run := [State(o.threshold, [o], [])];
    } else {
      run := AllCheck(o, methodId, n - 1);
      var mid, s' := OneMoreChecked(run[|run| - 1], o, methodId);
      RunSnoc(run, mid);
      RunSnoc(run + [mid], s');
      run := run + [mid] + [s'];
    }
  }

  lemma {:induction false} AllAdd(o: Owner, methodId: nat, k: nat) returns (run: seq<State>)
    requires Cost(o.costs, methodId) != UNPRICED && k <= o.maxConcurrent
    requires o.threshold + Cost(o.costs, methodId) * k < U64
    ensures IsRun(run) && NoReload(run) && run[0] == State(o.threshold, [o], [])
    ensures run[|run| - 1].usage == o.threshold + Cost(o.costs, methodId) * k
    ensures CheckedFrom(run[|run| - 1], o, Cost(o.costs, methodId), k, o.maxConcurrent)
  {
    var p := Cost(o.costs, methodId);
    if k == 0 {
      run := AllCheck(o, methodId, o.maxConcurrent);
    } else {
      MulMonotone(p, k - 1, k);
      run := AllAdd(o, methodId, k - 1);
      var s := run[|run| - 1];
      Distribute(p, k - 1, 1);
      var s' := s.(usage := s.usage + p, flights := s.flights[k - 1 := s.flights[k - 1].(phase := Sending)]);
      assert Add(s, s', k - 1);
      RunSnoc(run, s');
      run := run + [s'];
    }
  }

  /** The bound is exact: every permit's request can read the counter at the
      threshold before any of them adds, and then all of them add. */
  lemma BoundIsReached(o: Owner, methodId: nat) returns (run: seq<State>)
    requires Cost(o.costs, methodId) == Highest(o.costs) != UNPRICED
    requires o.threshold + Highest(o.costs) * o.maxConcurrent < U64
    ensures IsRun(run) && run[0] == State(o.threshold, [o], [])
    ensures run[|run| - 1].usage == o.threshold + Highest(o.costs) * o.maxConcurrent
  {
    run := AllAdd(o, methodId, o.maxConcurrent);
  }

  /** Some id carries the highest price, unless nothing is priced above zero. */
  lemma {:induction false} HighestIsCharged(costs: Table) returns (methodId: nat)
    requires Highest(costs) > 0
    ensures Cost(costs, methodId) == Highest(costs) != UNPRICED
  {
    var n := |costs| - 1;
    if costs[n] != UNPRICED && costs[n] > Highest(costs[..n]) {
      methodId := n;
    } else {
      methodId := HighestIsCharged(costs[..n]);
    }
  }

  /** The first multiple that takes `base` past the limit. */
  lemma {:induction false} FirstPast(base: nat, p: nat, n: nat) returns (k: nat)
    requires base < U64 <= base + p * n
    ensures 0 < k <= n && base + p * (k - 1) < U64 <= base + p * k
  {
    if base + p * (n - 1) < U64 {
      k := n;
    } else {
      k := FirstPast(base, p, n - 1);
    }
  }

  /** One more pending cost is added, past the end of the counter. */
  lemma AddPast(run: seq<State>, i: nat) returns (longer: seq<State>)
    requires IsRun(run) && NoReload(run) && i < |run[|run| - 1].flights| && run[|run| - 1].flights[i].phase.Checked?
    requires run[|run| - 1].usage + run[|run| - 1].flights[i].phase.cost >= U64
    ensures IsRun(longer) && NoReload(longer) && longer[0] == run[0] && |longer| >= 2 && WrapsAt(longer, |longer| - 2)
  {
    var s := run[|run| - 1];
    var s' := s.(usage := (s.usage + s.flights[i].phase.cost) % U64,
                 flights := s.flights[i := s.flights[i].(phase := Sending)]);
    assert Add(s, s', i);
    RunSnoc(run, s');
    longer := run + [s'];
    assert longer[|longer| - 2] == s && longer[|longer| - 1] == s';
  }

  /** Requests add up to the last one that fits; the next one wraps. */
  lemma WrappingRun(o: Owner) returns (run: seq<State>)
    requires o.threshold < U64 <= Bound([o])
    ensures IsRun(run) && NoReload(run) && run[0] == State(o.threshold, [o], []) && |run| >= 2
    ensures WrapsAt(run, |run| - 2)
  {
    BoundOfOne(o);
    var methodId := HighestIsCharged(o.costs);
    var p := Highest(o.costs);
    var k := FirstPast(o.threshold, p, o.maxConcurrent);
    Distribute(p, k - 1, 1);
    var shorter := AllAdd(o, methodId, k - 1);
    run := AddPast(shorter, k - 1);
  }

  /** Through any number of owners: nothing wraps while the bound of them all fits. */
  lemma NothingWrapsBelow(run: seq<State>, k: nat)
    requires IsRun(run) && Start(run[0]) && k + 1 < |run|
    requires Owed(run[0]) < U64 && Bound(run[|run| - 1].owners) < U64
    ensures !WrapsAt(run, k)
  {
    BoundOnlyGrows(run, k, |run| - 1);
    if WrapsAt(run, k) {
      WrapNeedsBound(run, k);
    }
  }

  /** A run of one owner between reloads, from any counter and anything in flight. */
  ghost predicate OwnRun(run: seq<State>, o: Owner) {
    IsRun(run) && NoReload(run) && run[0].owners == [o] && Start(run[0]) && Owed(run[0]) < U64
  }

  ghost predicate WrapsSomewhere(run: seq<State>) {
    exists k :: 0 <= k < |run| - 1 && WrapsAt(run, k)
  }

  /**
   The counter of a node can wrap between reloads exactly when its threshold plus
   its permits at its highest price reach 64 bits.
   */
  lemma WrapsIff(o: Owner)
    requires o.threshold < U64
    ensures (exists run :: OwnRun(run, o) && WrapsSomewhere(run)) <==> Bound([o]) >= U64
  {
    if run :| OwnRun(run, o) && WrapsSomewhere(run) {
      var k :| 0 <= k < |run| - 1 && WrapsAt(run, k);
      WrapNeedsBound(run, k);
    }
    if Bound([o]) >= U64 {
      BoundOfOne(o);
      var run := WrappingRun(o);
      NothingInFlight(run[0]);
      assert OwnRun(run, o);
    }
  }

  /** An accepted configuration that wraps: no monthly limit is spelled as the
      largest one, and at 100 percent that is the threshold, so one request at any
      price takes the counter round. */
  lemma UnmeteredNodeCanWrap(o: Owner) returns (run: seq<State>)
    requires o.threshold == SpilloverThreshold(U64 - 1, 100) && o.maxConcurrent > 0 && Highest(o.costs) > 0
    ensures OwnRun(run, o) && WrapsSomewhere(run)
  {
    BoundOfOne(o);
    assert o.threshold == U64 - 1;
    MulMonotone(Highest(o.costs), 1, o.maxConcurrent);
    run := WrappingRun(o);
    NothingInFlight(run[0]);
  }
}
