/**
 When a node's counter goes back to zero: one node's counter and the period it
 is credited to, followed through any sequence of bookings and clock readings.
 */
module Periods {
  import opened Wrappers
  import opened Calendar

  /** What one node has spent, and the billing period that spend belongs to. */
  datatype Ledger = Ledger(used: nat, marker: Option<Date>)

  /** One rollover, on one node. */
  function Roll(l: Ledger, start: Result<Date, string>): Ledger {
    match (start, l.marker)
    case (Err(_), _) => l
    case (Ok(s), None) => l.(marker := Some(s))
    case (Ok(s), Some(stored)) => if AtMost(s, stored) then l else Ledger(0, Some(s))
  }

  datatype Event = Booked(cost: nat) | Ticked(start: Result<Date, string>)

  function Apply(l: Ledger, e: Event): Ledger {
    match e
    case Booked(cost) => l.(used := l.used + cost)
    case Ticked(start) => Roll(l, start)
  }

  function ApplyAll(l: Ledger, es: seq<Event>): Ledger {
    if es == [] then l else Apply(ApplyAll(l, es[..|es| - 1]), es[|es| - 1])
  }

  // ---------------------------------------------------------------------
  // The reference: bookings since the last period boundary
  // ---------------------------------------------------------------------

  function TotalBooked(es: seq<Event>): nat {
    if es == [] then 0
    else TotalBooked(es[..|es| - 1]) + CostOf(es[|es| - 1])
  }

  /** The event is a clock reading that falls in a known period. */
  predicate Reads(e: Event, s: Date) {
    e == Ticked(Ok(s))
  }

  /** `top` is the latest period start among `from` and all the readings. */
  ghost predicate IsLatest(from: Date, es: seq<Event>, top: Date) {
    && (top == from || exists i :: 0 <= i < |es| && Reads(es[i], top))
    && AtMost(from, top)
    && forall i, s :: 0 <= i < |es| && Reads(es[i], s) ==> AtMost(s, top)
  }

  /** Position `k` is the first reading of `top`. */
  ghost predicate FirstReading(es: seq<Event>, top: Date, k: nat) {
    k < |es| && Reads(es[k], top) && forall i :: 0 <= i < k ==> !Reads(es[i], top)
  }

  /** The spend is what was booked after the first reading of `top`. */
  ghost predicate SpentSince(es: seq<Event>, top: Date, k: nat, used: nat) {
    FirstReading(es, top, k) && used == TotalBooked(es[k + 1..])
  }

  /** The marker is the latest period start seen; the counter holds the starting
      spend plus every booking if that is still the starting period, or else
      exactly the bookings made since the first reading of the latest one. */
  ghost predicate Accounts(used: nat, from: Date, es: seq<Event>, r: Ledger) {
    && r.marker.Some? && IsLatest(from, es, r.marker.value)
    && (r.marker.value == from ==> r.used == used + TotalBooked(es))
    && (r.marker.value != from ==> exists k :: SpentSince(es, r.marker.value, k, r.used))
  }

  function CostOf(e: Event): nat {
    match e
    case Booked(cost) => cost
    case Ticked(_) => 0
  }

  lemma BookedSnoc(es: seq<Event>, e: Event)
    ensures TotalBooked(es + [e]) == TotalBooked(es) + CostOf(e)
  {
    assert (es + [e])[..|es|] == es;
  }

  lemma SpentSinceSnoc(es: seq<Event>, e: Event, top: Date, k: nat, used: nat)
    requires SpentSince(es, top, k, used)
    ensures SpentSince(es + [e], top, k, used + CostOf(e))
  {
    assert (es + [e])[k + 1..] == es[k + 1..] + [e];
    BookedSnoc(es[k + 1..], e);
  }

  /** An event that leaves the marker where it was only adds its cost. */
  lemma KeepStep(used: nat, from: Date, es: seq<Event>, r: Ledger, e: Event)
    requires Accounts(used, from, es, r) && Apply(r, e).marker == r.marker
    ensures Accounts(used, from, es + [e], Apply(r, e))
  {
    var top := r.marker.value;
    assert Apply(r, e).used == r.used + CostOf(e);
    LatestStays(from, es, e, top);
    BookedSnoc(es, e);
    if top != from {
      var k :| SpentSince(es, top, k, r.used);
      SpentSinceSnoc(es, e, top, k, r.used);
    }
  }

  /** A reading of a later period is the first of its kind, and zeroes the counter. */
  lemma ResetStep(used: nat, from: Date, es: seq<Event>, r: Ledger, e: Event)
    requires Accounts(used, from, es, r) && Apply(r, e).marker != r.marker
    ensures Accounts(used, from, es + [e], Apply(r, e))
  {
    var s := Apply(r, e).marker.value;
    LatestMoves(from, es, e, r.marker.value, s);
    assert (es + [e])[|es| + 1..] == [];
    assert SpentSince(es + [e], s, |es|, 0);
  }

  /**
   Exactly-once reset, for a tracked node: over any sequence of bookings and
   clock readings, forwards or backwards, the counter and the marker are what
   the history of that sequence says.
   */
  lemma {:induction false} ResetExactlyOnce(l: Ledger, from: Date, es: seq<Event>)
    requires l.marker == Some(from)
    ensures Accounts(l.used, from, es, ApplyAll(l, es))
  {
    if es != [] {
      var n := |es| - 1;
      var r := ApplyAll(l, es[..n]);
      ResetExactlyOnce(l, from, es[..n]);
      assert es == es[..n] + [es[n]];
      if Apply(r, es[n]).marker == r.marker {
        KeepStep(l.used, from, es[..n], r, es[n]);
      } else {
        ResetStep(l.used, from, es[..n], r, es[n]);
      }
    }
  }

  lemma LatestStays(from: Date, es: seq<Event>, e: Event, top: Date)
    requires IsLatest(from, es, top)
    requires forall s :: Reads(e, s) ==> AtMost(s, top)
    ensures IsLatest(from, es + [e], top)
  {
    if i :| 0 <= i < |es| && Reads(es[i], top) {
      assert Reads((es + [e])[i], top);
    }
  }

  lemma LatestMoves(from: Date, es: seq<Event>, e: Event, top: Date, s: Date)
    requires IsLatest(from, es, top) && Reads(e, s) && !AtMost(s, top)
    ensures IsLatest(from, es + [e], s)
    ensures forall i :: 0 <= i < |es| ==> !Reads(es[i], s)
    ensures s != from
  {
    assert Reads((es + [e])[|es|], s);
    forall i, q | 0 <= i < |es + [e]| && Reads((es + [e])[i], q) ensures AtMost(q, s) {
      if i < |es| {
        assert Reads(es[i], q);
        assert AtMost(q, top) && AtMost(top, s);
      }
    }
  }

  /** No clock reading among the events falls in a known period. */
  ghost predicate NoReading(es: seq<Event>) {
    forall i :: 0 <= i < |es| && es[i].Ticked? ==> es[i].start.Err?
  }

  /** Without a reading the counter only grows, tracked or not. */
  lemma {:induction false} OnlyBookings(l: Ledger, es: seq<Event>)
    requires NoReading(es)
    ensures ApplyAll(l, es) == l.(used := l.used + TotalBooked(es))
  {
    if es != [] {
      OnlyBookings(l, es[..|es| - 1]);
    }
  }

  lemma {:induction false} ApplyConcat(l: Ledger, a: seq<Event>, b: seq<Event>)
    ensures ApplyAll(l, a + b) == ApplyAll(ApplyAll(l, a), b)
  {
    if b == [] {
      assert a + b == a;
    } else {
      var n := |b| - 1;
      ApplyConcat(l, a, b[..n]);
      assert (a + b)[..|a + b| - 1] == a + b[..n];
    }
  }

  lemma FirstReadingAt(es: seq<Event>) returns (k: nat, s: Date)
    requires !NoReading(es)
    ensures k < |es| && Reads(es[k], s) && NoReading(es[..k])
  {
    if !NoReading(es[..|es| - 1]) {
      k, s := FirstReadingAt(es[..|es| - 1]);
      assert es[..|es| - 1][..k] == es[..k];
    } else {
      k := |es| - 1;
      assert es[k].Ticked? && es[k].start.Ok?;
      s := es[k].start.value;
    }
  }

  lemma AdoptsThenExactlyOnce(used: nat, a: seq<Event>, s: Date, b: seq<Event>)
    requires NoReading(a)
    ensures Accounts(used + TotalBooked(a), s, b, ApplyAll(Ledger(used, None), a + [Ticked(Ok(s))] + b))
  {
    var l := Ledger(used, None);
    var adopted := Ledger(used + TotalBooked(a), Some(s));
    OnlyBookings(l, a);
    ApplyConcat(l, a + [Ticked(Ok(s))], b);
    ApplyConcat(l, a, [Ticked(Ok(s))]);
    assert [Ticked(Ok(s))][..0] == [];
    assert ApplyAll(ApplyAll(l, a), [Ticked(Ok(s))]) == adopted;
    ResetExactlyOnce(adopted, s, b);
  }

  /** An untracked node adopts the first period it sees without a reset, and is
      accounted for from that moment as a tracked one. */
  lemma UntrackedAdoptsThenExactlyOnce(used: nat, es: seq<Event>, k: nat, s: Date)
    requires k < |es| && Reads(es[k], s) && NoReading(es[..k])
    ensures Accounts(used + TotalBooked(es[..k]), s, es[k + 1..], ApplyAll(Ledger(used, None), es))
  {
    var a, b := es[..k], es[k + 1..];
    assert es == a + [Ticked(Ok(s))] + b;
    AdoptsThenExactlyOnce(used, a, s, b);
  }

  /** Adopted at position `k`, and tracked since. */
  ghost predicate AdoptedAt(used: nat, es: seq<Event>, k: nat, r: Ledger) {
    && k < |es| && es[k].Ticked? && es[k].start.Ok? && NoReading(es[..k])
    && Accounts(used + TotalBooked(es[..k]), es[k].start.value, es[k + 1..], r)
  }

  /** What a history leaves of any first ledger, tracked or not. */
  ghost predicate AccountsFor(base: Ledger, es: seq<Event>, r: Ledger) {
    match base.marker
    case Some(from) => Accounts(base.used, from, es, r)
    case None =>
      || (NoReading(es) && r == Ledger(base.used + TotalBooked(es), None))
      || exists k :: AdoptedAt(base.used, es, k, r)
  }

  /** Exactly-once reset from any first ledger: a tracked one is reset once per
      period reached; an untracked one adopts the first period it reads without a
      reset and is tracked from there. */
  lemma ResetExactlyOnceFromAny(base: Ledger, es: seq<Event>)
    ensures AccountsFor(base, es, ApplyAll(base, es))
  {
    if base.marker.Some? {
      ResetExactlyOnce(base, base.marker.value, es);
    } else if NoReading(es) {
      OnlyBookings(base, es);
    } else {
      var k, s := FirstReadingAt(es);
      UntrackedAdoptsThenExactlyOnce(base.used, es, k, s);
      assert AdoptedAt(base.used, es, k, ApplyAll(base, es));
    }
  }

  /** A tracked node stays tracked. */
  lemma StaysTracked(base: Ledger, es: seq<Event>)
    requires base.marker.Some?
    ensures ApplyAll(base, es).marker.Some?
  {
    ResetExactlyOnce(base, base.marker.value, es);
  }

  /** Repeating a clock reading changes nothing. */
  lemma RollIdempotent(l: Ledger, start: Result<Date, string>)
    ensures Roll(Roll(l, start), start) == Roll(l, start)
  {}

  /** Readings may arrive in any order: the later period wins, and both orders
      agree whenever nothing was booked in between. */
  lemma RollsCommute(l: Ledger, s: Date, t: Date)
    requires l.marker.Some?
    ensures Roll(Roll(l, Ok(s)), Ok(t)) == Roll(Roll(l, Ok(t)), Ok(s))
  {}
}
