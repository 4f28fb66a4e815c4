/**
 From the bytes of a request to what it is billed: the name scanned off the body,
 the id it resolves to, the price each provider's compiled table holds for that id,
 and the bookings routing makes.

 A request resolves its name once and reads the table anew in every round, so the
 tables it meets may have been built before or after it asked for its id.
 */
module Pricing {
  import opened Wrappers
  import opened Registry
  import opened CostTable
  import opened Scanner
  import opened Routing
  import ByName
  import RoutingTheorems

  /** The price list a node was built from, and the names known at that time. */
  datatype PriceList = PriceList(spec: CostSpec, built: Interned)

  /** One of the two tables extends the other: any two the registry published do. */
  ghost predicate Comparable(a: Interned, b: Interned) {
    a.names <= b.names || b.names <= a.names
  }

  lemma PublishedAreComparable(run: seq<Race>, hash: Name -> bv64, k: nat, i: nat, j: nat)
    requires IsRun(run, hash) && k < |run| && i < |run[k].published| && j < |run[k].published|
    ensures Comparable(run[k].published[i], run[k].published[j])
  {
    NoNameIsLost(run, hash, k);
  }

  /** The node's table was compiled from the list, before the id was asked for or
      after. */
  ghost predicate CompiledFrom(node: Node, list: PriceList, std: Name -> nat, hash: Name -> bv64, asked: Interned) {
    && WellFormed(list.built, hash) && Comparable(list.built, asked)
    && Compiled(list.spec, std, list.built, node.costs)
    && forall n :: n in list.spec.custom ==> n in list.built.names
  }

  /** What the operator wrote down for a name, whatever the registry knows. */
  ghost function WrittenPrice(spec: CostSpec, std: Name -> nat, name: Name): Price {
    if std(name) != UNKNOWN then
      if name in spec.routing then spec.routing[name] else spec.unknownCost
    else if name in spec.custom then spec.custom[name]
    else spec.unknownCost
  }

  /** What the table charges for the id the name resolved to: the written price,
      but the fallback for a name that was not interned yet when it was resolved,
      and nothing at all for one interned between the build and then. */
  ghost function ChargedPrice(list: PriceList, std: Name -> nat, asked: Interned, name: Name): Price {
    if std(name) == UNKNOWN && name !in asked.names then list.spec.unknownCost
    else if std(name) == UNKNOWN && name !in list.built.names then UNPRICED
    else WrittenPrice(list.spec, std, name)
  }

  /** The request is charged something else than what is written down: it resolved
      the name before the name was interned, and the list prices it apart from the
      rest; or the list leaves it to its fallback, and the name was interned by
      another list between the build and the request. */
  ghost predicate Misses(list: PriceList, std: Name -> nat, asked: Interned, name: Name) {
    && std(name) == UNKNOWN
    && var spec := list.spec;
       if name in spec.custom then name !in asked.names && spec.custom[name] != spec.unknownCost
       else name in asked.names && name !in list.built.names && spec.unknownCost != UNPRICED
  }

  /** The table is older than the id, or the same age. */
  lemma OlderTableCharges(list: PriceList, std: Name -> nat, hash: Name -> bv64, asked: Interned, node: Node,
                          name: Name)
    requires BuiltinTable(std) && WellFormed(asked, hash) && CompiledFrom(node, list, std, hash, asked)
    requires list.built.names <= asked.names
    ensures Cost(node.costs, Resolve(std, asked, hash, name)) == ChargedPrice(list, std, asked, name)
  {
    PricesMeanTheList(list.spec, std, hash, list.built, asked, node.costs, name);
  }

  /** The table is newer than the id. */
  lemma NewerTableCharges(list: PriceList, std: Name -> nat, hash: Name -> bv64, asked: Interned, node: Node,
                          name: Name)
    requires BuiltinTable(std) && WellFormed(asked, hash) && CompiledFrom(node, list, std, hash, asked)
    requires asked.names <= list.built.names
    ensures Cost(node.costs, Resolve(std, asked, hash, name)) == ChargedPrice(list, std, asked, name)
  {
    if std(name) == UNKNOWN && name !in asked.names {
      LookupRefinesNameList(asked, hash, name);
      FallbackSlotIsTheFallback(list.spec, std, list.built, node.costs);
    } else {
      LookupRefinesNameList(asked, hash, name);
      ResolveStable(std, asked, list.built, hash, name);
      PricesMeanTheList(list.spec, std, hash, list.built, list.built, node.costs, name);
    }
  }

  /** Whichever came first, the charge is known, and it is the written price exactly
      unless the request misses it. */
  lemma ChargesWrittenPriceIff(list: PriceList, std: Name -> nat, hash: Name -> bv64, asked: Interned, node: Node,
                               name: Name)
    requires BuiltinTable(std) && WellFormed(asked, hash) && CompiledFrom(node, list, std, hash, asked)
    ensures Cost(node.costs, Resolve(std, asked, hash, name)) == ChargedPrice(list, std, asked, name)
    ensures Cost(node.costs, Resolve(std, asked, hash, name)) == WrittenPrice(list.spec, std, name)
       <==> !Misses(list, std, asked, name)
  {
    if list.built.names <= asked.names {
      OlderTableCharges(list, std, hash, asked, node, name);
    } else {
      NewerTableCharges(list, std, hash, asked, node, name);
    }
  }

  // ---------------------------------------------------------------------
  // Whole requests
  // ---------------------------------------------------------------------

  ghost predicate AllCompiled(script: seq<Round>, lists: Node -> PriceList, std: Name -> nat, hash: Name -> bv64,
                              asked: Interned)
  {
    forall r, i :: 0 <= r < |script| && 0 <= i < |script[r].ranked| ==>
      CompiledFrom(script[r].ranked[i].node, lists(script[r].ranked[i].node), std, hash, asked)
  }

  /** The booking is for what its node's table charges, and for what its node's
      list says exactly unless the request misses it. */
  ghost predicate BilledBy(x: Booking, list: PriceList, std: Name -> nat, asked: Interned, name: Name) {
    && x.cost == ChargedPrice(list, std, asked, name) != UNPRICED
    && (x.cost == WrittenPrice(list.spec, std, name) <==> !Misses(list, std, asked, name))
  }

  lemma BookingIsBilled(script: seq<Round>, lists: Node -> PriceList, std: Name -> nat, hash: Name -> bv64,
                        asked: Interned, name: Name, x: Booking)
    requires BuiltinTable(std) && WellFormed(asked, hash) && ValidScript(script)
    requires AllCompiled(script, lists, std, hash, asked)
    requires var id := Resolve(std, asked, hash, name); x in Bookings(script, RouteOf(script, id).reports)
    ensures BilledBy(x, lists(x.node), std, asked, name)
  {
    var id := Resolve(std, asked, hash, name);
    var reports := RouteOf(script, id).reports;
    RoutingTheorems.OneAttemptOneBooking(script, id);
    var r, k, _ := ByName.BookedBy(script, reports, x);
    assert CompiledFrom(script[r].ranked[k].node, lists(script[r].ranked[k].node), std, hash, asked);
    ChargesWrittenPriceIff(lists(x.node), std, hash, asked, x.node, name);
  }

  /**
   Every booking of a request whose body scans to a name costs what the price list
   of the node billed says for that name, whatever else is in the body and whenever
   the node's table was built, before the request or by a reload during it; exactly
   unless the request misses the price at that node. A node whose table does not
   price the name is not billed.
   */
  lemma RequestCostsTheList(body: Bytes, script: seq<Round>, lists: Node -> PriceList, std: Name -> nat,
                            hash: Name -> bv64, asked: Interned)
    requires BuiltinTable(std) && WellFormed(asked, hash) && ValidScript(script)
    requires AllCompiled(script, lists, std, hash, asked) && ScanLeadingMethod(body).Some?
    ensures var name := ScanLeadingMethod(body).value;
            var b := Bookings(script, RouteOf(script, Resolve(std, asked, hash, name)).reports);
            && (exists l :: Blank(l) && body == Print(l, name))
            && forall i :: 0 <= i < |b| ==> BilledBy(b[i], lists(b[i].node), std, asked, name)
  {
    var name := ScanLeadingMethod(body).value;
    var l := ScannedWasPrinted(body);
    var b := Bookings(script, RouteOf(script, Resolve(std, asked, hash, name)).reports);
    forall i | 0 <= i < |b| ensures BilledBy(b[i], lists(b[i].node), std, asked, name) {
      BookingIsBilled(script, lists, std, hash, asked, name, b[i]);
    }
  }

  // ---------------------------------------------------------------------
  // A price that is missed
  // ---------------------------------------------------------------------

  const METHOD: Name := [0x78]

  /** Nothing is built in, and every name hashes to zero. */
  ghost function NoBuiltins(): Name -> nat { (n: Name) => UNKNOWN }

  ghost function ZeroHash(): Name -> bv64 { (n: Name) => 0 }

  const NEW_LIST: PriceList :=
    PriceList(CostSpec(map[], map[METHOD := 5], 1), Interned([0], [METHOD]))

  /** The table of the new list: the custom price in the last slot, the fallback in
      all the others. */
  ghost function NewTable(): (table: Table)
    ensures |table| == COUNT + 1
  {
    seq(COUNT + 1, i => if i == COUNT then 5 else 1)
  }

  ghost function NewNode(): Node { Node("node", 0, 0, NewTable()) }

  /** The first round finds the node rate-limited; the reload's table is read in the
      second. */
  ghost function LateScript(earlier: Node): seq<Round> {
    [Round([Visit(earlier, false, Permit(NoToken(0)))], Closed),
     Round([Visit(NewNode(), false, Permit(Token(0, Final)))], Closed)]
  }

  lemma NewTableIsCompiled()
    ensures BuiltinTable(NoBuiltins()) && WellFormed(NEW_LIST.built, ZeroHash())
    ensures CompiledFrom(NewNode(), NEW_LIST, NoBuiltins(), ZeroHash(), Interned([], []))
  {
    var none, one: seq<Name> := [], [METHOD];
    assert Iterates(none, NEW_LIST.spec.routing);
    assert one[0] == METHOD && Iterates(one, NEW_LIST.spec.custom);
    assert RoutingCompiled(NEW_LIST.spec, NoBuiltins(), none, NewTable());
    assert CustomCompiled(NEW_LIST.spec, NEW_LIST.built, one, NewTable());
  }

  lemma LateSteps(earlier: Node)
    requires earlier.slot == 0
    ensures StepOf(LateScript(earlier)[0], 0, {}, false) == Step(Report([RateLimited(0)], Slept(0)), {}, None)
    ensures StepOf(LateScript(earlier)[1], 0, {}, false).report == Report([Attempted(1, Final)], Stopped)
    ensures StepOf(LateScript(earlier)[1], 0, {}, false).returned.Some?
  {
    var first, second := LateScript(earlier)[0], LateScript(earlier)[1];
    assert first.ranked[1..] == [] && second.ranked[1..] == [];
    assert Walk(first.ranked, 0, {}, false) == Walked([RateLimited(0)], {});
    assert Walk(second.ranked, 0, {}, false).verdicts == [Attempted(1, Final)];
    assert [RateLimited(0)][1..] == [];
  }

  /**
   A price that is missed. A request asks for a name nobody has interned, and gets
   the id of unknown methods. While it waits, a reload interns the name and lists it
   at 5. The request goes on to the new node and is billed 1, the price of methods
   the list does not name.
   */
  lemma NewPriceIsMissed(earlier: Node)
    requires earlier.slot == 0
    ensures var std, hash, asked := NoBuiltins(), ZeroHash(), Interned([], []);
            var id := Resolve(std, asked, hash, METHOD);
            && CompiledFrom(NewNode(), NEW_LIST, std, hash, asked)
            && Bookings(LateScript(earlier), RouteOf(LateScript(earlier), id).reports) == [Booking(NewNode(), 1)]
            && WrittenPrice(NEW_LIST.spec, std, METHOD) == 5 && Misses(NEW_LIST, std, asked, METHOD)
  {
    NewTableIsCompiled();
    LateSteps(earlier);
    var script := LateScript(earlier);
    var st := [RoutingTheorems.FRESH, RoutingTheorems.FRESH];
    var rule := RoutingTheorems.RuleOf(0);
    assert ByName.GoesTo(rule, script[0], st[0], st[1]);
    ByName.PlayAlong(rule, script, st);
    RoutingTheorems.RunIsPlay(script, 0, RoutingTheorems.FRESH);
    var reports := RouteOf(script, 0).reports;
    assert reports == [Report([RateLimited(0)], Slept(0)), Report([Attempted(1, Final)], Stopped)];
    BookingsOfTwo(script, reports);
    BookingsOfOne(script[0].ranked[0], RateLimited(0));
    BookingsOfOne(script[1].ranked[0], Attempted(1, Final));
  }

  lemma BookingsOfTwo(script: seq<Round>, reports: seq<Report>)
    requires |script| == 2 && |reports| == 2 && Fits(script, reports)
    ensures Bookings(script, reports) == RoundBookings(script[0], reports[0]) + RoundBookings(script[1], reports[1])
  {
    assert reports[1..][1..] == [];
    assert Bookings(script[1..], reports[1..])
        == RoundBookings(script[1..][0], reports[1..][0]) + Bookings(script[1..][1..], reports[1..][1..]);
  }

  lemma BookingsOfOne(visit: Visit, v: Verdict)
    ensures WalkBookings([visit], [v]) == BookingOf(visit.node, v)
  {
    assert [v][1..] == [];
  }
}
