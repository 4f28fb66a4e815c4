/**
 What one provider charges for each method: a flat array indexed by method id,
 compiled from the price list, and the proof that it means the price list.
 */
module CostTable {
  import opened Registry

  type Price = n: nat | n <= 0xFFFF_FFFF

  /** The price of a method a node cannot serve. */
  const UNPRICED: Price := 0xFFFF_FFFF

  datatype CostSpec = CostSpec(routing: map<Name, Price>, custom: map<Name, Price>, unknownCost: Price)

  type Table = seq<Price>

  /** A missing slot reads as unpriced. */
  function Cost(table: Table, id: nat): Price {
    if id < |table| then table[id] else UNPRICED
  }

  /** `order` visits every key of the map once; nothing is said about which first. */
  ghost predicate Iterates(order: seq<Name>, m: map<Name, Price>) {
    && (forall i :: 0 <= i < |order| ==> order[i] in m)
    && (forall n :: n in m ==> n in order)
  }

  ghost predicate Later(earlier: Interned, later: Interned, hash: Name -> bv64) {
    WellFormed(later, hash) && earlier.names <= later.names
  }

  /** Slots below `COUNT`: the routing price of the built-in holding the slot. */
  ghost predicate RoutingCompiled(spec: CostSpec, std: Name -> nat, seen: seq<Name>, table: Table) {
    && (forall k :: 0 <= k < |seen| && seen[k] in spec.routing && std(seen[k]) != UNKNOWN && std(seen[k]) < |table|
                    ==> table[std(seen[k])] == spec.routing[seen[k]])
    && (forall id :: 0 <= id < COUNT && id < |table|
                     && (id == UNKNOWN || forall k :: 0 <= k < |seen| ==> std(seen[k]) != id)
                     ==> table[id] == spec.unknownCost)
  }

  /** Slots from `COUNT` on: the custom price of the name interned there. */
  ghost predicate CustomCompiled(spec: CostSpec, built: Interned, seen: seq<Name>, table: Table) {
    && |table| == COUNT + |built.names|
    && forall i :: 0 <= i < |built.names| ==>
         table[COUNT + i] == if built.names[i] in spec.custom && built.names[i] in seen
                             then spec.custom[built.names[i]] else spec.unknownCost
  }

  /** The table a finished build leaves behind. */
  ghost predicate Compiled(spec: CostSpec, std: Name -> nat, built: Interned, table: Table) {
    exists routingOrder, customOrder ::
      && Iterates(routingOrder, spec.routing)
      && Iterates(customOrder, spec.custom)
      && RoutingCompiled(spec, std, routingOrder, table)
      && CustomCompiled(spec, built, customOrder, table)
  }

  /** First loop of the build. A name that is no built-in is dropped: it would
      otherwise land in the fallback slot. */
  method PriceRouting(spec: CostSpec, std: Name -> nat, order: seq<Name>, built: Interned) returns (table: Table)
    requires BuiltinTable(std) && Iterates(order, spec.routing) && |built.hashes| == |built.names|
    ensures RoutingCompiled(spec, std, order, table)
    ensures CustomCompiled(spec, built, [], table)
  {
    table := seq(TableSize(built), i => spec.unknownCost);
    for k := 0 to |order|
      invariant |table| == COUNT + |built.names|
      invariant RoutingCompiled(spec, std, order[..k], table)
      invariant forall i :: COUNT <= i < |table| ==> table[i] == spec.unknownCost
    {
      RoutingStep(spec, std, order, k, table);
      var id := std(order[k]);
      if id != UNKNOWN {
        table := table[id := spec.routing[order[k]]];
      }
    }
    assert order[..|order|] == order;
  }

  /** Second loop of the build. `during[k]` are the names other callers intern
      just before the `k`-th custom name is looked up. */
  method PriceCustom(spec: CostSpec, hash: Name -> bv64, order: seq<Name>, built: Interned,
                     during: seq<seq<Name>>, routed: Table)
    returns (table: Table)
    requires WellFormed(built, hash)
    requires forall k :: 0 <= k < |order| ==> order[k] in spec.custom && order[k] in built.names
    requires |during| == |order|
    requires CustomCompiled(spec, built, [], routed)
    ensures |table| == |routed| && table[..COUNT] == routed[..COUNT]
    ensures CustomCompiled(spec, built, order, table)
  {
    table := routed;
    var now := built;
    for k := 0 to |order|
      invariant Later(built, now, hash)
      invariant |table| == |routed| && table[..COUNT] == routed[..COUNT]
      invariant CustomCompiled(spec, built, order[..k], table)
    {
      now := Extend(now, during[k], hash);
      FoundInside(built, now, hash, order[k]);
      var found := Lookup(now, hash, order[k]);
      if found.Some? && found.value < |table| {
        CustomStep(spec, built, order, k, table, found.value);
        table := table[found.value := spec.custom[order[k]]];
      }
    }
    assert order[..|order|] == order;
  }

  lemma FoundInside(built: Interned, later: Interned, hash: Name -> bv64, name: Name)
    requires WellFormed(built, hash) && Later(built, later, hash) && name in built.names
    ensures var found := Lookup(later, hash, name);
            found.Some? && COUNT <= found.value < TableSize(built) && built.names[found.value - COUNT] == name
  {
    var i :| 0 <= i < |built.names| && built.names[i] == name;
    LookupRefinesNameList(later, hash, name);
    assert later.names[i] == name;
  }

  lemma RoutingUntouched(spec: CostSpec, std: Name -> nat, order: seq<Name>, routed: Table, table: Table)
    requires BuiltinTable(std)
    requires COUNT <= |table| == |routed| && table[..COUNT] == routed[..COUNT]
    requires RoutingCompiled(spec, std, order, routed)
    ensures RoutingCompiled(spec, std, order, table)
  {
    assert forall id :: 0 <= id < COUNT ==> table[id] == table[..COUNT][id] == routed[..COUNT][id] == routed[id];
  }

  /**
   Builds one provider's table, interning the names it prices first.

   `routingOrder` and `customOrder` are whatever order the two hash maps happen
   to iterate in. Other callers may register at any time: `between` are the
   names they intern before the table is sized, `during` the names they intern
   while the custom prices are stored. `built` is the registry the table was
   sized for.
   */
  method New(spec: CostSpec, std: Name -> nat, hash: Name -> bv64,
             routingOrder: seq<Name>, customOrder: seq<Name>,
             before: Interned, between: seq<Name>, during: seq<seq<Name>>)
    returns (table: Table, built: Interned)
    requires BuiltinTable(std) && WellFormed(before, hash)
    requires Iterates(routingOrder, spec.routing) && Iterates(customOrder, spec.custom)
    requires |during| == |customOrder|
    ensures WellFormed(built, hash) && before.names <= built.names
    ensures |table| == TableSize(built)
    ensures Compiled(spec, std, built, table)
    ensures forall n :: n in built.names <==> n in before.names || n in spec.custom || n in between
  {
    built := Extend(before, customOrder, hash);
    built := Extend(built, between, hash);
    var routed := PriceRouting(spec, std, routingOrder, built);
    table := PriceCustom(spec, hash, customOrder, built, during, routed);
    RoutingUntouched(spec, std, routingOrder, routed, table);
  }

  lemma RoutingStep(spec: CostSpec, std: Name -> nat, order: seq<Name>, k: nat, table: Table)
    requires BuiltinTable(std)
    requires k < |order| && order[k] in spec.routing && COUNT <= |table|
    requires RoutingCompiled(spec, std, order[..k], table)
    ensures std(order[k]) != UNKNOWN ==>
              RoutingCompiled(spec, std, order[..k + 1], table[std(order[k]) := spec.routing[order[k]]])
    ensures std(order[k]) == UNKNOWN ==> RoutingCompiled(spec, std, order[..k + 1], table)
  {
    assert order[..k + 1] == order[..k] + [order[k]];
  }

  lemma CustomStep(spec: CostSpec, built: Interned, order: seq<Name>, k: nat, table: Table, id: nat)
    requires Distinct(built.names)
    requires k < |order| && order[k] in spec.custom
    requires CustomCompiled(spec, built, order[..k], table)
    requires COUNT <= id < |table| && built.names[id - COUNT] == order[k]
    ensures CustomCompiled(spec, built, order[..k + 1], table[id := spec.custom[order[k]]])
  {
    assert order[..k + 1] == order[..k] + [order[k]];
  }

  /** The price of a name, read straight off the price list: `built` is what the
      registry carried when the table was built, `now` what it carries today. */
  ghost function ListedPrice(spec: CostSpec, std: Name -> nat, built: Interned, now: Interned, name: Name): Price {
    if std(name) != UNKNOWN then
      if name in spec.routing then spec.routing[name] else spec.unknownCost
    else if name in spec.custom then spec.custom[name]
    else if name in now.names && name !in built.names then UNPRICED
    else spec.unknownCost
  }

  lemma BuiltinPrice(spec: CostSpec, std: Name -> nat, order: seq<Name>, table: Table, name: Name)
    requires BuiltinTable(std) && COUNT <= |table| && Iterates(order, spec.routing)
    requires RoutingCompiled(spec, std, order, table) && std(name) != UNKNOWN
    ensures Cost(table, std(name)) == if name in spec.routing then spec.routing[name] else spec.unknownCost
  {}

  lemma CustomPrice(spec: CostSpec, hash: Name -> bv64, order: seq<Name>,
                    built: Interned, now: Interned, table: Table, name: Name)
    requires WellFormed(built, hash) && Later(built, now, hash)
    requires Iterates(order, spec.custom) && CustomCompiled(spec, built, order, table)
    requires name in now.names
    ensures Lookup(now, hash, name).Some?
    ensures Cost(table, Lookup(now, hash, name).value) ==
            if name !in built.names then UNPRICED
            else if name in spec.custom then spec.custom[name] else spec.unknownCost
  {
    LookupRefinesNameList(now, hash, name);
    if name in built.names {
      FoundInside(built, now, hash, name);
    }
  }

  /** Compiled prices mean the price list, for every name and at every later
      moment of the registry. */
  lemma PricesMeanTheList(spec: CostSpec, std: Name -> nat, hash: Name -> bv64,
                          built: Interned, now: Interned, table: Table, name: Name)
    requires BuiltinTable(std) && WellFormed(built, hash) && Later(built, now, hash)
    requires Compiled(spec, std, built, table)
    requires forall n :: n in spec.custom ==> n in built.names
    ensures Cost(table, Resolve(std, now, hash, name)) == ListedPrice(spec, std, built, now, name)
  {
    var routingOrder, customOrder :|
      && Iterates(routingOrder, spec.routing)
      && Iterates(customOrder, spec.custom)
      && RoutingCompiled(spec, std, routingOrder, table)
      && CustomCompiled(spec, built, customOrder, table);
    if std(name) != UNKNOWN {
      BuiltinPrice(spec, std, routingOrder, table, name);
    } else if name in now.names {
      CustomPrice(spec, hash, customOrder, built, now, table, name);
    } else {
      LookupRefinesNameList(now, hash, name);
      FallbackSlotIsTheFallback(spec, std, built, table);
    }
  }

  /** No name writes slot 0: what an unnamed method costs is the fallback and
      nothing a typo in the routing table can change. */
  lemma FallbackSlotIsTheFallback(spec: CostSpec, std: Name -> nat, built: Interned, table: Table)
    requires Compiled(spec, std, built, table)
    ensures Cost(table, UNKNOWN) == spec.unknownCost
  {}

  /** A name first interned after the build is unpriced here even when the
      provider prices everything unnamed. */
  lemma LateNameIsUnpriced(spec: CostSpec, std: Name -> nat, hash: Name -> bv64,
                           built: Interned, now: Interned, table: Table, name: Name)
    requires BuiltinTable(std) && WellFormed(built, hash) && Later(built, now, hash)
    requires Compiled(spec, std, built, table)
    requires forall n :: n in spec.custom ==> n in built.names
    requires std(name) == UNKNOWN && name !in built.names
    ensures Cost(table, Resolve(std, built, hash, name)) == spec.unknownCost
    ensures name in now.names ==> Cost(table, Resolve(std, now, hash, name)) == UNPRICED
  {
    PricesMeanTheList(spec, std, hash, built, built, table, name);
    PricesMeanTheList(spec, std, hash, built, now, table, name);
  }
}
