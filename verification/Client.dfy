/**
 The state every request is served from, and the operations that replace it:
 building it, reloading it, seeding it from the usage file, rolling its billing
 periods over, and the restart that puts them together.
 */
module Client {
  import opened Wrappers
  import opened SlotMask
  import opened Calendar
  import opened Topology
  import opened Periods
  import Billing

  type PeriodMap = map<string, Date>

  /** One line of the usage file. */
  datatype NodeUsage = NodeUsage(used: nat, periodStart: Date)

  type UsageFile = map<string, NodeUsage>

  function MarkerOf(periods: PeriodMap, name: string): Option<Date> {
    if name in periods then Some(periods[name]) else None
  }

  /** What the counters and the period map say about one node. */
  function LedgerOf(node: Node, usage: seq<nat>, periods: PeriodMap): Ledger
    requires node.id < |usage|
  {
    Ledger(usage[node.id], MarkerOf(periods, node.name))
  }

  /** Counters, periods, and the node set they belong to. */
  datatype Books = Books(nodes: seq<Node>, usage: seq<nat>, periods: PeriodMap)

  ghost predicate Good(b: Books) {
    Slotted(b.nodes) && |b.usage| == MAX_NODES
  }

  /** One node's ledger rolled over at `today`, and nothing else moved. The node
      may be of a set that has been replaced since. */
  ghost predicate NodeRolled(b: Books, b': Books, node: Node, today: Date) {
    && Good(b) && Good(b') && b'.nodes == b.nodes && node.id < MAX_NODES
    && LedgerOf(node, b'.usage, b'.periods)
       == Roll(LedgerOf(node, b.usage, b.periods), PeriodStart(today, node.resetDay))
    && (forall s :: 0 <= s < MAX_NODES && s != node.id ==> b'.usage[s] == b.usage[s])
    && (forall name :: name != node.name ==> MarkerOf(b'.periods, name) == MarkerOf(b.periods, name))
  }

  /** Every ledger of a node set rolled over at `today`, the markers of all other
      names forgotten, and nothing else moved. */
  ghost predicate RolledOver(b: Books, b': Books, on: seq<Node>, today: Date) {
    && Good(b) && Good(b') && b'.nodes == b.nodes && Slotted(on)
    && (forall i :: 0 <= i < |on| ==>
      LedgerOf(on[i], b'.usage, b'.periods)
      == Roll(LedgerOf(on[i], b.usage, b.periods), PeriodStart(today, on[i].resetDay)))
    && (forall s :: 0 <= s < MAX_NODES && !HoldsSlot(on, s) ==> b'.usage[s] == b.usage[s])
    && (forall name :: name in b'.periods ==> Listed(on, name))
  }

  /** A reload was accepted: slots assigned, periods left alone. */
  ghost predicate Reloaded(b: Books, b': Books, incoming: seq<Node>) {
    && Good(b) && Good(b') && b'.periods == b.periods
    && Assigned(b.nodes, incoming, b.usage, b'.nodes, b'.usage)
  }

  /** A fresh client over `incoming`, each node seeded from the file by name. */
  ghost predicate Booted(b: Books, incoming: seq<Node>, file: UsageFile) {
    && Good(b) && |b.nodes| == |incoming|
    && forall i :: 0 <= i < |incoming| ==>
         && b.nodes[i] == incoming[i].(id := b.nodes[i].id)
         && LedgerOf(b.nodes[i], b.usage, b.periods) == Seed(Ledger(0, None), file, incoming[i].name)
  }

  /** A request's cost was added to one slot. */
  ghost predicate Billed(b: Books, b': Books, slot: nat, cost: nat) {
    Good(b) && slot < MAX_NODES && b' == b.(usage := b.usage[slot := b.usage[slot] + cost])
  }

  // ---------------------------------------------------------------------
  // The usage file
  // ---------------------------------------------------------------------

  /** Pairs every node that has a period with its spend, keyed by name. */
  function Snapshot(nodes: seq<Node>, usage: seq<nat>, periods: PeriodMap): (file: UsageFile)
    requires |usage| == MAX_NODES && DistinctIds(nodes)
  {
    if nodes == [] then map[]
    else
      var n := |nodes| - 1;
      var rest := Snapshot(nodes[..n], usage, periods);
      if nodes[n].name in periods
      then rest[nodes[n].name := NodeUsage(usage[nodes[n].id], periods[nodes[n].name])]
      else rest
  }

  /** A name has a line exactly when it has a node and that node has a period. */
  lemma {:induction false} SnapshotNames(nodes: seq<Node>, usage: seq<nat>, periods: PeriodMap, name: string)
    requires |usage| == MAX_NODES && DistinctIds(nodes)
    ensures name in Snapshot(nodes, usage, periods) <==> name in periods && Listed(nodes, name)
  {
    if nodes != [] {
      SnapshotNames(nodes[..|nodes| - 1], usage, periods, name);
      ListedSnoc(nodes, name);
    }
  }

  /** A node's line is its own counter and period, wherever its slot is. */
  lemma {:induction false} SnapshotLine(nodes: seq<Node>, usage: seq<nat>, periods: PeriodMap, i: nat)
    requires |usage| == MAX_NODES && Slotted(nodes) && i < |nodes| && nodes[i].name in periods
    ensures var file := Snapshot(nodes, usage, periods);
            && nodes[i].name in file
            && file[nodes[i].name] == NodeUsage(usage[nodes[i].id], periods[nodes[i].name])
  {
    var n := |nodes| - 1;
    if i < n {
      assert nodes[..n][i] == nodes[i] && nodes[i].name != nodes[n].name;
      SnapshotLine(nodes[..n], usage, periods, i);
    }
  }

  lemma ListedSnoc(nodes: seq<Node>, name: string)
    requires nodes != []
    ensures Listed(nodes, name) <==> Listed(nodes[..|nodes| - 1], name) || nodes[|nodes| - 1].name == name
  {}

  /** Seeding one node from its line of the file, if there is one. */
  function Seed(l: Ledger, file: UsageFile, name: string): Ledger {
    if name in file then Ledger(file[name].used, Some(file[name].periodStart)) else l
  }

  // ---------------------------------------------------------------------
  // The client
  // ---------------------------------------------------------------------

  class RpcClient {
    /** The published node set. */
    var all: seq<Node>
    /** One counter per quota slot. */
    const usage: array<nat>
    /** The billing period each node's counter is credited to. */
    var periods: PeriodMap

    ghost predicate Valid()
      reads this
    {
      usage.Length == MAX_NODES && Slotted(all)
    }

    ghost function View(): Books
      reads this, usage
    {
      Books(all, usage[..], periods)
    }

    constructor (nodes: seq<Node>, counters: array<nat>)
      requires counters.Length == MAX_NODES && Slotted(nodes)
      ensures Valid() && all == nodes && usage == counters && periods == map[]
    {
      all, usage, periods := nodes, counters, map[];
    }

    /** Builds a client over a node set, every counter at zero. */
    static method New(nodes: array<Node>) returns (r: Result<RpcClient, AssignError>)
      modifies nodes
      ensures r.Ok? <==> Acceptable(old(nodes[..]))
      ensures r.Ok? ==> fresh(r.value) && fresh(r.value.usage) && r.value.Valid() && r.value.periods == map[]
      ensures r.Ok? ==> |r.value.all| == nodes.Length && forall i :: 0 <= i < nodes.Length ==>
                r.value.all[i] == old(nodes[i]).(id := r.value.all[i].id)
      ensures r.Ok? ==> forall s :: 0 <= s < MAX_NODES ==> r.value.usage[s] == 0
    {
      var counters := new nat[MAX_NODES](i => 0);
      var outcome := AssignIds([], nodes, counters);
      match outcome {
        case Err(e) => r := Err(e);
        case Ok(_) =>
          var client := new RpcClient(nodes[..], counters);
          r := Ok(client);
      }
    }

    /** Publishes a freshly built node set; a rejected one changes nothing. */
    method Reload(nodes: array<Node>) returns (r: Result<(), AssignError>)
      requires Valid()
      modifies this`all, usage, nodes
      ensures Valid() && periods == old(periods)
      ensures r.Ok? <==> Acceptable(old(nodes[..]))
      ensures r.Ok? ==> Reloaded(old(View()), View(), old(nodes[..]))
      ensures r.Ok? ==> |all| == nodes.Length && forall i :: 0 <= i < nodes.Length ==>
                && all[i].name == old(nodes[i]).name && all[i].tier == old(nodes[i]).tier
                && all[i].resetDay == old(nodes[i]).resetDay
      ensures r.Err? ==> View() == old(View())
    {
      ghost var prev, incoming, before := all, nodes[..], usage[..];
      r := AssignIds(all, nodes, usage);
      if r.Ok? {
        all := nodes[..];
        forall i | 0 <= i < nodes.Length
          ensures all[i].name == incoming[i].name && all[i].tier == incoming[i].tier
          ensures all[i].resetDay == incoming[i].resetDay
        {
          ConfiguredAsWritten(prev, incoming, before, all, usage[..], i);
        }
      }
    }

    /** Books a cost against a slot. The counter is a `u64` and wraps; short of
        that the booking is a plain addition. */
    method Bill(slot: nat, cost: nat)
      requires Valid() && slot < MAX_NODES
      modifies usage
      ensures usage[slot] == (old(usage[slot]) + cost) % Billing.U64
      ensures forall s :: 0 <= s < MAX_NODES && s != slot ==> usage[s] == old(usage[s])
      ensures old(usage[slot]) + cost < Billing.U64 ==> Billed(old(View()), View(), slot, cost)
    {
      usage[slot] := (usage[slot] + cost) % Billing.U64;
    }

    /** Seeds counters and periods from a previous run's file, matched by name. */
    method LoadQuotas(file: UsageFile)
      requires Valid()
      modifies this`periods, usage
      ensures Valid()
      ensures forall i :: 0 <= i < |all| ==>
                LedgerOf(all[i], usage[..], periods)
                == Seed(LedgerOf(all[i], old(usage[..]), old(periods)), file, all[i].name)
      ensures forall s :: 0 <= s < MAX_NODES && !HoldsSlot(all, s) ==> usage[s] == old(usage[s])
    {
      ghost var usage0, periods0 := usage[..], periods;
      for k := 0 to |all|
        invariant usage.Length == MAX_NODES
        invariant forall i :: 0 <= i < |all| ==>
                    LedgerOf(all[i], usage[..], periods)
                    == if i < k then Seed(LedgerOf(all[i], usage0, periods0), file, all[i].name)
                       else LedgerOf(all[i], usage0, periods0)
        invariant forall s :: 0 <= s < MAX_NODES && !HoldsSlot(all, s) ==> usage[s] == usage0[s]
      {
        ghost var usage1, periods1 := usage[..], periods;
        var node := all[k];
        if node.name in file {
          usage[node.id] := file[node.name].used;
          periods := periods[node.name := file[node.name].periodStart];
          OthersUntouched(all, k, usage1, periods1, file[node.name].used, file[node.name].periodStart);
          assert usage[..] == usage1[node.id := file[node.name].used];
        }
      }
    }

    /** One node's turn in the rollover. */
    method RollNode(node: Node, today: Date) returns (jumped: bool)
      requires Valid() && node.id < MAX_NODES
      modifies this`periods, usage
      ensures NodeRolled(old(View()), View(), node, today)
      ensures jumped <==> Jumps(MarkerOf(old(periods), node.name), PeriodStart(today, node.resetDay))
    {
      jumped := false;
      var start := PeriodStart(today, node.resetDay);
      if start.Ok? {
        if node.name !in periods {
          periods := periods[node.name := start.value];
        } else if !AtMost(start.value, periods[node.name]) {
          jumped := DayNumber(start.value) - DayNumber(periods[node.name]) > SUSPICIOUS_JUMP_DAYS;
          usage[node.id] := 0;
          periods := periods[node.name := start.value];
        }
      }
    }

    /** The rollover's loop over a node set. */
    method RollAll(on: seq<Node>, today: Date) returns (jumped: set<string>)
      requires Valid() && Slotted(on)
      modifies this`periods, usage
      ensures RolledUpTo(on, |on|, old(usage[..]), old(periods), usage[..], periods, today)
      ensures forall i :: 0 <= i < |on| ==>
                (on[i].name in jumped
                 <==> Jumps(MarkerOf(old(periods), on[i].name), PeriodStart(today, on[i].resetDay)))
    {
      ghost var usage0, periods0 := usage[..], periods;
      jumped := {};
      for k := 0 to |on|
        invariant Valid()
        invariant RolledUpTo(on, k, usage0, periods0, usage[..], periods, today)
        invariant forall i :: 0 <= i < |on| ==>
                    (on[i].name in jumped
                     <==> i < k && Jumps(MarkerOf(periods0, on[i].name), PeriodStart(today, on[i].resetDay)))
      {
        ghost var before := View();
        var jump := RollNode(on[k], today);
        RolledOneMore(on, k, usage0, periods0, before, View(), today);
        if jump {
          jumped := jumped + {on[k].name};
        }
      }
    }

    /** Rolls over the nodes of `on` one by one, then forgets the markers of names
        without a node. `on` is the node set the
        caller read, which a reload may have replaced since. `jumped` are the
        nodes warned about: more than two months at once. */
    method RollOver(on: seq<Node>, today: Date) returns (jumped: set<string>)
      requires Valid() && Slotted(on)
      modifies this`periods, usage
      ensures Valid() && RolledOver(old(View()), View(), on, today)
      ensures forall i :: 0 <= i < |on| ==>
                (on[i].name in jumped
                 <==> Jumps(MarkerOf(old(periods), on[i].name), PeriodStart(today, on[i].resetDay)))
    {
      ghost var before := View();
      jumped := RollAll(on, today);
      PruneKeepsLedgers(on, usage[..], periods);
      periods := Prune(on, periods);
      assert RolledOver(before, View(), on, today);
    }
  }

  /** The first `k` nodes of the set are rolled over, the others not yet. */
  ghost predicate RolledUpTo(on: seq<Node>, k: nat, usage0: seq<nat>, periods0: PeriodMap,
                             usage: seq<nat>, periods: PeriodMap, today: Date)
  {
    && |usage0| == |usage| == MAX_NODES && DistinctIds(on)
    && (forall i :: 0 <= i < |on| ==>
      LedgerOf(on[i], usage, periods)
      == if i < k then Roll(LedgerOf(on[i], usage0, periods0), PeriodStart(today, on[i].resetDay))
         else LedgerOf(on[i], usage0, periods0))
    && (forall s :: 0 <= s < MAX_NODES && !HoldsSlot(on, s) ==> usage[s] == usage0[s])
  }

  lemma RolledOneMore(on: seq<Node>, k: nat, usage0: seq<nat>, periods0: PeriodMap, b: Books, b': Books, today: Date)
    requires Slotted(on) && k < |on| && NodeRolled(b, b', on[k], today)
    requires RolledUpTo(on, k, usage0, periods0, b.usage, b.periods, today)
    ensures RolledUpTo(on, k + 1, usage0, periods0, b'.usage, b'.periods, today)
  {
    assert HoldsSlot(on, on[k].id);
    forall i | 0 <= i < |on| && i != k
      ensures LedgerOf(on[i], b'.usage, b'.periods) == LedgerOf(on[i], b.usage, b.periods)
    {
      assert on[i].id != on[k].id && on[i].name != on[k].name;
    }
  }

  /** Drops the marker of every name without a node. */
  function Prune(nodes: seq<Node>, periods: PeriodMap): PeriodMap {
    var names := set i | 0 <= i < |nodes| :: nodes[i].name;
    map name | name in periods && name in names :: periods[name]
  }

  lemma PruneKeepsLedgers(nodes: seq<Node>, usage: seq<nat>, periods: PeriodMap)
    requires DistinctIds(nodes) && |usage| == MAX_NODES
    ensures forall i :: 0 <= i < |nodes| ==>
              LedgerOf(nodes[i], usage, Prune(nodes, periods)) == LedgerOf(nodes[i], usage, periods)
    ensures forall name :: name in Prune(nodes, periods) ==> Listed(nodes, name)
  {}

  /** A fresh client over whatever the config lists now, seeded from the file. */
  method Boot(file: UsageFile, nodes: array<Node>) returns (r: Result<RpcClient, AssignError>)
    modifies nodes
    ensures r.Ok? <==> Acceptable(old(nodes[..]))
    ensures r.Ok? ==> fresh(r.value) && fresh(r.value.usage)
    ensures r.Ok? ==> r.value.Valid() && Booted(r.value.View(), old(nodes[..]), file)
  {
    r := RpcClient.New(nodes);
    if r.Ok? {
      var client := r.value;
      assert forall i :: 0 <= i < |client.all| ==>
             LedgerOf(client.all[i], client.usage[..], client.periods) == Ledger(0, None);
      client.LoadQuotas(file);
    }
  }

  /** Startup: booted, and rolled over before anything is served. */
  method Restart(file: UsageFile, nodes: array<Node>, today: Date) returns (r: Result<RpcClient, AssignError>)
    modifies nodes
    ensures r.Ok? <==> Acceptable(old(nodes[..]))
    ensures r.Ok? ==> r.value.Valid() && |r.value.all| == nodes.Length
    ensures r.Ok? ==> forall i :: 0 <= i < nodes.Length ==>
              && r.value.all[i].name == old(nodes[i]).name
              && LedgerOf(r.value.all[i], r.value.usage[..], r.value.periods)
                 == Roll(Seed(Ledger(0, None), file, old(nodes[i]).name), PeriodStart(today, old(nodes[i]).resetDay))
  {
    r := Boot(file, nodes);
    if r.Ok? {
      var _ := r.value.RollOver(r.value.all, today);
    }
  }

  /**
   The restart round trip. Whatever the slots were and are, a name that was
   flushed comes back with its spend and its period if that period is still
   running, and with a zeroed counter in the current period if a boundary has
   passed; a name that had no period when the file was written, or no node, starts
   at zero in the current period.
   */
  lemma RestartRoundTrip(nodes: seq<Node>, usage: seq<nat>, periods: PeriodMap, name: string, start: Date, i: nat)
    requires |usage| == MAX_NODES && Slotted(nodes)
    ensures var l := Roll(Seed(Ledger(0, None), Snapshot(nodes, usage, periods), name), Ok(start));
            && (i < |nodes| && nodes[i].name == name && name in periods ==>
              l == if AtMost(start, periods[name]) then LedgerOf(nodes[i], usage, periods) else Ledger(0, Some(start)))
            && (!Listed(nodes, name) || name !in periods ==> l == Ledger(0, Some(start)))
  {
    SnapshotNames(nodes, usage, periods, name);
    if i < |nodes| && nodes[i].name == name && name in periods {
      SnapshotLine(nodes, usage, periods, i);
    }
  }

  /** A reset that was lost to a crash before the flush is done again: restarting
      from the file written before it ends where the reset itself would have. */
  lemma LostResetIsRedone(l: Ledger, s: Date, later: Date)
    requires l.marker.Some? && AtMost(s, later)
    ensures Roll(Roll(l, Ok(s)), Ok(later)) == Roll(l, Ok(later))
  {
    AtMostTransitive(s, s, later);
  }

  ghost predicate HoldsSlot(nodes: seq<Node>, s: nat) {
    exists i :: 0 <= i < |nodes| && nodes[i].id == s
  }

  /** The rollover found a stored period more than two months back. */
  ghost predicate Jumps(marker: Option<Date>, start: Result<Date, string>) {
    && marker.Some? && start.Ok? && !AtMost(start.value, marker.value)
    && DayNumber(start.value) - DayNumber(marker.value) > 62
  }

  /** For a node that kept its reset day the warning is raised exactly when three or
      more period boundaries lie between the period stored and today's. */
  lemma WarnsOfThreePeriods(marker: Date, today: Date, resetDay: nat)
    requires IsResetDate(marker, resetDay) && Calendar.Valid(today) && HasPeriod(today, resetDay)
    ensures Jumps(Some(marker), PeriodStart(today, resetDay))
       <==> PeriodIndex(today, resetDay) - MonthIndex(marker) >= 3
  {
    PeriodStartIsAReset(today, resetDay);
    IndexRoundTrip(marker);
    var j, k := MonthIndex(marker), PeriodIndex(today, resetDay);
    var start := ResetDate(k, resetDay);
    OrderIsDayOrder(start, marker);
    if j <= k {
      SuspiciousJumpIff(j, k, resetDay);
    } else {
      ResetsApart(k, j, resetDay);
    }
  }

  /** Writing one node's counter and marker moves no other node's. */
  lemma OthersUntouched(nodes: seq<Node>, k: nat, usage: seq<nat>, periods: PeriodMap, used: nat, marker: Date)
    requires Slotted(nodes) && k < |nodes| && |usage| == MAX_NODES
    ensures forall i :: 0 <= i < |nodes| ==>
              LedgerOf(nodes[i], usage[nodes[k].id := used], periods[nodes[k].name := marker])
              == if i == k then Ledger(used, Some(marker)) else LedgerOf(nodes[i], usage, periods)
  {}
}
