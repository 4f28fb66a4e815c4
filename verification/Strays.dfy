/**
 Runs in which an account goes wrong: requests and rollovers that began before a
 reload and end after it, and flushes that land in the wrong order. Each is a run
 of `Accounting`, action by action, with the slots the allocator has to hand out.
 */
module Strays {
  import opened Wrappers
  import opened SlotMask
  import opened Calendar
  import opened Topology
  import opened Periods
  import opened Client
  import opened Accounting
  import Recycling

  const JANUARY: Date := Date(2026, 1, 1)
  const FEBRUARY: Date := Date(2026, 2, 1)

  ghost function Fresh(name: string, id: nat, tier: nat): Node {
    Recycling.Fresh(name, id, tier)
  }

  /** Every counter at zero but one. */
  ghost function Counters(slot: nat, used: nat): seq<nat>
    requires slot < MAX_NODES
  {
    seq(MAX_NODES, i => if i == slot then used else 0)
  }

  lemma ReadBetweenStays(run: seq<Life>, l: Life, a: Action, i: nat)
    requires i < |run| && ReadBetween(run, a, 0, i)
    ensures ReadBetween(run + [l], a, 0, i)
  {
    var j :| 0 <= j <= i && run[i].since <= j && ReadAt(run, a, j);
    assert ReadAt(run + [l], a, j);
  }

  /** One action more, on a set read at `j`. */
  lemma RunSnoc(run: seq<Life>, actions: seq<Action>, l: Life, a: Action, j: nat)
    requires IsRun(run, actions) && j < |run| && run[|run| - 1].since <= j
    requires Does(run[|run| - 1], l, a, |actions|) && ReadAt(run, a, j)
    ensures IsRun(run + [l], actions + [a])
  {
    forall i | 0 <= i < |actions + [a]| ensures DoesAt(run + [l], actions + [a], i) {
      if i < |actions| {
        assert DoesAt(run, actions, i);
        ReadBetweenStays(run, l, actions[i], i);
      } else {
        assert ReadAt(run + [l], a, j);
      }
    }
  }

  lemma Ledgers(b: Books, i: nat)
    requires Good(b) && i < |b.nodes|
    ensures Listed(b.nodes, b.nodes[i].name)
    ensures NodeNamed(b.nodes, b.nodes[i].name) == b.nodes[i]
    ensures LedgerNamed(b, b.nodes[i].name) == LedgerOf(b.nodes[i], b.usage, b.periods)
  {
    NamedIs(b.nodes, b.nodes[i].name, i);
  }

  /** One node on slot 0, in its January period, just started. */
  ghost function Alone(name: string): Books {
    Books([Fresh(name, 0, 0)], Counters(0, 0), map[name := JANUARY])
  }

  lemma StartAlone(name: string) returns (run: seq<Life>)
    ensures run == [Life(Alone(name), map[name := NodeUsage(0, JANUARY)], 0, [])] && IsRun(run, [])
  {
    run := [Life(Alone(name), map[name := NodeUsage(0, JANUARY)], 0, [])];
  }

  lemma ReplacedAlone(prev: seq<Node>, name: string)
    requires !Listed(prev, name)
    ensures Assigned(prev, [Fresh(name, 0, 0)], Counters(0, 0), [Fresh(name, 0, 0)], Counters(0, 0))
  {
    assert Counters(0, 0) == Recycling.ZEROS;
    Recycling.ReplacedByOne(prev, name);
  }

  /** A reload that replaces the only node by another, which takes over its slot. */
  lemma TakeOver(run: seq<Life>, actions: seq<Action>, name: string, other: string) returns (l: Life)
    requires IsRun(run, actions) && name != other && run[|run| - 1].books == Alone(name)
    ensures IsRun(run + [l], actions + [Swap([Fresh(other, 0, 0)])])
    ensures l == run[|run| - 1].(books := Alone(name).(nodes := [Fresh(other, 0, 0)]))
  {
    ProcessStarted(run, actions, |run| - 1);
    l := run[|run| - 1].(books := Alone(name).(nodes := [Fresh(other, 0, 0)]));
    ReplacedAlone([Fresh(name, 0, 0)], other);
    RunSnoc(run, actions, l, Swap([Fresh(other, 0, 0)]), |run| - 1);
  }

  // ---------------------------------------------------------------------
  // A newcomer on a slot others still work on
  // ---------------------------------------------------------------------

  ghost function NewcomerBooks(used: nat, marker: Date): Books {
    Books([Fresh("newcomer", 0, 0)], Counters(0, used), map["old" := marker])
  }

  ghost function NewcomerActions(): seq<Action> {
    [Swap([Fresh("newcomer", 0, 0)]), Bill(Fresh("newcomer", 0, 0), 5), Bill(Fresh("old", 0, 0), 7),
     Tick(Fresh("old", 0, 0), FEBRUARY)]
  }

  lemma FebruaryStarts()
    ensures PeriodStart(FEBRUARY, 1) == Ok(FEBRUARY) && !AtMost(FEBRUARY, JANUARY)
  {}

  lemma OldTick()
    ensures NodeRolled(NewcomerBooks(12, JANUARY), NewcomerBooks(0, FEBRUARY), Fresh("old", 0, 0), FEBRUARY)
  {
    FebruaryStarts();
  }

  lemma NewcomerBills(used: nat, cost: nat)
    ensures Billed(NewcomerBooks(used, JANUARY), NewcomerBooks(used + cost, JANUARY), 0, cost)
  {
    assert Counters(0, used + cost) == Counters(0, used)[0 := Counters(0, used)[0] + cost];
  }

  /**
   A reload gives the slot of `old` to a newcomer. A request still on the old table
   bills `old`, and a rollover that read the old set ticks it. The newcomer, which
   spent 5, is charged 12 and then reset to nothing.
   */
  lemma NewcomerIsHarmed() returns (run: seq<Life>)
    ensures IsRun(run, NewcomerActions()) && AllGood(run) && ListedFrom(run, "newcomer", 1)
    ensures LedgerNamed(run[2].books, "newcomer") == Ledger(5, None)
    ensures LedgerNamed(run[3].books, "newcomer") == Ledger(12, None)
    ensures LedgerNamed(run[4].books, "newcomer") == Ledger(0, None)
    ensures HarmsAt(run, NewcomerActions(), "newcomer", 2) && HarmsAt(run, NewcomerActions(), "newcomer", 3)
  {
    var acts := NewcomerActions();
    run := StartAlone("old");
    var l0 := run[0];
    var l1 := TakeOver(run, [], "old", "newcomer");
    assert l1.books == NewcomerBooks(0, JANUARY);
    var l2 := l1.(books := NewcomerBooks(5, JANUARY));
    NewcomerBills(0, 5);
    RunSnoc([l0] + [l1], [] + [acts[0]], l2, acts[1], 1);
    var l3 := l2.(books := NewcomerBooks(12, JANUARY));
    NewcomerBills(5, 7);
    RunSnoc([l0] + [l1] + [l2], [] + [acts[0]] + [acts[1]], l3, acts[2], 0);
    var l4 := l3.(books := NewcomerBooks(0, FEBRUARY));
    OldTick();
    RunSnoc([l0] + [l1] + [l2] + [l3], [] + [acts[0]] + [acts[1]] + [acts[2]], l4, acts[3], 0);
    run := [l0] + [l1] + [l2] + [l3] + [l4];
    assert acts == [] + [acts[0]] + [acts[1]] + [acts[2]] + [acts[3]];
    RunIsGood(run, acts);
    Ledgers(l1.books, 0);
    Ledgers(l2.books, 0);
    Ledgers(l3.books, 0);
    Ledgers(l4.books, 0);
    FebruaryStarts();
  }

  // ---------------------------------------------------------------------
  // A name that left and came back on another slot
  // ---------------------------------------------------------------------

  ghost function MoverBooks(used: nat, marker: Date): Books {
    Books([Fresh("tenant", 0, 0), Fresh("mover", 1, 1)], Counters(1, used), map["mover" := marker])
  }

  ghost function MoverActions(): seq<Action> {
    [Swap([Fresh("tenant", 0, 0)]), Swap([Fresh("tenant", 0, 0), Fresh("mover", 0, 1)]), Bill(Fresh("mover", 1, 1), 5),
     Snap([Fresh("mover", 0, 0)]), Tick(Fresh("mover", 0, 0), FEBRUARY)]
  }

  lemma MoverTick()
    ensures NodeRolled(MoverBooks(5, JANUARY), MoverBooks(5, FEBRUARY), Fresh("mover", 0, 0), FEBRUARY)
  {
    FebruaryStarts();
  }

  lemma MoverComesBack(b: Books)
    requires b == Alone("mover").(nodes := [Fresh("tenant", 0, 0)])
    ensures Reloaded(b, MoverBooks(0, JANUARY), [Fresh("tenant", 0, 0), Fresh("mover", 0, 1)])
  {
    assert Counters(0, 0) == Recycling.ZEROS && Counters(1, 0) == Recycling.ZEROS;
    Recycling.TenantStaysMoverReturns(b.nodes);
  }

  lemma MoverSnap(b: Books)
    requires b == MoverBooks(5, JANUARY)
    ensures FileLedger(Snapshot([Fresh("mover", 0, 0)], b.usage, b.periods), "mover") == Ledger(0, Some(JANUARY))
  {
    var on := [Fresh("mover", 0, 0)];
    NamedIs(on, "mover", 0);
    SnapHolds(b, on, "mover");
  }

  /**
   A node leaves and returns on another slot. A flush and a rollover that read the
   set of its first stay write down the wrong counter, and move its period on
   without resetting what it spent: the 5 of January are charged to February.
   */
  lemma MoverIsHarmed() returns (run: seq<Life>)
    ensures IsRun(run, MoverActions()) && AllGood(run) && ListedFrom(run, "mover", 2)
    ensures LedgerNamed(run[4].books, "mover") == Ledger(5, Some(JANUARY))
    ensures |run[4].taken| == 1 && FileLedger(run[4].taken[0], "mover") == Ledger(0, Some(JANUARY))
    ensures LedgerNamed(run[5].books, "mover") == Ledger(5, Some(FEBRUARY))
    ensures HarmsAt(run, MoverActions(), "mover", 3) && HarmsAt(run, MoverActions(), "mover", 4)
  {
    var acts := MoverActions();
    var begun := MoverBegins();
    run := MoverEnds(begun, [acts[0], acts[1], acts[2]]);
    assert acts == [acts[0], acts[1], acts[2]] + [acts[3]] + [acts[4]];
    RunIsGood(run, acts);
    MoverLedger(0, JANUARY);
    MoverLedger(5, JANUARY);
    MoverLedger(5, FEBRUARY);
    MoverStrays();
  }

  /** Leaving, coming back on the next slot, and spending 5 there. */
  lemma MoverBegins() returns (run: seq<Life>)
    ensures var acts := MoverActions(); IsRun(run, [acts[0], acts[1], acts[2]]) && |run| == 4
    ensures run[0].books.nodes == [Fresh("mover", 0, 0)] && run[3].since == 0 && run[3].taken == []
    ensures run[2].books == MoverBooks(0, JANUARY) && run[3].books == MoverBooks(5, JANUARY)
  {
    var acts := MoverActions();
    run := StartAlone("mover");
    var l0 := run[0];
    var l1 := TakeOver(run, [], "mover", "tenant");
    var l2 := l1.(books := MoverBooks(0, JANUARY));
    MoverComesBack(l1.books);
    RunSnoc([l0] + [l1], [] + [acts[0]], l2, acts[1], 1);
    var l3 := l2.(books := MoverBooks(5, JANUARY));
    assert Counters(1, 5) == Counters(1, 0)[1 := 5];
    RunSnoc([l0] + [l1] + [l2], [] + [acts[0]] + [acts[1]], l3, acts[2], 2);
    run := [l0] + [l1] + [l2] + [l3];
    assert [acts[0], acts[1], acts[2]] == [] + [acts[0]] + [acts[1]] + [acts[2]];
  }

  lemma MoverLedger(used: nat, marker: Date)
    ensures Good(MoverBooks(used, marker)) && Listed(MoverBooks(used, marker).nodes, "mover")
    ensures NodeNamed(MoverBooks(used, marker).nodes, "mover").id == 1
    ensures LedgerNamed(MoverBooks(used, marker), "mover") == Ledger(used, Some(marker))
  {
    Ledgers(MoverBooks(used, marker), 1);
  }

  lemma MoverStrays()
    ensures Good(MoverBooks(5, JANUARY)) && Listed(MoverBooks(5, JANUARY).nodes, "mover")
    ensures Harms(MoverBooks(5, JANUARY), Snap([Fresh("mover", 0, 0)]), "mover")
    ensures Harms(MoverBooks(5, JANUARY), Tick(Fresh("mover", 0, 0), FEBRUARY), "mover")
  {
    MoverLedger(5, JANUARY);
    NamedIs([Fresh("mover", 0, 0)], "mover", 0);
    FebruaryStarts();
  }

  lemma MoverEnds(run: seq<Life>, actions: seq<Action>) returns (longer: seq<Life>)
    requires IsRun(run, actions) && |run| == 4 && run[3].since == 0 && run[3].taken == []
    requires run[0].books.nodes == [Fresh("mover", 0, 0)] && run[3].books == MoverBooks(5, JANUARY)
    ensures IsRun(longer, actions + [MoverActions()[3]] + [MoverActions()[4]]) && run <= longer && |longer| == 6
    ensures longer[4].books == MoverBooks(5, JANUARY) && longer[5].books == MoverBooks(5, FEBRUARY)
    ensures |longer[4].taken| == 1 && FileLedger(longer[4].taken[0], "mover") == Ledger(0, Some(JANUARY))
  {
    var b, on := run[3].books, [Fresh("mover", 0, 0)];
    var l4 := run[3].(taken := [Snapshot(on, b.usage, b.periods)]);
    MoverSnap(b);
    RunSnoc(run, actions, l4, Snap(on), 0);
    var l5 := l4.(books := MoverBooks(5, FEBRUARY));
    MoverTick();
    RunSnoc(run + [l4], actions + [Snap(on)], l5, Tick(Fresh("mover", 0, 0), FEBRUARY), 0);
    longer := run + [l4] + [l5];
  }

  // ---------------------------------------------------------------------
  // Flushes that land in the wrong order
  // ---------------------------------------------------------------------

  ghost function LateActions(): seq<Action> {
    var node := Fresh("node", 0, 0);
    [Snap([node]), Bill(node, 5), Snap([node]), Land(1), Land(0), Restart([node])]
  }

  ghost function Spent(used: nat): Books {
    Alone("node").(usage := Counters(0, used))
  }

  ghost function LineOf(used: nat): UsageFile {
    map["node" := NodeUsage(used, JANUARY)]
  }

  lemma SnapOfAlone(used: nat)
    ensures Snapshot([Fresh("node", 0, 0)], Spent(used).usage, Spent(used).periods) == LineOf(used)
  {
    assert [Fresh("node", 0, 0)][..0] == [];
  }

  /**
   The flush taken first lands last. The file held the 5 that were spent, and a
   restart still starts from nothing.
   */
  lemma OlderFlushReplacesNewer() returns (run: seq<Life>)
    ensures IsRun(run, LateActions()) && AllGood(run) && ListedFrom(run, "node", 0)
    ensures FileLedger(run[4].file, "node") == LedgerNamed(run[4].books, "node") == Ledger(5, Some(JANUARY))
    ensures LedgerNamed(run[6].books, "node") == Ledger(0, Some(JANUARY))
  {
    var acts, node := LateActions(), Fresh("node", 0, 0);
    run := StartAlone("node");
    var l0 := run[0];
    assert l0.books == Spent(0);
    var l1 := l0.(taken := [LineOf(0)]);
    SnapOfAlone(0);
    RunSnoc([l0], [], l1, acts[0], 0);
    var l2 := l1.(books := Spent(5));
    assert Counters(0, 5) == Counters(0, 0)[0 := 5];
    RunSnoc([l0] + [l1], [] + [acts[0]], l2, acts[1], 0);
    var l3 := l2.(taken := [LineOf(0), LineOf(5)]);
    SnapOfAlone(5);
    RunSnoc([l0] + [l1] + [l2], [] + [acts[0]] + [acts[1]], l3, acts[2], 0);
    run := LateEnds([l0] + [l1] + [l2] + [l3], [] + [acts[0]] + [acts[1]] + [acts[2]]);
    assert acts == [] + [acts[0]] + [acts[1]] + [acts[2]] + [acts[3]] + [acts[4]] + [acts[5]];
    RunIsGood(run, acts);
    Ledgers(Spent(0), 0);
    Ledgers(Spent(5), 0);
  }

  lemma LateEnds(run: seq<Life>, actions: seq<Action>) returns (longer: seq<Life>)
    requires IsRun(run, actions) && |run| == 4 && run[3].since == 0
    requires run[3].books == Spent(5) && run[3].taken == [LineOf(0), LineOf(5)]
    ensures IsRun(longer, actions + [LateActions()[3]] + [LateActions()[4]] + [LateActions()[5]]) && run <= longer
            && |longer| == 7
    ensures longer[4].books == longer[5].books == Spent(5) && longer[6].books == Spent(0)
    ensures longer[4].file == LineOf(5)
  {
    var node := Fresh("node", 0, 0);
    var l4 := run[3].(file := LineOf(5));
    RunSnoc(run, actions, l4, Land(1), 0);
    var l5 := l4.(file := LineOf(0));
    RunSnoc(run + [l4], actions + [Land(1)], l5, Land(0), 0);
    var l6 := Life(Spent(0), LineOf(0), |actions| + 3, []);
    assert Booted(Spent(0), [node], LineOf(0));
    RunSnoc(run + [l4] + [l5], actions + [Land(1)] + [Land(0)], l6, Restart([node]), 0);
    longer := run + [l4] + [l5] + [l6];
  }
}
