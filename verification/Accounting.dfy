/**
 A node's account over the life of the service: any interleaving of bookings,
 rollovers with any clock, reloads that move every other node around it, flushes
 to the usage file that may land out of order, and restarts that begin again from
 that file.
 */
module Accounting {
  import opened Wrappers
  import opened Calendar
  import opened Topology
  import opened Periods
  import opened Client

  /** The books in memory, the usage file, the position in the run at which the
      present process started, and the snapshots it has taken for its flushes. */
  datatype Life = Life(books: Books, file: UsageFile, since: nat, taken: seq<UsageFile>)

  /** A request bills the slot of a node it found in a table. A rollover is one
      action per node and a last one that forgets markers, so bookings and reloads
      may land anywhere inside it. A flush is a snapshot and,
      if its write gets through, a landing; two flushes may land in either order. */
  datatype Action =
    | Bill(node: Node, cost: nat)
    | Tick(node: Node, today: Date)
    | Forget(on: seq<Node>)
    | Swap(incoming: seq<Node>)
    | Snap(on: seq<Node>)
    | Land(i: nat)
    | Restart(incoming: seq<Node>)

  ghost predicate Does(l: Life, l': Life, a: Action, i: nat) {
    && Good(l.books)
    && match a
       case Bill(node, cost) => Billed(l.books, l'.books, node.id, cost) && l' == l.(books := l'.books)
       case Tick(node, today) => NodeRolled(l.books, l'.books, node, today) && l' == l.(books := l'.books)
       case Forget(on) => l' == l.(books := l.books.(periods := Prune(on, l.books.periods)))
       case Swap(incoming) => Reloaded(l.books, l'.books, incoming) && l' == l.(books := l'.books)
       case Snap(on) => DistinctIds(on) && l' == l.(taken := l.taken + [Snapshot(on, l.books.usage, l.books.periods)])
       case Land(n) => n < |l.taken| && l' == l.(file := l.taken[n])
       case Restart(incoming) => Booted(l'.books, incoming, l.file) && l' == Life(l'.books, l.file, i + 1, [])
  }

  /** A request, a rollover or a flush works on a node set this process read at
      `j`, perhaps replaced since. */
  ghost predicate ReadAt(run: seq<Life>, a: Action, j: nat)
    requires j < |run|
  {
    match a
    case Bill(node, _) => node in run[j].books.nodes
    case Tick(node, _) => node in run[j].books.nodes
    case Forget(on) => on == run[j].books.nodes
    case Snap(on) => on == run[j].books.nodes
    case _ => true
  }

  ghost predicate ReadBetween(run: seq<Life>, a: Action, from: nat, i: nat)
    requires i < |run|
  {
    exists j :: from <= j <= i && run[i].since <= j && ReadAt(run, a, j)
  }

  ghost predicate DoesAt(run: seq<Life>, actions: seq<Action>, i: nat)
    requires i + 1 < |run| && i < |actions|
  {
    Does(run[i], run[i + 1], actions[i], i) && ReadBetween(run, actions[i], 0, i)
  }

  ghost predicate IsRun(run: seq<Life>, actions: seq<Action>) {
    && |run| == |actions| + 1 && Good(run[0].books) && run[0].since == 0
    && forall i :: 0 <= i < |actions| ==> DoesAt(run, actions, i)
  }

  lemma {:induction false} ProcessStarted(run: seq<Life>, actions: seq<Action>, k: nat)
    requires IsRun(run, actions) && k < |run|
    ensures Good(run[k].books) && run[k].since <= k
  {
    if k > 0 {
      ProcessStarted(run, actions, k - 1);
      assert DoesAt(run, actions, k - 1);
    }
  }

  // ---------------------------------------------------------------------
  // One name's part in it
  // ---------------------------------------------------------------------

  /** The node of that name in a set that lists it. */
  ghost function NodeNamed(nodes: seq<Node>, name: string): (node: Node)
    requires Listed(nodes, name)
    ensures node in nodes && node.name == name
  {
    var i :| 0 <= i < |nodes| && nodes[i].name == name;
    nodes[i]
  }

  ghost function LedgerNamed(b: Books, name: string): Ledger
    requires Good(b) && Listed(b.nodes, name)
  {
    LedgerOf(NodeNamed(b.nodes, name), b.usage, b.periods)
  }

  /** What a process that starts from this file makes of the name. */
  ghost function FileLedger(file: UsageFile, name: string): Ledger {
    Seed(Ledger(0, None), file, name)
  }

  /** What an action means to one name's account. */
  ghost function EventFor(b: Books, a: Action, name: string): seq<Event>
    requires Listed(b.nodes, name)
  {
    match a
    case Bill(node, cost) => if node.name == name then [Booked(cost)] else []
    case Tick(node, today) => if node.name == name then [Ticked(PeriodStart(today, node.resetDay))] else []
    case _ => []
  }

  /** The name is configured from position `a` on. */
  ghost predicate ListedFrom(run: seq<Life>, name: string, a: nat) {
    forall i :: a <= i < |run| ==> Listed(run[i].books.nodes, name)
  }

  /** A ledger, and what has happened to it. */
  datatype Memory = Memory(base: Ledger, events: seq<Event>)

  ghost function Recall(m: Memory): Ledger {
    ApplyAll(m.base, m.events)
  }

  /** What a flush keeps: a name without a period gets no line, and its usage is
      dropped. */
  ghost function Written(m: Memory): Memory {
    if Recall(m).marker.None? then Memory(Ledger(0, None), []) else m
  }

  /** What the name's account remembers in memory, counted from position `a`:
      everything that happened to it, except what a restart lost. */
  ghost function HistoryOf(run: seq<Life>, actions: seq<Action>, name: string, a: nat, k: nat): Memory
    requires a <= k <= |actions| < |run| && ListedFrom(run, name, a) && Good(run[a].books)
    decreases k
  {
    if k == a then Memory(LedgerNamed(run[a].books, name), [])
    else if actions[k - 1].Restart? then FiledOf(run, actions, name, a, k - 1)
    else
      var m := HistoryOf(run, actions, name, a, k - 1);
      m.(events := m.events + EventFor(run[k - 1].books, actions[k - 1], name))
  }

  /** What each snapshot in flight remembers: its history when it was taken. */
  ghost function SnapsOf(run: seq<Life>, actions: seq<Action>, name: string, a: nat, k: nat): seq<Memory>
    requires a <= k <= |actions| < |run| && ListedFrom(run, name, a) && Good(run[a].books)
    decreases k
  {
    if k == a then
      var taken := run[a].taken;
      seq(|taken|, i requires 0 <= i < |taken| => Memory(FileLedger(taken[i], name), []))
    else if actions[k - 1].Restart? then []
    else if actions[k - 1].Snap?
    then SnapsOf(run, actions, name, a, k - 1) + [Written(HistoryOf(run, actions, name, a, k - 1))]
    else SnapsOf(run, actions, name, a, k - 1)
  }

  /** What the usage file remembers: what the snapshot landed last does. */
  ghost function FiledOf(run: seq<Life>, actions: seq<Action>, name: string, a: nat, k: nat): Memory
    requires a <= k <= |actions| < |run| && ListedFrom(run, name, a) && Good(run[a].books)
    decreases k
  {
    if k == a then Memory(FileLedger(run[a].file, name), [])
    else if actions[k - 1].Land? && actions[k - 1].i < |SnapsOf(run, actions, name, a, k - 1)|
    then SnapsOf(run, actions, name, a, k - 1)[actions[k - 1].i]
    else FiledOf(run, actions, name, a, k - 1)
  }

  lemma NamedIs(nodes: seq<Node>, name: string, i: nat)
    requires DistinctNames(nodes) && i < |nodes| && nodes[i].name == name
    ensures Listed(nodes, name) && NodeNamed(nodes, name) == nodes[i]
  {
    var j :| 0 <= j < |nodes| && nodes[j] == NodeNamed(nodes, name);
  }

  // ---------------------------------------------------------------------
  // Strays and harm
  // ---------------------------------------------------------------------

  /** The action works on this name's slot for another node, or for this name on
      another slot or on none: it read a set of a time when the name was not there
      or was somewhere else. */
  ghost predicate Stray(b: Books, a: Action, name: string)
    requires Listed(b.nodes, name)
  {
    var slot := NodeNamed(b.nodes, name).id;
    match a
    case Bill(node, _) => (node.name == name) != (node.id == slot)
    case Tick(node, _) => (node.name == name) != (node.id == slot)
    case Forget(on) => !Listed(on, name)
    case Snap(on) => !Listed(on, name) || NodeNamed(on, name).id != slot
    case _ => false
  }

  /** A rollover at `start` finds this marker behind. */
  ghost predicate MovesOn(marker: Option<Date>, start: Result<Date, string>) {
    start.Ok? && marker.Some? && !AtMost(start.value, marker.value)
  }

  /** The action, about to be taken, falsifies the name's account. Only a stray
      can, and it does so exactly if
      - a request's cost is not zero,
      - a rollover's own node has a period that moved on, while this name's
        counter is not zero,
      - this name has a marker to forget,
      - this name has a line to write, and the counter written is another one. */
  ghost predicate Harms(b: Books, a: Action, name: string)
    requires Good(b) && Listed(b.nodes, name)
  {
    var l, slot := LedgerNamed(b, name), NodeNamed(b.nodes, name).id;
    match a
    case Bill(node, cost) => (node.name == name) != (node.id == slot) && cost != 0
    case Tick(node, today) =>
      && (node.name == name) != (node.id == slot) && l.used != 0
      && MovesOn(MarkerOf(b.periods, node.name), PeriodStart(today, node.resetDay))
    case Forget(on) => l.marker.Some? && !Listed(on, name)
    case Snap(on) =>
      && l.marker.Some?
      && (!Listed(on, name) || NodeNamed(on, name).id >= |b.usage| || b.usage[NodeNamed(on, name).id] != l.used)
    case _ => false
  }

  ghost predicate HarmsAt(run: seq<Life>, actions: seq<Action>, name: string, i: nat)
    requires i < |actions| <= |run| && Good(run[i].books) && Listed(run[i].books.nodes, name)
  {
    Harms(run[i].books, actions[i], name)
  }

  ghost predicate AllGood(run: seq<Life>) {
    forall i :: 0 <= i < |run| ==> Good(run[i].books)
  }

  lemma RunIsGood(run: seq<Life>, actions: seq<Action>)
    requires IsRun(run, actions)
    ensures AllGood(run)
  {
    forall i | 0 <= i < |run| ensures Good(run[i].books) {
      ProcessStarted(run, actions, i);
    }
  }

  /** No action from `a` on and before `k` harms the name. */
  ghost predicate Unharmed(run: seq<Life>, actions: seq<Action>, name: string, a: nat, k: nat)
    requires k <= |actions| <= |run| && ListedFrom(run, name, a) && AllGood(run)
  {
    forall i :: a <= i < k ==> !HarmsAt(run, actions, name, i)
  }

  lemma OnlyStraysHarm(b: Books, a: Action, name: string)
    requires Good(b) && Listed(b.nodes, name) && Harms(b, a, name)
    ensures Stray(b, a, name)
  {}

  // ---------------------------------------------------------------------
  // What each action means to it
  // ---------------------------------------------------------------------

  lemma OneEvent(l: Ledger, e: Event)
    ensures ApplyAll(l, [e]) == Apply(l, e)
    ensures ApplyAll(l, []) == l
  {
    assert [e][..0] == [];
  }

  lemma BillMeans(b: Books, b': Books, node: Node, cost: nat, name: string)
    requires Billed(b, b', node.id, cost) && Listed(b.nodes, name)
    ensures LedgerNamed(b', name) == ApplyAll(LedgerNamed(b, name), EventFor(b, Bill(node, cost), name))
       <==> !Harms(b, Bill(node, cost), name)
  {
    OneEvent(LedgerNamed(b, name), Booked(cost));
  }

  /** What a node's turn in a rollover does to a name's ledger: the counter goes by
      the slot, the marker by the name. */
  lemma TickDoes(b: Books, b': Books, node: Node, today: Date, name: string)
    requires NodeRolled(b, b', node, today) && Listed(b.nodes, name)
    ensures var l, start := LedgerNamed(b, name), PeriodStart(today, node.resetDay);
            LedgerNamed(b', name)
            == Ledger(if node.id == NodeNamed(b.nodes, name).id && MovesOn(MarkerOf(b.periods, node.name), start)
                      then 0 else l.used,
                      if node.name == name then Roll(l, start).marker else l.marker)
  {}

  lemma TickMeans(b: Books, b': Books, node: Node, today: Date, name: string)
    requires NodeRolled(b, b', node, today) && Listed(b.nodes, name)
    ensures LedgerNamed(b', name) == ApplyAll(LedgerNamed(b, name), EventFor(b, Tick(node, today), name))
       <==> !Harms(b, Tick(node, today), name)
  {
    TickDoes(b, b', node, today, name);
    OneEvent(LedgerNamed(b, name), Ticked(PeriodStart(today, node.resetDay)));
  }

  lemma ForgetMeans(b: Books, on: seq<Node>, name: string)
    requires Good(b) && Listed(b.nodes, name)
    ensures LedgerNamed(b.(periods := Prune(on, b.periods)), name)
         == if Listed(on, name) then LedgerNamed(b, name) else LedgerNamed(b, name).(marker := None)
  {}

  /** A reload is invisible to the account of a name that survives it. */
  lemma SwapMeans(b: Books, b': Books, incoming: seq<Node>, name: string)
    requires Reloaded(b, b', incoming) && Listed(b.nodes, name) && Listed(b'.nodes, name)
    ensures LedgerNamed(b', name) == LedgerNamed(b, name)
    ensures NodeNamed(b'.nodes, name).id == NodeNamed(b.nodes, name).id
  {
    var j :| 0 <= j < |b.nodes| && b.nodes[j].name == name;
    var i :| 0 <= i < |b'.nodes| && b'.nodes[i].name == name;
    NamedIs(b.nodes, name, j);
    NamedIs(b'.nodes, name, i);
    SurvivorUntouched(b.nodes, incoming, b.usage, b'.nodes, b'.usage, j, i);
  }

  /** A name that arrives by a reload starts at zero, with whatever marker an
      earlier stay has left behind. */
  lemma ArrivalMeans(b: Books, b': Books, incoming: seq<Node>, name: string)
    requires Reloaded(b, b', incoming) && !Listed(b.nodes, name) && Listed(b'.nodes, name)
    ensures LedgerNamed(b', name) == Ledger(0, MarkerOf(b.periods, name))
  {
    var i :| 0 <= i < |b'.nodes| && b'.nodes[i].name == name;
    NamedIs(b'.nodes, name, i);
    ArrivalStartsAtZero(b.nodes, incoming, b.usage, b'.nodes, b'.usage, i);
  }

  /** A restart hands the name what the file says of it, on whatever slot. */
  lemma BootMeans(b: Books, incoming: seq<Node>, file: UsageFile, name: string)
    requires Booted(b, incoming, file) && Listed(b.nodes, name)
    ensures LedgerNamed(b, name) == FileLedger(file, name)
  {
    var i :| 0 <= i < |b.nodes| && b.nodes[i].name == name;
    NamedIs(b.nodes, name, i);
  }

  /** What a snapshot holds of a name: the counter of the slot the set read has it
      on, or nothing without a node there or without a period. */
  lemma SnapHolds(b: Books, on: seq<Node>, name: string)
    requires Good(b) && Slotted(on)
    ensures FileLedger(Snapshot(on, b.usage, b.periods), name)
         == if name in b.periods && Listed(on, name) then Ledger(b.usage[NodeNamed(on, name).id], Some(b.periods[name]))
            else Ledger(0, None)
  {
    SnapshotNames(on, b.usage, b.periods, name);
    if name in b.periods && Listed(on, name) {
      var i :| 0 <= i < |on| && on[i].name == name;
      NamedIs(on, name, i);
      SnapshotLine(on, b.usage, b.periods, i);
    }
  }

  /** It is the name's own ledger, or rightly nothing, exactly without harm. */
  lemma SnapMeans(b: Books, on: seq<Node>, name: string)
    requires Good(b) && Slotted(on) && Listed(b.nodes, name)
    ensures FileLedger(Snapshot(on, b.usage, b.periods), name)
            == (if LedgerNamed(b, name).marker.Some? then LedgerNamed(b, name) else Ledger(0, None))
       <==> !Harms(b, Snap(on), name)
  {
    SnapHolds(b, on, name);
  }

  // ---------------------------------------------------------------------
  // Slots, for as long as one process lives
  // ---------------------------------------------------------------------

  lemma ActionKeepsSlot(l: Life, l': Life, a: Action, i: nat, name: string)
    requires Does(l, l', a, i) && Listed(l.books.nodes, name) && Listed(l'.books.nodes, name)
    ensures Good(l'.books)
    ensures !a.Restart? ==> NodeNamed(l'.books.nodes, name).id == NodeNamed(l.books.nodes, name).id
    ensures !a.Restart? ==> l'.since == l.since
    ensures a.Restart? ==> l'.since == i + 1
  {
    if a.Swap? {
      SwapMeans(l.books, l'.books, a.incoming, name);
    }
  }

  /** Every set of one process lists a name that stays under one slot. */
  lemma {:induction false} SlotIsKept(run: seq<Life>, actions: seq<Action>, name: string, j: nat, k: nat)
    requires IsRun(run, actions) && ListedFrom(run, name, j) && j <= k < |run| && run[k].since <= j
    ensures NodeNamed(run[k].books.nodes, name).id == NodeNamed(run[j].books.nodes, name).id
    decreases k
  {
    if j < k {
      assert DoesAt(run, actions, k - 1);
      ActionKeepsSlot(run[k - 1], run[k], actions[k - 1], k - 1, name);
      SlotIsKept(run, actions, name, j, k - 1);
    }
  }

  /** A node of such a set shares the name's slot exactly if it has the name. */
  lemma EarlierNode(run: seq<Life>, actions: seq<Action>, name: string, node: Node, j: nat, k: nat)
    requires IsRun(run, actions) && ListedFrom(run, name, j) && j <= k < |run| && run[k].since <= j
    requires node in run[j].books.nodes
    ensures node.name == name <==> node.id == NodeNamed(run[k].books.nodes, name).id
  {
    SlotIsKept(run, actions, name, j, k);
    ProcessStarted(run, actions, j);
    var nodes := run[j].books.nodes;
    var i :| 0 <= i < |nodes| && nodes[i] == node;
    var l :| 0 <= l < |nodes| && nodes[l] == NodeNamed(nodes, name);
  }

  /** An action is no stray if it read its set while the name was there. */
  lemma ReadWhileListedIsNoStray(run: seq<Life>, actions: seq<Action>, name: string, a: nat, i: nat)
    requires IsRun(run, actions) && ListedFrom(run, name, a) && a <= i < |actions| && ReadBetween(run, actions[i], a, i)
    ensures !Stray(run[i].books, actions[i], name)
  {
    var j :| a <= j <= i && run[i].since <= j && ReadAt(run, actions[i], j);
    match actions[i] {
      case Bill(node, _) => EarlierNode(run, actions, name, node, j, i);
      case Tick(node, _) => EarlierNode(run, actions, name, node, j, i);
      case Snap(_) => SlotIsKept(run, actions, name, j, i);
      case _ =>
    }
  }

  /** A name configured from the start of the run on is never harmed. */
  lemma AlwaysListedIsUnharmed(run: seq<Life>, actions: seq<Action>, name: string)
    requires IsRun(run, actions) && ListedFrom(run, name, 0)
    ensures AllGood(run) && Unharmed(run, actions, name, 0, |actions|)
  {
    RunIsGood(run, actions);
    forall i | 0 <= i < |actions| ensures !HarmsAt(run, actions, name, i) {
      assert DoesAt(run, actions, i);
      ReadWhileListedIsNoStray(run, actions, name, 0, i);
      if HarmsAt(run, actions, name, i) {
        OnlyStraysHarm(run[i].books, actions[i], name);
      }
    }
  }

  // ---------------------------------------------------------------------
  // The account
  // ---------------------------------------------------------------------

  /** An action moves the ledger by its event, exactly if it does no harm to it. */
  lemma ActionMeans(run: seq<Life>, actions: seq<Action>, name: string, k: nat)
    requires IsRun(run, actions) && ListedFrom(run, name, k) && k < |actions| && !actions[k].Restart?
    ensures Good(run[k].books) && Good(run[k + 1].books)
    ensures LedgerNamed(run[k + 1].books, name)
            == ApplyAll(LedgerNamed(run[k].books, name), EventFor(run[k].books, actions[k], name))
       <==> !HarmsAt(run, actions, name, k) || actions[k].Snap?
  {
    ProcessStarted(run, actions, k);
    ProcessStarted(run, actions, k + 1);
    assert DoesAt(run, actions, k);
    var b, b' := run[k].books, run[k + 1].books;
    match actions[k] {
      case Bill(node, cost) => BillMeans(b, b', node, cost, name);
      case Tick(node, today) => TickMeans(b, b', node, today, name);
      case Forget(on) => ForgetMeans(b, on, name);
      case Swap(incoming) => SwapMeans(b, b', incoming, name);
      case _ =>
    }
  }

  ghost predicate SnapsFollow(taken: seq<UsageFile>, snaps: seq<Memory>, name: string) {
    |snaps| == |taken| && forall i :: 0 <= i < |taken| ==> FileLedger(taken[i], name) == Recall(snaps[i])
  }

  /** The name's ledger in memory, in the file and in every snapshot in flight is
      what each of them remembers of it. */
  ghost predicate Follows(run: seq<Life>, actions: seq<Action>, name: string, a: nat, k: nat)
    requires a <= k <= |actions| < |run| && ListedFrom(run, name, a) && Good(run[a].books)
  {
    && Good(run[k].books)
    && LedgerNamed(run[k].books, name) == Recall(HistoryOf(run, actions, name, a, k))
    && FileLedger(run[k].file, name) == Recall(FiledOf(run, actions, name, a, k))
    && SnapsFollow(run[k].taken, SnapsOf(run, actions, name, a, k), name)
  }

  lemma NothingYet(l: Ledger)
    ensures Recall(Memory(l, [])) == l
  {}

  lemma StartFollows(run: seq<Life>, actions: seq<Action>, name: string, a: nat)
    requires a <= |actions| < |run| && ListedFrom(run, name, a) && Good(run[a].books)
    ensures Follows(run, actions, name, a, a)
  {
    NothingYet(LedgerNamed(run[a].books, name));
    NothingYet(FileLedger(run[a].file, name));
    forall i | 0 <= i < |run[a].taken|
      ensures FileLedger(run[a].taken[i], name) == Recall(SnapsOf(run, actions, name, a, a)[i])
    {
      NothingYet(FileLedger(run[a].taken[i], name));
    }
  }

  lemma MemoryFollows(run: seq<Life>, actions: seq<Action>, name: string, a: nat, k: nat)
    requires IsRun(run, actions) && a <= k < |actions| && ListedFrom(run, name, a) && Good(run[a].books)
    requires Follows(run, actions, name, a, k)
    ensures Good(run[k + 1].books)
    ensures LedgerNamed(run[k + 1].books, name) == Recall(HistoryOf(run, actions, name, a, k + 1))
       <==> !HarmsAt(run, actions, name, k) || actions[k].Snap?
  {
    ProcessStarted(run, actions, k + 1);
    assert DoesAt(run, actions, k);
    if actions[k].Restart? {
      BootMeans(run[k + 1].books, actions[k].incoming, run[k].file, name);
    } else {
      ActionMeans(run, actions, name, k);
      var m := HistoryOf(run, actions, name, a, k);
      ApplyConcat(m.base, m.events, EventFor(run[k].books, actions[k], name));
    }
  }

  lemma SnapKeepsWritten(b: Books, on: seq<Node>, name: string, m: Memory)
    requires Good(b) && Slotted(on) && Listed(b.nodes, name) && LedgerNamed(b, name) == Recall(m)
    ensures FileLedger(Snapshot(on, b.usage, b.periods), name) == Recall(Written(m)) <==> !Harms(b, Snap(on), name)
  {
    SnapMeans(b, on, name);
    NothingYet(Ledger(0, None));
  }

  /** The set a snapshot was taken of is one the allocator made. */
  lemma SnapReadsSlotted(run: seq<Life>, actions: seq<Action>, k: nat)
    requires IsRun(run, actions) && k < |actions| && actions[k].Snap?
    ensures Slotted(actions[k].on)
  {
    assert DoesAt(run, actions, k);
    var j :| 0 <= j <= k && run[k].since <= j && ReadAt(run, actions[k], j);
    ProcessStarted(run, actions, j);
  }

  lemma SnapFollows(run: seq<Life>, actions: seq<Action>, name: string, a: nat, k: nat)
    requires IsRun(run, actions) && a <= k < |actions| && ListedFrom(run, name, a) && Good(run[a].books)
    requires Follows(run, actions, name, a, k)
    ensures SnapsFollow(run[k + 1].taken, SnapsOf(run, actions, name, a, k + 1), name)
       <==> !HarmsAt(run, actions, name, k) || !actions[k].Snap?
  {
    assert DoesAt(run, actions, k);
    if actions[k].Snap? {
      SnapReadsSlotted(run, actions, k);
      SnapKeepsWritten(run[k].books, actions[k].on, name, HistoryOf(run, actions, name, a, k));
      SnapsFollowSnoc(run[k].taken, SnapsOf(run, actions, name, a, k),
                      Snapshot(actions[k].on, run[k].books.usage, run[k].books.periods),
                      Written(HistoryOf(run, actions, name, a, k)), name);
    }
  }

  lemma SnapsFollowSnoc(taken: seq<UsageFile>, snaps: seq<Memory>, file: UsageFile, m: Memory, name: string)
    requires SnapsFollow(taken, snaps, name)
    ensures SnapsFollow(taken + [file], snaps + [m], name) <==> FileLedger(file, name) == Recall(m)
  {
    if SnapsFollow(taken + [file], snaps + [m], name) {
      assert (taken + [file])[|taken|] == file && (snaps + [m])[|taken|] == m;
    }
  }

  lemma FileFollows(run: seq<Life>, actions: seq<Action>, name: string, a: nat, k: nat)
    requires IsRun(run, actions) && a <= k < |actions| && ListedFrom(run, name, a) && Good(run[a].books)
    requires Follows(run, actions, name, a, k)
    ensures FileLedger(run[k + 1].file, name) == Recall(FiledOf(run, actions, name, a, k + 1))
  {
    assert DoesAt(run, actions, k);
  }

  /** One action more, and the account still holds, exactly without harm. */
  lemma FollowsStep(run: seq<Life>, actions: seq<Action>, name: string, a: nat, k: nat)
    requires IsRun(run, actions) && a <= k < |actions| && ListedFrom(run, name, a) && Good(run[a].books)
    requires Follows(run, actions, name, a, k)
    ensures Follows(run, actions, name, a, k + 1) <==> !HarmsAt(run, actions, name, k)
  {
    MemoryFollows(run, actions, name, a, k);
    SnapFollows(run, actions, name, a, k);
    FileFollows(run, actions, name, a, k);
  }

  ghost predicate FollowsTo(run: seq<Life>, actions: seq<Action>, name: string, a: nat, k: nat)
    requires a <= k <= |actions| < |run| && ListedFrom(run, name, a) && Good(run[a].books)
  {
    forall j :: a <= j <= k ==> Follows(run, actions, name, a, j)
  }

  lemma FollowsToOneMore(run: seq<Life>, actions: seq<Action>, name: string, a: nat, k: nat)
    requires a <= k < |actions| < |run| && ListedFrom(run, name, a) && Good(run[a].books)
    ensures FollowsTo(run, actions, name, a, k + 1)
       <==> FollowsTo(run, actions, name, a, k) && Follows(run, actions, name, a, k + 1)
    ensures FollowsTo(run, actions, name, a, k) ==> Follows(run, actions, name, a, k)
  {}

  lemma UnharmedOneMore(run: seq<Life>, actions: seq<Action>, name: string, a: nat, k: nat)
    requires a <= k < |actions| <= |run| && ListedFrom(run, name, a) && AllGood(run)
    ensures Unharmed(run, actions, name, a, k + 1)
       <==> Unharmed(run, actions, name, a, k) && !HarmsAt(run, actions, name, k)
  {}

  /** The account holds up to `k` exactly if nothing harmed it before. */
  ghost predicate HoldsIff(run: seq<Life>, actions: seq<Action>, name: string, a: nat, k: nat)
    requires a <= k <= |actions| < |run| && ListedFrom(run, name, a) && AllGood(run)
  {
    FollowsTo(run, actions, name, a, k) <==> Unharmed(run, actions, name, a, k)
  }

  lemma HoldsAtFirst(run: seq<Life>, actions: seq<Action>, name: string, a: nat)
    requires a <= |actions| < |run| && ListedFrom(run, name, a) && AllGood(run)
    ensures HoldsIff(run, actions, name, a, a)
  {
    StartFollows(run, actions, name, a);
  }

  lemma HoldsOneMore(run: seq<Life>, actions: seq<Action>, name: string, a: nat, k: nat)
    requires IsRun(run, actions) && a <= k < |actions| && ListedFrom(run, name, a) && AllGood(run)
    requires HoldsIff(run, actions, name, a, k)
    ensures HoldsIff(run, actions, name, a, k + 1)
  {
    FollowsToOneMore(run, actions, name, a, k);
    UnharmedOneMore(run, actions, name, a, k);
    if FollowsTo(run, actions, name, a, k) {
      FollowsStep(run, actions, name, a, k);
    }
  }

  /**
   From any position on at which a name is configured to stay, its counter and
   period in memory, in the file and in every snapshot in flight are at every
   moment what its own bookings and clock readings make of them, less what
   restarts lost, exactly as long as no action harms it.
   */
  lemma {:induction false} AccountHoldsIff(run: seq<Life>, actions: seq<Action>, name: string, a: nat, k: nat)
    requires IsRun(run, actions) && a <= k < |run| && ListedFrom(run, name, a) && AllGood(run)
    ensures HoldsIff(run, actions, name, a, k)
    decreases k
  {
    if k == a {
      HoldsAtFirst(run, actions, name, a);
    } else {
      AccountHoldsIff(run, actions, name, a, k - 1);
      HoldsOneMore(run, actions, name, a, k - 1);
    }
  }

  /**
   Exactly-once reset over the life of the service, for any name from any moment
   it is configured to stay: in the file or not, tracked or not, there from the
   start or arrived by a reload. Unless an action harms it, through any clock, any
   reload, any restart, any order of landings and any traffic on the other nodes,
   its marker is the latest period start its account remembers, and its counter
   holds what it began with plus every booking remembered if no later period was
   reached, or else exactly the bookings remembered since that start was first
   read; an untracked name adopts the first period it reads.
   */
  lemma EveryNodeResetsExactlyOnce(run: seq<Life>, actions: seq<Action>, name: string, a: nat, k: nat)
    requires IsRun(run, actions) && a <= k < |run| && ListedFrom(run, name, a)
    ensures AllGood(run)
    ensures Unharmed(run, actions, name, a, k) ==>
              var m := HistoryOf(run, actions, name, a, k);
              AccountsFor(m.base, m.events, LedgerNamed(run[k].books, name))
  {
    RunIsGood(run, actions);
    AccountHoldsIff(run, actions, name, a, k);
    if Unharmed(run, actions, name, a, k) {
      assert Follows(run, actions, name, a, k);
      var m := HistoryOf(run, actions, name, a, k);
      ResetExactlyOnceFromAny(m.base, m.events);
    }
  }

  // ---------------------------------------------------------------------
  // What restarts lose
  // ---------------------------------------------------------------------

  /** `m` is what `h` was at some earlier time. */
  ghost predicate Earlier(m: Memory, h: Memory) {
    m.base == h.base && m.events <= h.events
  }

  /** A ledger on disk, or on its way there, at a time before the account begins,
      or of a name flushed without a period. */
  ghost predicate FromBefore(l: Life, name: string, m: Memory) {
    && m.events == []
    && (|| m.base == Ledger(0, None) || m.base == FileLedger(l.file, name)
        || exists i :: 0 <= i < |l.taken| && m.base == FileLedger(l.taken[i], name))
  }

  ghost predicate Behind(l: Life, name: string, m: Memory, h: Memory) {
    Earlier(m, h) || FromBefore(l, name, m)
  }

  /** The file and every snapshot hold what the history was at an earlier time, or
      something from before it. */
  ghost predicate Lags(l: Life, name: string, h: Memory, f: Memory, snaps: seq<Memory>) {
    Behind(l, name, f, h) && forall i :: 0 <= i < |snaps| ==> Behind(l, name, snaps[i], h)
  }

  lemma LagsAsItGrows(l: Life, name: string, h: Memory, f: Memory, snaps: seq<Memory>, es: seq<Event>)
    requires Lags(l, name, h, f, snaps)
    ensures Lags(l, name, h.(events := h.events + es), f, snaps)
  {}

  lemma LagsStep(run: seq<Life>, actions: seq<Action>, name: string, a: nat, k: nat)
    requires a <= k < |actions| < |run| && ListedFrom(run, name, a) && Good(run[a].books)
    requires Lags(run[a], name, HistoryOf(run, actions, name, a, k), FiledOf(run, actions, name, a, k),
                  SnapsOf(run, actions, name, a, k))
    ensures Lags(run[a], name, HistoryOf(run, actions, name, a, k + 1), FiledOf(run, actions, name, a, k + 1),
                 SnapsOf(run, actions, name, a, k + 1))
  {
    var h, f, snaps := HistoryOf(run, actions, name, a, k), FiledOf(run, actions, name, a, k),
        SnapsOf(run, actions, name, a, k);
    if actions[k].Snap? {
      assert h.events + [] == h.events;
      assert Behind(run[a], name, Written(h), h);
    } else if !actions[k].Restart? {
      LagsAsItGrows(run[a], name, h, f, snaps, EventFor(run[k].books, actions[k], name));
    }
  }

  lemma LagsAtFirst(run: seq<Life>, actions: seq<Action>, name: string, a: nat)
    requires a <= |actions| < |run| && ListedFrom(run, name, a) && Good(run[a].books)
    ensures Lags(run[a], name, HistoryOf(run, actions, name, a, a), FiledOf(run, actions, name, a, a),
                 SnapsOf(run, actions, name, a, a))
  {
    var taken, snaps := run[a].taken, SnapsOf(run, actions, name, a, a);
    forall i | 0 <= i < |snaps| ensures FromBefore(run[a], name, snaps[i]) {
      assert snaps[i] == Memory(FileLedger(taken[i], name), []);
    }
  }

  lemma {:induction false} FileLagsBehind(run: seq<Life>, actions: seq<Action>, name: string, a: nat, k: nat)
    requires a <= k <= |actions| < |run| && ListedFrom(run, name, a) && Good(run[a].books)
    ensures Lags(run[a], name, HistoryOf(run, actions, name, a, k), FiledOf(run, actions, name, a, k),
                 SnapsOf(run, actions, name, a, k))
    decreases k
  {
    if k == a {
      LagsAtFirst(run, actions, name, a);
    } else {
      FileLagsBehind(run, actions, name, a, k - 1);
      LagsStep(run, actions, name, a, k - 1);
    }
  }

  /** A tracked name with the same ledger in memory and in the file, and no flush
      in flight. */
  ghost predicate InStep(l: Life, name: string)
    requires Good(l.books) && Listed(l.books.nodes, name)
  {
    l.taken == [] && LedgerNamed(l.books, name) == FileLedger(l.file, name) && LedgerNamed(l.books, name).marker.Some?
  }

  ghost predicate AllEarlier(base: Ledger, h: Memory, f: Memory, snaps: seq<Memory>) {
    h.base == base && Earlier(f, h) && forall i :: 0 <= i < |snaps| ==> Earlier(snaps[i], h)
  }

  lemma EarlierStep(run: seq<Life>, actions: seq<Action>, name: string, a: nat, k: nat, base: Ledger)
    requires a <= k < |actions| < |run| && ListedFrom(run, name, a) && Good(run[a].books) && base.marker.Some?
    requires AllEarlier(base, HistoryOf(run, actions, name, a, k), FiledOf(run, actions, name, a, k),
                        SnapsOf(run, actions, name, a, k))
    ensures AllEarlier(base, HistoryOf(run, actions, name, a, k + 1), FiledOf(run, actions, name, a, k + 1),
                       SnapsOf(run, actions, name, a, k + 1))
  {
    var h := HistoryOf(run, actions, name, a, k);
    if actions[k].Snap? {
      assert h.events + [] == h.events;
      StaysTracked(h.base, h.events);
    }
  }

  /** For a name in step with its file, all the file ever holds is what its history
      was at an earlier time. */
  lemma {:induction false} InStepFileIsEarlier(run: seq<Life>, actions: seq<Action>, name: string, a: nat, k: nat)
    requires a <= k <= |actions| < |run| && ListedFrom(run, name, a) && Good(run[a].books) && InStep(run[a], name)
    ensures AllEarlier(LedgerNamed(run[a].books, name), HistoryOf(run, actions, name, a, k),
                       FiledOf(run, actions, name, a, k), SnapsOf(run, actions, name, a, k))
    decreases k
  {
    if k > a {
      InStepFileIsEarlier(run, actions, name, a, k - 1);
      EarlierStep(run, actions, name, a, k - 1, LedgerNamed(run[a].books, name));
    }
  }

  /** What lies between an earlier memory and a later one. */
  lemma Lost(f: Memory, h: Memory) returns (lost: seq<Event>)
    requires Earlier(f, h)
    ensures h.events == f.events + lost && Recall(h) == ApplyAll(Recall(f), lost)
    ensures NoReading(lost) ==> Recall(h) == Recall(f).(used := Recall(f).used + TotalBooked(lost))
  {
    lost := h.events[|f.events|..];
    ApplyConcat(h.base, f.events, lost);
    if NoReading(lost) {
      OnlyBookings(Recall(f), lost);
    }
  }

  lemma RestartRecalls(run: seq<Life>, actions: seq<Action>, name: string, a: nat, k: nat)
    requires IsRun(run, actions) && a <= k < |actions| && ListedFrom(run, name, a)
    requires AllGood(run) && Unharmed(run, actions, name, a, k) && actions[k].Restart?
    ensures LedgerNamed(run[k].books, name) == Recall(HistoryOf(run, actions, name, a, k))
    ensures LedgerNamed(run[k + 1].books, name) == Recall(FiledOf(run, actions, name, a, k))
    ensures HistoryOf(run, actions, name, a, k + 1) == FiledOf(run, actions, name, a, k)
  {
    AccountHoldsIff(run, actions, name, a, k);
    assert Follows(run, actions, name, a, k);
    MemoryFollows(run, actions, name, a, k);
  }

  /** `after` is `before` less the last of what had happened. */
  ghost predicate CutBack(before: Ledger, after: Ledger, lost: seq<Event>) {
    && before == ApplyAll(after, lost)
    && (NoReading(lost) ==> before == after.(used := after.used + TotalBooked(lost)))
  }

  /**
   A restart loses the end of an account and nothing else. If the file held what
   the account was at an earlier time, the ledger before the restart is the ledger
   after it carried through what was lost, the last of what had happened to the
   name; if no clock reading was lost the two differ by exactly the bookings lost.
   A name in step with its file is always in that case. Any other restart gives
   back something on disk or in flight before the account began, or nothing for a
   name flushed without a period.
   */
  lemma RestartsLoseTheLatest(run: seq<Life>, actions: seq<Action>, name: string, a: nat, k: nat)
    returns (lost: seq<Event>)
    requires IsRun(run, actions) && a <= k < |actions| && ListedFrom(run, name, a)
    requires AllGood(run) && Unharmed(run, actions, name, a, k) && actions[k].Restart?
    ensures var before, after := HistoryOf(run, actions, name, a, k), HistoryOf(run, actions, name, a, k + 1);
            && (Earlier(after, before) || FromBefore(run[a], name, after))
            && (InStep(run[a], name) ==> Earlier(after, before))
            && (Earlier(after, before) ==>
              && before.events == after.events + lost
              && CutBack(LedgerNamed(run[k].books, name), LedgerNamed(run[k + 1].books, name), lost))
  {
    RestartRecalls(run, actions, name, a, k);
    FileLagsBehind(run, actions, name, a, k);
    if InStep(run[a], name) {
      InStepFileIsEarlier(run, actions, name, a, k);
    }
    var f, h := FiledOf(run, actions, name, a, k), HistoryOf(run, actions, name, a, k);
    lost := [];
    if Earlier(f, h) {
      lost := Lost(f, h);
    }
  }
}
