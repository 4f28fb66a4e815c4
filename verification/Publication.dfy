/**
 Publishing the routing table. Reloads and ranking rounds take turns under one
 lock; requests read the published table without it, bill its slots and update
 its nodes' health at any moment. Nodes are shared: a ranking round publishes
 the very nodes it found, a reload builds new ones.
 */
module Publication {
  import opened Wrappers
  import opened SlotMask
  import opened Topology
  import opened Ranking

  /** A published table, with the keys its order was computed from. */
  datatype Table = Table(all: seq<Ref>, ranked: seq<Ref>, keys: map<Ref, Key>)

  /** One task that replaces the table. */
  datatype Actor =
    | Idle
    | ReloadLocked(nodes: seq<Node>)   // the lock is held, the new set not looked at yet
    | ReloadReady(refs: seq<Ref>)      // slots assigned, new nodes built
    | RerankLocked
    | RerankRead(all: seq<Ref>)        // the node set was read
    | Finished                         // stored, guard not dropped yet

  /** `nodes` holds every node ever built; a reference is its position.
      `billed` totals what was ever added to each slot, `cleared` what period resets
      took off it. `commits` and `tables`
      are the node sets reloads published and all the tables stored, newest
      last; `seen` is what lock-free readers loaded. */
  datatype World = World(nodes: seq<Node>, usage: seq<nat>, billed: seq<nat>, cleared: seq<nat>,
                         published: Table, holder: Option<nat>, actors: seq<Actor>,
                         commits: seq<seq<Ref>>, tables: seq<Table>, seen: seq<Table>)

  ghost predicate InRange(w: World, refs: seq<Ref>) {
    forall i :: 0 <= i < |refs| ==> refs[i] < |w.nodes|
  }

  /** The nodes behind a list of references. */
  ghost function At(nodes: seq<Node>, refs: seq<Ref>): (out: seq<Node>)
    requires forall i :: 0 <= i < |refs| ==> refs[i] < |nodes|
    ensures |out| == |refs| && forall i :: 0 <= i < |refs| ==> out[i] == nodes[refs[i]]
  {
    seq(|refs|, i requires 0 <= i < |refs| => nodes[refs[i]])
  }

  ghost function KeysOf(nodes: seq<Node>): map<Ref, Key> {
    map r: Ref | r < |nodes| :: Key(nodes[r].tier, nodes[r].emaUs)
  }

  /** `Topology::new`: the set is ranked in the same step it is published in,
      from one snapshot of its keys. */
  ghost predicate IsNewTable(nodes: seq<Node>, all: seq<Ref>, t: Table) {
    t.all == all && t.keys == KeysOf(nodes) && IsRanking(all, t.keys, t.ranked)
  }

  // ---------------------------------------------------------------------
  // Steps
  // ---------------------------------------------------------------------

  ghost predicate Is(w: World, a: nat, actor: Actor) {
    a < |w.actors| && w.actors[a] == actor
  }

  ghost function Become(w: World, a: nat, actor: Actor): World
    requires a < |w.actors|
  {
    w.(actors := w.actors[a := actor])
  }

  ghost predicate Lock(w: World, w': World, a: nat, actor: Actor) {
    && Is(w, a, Idle) && w.holder == None && (actor.ReloadLocked? || actor.RerankLocked?)
    && w' == Become(w, a, actor).(holder := Some(a))
  }

  ghost predicate Unlock(w: World, w': World, a: nat) {
    && Is(w, a, Finished)
    && w' == Become(w, a, Idle).(holder := None)
  }

  /** A set the allocator rejects: the guard is dropped and nothing else happens. */
  ghost predicate Reject(w: World, w': World, a: nat) {
    && a < |w.actors| && w.actors[a].ReloadLocked? && !Acceptable(w.actors[a].nodes)
    && w' == Become(w, a, Finished)
  }

  /** Slots are assigned against the published set; new nodes join the heap. */
  ghost predicate Assign(w: World, w': World, a: nat, out: seq<Node>, usage': seq<nat>) {
    && a < |w.actors| && w.actors[a].ReloadLocked? && InRange(w, w.published.all)
    && Acceptable(w.actors[a].nodes)
    && Assigned(At(w.nodes, w.published.all), w.actors[a].nodes, w.usage, out, usage')
    && w' == Become(w, a, ReloadReady(seq(|out|, i => |w.nodes| + i))).(nodes := w.nodes + out, usage := usage')
  }

  ghost predicate CommitReload(w: World, w': World, a: nat, table: Table) {
    && a < |w.actors| && w.actors[a].ReloadReady? && IsNewTable(w.nodes, w.actors[a].refs, table)
    && w' == Become(w, a, Finished).(published := table, tables := w.tables + [table],
                                     commits := w.commits + [table.all])
  }

  ghost predicate ReadForRerank(w: World, w': World, a: nat) {
    && Is(w, a, RerankLocked)
    && w' == Become(w, a, RerankRead(w.published.all))
  }

  ghost predicate CommitRerank(w: World, w': World, a: nat, table: Table) {
    && a < |w.actors| && w.actors[a].RerankRead? && IsNewTable(w.nodes, w.actors[a].all, table)
    && w' == Become(w, a, Finished).(published := table, tables := w.tables + [table])
  }

  /** A request loads the table. */
  ghost predicate Read(w: World, w': World) {
    w' == w.(seen := w.seen + [w.published])
  }

  /** An attempt on any node, current or long replaced, changes its health. */
  ghost predicate Observe(w: World, w': World, r: Ref, emaUs: nat, untilS: nat) {
    && r < |w.nodes|
    && w' == w.(nodes := w.nodes[r := w.nodes[r].(emaUs := emaUs, untilS := untilS)])
  }

  ghost predicate Bill(w: World, w': World, slot: nat, cost: nat) {
    && slot < |w.usage| && slot < |w.billed|
    && w' == w.(usage := w.usage[slot := w.usage[slot] + cost], billed := w.billed[slot := w.billed[slot] + cost])
  }

  /** A billing period rolled over. */
  ghost predicate Reset(w: World, w': World, slot: nat) {
    && slot < |w.usage| && slot < |w.cleared|
    && w' == w.(usage := w.usage[slot := 0], cleared := w.cleared[slot := w.cleared[slot] + w.usage[slot]])
  }

  ghost predicate Spawn(w: World, w': World) {
    w' == w.(actors := w.actors + [Idle])
  }

  datatype Step =
    | LockStep(a: nat, actor: Actor)
    | UnlockStep(a: nat)
    | RejectStep(a: nat)
    | AssignStep(a: nat, out: seq<Node>, counters: seq<nat>)
    | CommitReloadStep(a: nat, table: Table)
    | ReadForRerankStep(a: nat)
    | CommitRerankStep(a: nat, table: Table)
    | ReadStep
    | ObserveStep(r: Ref, emaUs: nat, untilS: nat)
    | BillStep(slot: nat, cost: nat)
    | ResetStep(slot: nat)
    | SpawnStep

  ghost predicate Takes(w: World, w': World, step: Step) {
    match step
    case LockStep(a, actor) => Lock(w, w', a, actor)
    case UnlockStep(a) => Unlock(w, w', a)
    case RejectStep(a) => Reject(w, w', a)
    case AssignStep(a, out, counters) => Assign(w, w', a, out, counters)
    case CommitReloadStep(a, table) => CommitReload(w, w', a, table)
    case ReadForRerankStep(a) => ReadForRerank(w, w', a)
    case CommitRerankStep(a, table) => CommitRerank(w, w', a, table)
    case ReadStep => Read(w, w')
    case ObserveStep(r, emaUs, untilS) => Observe(w, w', r, emaUs, untilS)
    case BillStep(slot, cost) => Bill(w, w', slot, cost)
    case ResetStep(slot) => Reset(w, w', slot)
    case SpawnStep => Spawn(w, w')
  }

  ghost predicate Next(w: World, w': World) {
    exists step :: Takes(w, w', step)
  }

  /** The state a freshly built client starts in. */
  ghost predicate Start(w: World) {
    && Slotted(w.nodes) && |w.usage| == |w.billed| == |w.cleared| == MAX_NODES
    && var all := seq(|w.nodes|, i => i);
    && IsNewTable(w.nodes, all, w.published)
    && w.commits == [all] && w.tables == [w.published] && w.seen == []
    && w.holder == None && w.actors == []
  }

  ghost predicate StepAt(run: seq<World>, i: nat)
    requires i + 1 < |run|
  {
    Next(run[i], run[i + 1])
  }

  ghost predicate IsRun(run: seq<World>) {
    run != [] && Start(run[0]) && forall i :: 0 <= i < |run| - 1 ==> StepAt(run, i)
  }

  // ---------------------------------------------------------------------
  // The invariant
  // ---------------------------------------------------------------------

  /** A node set fit to route on: distinct nodes, distinct names, distinct slots. */
  ghost predicate GoodSet(w: World, refs: seq<Ref>) {
    InRange(w, refs) && Distinct(refs) && Slotted(At(w.nodes, refs))
  }

  /** A whole table: its order is the stable ranking of its own set. */
  ghost predicate GoodTable(w: World, t: Table) {
    && GoodSet(w, t.all) && Covers(t.keys, t.all) && IsRanking(t.all, t.keys, t.ranked)
    && forall i :: 0 <= i < |t.all| ==> t.keys[t.all[i]].tier == w.nodes[t.all[i]].tier
  }

  ghost predicate GoodActor(w: World, a: nat)
    requires a < |w.actors|
  {
    && (w.holder == Some(a) <==> !w.actors[a].Idle?)
    && (w.actors[a].RerankRead? ==> w.actors[a].all == w.published.all)
    && (w.actors[a].ReloadReady? ==> GoodSet(w, w.actors[a].refs))
  }

  ghost predicate Inv(w: World) {
    && |w.usage| == |w.billed| == |w.cleared| == MAX_NODES
    && w.tables != [] && w.published == w.tables[|w.tables| - 1]
    && w.commits != [] && w.published.all == w.commits[|w.commits| - 1]
    && (forall i :: 0 <= i < |w.tables| ==> GoodTable(w, w.tables[i]))
    && (forall i :: 0 <= i < |w.seen| ==> w.seen[i] in w.tables)
    && (forall a :: 0 <= a < |w.actors| ==> GoodActor(w, a))
    && (w.holder.Some? ==> w.holder.value < |w.actors|)
  }

  /** Nodes are only ever added; a node's name, slot and tier never change. */
  ghost predicate SameIdentity(nodes: seq<Node>, nodes': seq<Node>) {
    && |nodes| <= |nodes'|
    && forall r :: 0 <= r < |nodes| ==>
         nodes'[r].name == nodes[r].name && nodes'[r].id == nodes[r].id && nodes'[r].tier == nodes[r].tier
  }

  lemma GoodSetStays(w: World, w': World, refs: seq<Ref>)
    requires GoodSet(w, refs) && SameIdentity(w.nodes, w'.nodes)
    ensures GoodSet(w', refs)
  {
    var before, after := At(w.nodes, refs), At(w'.nodes, refs);
    forall i | 0 <= i < |refs| ensures after[i].name == before[i].name && after[i].id == before[i].id {
      assert refs[i] < |w.nodes|;
    }
  }

  lemma TablesStay(w: World, w': World)
    requires Inv(w) && SameIdentity(w.nodes, w'.nodes)
    ensures forall i :: 0 <= i < |w.tables| ==> GoodTable(w', w.tables[i])
  {
    forall i | 0 <= i < |w.tables| ensures GoodTable(w', w.tables[i]) {
      GoodSetStays(w, w', w.tables[i].all);
    }
  }

  /** Steps that publish nothing and keep the lock discipline. */
  lemma QuietStepKeepsInv(w: World, w': World)
    requires Inv(w) && SameIdentity(w.nodes, w'.nodes)
    requires |w'.usage| == |w'.billed| == |w'.cleared| == MAX_NODES
    requires w'.published == w.published && w'.tables == w.tables && w'.commits == w.commits
    requires forall i :: 0 <= i < |w'.seen| ==> w'.seen[i] in w.tables
    requires forall a :: 0 <= a < |w'.actors| ==> GoodActor(w', a)
    requires w'.holder.Some? ==> w'.holder.value < |w'.actors|
    ensures Inv(w')
  {
    TablesStay(w, w');
  }

  /** Storing a table while holding the lock. */
  lemma PublishKeepsInv(w: World, w': World, a: nat, refs: seq<Ref>, table: Table)
    requires Inv(w) && a < |w.actors| && !w.actors[a].Idle? && GoodSet(w, refs) && IsNewTable(w.nodes, refs, table)
    requires w' == Become(w, a, Finished).(published := table, tables := w.tables + [table], commits := w'.commits)
    requires w'.commits != [] && w'.commits[|w'.commits| - 1] == refs
    ensures Inv(w')
  {
    TablesStay(w, w');
    assert GoodSet(w', refs);
    forall b | 0 <= b < |w'.actors| ensures GoodActor(w', b) {
      assert GoodActor(w, a) && GoodActor(w, b);
    }
  }

  /** Moving one actor, with the lock where that actor's new phase puts it. */
  lemma ActorStepKeepsInv(w: World, w': World, a: nat, actor: Actor, holder: Option<nat>)
    requires Inv(w) && a < |w.actors|
    requires w' == Become(w, a, actor).(holder := holder)
    requires !actor.Idle? ==> holder == Some(a) && (w.holder == None || w.holder == Some(a))
    requires actor.Idle? ==> holder == None && w.holder == Some(a)
    requires actor.RerankRead? ==> actor.all == w.published.all
    requires !actor.ReloadReady?
    ensures Inv(w')
  {
    forall b | 0 <= b < |w'.actors| ensures GoodActor(w', b) {
      assert GoodActor(w, b);
    }
    QuietStepKeepsInv(w, w');
  }

  lemma AssignKeepsInv(w: World, w': World, a: nat, out: seq<Node>, usage': seq<nat>)
    requires Inv(w) && Assign(w, w', a, out, usage')
    ensures Inv(w')
  {
    var refs := seq(|out|, i => |w.nodes| + i);
    assert At(w'.nodes, refs) == out;
    assert GoodSet(w', refs);
    forall b | 0 <= b < |w'.actors| ensures GoodActor(w', b) {
      assert GoodActor(w, a) && GoodActor(w, b);
    }
    QuietStepKeepsInv(w, w');
  }

  /** Steps of readers, requests and period resets: no table, no lock, no phase changes. */
  lemma BackgroundKeepsInv(w: World, w': World, step: Step)
    requires Inv(w) && Takes(w, w', step)
    requires step.ReadStep? || step.ObserveStep? || step.BillStep? || step.ResetStep? || step.SpawnStep?
    ensures Inv(w')
  {
    assert SameIdentity(w.nodes, w'.nodes);
    forall b | 0 <= b < |w'.actors| ensures GoodActor(w', b) {
      if b < |w.actors| {
        assert GoodActor(w, b);
        if w.actors[b].ReloadReady? {
          GoodSetStays(w, w', w.actors[b].refs);
        }
      }
    }
    QuietStepKeepsInv(w, w');
  }

  /** Steps of the actor that holds, takes or drops the lock. */
  lemma ActorTakesKeepsInv(w: World, w': World, step: Step)
    requires Inv(w) && Takes(w, w', step)
    requires step.LockStep? || step.UnlockStep? || step.RejectStep? || step.ReadForRerankStep?
    ensures Inv(w')
  {
    assert step.a < |w.actors| && GoodActor(w, step.a);
    match step {
      case LockStep(a, actor) => ActorStepKeepsInv(w, w', a, actor, Some(a));
      case UnlockStep(a) => ActorStepKeepsInv(w, w', a, Idle, None);
      case RejectStep(a) => ActorStepKeepsInv(w, w', a, Finished, w.holder);
      case ReadForRerankStep(a) => ActorStepKeepsInv(w, w', a, RerankRead(w.published.all), w.holder);
    }
  }

  lemma CommitKeepsInv(w: World, w': World, step: Step)
    requires Inv(w) && Takes(w, w', step) && (step.CommitReloadStep? || step.CommitRerankStep?)
    ensures Inv(w')
  {
    assert GoodActor(w, step.a);
    if step.CommitReloadStep? {
      PublishKeepsInv(w, w', step.a, w.actors[step.a].refs, step.table);
    } else {
      assert GoodTable(w, w.tables[|w.tables| - 1]);
      PublishKeepsInv(w, w', step.a, w.published.all, step.table);
    }
  }

  lemma TakesKeepsInv(w: World, w': World, step: Step)
    requires Inv(w) && Takes(w, w', step)
    ensures Inv(w')
  {
    match step {
      case AssignStep(a, out, counters) => AssignKeepsInv(w, w', a, out, counters);
      case CommitReloadStep(_, _) => CommitKeepsInv(w, w', step);
      case CommitRerankStep(_, _) => CommitKeepsInv(w, w', step);
      case ReadStep => BackgroundKeepsInv(w, w', step);
      case ObserveStep(_, _, _) => BackgroundKeepsInv(w, w', step);
      case BillStep(_, _) => BackgroundKeepsInv(w, w', step);
      case ResetStep(_) => BackgroundKeepsInv(w, w', step);
      case SpawnStep => BackgroundKeepsInv(w, w', step);
      case _ => ActorTakesKeepsInv(w, w', step);
    }
  }

  lemma NextKeepsInv(w: World, w': World)
    requires Inv(w) && Next(w, w')
    ensures Inv(w')
  {
    var step :| Takes(w, w', step);
    TakesKeepsInv(w, w', step);
  }

  lemma NextAccumulates(w: World, w': World)
    requires Next(w, w')
    ensures w.tables <= w'.tables && w.commits <= w'.commits
  {
    var step :| Takes(w, w', step);
  }

  lemma StartHasInv(w: World)
    requires Start(w)
    ensures Inv(w)
  {
    var all := seq(|w.nodes|, i => i);
    assert At(w.nodes, all) == w.nodes;
    assert GoodSet(w, all);
  }

  /**
   No lost reload. In every state of every interleaving of reloads, ranking
   rounds and readers: the published node set is the one the last committed
   reload published, its order is the stable ranking of that same set, every
   table any reader loaded was published whole, and no two nodes of a table
   share a name or a slot.
   */
  lemma {:induction false} NoLostReload(run: seq<World>, k: nat)
    requires IsRun(run) && k < |run|
    ensures Inv(run[k])
  {
    if k == 0 {
      StartHasInv(run[0]);
    } else {
      NoLostReload(run, k - 1);
      assert StepAt(run, k - 1);
      NextKeepsInv(run[k - 1], run[k]);
    }
  }

  /** What was published stays on record in the order it was published: no table
      is ever replaced behind a reader's back. */
  lemma {:induction false} TablesOnlyAccumulate(run: seq<World>, i: nat, k: nat)
    requires IsRun(run) && i <= k < |run|
    ensures run[i].tables <= run[k].tables && run[i].commits <= run[k].commits
    decreases k - i
  {
    if i < k {
      TablesOnlyAccumulate(run, i, k - 1);
      assert StepAt(run, k - 1);
      NextAccumulates(run[k - 1], run[k]);
    }
  }

  /** What a reader has in hand is a whole table, whatever was published since. */
  lemma ReadersSeeWholeTables(run: seq<World>, k: nat, i: nat)
    requires IsRun(run) && k < |run| && i < |run[k].seen|
    ensures GoodTable(run[k], run[k].seen[i])
    ensures var t := run[k].seen[i]; multiset(t.ranked) == multiset(t.all) && t.ranked == Rank(t.all, t.keys)
  {
    NoLostReload(run, k);
    var t := run[k].seen[i];
    assert t in run[k].tables;
    RankingIsUnique(t.all, t.keys, t.ranked);
  }

  /** A table is published in the order its nodes' tiers and averages were in at
      that moment. */
  lemma CommitReadsTheNodes(w: World, w': World, step: Step, r: Ref)
    requires Takes(w, w', step) && (step.CommitReloadStep? || step.CommitRerankStep?) && r < |w.nodes|
    ensures r in w'.published.keys
    ensures w'.published.keys[r].tier == w.nodes[r].tier && w'.published.keys[r].emaUs == w.nodes[r].emaUs
  {}

  lemma TableIsByTier(w: World, t: Table, a: nat, b: nat)
    requires GoodTable(w, t) && a < b < |t.ranked|
    ensures t.ranked[a] < |w.nodes| && t.ranked[b] < |w.nodes|
    ensures w.nodes[t.ranked[a]].tier <= w.nodes[t.ranked[b]].tier
  {
    var i := WhereInSet(t, a);
    var j := WhereInSet(t, b);
    assert Ahead(t.all, t.keys, t.all[i], t.all[j]);
  }

  lemma WhereInSet(t: Table, a: nat) returns (i: nat)
    requires multiset(t.ranked) == multiset(t.all) && a < |t.ranked|
    ensures i < |t.all| && t.all[i] == t.ranked[a]
  {
    SameElements(t.ranked, t.all);
    assert t.ranked[a] in t.ranked;
    i :| 0 <= i < |t.all| && t.all[i] == t.ranked[a];
  }

  /** Whatever table a reader holds, the nodes of a lower tier come first. */
  lemma ReadersWalkByTier(run: seq<World>, k: nat, i: nat, a: nat, b: nat)
    requires IsRun(run) && k < |run| && i < |run[k].seen| && a < b < |run[k].seen[i].ranked|
    ensures var w, t := run[k], run[k].seen[i];
            t.ranked[a] < |w.nodes| && t.ranked[b] < |w.nodes| && w.nodes[t.ranked[a]].tier <= w.nodes[t.ranked[b]].tier
  {
    ReadersSeeWholeTables(run, k, i);
    TableIsByTier(run[k], run[k].seen[i], a, b);
  }

  // ---------------------------------------------------------------------
  // A name keeps its slot and its spend
  // ---------------------------------------------------------------------

  ghost predicate Lists(w: World, refs: seq<Ref>, name: string) {
    exists i :: 0 <= i < |refs| && refs[i] < |w.nodes| && w.nodes[refs[i]].name == name
  }

  /** Wherever the set lists the name, it lists it under this slot. */
  ghost predicate On(w: World, refs: seq<Ref>, name: string, slot: nat) {
    forall i :: 0 <= i < |refs| && refs[i] < |w.nodes| && w.nodes[refs[i]].name == name ==> w.nodes[refs[i]].id == slot
  }

  /** The name is in the published set and in any set about to replace it. */
  ghost predicate Stays(w: World, name: string) {
    && Lists(w, w.published.all, name)
    && forall a :: 0 <= a < |w.actors| && w.actors[a].ReloadReady? ==> Lists(w, w.actors[a].refs, name)
  }

  ghost predicate StaysOn(w: World, name: string, slot: nat) {
    && On(w, w.published.all, name, slot)
    && forall a :: 0 <= a < |w.actors| && w.actors[a].ReloadReady? ==> On(w, w.actors[a].refs, name, slot)
  }

  lemma OnStays(w: World, w': World, refs: seq<Ref>, name: string, slot: nat)
    requires On(w, refs, name, slot) && InRange(w, refs) && SameIdentity(w.nodes, w'.nodes)
    ensures On(w', refs, name, slot)
  {}

  ghost function Spent(w: World, slot: nat): nat {
    if slot < |w.usage| then w.usage[slot] else 0
  }

  /** What was billed to the slot, less what period resets took off. */
  ghost function Owed(w: World, slot: nat): int {
    if slot < |w.billed| && slot < |w.cleared| then w.billed[slot] as int - w.cleared[slot] as int else 0
  }

  /** The counter moved by exactly what was billed and reset. */
  ghost predicate SpendMatches(w: World, w': World, slot: nat) {
    Spent(w', slot) - Spent(w, slot) == Owed(w', slot) - Owed(w, slot)
  }

  /** The set a reload assigned lists a surviving name under its old slot. */
  lemma AssignedSetKeepsName(w: World, w': World, a: nat, out: seq<Node>, usage': seq<nat>, name: string, slot: nat,
                             j: nat, i: nat)
    requires Inv(w) && Assign(w, w', a, out, usage')
    requires j < |w.published.all| && w.nodes[w.published.all[j]].name == name && w.nodes[w.published.all[j]].id == slot
    requires i < |out| && out[i].name == name
    ensures On(w', w'.actors[a].refs, name, slot) && SpendMatches(w, w', slot)
  {
    var prev := At(w.nodes, w.published.all);
    assert GoodTable(w, w.tables[|w.tables| - 1]);
    assert prev[j] == w.nodes[w.published.all[j]];
    SurvivorUntouched(prev, w.actors[a].nodes, w.usage, out, usage', j, i);
    var refs := w'.actors[a].refs;
    forall k | 0 <= k < |refs| && w'.nodes[refs[k]].name == name ensures w'.nodes[refs[k]].id == slot {
      assert w'.nodes[refs[k]] == out[k];
      assert k == i;
    }
  }

  /** The lock lets one reload get this far at a time. */
  lemma OnlyOneIsReady(w: World, w': World, a: nat, out: seq<Node>, usage': seq<nat>)
    requires Inv(w) && Assign(w, w', a, out, usage')
    ensures forall b :: 0 <= b < |w'.actors| && w'.actors[b].ReloadReady? ==> b == a
    ensures w'.published == w.published && SameIdentity(w.nodes, w'.nodes) && InRange(w, w.published.all)
  {
    forall b | 0 <= b < |w'.actors| && w'.actors[b].ReloadReady? ensures b == a {
      assert GoodActor(w, a) && GoodActor(w, b);
    }
  }

  lemma WhereListed(w: World, refs: seq<Ref>, name: string) returns (j: nat)
    requires Lists(w, refs, name)
    ensures j < |refs| && refs[j] < |w.nodes| && w.nodes[refs[j]].name == name
  {
    j :| 0 <= j < |refs| && refs[j] < |w.nodes| && w.nodes[refs[j]].name == name;
  }

  lemma WhereAssigned(w: World, w': World, a: nat, out: seq<Node>, usage': seq<nat>, name: string) returns (i: nat)
    requires Assign(w, w', a, out, usage') && Lists(w', w'.actors[a].refs, name)
    ensures i < |out| && out[i].name == name
  {
    i := WhereListed(w', w'.actors[a].refs, name);
    assert w'.nodes[w'.actors[a].refs[i]] == out[i];
  }

  /** The published set and the set about to replace it both hold the name. */
  lemma AssignKeepsNameAt(w: World, w': World, a: nat, out: seq<Node>, usage': seq<nat>, name: string, slot: nat,
                          j: nat, i: nat)
    requires Inv(w) && Assign(w, w', a, out, usage') && StaysOn(w, name, slot)
    requires j < |w.published.all| && w.nodes[w.published.all[j]].name == name
    requires i < |out| && out[i].name == name
    ensures StaysOn(w', name, slot) && SpendMatches(w, w', slot)
  {
    AssignedSetKeepsName(w, w', a, out, usage', name, slot, j, i);
    OnlyOneIsReady(w, w', a, out, usage');
    OnStays(w, w', w.published.all, name, slot);
  }

  lemma AssignKeepsName(w: World, w': World, a: nat, out: seq<Node>, usage': seq<nat>, name: string, slot: nat)
    requires Inv(w) && Assign(w, w', a, out, usage') && StaysOn(w, name, slot)
    requires Lists(w, w.published.all, name) && Lists(w', w'.actors[a].refs, name)
    ensures StaysOn(w', name, slot) && SpendMatches(w, w', slot)
  {
    var j := WhereListed(w, w.published.all, name);
    var i := WhereAssigned(w, w', a, out, usage', name);
    AssignKeepsNameAt(w, w', a, out, usage', name, slot, j, i);
  }

  /** A step after which every set in play was in play before, with the same
      names on the same slots. */
  ghost predicate Quiet(w: World, w': World) {
    && SameIdentity(w.nodes, w'.nodes)
    && (w'.published.all == w.published.all
        || exists b :: 0 <= b < |w.actors| && w.actors[b].ReloadReady? && w'.published.all == w.actors[b].refs)
    && (forall b :: 0 <= b < |w'.actors| && w'.actors[b].ReloadReady? ==> b < |w.actors| && w'.actors[b] == w.actors[b])
  }

  lemma QuietKeepsName(w: World, w': World, name: string, slot: nat)
    requires Inv(w) && Quiet(w, w') && StaysOn(w, name, slot)
    ensures StaysOn(w', name, slot)
  {
    assert GoodTable(w, w.tables[|w.tables| - 1]);
    OnStays(w, w', w.published.all, name, slot);
    forall b | 0 <= b < |w.actors| && w.actors[b].ReloadReady? ensures On(w', w.actors[b].refs, name, slot) {
      assert GoodActor(w, b);
      OnStays(w, w', w.actors[b].refs, name, slot);
    }
  }

  lemma CommitIsQuiet(w: World, w': World, step: Step, slot: nat)
    requires Inv(w) && Takes(w, w', step) && (step.CommitReloadStep? || step.CommitRerankStep?)
    ensures Quiet(w, w') && SpendMatches(w, w', slot)
  {
    assert GoodActor(w, step.a);
    if step.CommitReloadStep? {
      assert w'.published.all == w.actors[step.a].refs;
    }
  }

  lemma LockStepIsQuiet(w: World, w': World, step: Step, slot: nat)
    requires Inv(w) && Takes(w, w', step)
    requires step.LockStep? || step.UnlockStep? || step.RejectStep? || step.ReadForRerankStep?
    ensures Quiet(w, w') && SpendMatches(w, w', slot)
  {}

  lemma RequestStepIsQuiet(w: World, w': World, step: Step, slot: nat)
    requires Inv(w) && Takes(w, w', step)
    requires step.ReadStep? || step.ObserveStep? || step.BillStep? || step.ResetStep? || step.SpawnStep?
    ensures Quiet(w, w') && SpendMatches(w, w', slot)
  {}

  lemma OrdinaryIsQuiet(w: World, w': World, step: Step, slot: nat)
    requires Inv(w) && Takes(w, w', step) && !step.AssignStep?
    ensures Quiet(w, w') && SpendMatches(w, w', slot)
  {
    if step.CommitReloadStep? || step.CommitRerankStep? {
      CommitIsQuiet(w, w', step, slot);
    } else if step.LockStep? || step.UnlockStep? || step.RejectStep? || step.ReadForRerankStep? {
      LockStepIsQuiet(w, w', step, slot);
    } else {
      RequestStepIsQuiet(w, w', step, slot);
    }
  }

  lemma NextKeepsName(w: World, w': World, name: string, slot: nat)
    requires Inv(w) && Next(w, w') && StaysOn(w, name, slot) && Stays(w, name) && Stays(w', name)
    ensures StaysOn(w', name, slot) && SpendMatches(w, w', slot)
  {
    var step :| Takes(w, w', step);
    match step {
      case AssignStep(a, out, counters) => AssignKeepsName(w, w', a, out, counters, name, slot);
      case _ => OrdinaryIsQuiet(w, w', step, slot); QuietKeepsName(w, w', name, slot);
    }
  }

  /**
   A name that stays in the configuration keeps its slot through every
   interleaving of reloads, and its counter moves by exactly what was billed to
   the slot and what period resets took off it: no reload resets it, hands it to
   another node, or loses a booking.
   */
  lemma {:induction false} NameKeepsSlotAndSpend(run: seq<World>, i: nat, k: nat, name: string, slot: nat)
    requires IsRun(run) && i <= k < |run|
    requires StaysOn(run[i], name, slot)
    requires forall j :: i <= j <= k ==> Stays(run[j], name)
    ensures StaysOn(run[k], name, slot)
    ensures SpendMatches(run[i], run[k], slot)
    decreases k - i
  {
    if i < k {
      NameKeepsSlotAndSpend(run, i, k - 1, name, slot);
      NoLostReload(run, k - 1);
      assert StepAt(run, k - 1);
      NextKeepsName(run[k - 1], run[k], name, slot);
    }
  }
}
