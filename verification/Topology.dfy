/**
 The node set the router walks: the quota slot every node keeps across reloads,
 and the order the nodes are ranked in.
 */
module Topology {
  import opened Wrappers
  import opened SlotMask

  datatype Node = Node(name: string, id: nat, tier: nat, resetDay: nat, emaUs: nat, untilS: nat)

  ghost predicate DistinctNames(nodes: seq<Node>) {
    forall i, j :: 0 <= i < j < |nodes| ==> nodes[i].name != nodes[j].name
  }

  ghost predicate DistinctIds(nodes: seq<Node>) {
    && (forall i :: 0 <= i < |nodes| ==> nodes[i].id < MAX_NODES)
    && (forall i, j :: 0 <= i < j < |nodes| ==> nodes[i].id != nodes[j].id)
  }

  ghost predicate Listed(nodes: seq<Node>, name: string) {
    exists i :: 0 <= i < |nodes| && nodes[i].name == name
  }

  /** A node set that has its slots: no shared name, no shared slot. */
  ghost predicate Slotted(nodes: seq<Node>) {
    DistinctNames(nodes) && DistinctIds(nodes)
  }

  /** The set an operator may configure. */
  ghost predicate Acceptable(nodes: seq<Node>) {
    |nodes| <= MAX_NODES && DistinctNames(nodes)
  }

  // ---------------------------------------------------------------------
  // What assigning slots means
  // ---------------------------------------------------------------------

  /** A surviving node keeps its slot, its latency average and its penalty. */
  function Survive(node: Node, earlier: Node): Node {
    node.(id := earlier.id, emaUs := earlier.emaUs, untilS := earlier.untilS)
  }

  ghost predicate SurvivorsKept(prev: seq<Node>, incoming: seq<Node>, out: seq<Node>) {
    && |out| == |incoming|
    && forall i, j ::
         0 <= i < |incoming| && 0 <= j < |prev| && incoming[i].name == prev[j].name ==>
             out[i] == Survive(incoming[i], prev[j])
  }

  ghost predicate ArrivalsOnlyPlaced(prev: seq<Node>, incoming: seq<Node>, out: seq<Node>) {
    && |out| == |incoming|
    && forall i :: 0 <= i < |incoming| && !Listed(prev, incoming[i].name) ==> out[i] == incoming[i].(id := out[i].id)
  }

  /** The slot went to a node the previous set did not have. */
  ghost predicate GivenToArrival(prev: seq<Node>, out: seq<Node>, slot: nat) {
    exists i :: 0 <= i < |out| && out[i].id == slot && !Listed(prev, out[i].name)
  }

  ghost predicate CountersMoved(prev: seq<Node>, out: seq<Node>, usage: seq<nat>, usage': seq<nat>) {
    && |usage| == |usage'| == MAX_NODES
    && forall s :: 0 <= s < MAX_NODES ==> usage'[s] == if GivenToArrival(prev, out, s) then 0 else usage[s]
  }

  /** The slot is a survivor's, or went to an arrival written earlier. */
  ghost predicate HeldBefore(prev: seq<Node>, out: seq<Node>, i: nat, slot: nat) {
    exists j :: 0 <= j < |out| && out[j].id == slot && (Listed(prev, out[j].name) || j < i)
  }

  /** Arrivals take the lowest free slots, in the order they are written. */
  ghost predicate LowestSlots(prev: seq<Node>, out: seq<Node>) {
    forall i, s :: 0 <= i < |out| && 0 <= s < out[i].id && !Listed(prev, out[i].name) ==> HeldBefore(prev, out, i, s)
  }

  ghost predicate Assigned(prev: seq<Node>, incoming: seq<Node>, usage: seq<nat>, out: seq<Node>, usage': seq<nat>) {
    && Slotted(out)
    && SurvivorsKept(prev, incoming, out)
    && ArrivalsOnlyPlaced(prev, incoming, out)
    && CountersMoved(prev, out, usage, usage')
    && LowestSlots(prev, out)
  }

  /** Assigning slots moves neither a survivor's slot nor its counter. */
  lemma SurvivorUntouched(prev: seq<Node>, incoming: seq<Node>, usage: seq<nat>, out: seq<Node>, usage': seq<nat>,
                          j: nat, i: nat)
    requires Slotted(prev) && Assigned(prev, incoming, usage, out, usage')
    requires j < |prev| && i < |out| && out[i].name == prev[j].name
    ensures out[i].id == prev[j].id && out[i].emaUs == prev[j].emaUs && out[i].untilS == prev[j].untilS
    ensures usage'[prev[j].id] == usage[prev[j].id]
  {}

  /** What a reload makes of a node: its name, tier and reset day are the ones just
      configured; a survivor's slot, average and deadline are the ones it had; an
      arrival's average and deadline are the ones it came with. */
  lemma ConfiguredAsWritten(prev: seq<Node>, incoming: seq<Node>, usage: seq<nat>, out: seq<Node>, usage': seq<nat>,
                            i: nat)
    requires Slotted(prev) && Assigned(prev, incoming, usage, out, usage') && i < |incoming|
    ensures i < |out|
    ensures out[i].name == incoming[i].name && out[i].tier == incoming[i].tier
    ensures out[i].resetDay == incoming[i].resetDay
    ensures forall j :: 0 <= j < |prev| && prev[j].name == incoming[i].name ==>
              out[i].id == prev[j].id && out[i].emaUs == prev[j].emaUs && out[i].untilS == prev[j].untilS
    ensures !Listed(prev, incoming[i].name) ==>
              out[i].id < MAX_NODES && out[i].emaUs == incoming[i].emaUs && out[i].untilS == incoming[i].untilS
  {
    if j :| 0 <= j < |prev| && prev[j].name == incoming[i].name {
      assert out[i] == Survive(incoming[i], prev[j]);
    } else {
      assert out[i] == incoming[i].(id := out[i].id);
    }
  }

  /** An arriving node starts on a zeroed counter. */
  lemma ArrivalStartsAtZero(prev: seq<Node>, incoming: seq<Node>, usage: seq<nat>, out: seq<Node>, usage': seq<nat>,
                            i: nat)
    requires Assigned(prev, incoming, usage, out, usage') && i < |out| && !Listed(prev, out[i].name)
    ensures out[i].id < MAX_NODES && usage'[out[i].id] == 0
  {
    assert GivenToArrival(prev, out, out[i].id);
  }

  lemma {:induction false} SameSlot(prev: seq<Node>, incoming: seq<Node>, a: seq<Node>, b: seq<Node>, i: nat)
    requires Slotted(a) && SurvivorsKept(prev, incoming, a) && ArrivalsOnlyPlaced(prev, incoming, a)
             && LowestSlots(prev, a)
    requires Slotted(b) && SurvivorsKept(prev, incoming, b) && ArrivalsOnlyPlaced(prev, incoming, b)
             && LowestSlots(prev, b)
    requires i < |incoming|
    ensures a[i] == b[i]
    decreases if Listed(prev, incoming[i].name) then 0 else 1, i, 1
  {
    if Listed(prev, incoming[i].name) {
      var j :| 0 <= j < |prev| && prev[j].name == incoming[i].name;
      assert a[i] == Survive(incoming[i], prev[j]) && b[i] == Survive(incoming[i], prev[j]);
    } else {
      NotLower(prev, incoming, a, b, i);
      NotLower(prev, incoming, b, a, i);
    }
  }

  lemma {:induction false} NotLower(prev: seq<Node>, incoming: seq<Node>, a: seq<Node>, b: seq<Node>, i: nat)
    requires Slotted(a) && SurvivorsKept(prev, incoming, a) && ArrivalsOnlyPlaced(prev, incoming, a)
             && LowestSlots(prev, a)
    requires Slotted(b) && SurvivorsKept(prev, incoming, b) && ArrivalsOnlyPlaced(prev, incoming, b)
             && LowestSlots(prev, b)
    requires i < |incoming| && !Listed(prev, incoming[i].name)
    ensures b[i].id <= a[i].id
    decreases 1, i, 0
  {
    if a[i].id < b[i].id {
      assert HeldBefore(prev, b, i, a[i].id);
      var j :| 0 <= j < |b| && b[j].id == a[i].id && (Listed(prev, b[j].name) || j < i);
      SameSlot(prev, incoming, a, b, j);
    }
  }

  /** The rules leave the allocator no choice: they fix every slot and counter. */
  lemma AssignedIsUnique(prev: seq<Node>, incoming: seq<Node>, usage: seq<nat>,
                         a: seq<Node>, usageA: seq<nat>, b: seq<Node>, usageB: seq<nat>)
    requires Assigned(prev, incoming, usage, a, usageA) && Assigned(prev, incoming, usage, b, usageB)
    ensures a == b && usageA == usageB
  {
    forall i | 0 <= i < |incoming| ensures a[i] == b[i] {
      SameSlot(prev, incoming, a, b, i);
    }
  }

  datatype AssignError = TooManyNodes | DuplicateName(name: string) | OutOfSlots

  // ---------------------------------------------------------------------
  // The allocator
  // ---------------------------------------------------------------------

  method FindDuplicate(nodes: array<Node>) returns (dup: Option<string>)
    ensures dup.None? <==> DistinctNames(nodes[..])
    ensures dup.Some? ==> exists i, j :: 0 <= i < j < nodes.Length && nodes[i].name == nodes[j].name == dup.value
  {
    var seen: set<string> := {};
    for i := 0 to nodes.Length
      invariant forall n :: n in seen <==> exists j :: 0 <= j < i && nodes[j].name == n
      invariant DistinctNames(nodes[..i])
    {
      if nodes[i].name in seen {
        var j :| 0 <= j < i && nodes[j].name == nodes[i].name;
        assert nodes[..][j].name == nodes[..][i].name;
        return Some(nodes[i].name);
      }
      seen := seen + {nodes[i].name};
    }
    assert nodes[..nodes.Length] == nodes[..];
    return None;
  }

  /** Position of the previous node of that name. */
  function Find(prev: seq<Node>, name: string): (r: Option<nat>)
    ensures r.None? <==> !Listed(prev, name)
    ensures r.Some? ==> r.value < |prev| && prev[r.value].name == name
  {
    if prev == [] then None
    else
      var n := |prev| - 1;
      if prev[n].name == name then Some(n)
      else
        var r := Find(prev[..n], name);
        assert Listed(prev, name) <==> Listed(prev[..n], name) by {
          if i :| 0 <= i < |prev| && prev[i].name == name {
            assert prev[..n][i].name == name;
          }
        }
        r
  }

  /** A node after the first loop: a survivor has its slot, an arrival does not. */
  function Kept(prev: seq<Node>, node: Node): Node {
    match Find(prev, node.name)
    case None => node
    case Some(j) => Survive(node, prev[j])
  }

  /** Slots the survivors among the first `n` nodes hold on to. */
  ghost function TakenBy(prev: seq<Node>, nodes: seq<Node>, n: nat): set<nat>
    requires n <= |nodes|
  {
    if n == 0 then {}
    else if Listed(prev, nodes[n - 1].name) then TakenBy(prev, nodes, n - 1) + {Kept(prev, nodes[n - 1]).id}
    else TakenBy(prev, nodes, n - 1)
  }

  /** Positions of the arrivals among the first `n` nodes, in config order. */
  ghost function ArrivedIn(prev: seq<Node>, nodes: seq<Node>, n: nat): seq<nat>
    requires n <= |nodes|
  {
    if n == 0 then []
    else if Listed(prev, nodes[n - 1].name) then ArrivedIn(prev, nodes, n - 1)
    else ArrivedIn(prev, nodes, n - 1) + [n - 1]
  }

  /** First loop: survivors take their old slot; the others are collected. */
  method KeepSlots(prev: seq<Node>, nodes: array<Node>, taken: array<bool>) returns (arrived: seq<nat>)
    requires DistinctIds(prev) && taken.Length == MAX_NODES
    requires forall s :: 0 <= s < MAX_NODES ==> !taken[s]
    modifies nodes, taken
    ensures forall i :: 0 <= i < nodes.Length ==> nodes[i] == Kept(prev, old(nodes[i]))
    ensures arrived == ArrivedIn(prev, old(nodes[..]), nodes.Length)
    ensures forall s :: 0 <= s < MAX_NODES ==> (taken[s] <==> s in TakenBy(prev, old(nodes[..]), nodes.Length))
  {
    arrived := [];
    ghost var was := nodes[..];
    for i := 0 to nodes.Length
      invariant forall k :: 0 <= k < nodes.Length ==> nodes[k] == if k < i then Kept(prev, was[k]) else was[k]
      invariant arrived == ArrivedIn(prev, was, i)
      invariant forall s :: 0 <= s < MAX_NODES ==> (taken[s] <==> s in TakenBy(prev, was, i))
    {
      match Find(prev, nodes[i].name) {
        case Some(j) =>
          taken[prev[j].id] := true;
          nodes[i] := Survive(nodes[i], prev[j]);
        case None =>
          arrived := arrived + [i];
      }
    }
  }

  method NextFree(taken: array<bool>, from: nat) returns (id: Option<nat>)
    requires from <= taken.Length
    ensures id.Some? ==> from <= id.value < taken.Length && !taken[id.value]
    ensures forall s :: from <= s < (if id.Some? then id.value else taken.Length) ==> taken[s]
  {
    var s := from;
    while s < taken.Length && taken[s]
      invariant from <= s <= taken.Length
      invariant forall q :: from <= q < s ==> taken[q]
    {
      s := s + 1;
    }
    id := if s < taken.Length then Some(s) else None;
  }

  ghost predicate Increasing(s: seq<nat>) {
    forall k, l :: 0 <= k < l < |s| ==> s[k] < s[l]
  }

  ghost function ToSet(s: seq<nat>): (r: set<nat>)
    ensures |r| <= |s|
    ensures forall x :: x in r <==> x in s
  {
    if s == [] then {} else ToSet(s[..|s| - 1]) + {s[|s| - 1]}
  }

  /** The slots handed to arrivals so far: ascending, none held by a survivor,
      and no free slot below `next` passed over. */
  ghost predicate LowestFree(ids: seq<nat>, held: set<nat>, next: nat) {
    && next <= MAX_NODES
    && Increasing(ids)
    && (forall j :: 0 <= j < |ids| ==> ids[j] < next && ids[j] !in held)
    && (forall s :: 0 <= s < next ==> s in held || s in ids)
    && (forall j, s :: 0 <= j < |ids| && 0 <= s < ids[j] ==> s in held || s in ids[..j])
  }

  lemma LowestFreeStep(ids: seq<nat>, held: set<nat>, next: nat, id: nat)
    requires LowestFree(ids, held, next) && next <= id < MAX_NODES && id !in held
    requires forall s :: next <= s < id ==> s in held
    ensures LowestFree(ids + [id], held, id + 1)
  {
    var ids' := ids + [id];
    forall j, s | 0 <= j < |ids'| && 0 <= s < ids'[j] ensures s in held || s in ids'[..j] {
      if j < |ids| {
        assert ids'[..j] == ids[..j];
      } else {
        assert ids'[..j] == ids;
      }
    }
    forall s | 0 <= s < id + 1 ensures s in held || s in ids' {
      assert ids'[|ids|] == id;
    }
  }

  /** Fewer holders than slots leave a slot nobody holds further on. */
  lemma SlotsCannotRunOut(ids: seq<nat>, held: set<nat>, next: nat)
    requires LowestFree(ids, held, next) && |held| + |ids| < MAX_NODES
    ensures exists s :: next <= s < MAX_NODES && s !in held
  {
    if forall s :: next <= s < MAX_NODES ==> s in held {
      var all: set<nat> := set s | s in AllSlots(MAX_NODES) :: s;
      assert all == AllSlots(MAX_NODES);
      SubsetIsSmaller(all, held + ToSet(ids));
    }
  }

  /** The first `|ids|` arrivals have their slots, and nobody else has changed. */
  ghost predicate Given(was: seq<Node>, now: seq<Node>, arrived: seq<nat>, ids: seq<nat>) {
    && |now| == |was| && |ids| <= |arrived|
    && (forall k :: 0 <= k < |ids| && arrived[k] < |was| ==> now[arrived[k]] == was[arrived[k]].(id := ids[k]))
    && (forall i :: 0 <= i < |was| && i !in arrived[..|ids|] ==> now[i] == was[i])
  }

  lemma GiveOne(was: seq<Node>, now: seq<Node>, arrived: seq<nat>, ids: seq<nat>, id: nat)
    requires Given(was, now, arrived, ids) && Increasing(arrived) && |ids| < |arrived| && arrived[|ids|] < |was|
    ensures Given(was, now[arrived[|ids|] := now[arrived[|ids|]].(id := id)], arrived, ids + [id])
  {
    var k := |ids|;
    assert arrived[..k + 1] == arrived[..k] + [arrived[k]];
    assert arrived[k] !in arrived[..k];
  }

  /** The slots handed out read zero, the others what they did. */
  ghost predicate Zeroed(before: seq<nat>, now: seq<nat>, ids: seq<nat>) {
    |now| == |before| && forall s :: 0 <= s < |before| ==> now[s] == if s in ids then 0 else before[s]
  }

  /** Second loop: each arrival takes the lowest slot nobody holds, and the
      slot's counter is zeroed. `dry` is the loop's own error exit. */
  method GiveSlots(nodes: array<Node>, usage: array<nat>, taken: array<bool>, arrived: seq<nat>, ghost held: set<nat>)
    returns (ids: seq<nat>, dry: bool)
    requires taken.Length == usage.Length == MAX_NODES
    requires forall s :: 0 <= s < MAX_NODES ==> (taken[s] <==> s in held)
    requires Increasing(arrived) && forall k :: 0 <= k < |arrived| ==> arrived[k] < nodes.Length
    requires |held| + |arrived| <= MAX_NODES
    modifies nodes, usage
    ensures !dry
    ensures |ids| == |arrived| && exists next :: LowestFree(ids, held, next)
    ensures Given(old(nodes[..]), nodes[..], arrived, ids)
    ensures Zeroed(old(usage[..]), usage[..], ids)
  {
    ids, dry := [], false;
    ghost var was, before := nodes[..], usage[..];
    var next: nat := 0;
    while |ids| < |arrived| && !dry
      decreases |arrived| - |ids|, !dry
      invariant |ids| <= |arrived| && !dry
      invariant LowestFree(ids, held, next)
      invariant Given(was, nodes[..], arrived, ids)
      invariant Zeroed(before, usage[..], ids)
    {
      var found := NextFree(taken, next);
      SlotsCannotRunOut(ids, held, next);
      if found.None? {
        dry := true;
      } else {
        LowestFreeStep(ids, held, next, found.value);
        GiveOne(was, nodes[..], arrived, ids, found.value);
        var position := arrived[|ids|];
        nodes[position] := nodes[position].(id := found.value);
        usage[found.value] := 0;
        ids := ids + [found.value];
        next := found.value + 1;
      }
    }
  }

  lemma {:induction false} ArrivedFacts(prev: seq<Node>, nodes: seq<Node>, n: nat)
    requires n <= |nodes|
    ensures var arrived := ArrivedIn(prev, nodes, n);
            && Increasing(arrived)
            && (forall k :: 0 <= k < |arrived| ==> arrived[k] < n)
            && (forall i :: 0 <= i < n ==> (i in arrived <==> !Listed(prev, nodes[i].name)))
  {
    if n > 0 {
      ArrivedFacts(prev, nodes, n - 1);
    }
  }

  lemma {:induction false} TakenFacts(prev: seq<Node>, nodes: seq<Node>, n: nat)
    requires n <= |nodes|
    ensures |TakenBy(prev, nodes, n)| + |ArrivedIn(prev, nodes, n)| <= n
    ensures forall i :: 0 <= i < n && Listed(prev, nodes[i].name) ==> Kept(prev, nodes[i]).id in TakenBy(prev, nodes, n)
  {
    if n > 0 {
      TakenFacts(prev, nodes, n - 1);
    }
  }

  /** The node set the two loops leave behind. */
  ghost predicate Placed(prev: seq<Node>, was: seq<Node>, out: seq<Node>, arrived: seq<nat>, ids: seq<nat>) {
    && |out| == |was| && |ids| == |arrived|
    && arrived == ArrivedIn(prev, was, |was|)
    && (exists next :: LowestFree(ids, TakenBy(prev, was, |was|), next))
    && (forall k :: 0 <= k < |arrived| && arrived[k] < |was| ==> out[arrived[k]] == was[arrived[k]].(id := ids[k]))
    && (forall i :: 0 <= i < |was| && i !in arrived ==> out[i] == Kept(prev, was[i]))
  }

  /** Two nodes never end up on one slot. */
  lemma PlacedApart(prev: seq<Node>, was: seq<Node>, out: seq<Node>, arrived: seq<nat>, ids: seq<nat>, i: nat, j: nat)
    requires Slotted(prev) && DistinctNames(was) && Placed(prev, was, out, arrived, ids)
    requires i < |was| && j < |was| && i != j && j in arrived
    ensures out[i].id != out[j].id && out[j].id < MAX_NODES
  {
    var l := ArrivalsSlot(prev, was, out, arrived, ids, j);
    if i in arrived {
      var k := ArrivalsSlot(prev, was, out, arrived, ids, i);
      assert ids[k] != ids[l];
    } else {
      ArrivedFacts(prev, was, |was|);
      TakenFacts(prev, was, |was|);
    }
  }

  /** The slot an arrival was given is one no survivor holds. */
  lemma ArrivalsSlot(prev: seq<Node>, was: seq<Node>, out: seq<Node>, arrived: seq<nat>, ids: seq<nat>, j: nat)
    returns (l: nat)
    requires Placed(prev, was, out, arrived, ids) && j < |was| && j in arrived
    ensures l < |arrived| && arrived[l] == j && out[j].id == ids[l] < MAX_NODES && ids[l] !in TakenBy(prev, was, |was|)
  {
    l :| 0 <= l < |arrived| && arrived[l] == j;
  }

  lemma SurvivorsApart(prev: seq<Node>, was: seq<Node>, i: nat, j: nat)
    requires Slotted(prev) && DistinctNames(was) && i < j < |was|
    requires Listed(prev, was[i].name) && Listed(prev, was[j].name)
    ensures Kept(prev, was[i]).id != Kept(prev, was[j]).id
  {
    assert was[i].name != was[j].name;
  }

  lemma PlacedNode(prev: seq<Node>, was: seq<Node>, out: seq<Node>, arrived: seq<nat>, ids: seq<nat>, i: nat)
    requires Slotted(prev) && Placed(prev, was, out, arrived, ids) && i < |was|
    ensures out[i].name == was[i].name && out[i].id < MAX_NODES
  {
    ArrivedFacts(prev, was, |was|);
    if i in arrived {
      var k :| 0 <= k < |arrived| && arrived[k] == i;
      assert ids[k] < MAX_NODES;
    }
  }

  lemma PlacedIsSlotted(prev: seq<Node>, was: seq<Node>, out: seq<Node>, arrived: seq<nat>, ids: seq<nat>)
    requires Slotted(prev) && DistinctNames(was) && Placed(prev, was, out, arrived, ids)
    ensures Slotted(out)
  {
    forall i | 0 <= i < |out| ensures out[i].name == was[i].name && out[i].id < MAX_NODES {
      PlacedNode(prev, was, out, arrived, ids, i);
    }
    forall i, j | 0 <= i < j < |out| ensures out[i].id != out[j].id {
      if j in arrived {
        PlacedApart(prev, was, out, arrived, ids, i, j);
      } else if i in arrived {
        PlacedApart(prev, was, out, arrived, ids, j, i);
      } else {
        ArrivedFacts(prev, was, |was|);
        SurvivorsApart(prev, was, i, j);
      }
    }
  }

  lemma PlacedCounters(prev: seq<Node>, was: seq<Node>, out: seq<Node>, arrived: seq<nat>, ids: seq<nat>, s: nat)
    requires Placed(prev, was, out, arrived, ids)
    ensures s in ids <==> GivenToArrival(prev, out, s)
  {
    ArrivedFacts(prev, was, |was|);
    if s in ids {
      var k :| 0 <= k < |ids| && ids[k] == s;
      assert arrived[k] in arrived;
      assert out[arrived[k]].id == s && !Listed(prev, out[arrived[k]].name);
    }
    if i :| 0 <= i < |out| && out[i].id == s && !Listed(prev, out[i].name) {
      assert out[i].name == was[i].name;
      var k :| 0 <= k < |arrived| && arrived[k] == i;
      assert ids[k] == s;
    }
  }

  lemma {:induction false} TakenHas(prev: seq<Node>, nodes: seq<Node>, n: nat, s: nat) returns (i: nat)
    requires n <= |nodes| && s in TakenBy(prev, nodes, n)
    ensures i < n && Listed(prev, nodes[i].name) && Kept(prev, nodes[i]).id == s
  {
    if Listed(prev, nodes[n - 1].name) && Kept(prev, nodes[n - 1]).id == s {
      i := n - 1;
    } else {
      i := TakenHas(prev, nodes, n - 1, s);
    }
  }

  lemma PlacedLowest(prev: seq<Node>, was: seq<Node>, out: seq<Node>, arrived: seq<nat>, ids: seq<nat>, i: nat, s: nat)
    requires Placed(prev, was, out, arrived, ids) && i < |out| && s < out[i].id && !Listed(prev, out[i].name)
    ensures HeldBefore(prev, out, i, s)
  {
    ArrivedFacts(prev, was, |was|);
    assert out[i].name == was[i].name;
    var k :| 0 <= k < |arrived| && arrived[k] == i;
    assert out[arrived[k]].id == ids[k];
    if s in TakenBy(prev, was, |was|) {
      var j := TakenHas(prev, was, |was|, s);
      assert out[j] == Kept(prev, was[j]);
    } else {
      var l :| 0 <= l < k && ids[..k][l] == s;
      assert out[arrived[l]].id == s && arrived[l] < i;
    }
  }

  lemma PlacedIsAssigned(prev: seq<Node>, was: seq<Node>, out: seq<Node>, arrived: seq<nat>, ids: seq<nat>,
                         usage: seq<nat>, usage': seq<nat>)
    requires Slotted(prev) && DistinctNames(was) && Placed(prev, was, out, arrived, ids)
    requires |usage| == |usage'| == MAX_NODES
    requires forall s :: 0 <= s < MAX_NODES ==> usage'[s] == if s in ids then 0 else usage[s]
    ensures Assigned(prev, was, usage, out, usage')
  {
    ArrivedFacts(prev, was, |was|);
    PlacedIsSlotted(prev, was, out, arrived, ids);
    forall s | 0 <= s < MAX_NODES ensures s in ids <==> GivenToArrival(prev, out, s) {
      PlacedCounters(prev, was, out, arrived, ids, s);
    }
    forall i, s | 0 <= i < |out| && 0 <= s < out[i].id && !Listed(prev, out[i].name)
      ensures HeldBefore(prev, out, i, s)
    {
      PlacedLowest(prev, was, out, arrived, ids, i, s);
    }
    forall i | 0 <= i < |was| && !Listed(prev, was[i].name) ensures out[i] == was[i].(id := out[i].id) {
      var k :| 0 <= k < |arrived| && arrived[k] == i;
    }
    forall i, j | 0 <= i < |was| && 0 <= j < |prev| && was[i].name == prev[j].name
      ensures out[i] == Survive(was[i], prev[j])
    {
      assert Listed(prev, was[i].name);
      assert Find(prev, was[i].name) == Some(j);
    }
  }

  /**
   Hands every node the quota slot it has to keep using. A set that is too
   large or names a node twice is rejected before anything is written; every
   other set is accepted, because slots cannot run out.
   */
  method AssignIds(prev: seq<Node>, nodes: array<Node>, usage: array<nat>) returns (r: Result<(), AssignError>)
    requires Slotted(prev) && usage.Length == MAX_NODES
    modifies nodes, usage
    ensures r.Ok? <==> Acceptable(old(nodes[..]))
    ensures r.Ok? ==> Assigned(prev, old(nodes[..]), old(usage[..]), nodes[..], usage[..])
    ensures r.Err? ==> nodes[..] == old(nodes[..]) && usage[..] == old(usage[..])
    ensures r.Err? ==> r.error != OutOfSlots && (r.error.TooManyNodes? <==> nodes.Length > MAX_NODES)
    ensures r.Err? && r.error.DuplicateName? ==>
              exists i, j :: 0 <= i < j < nodes.Length && nodes[i].name == nodes[j].name == r.error.name
  {
    if nodes.Length > MAX_NODES {
      return Err(TooManyNodes);
    }
    var dup := FindDuplicate(nodes);
    if dup.Some? {
      return Err(DuplicateName(dup.value));
    }
    ghost var was, before := nodes[..], usage[..];
    var taken := new bool[MAX_NODES](i => false);
    var arrived := KeepSlots(prev, nodes, taken);
    ghost var held := TakenBy(prev, was, |was|);
    ArrivedFacts(prev, was, |was|);
    TakenFacts(prev, was, |was|);
    assert usage[..] == before;
    var ids, dry := GiveSlots(nodes, usage, taken, arrived, held);
    if dry {
      return Err(OutOfSlots);
    }
    assert arrived[..|ids|] == arrived;
    assert Placed(prev, was, nodes[..], arrived, ids);
    PlacedIsAssigned(prev, was, nodes[..], arrived, ids, before, usage[..]);
    r := Ok(());
  }
}
