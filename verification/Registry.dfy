/**
 Ids for method names the built-in enum does not carry: the hash-filtered
 index, and the compare-and-swap protocol that appends to it.

 The built-in table is a parameter: any map from names to ids below `COUNT`
 that is injective on the names it knows, with `UNKNOWN` for all the others.
 */
module Registry {
  import opened Wrappers

  const UNKNOWN: nat := 0
  const COUNT: nat := 117

  type Name = Bytes

  /** Two parallel arrays: entry `i` is the method with id `COUNT + i`. */
  datatype Interned = Interned(hashes: seq<bv64>, names: seq<Name>)

  ghost predicate Distinct(names: seq<Name>) {
    forall i, j :: 0 <= i < j < |names| ==> names[i] != names[j]
  }

  ghost predicate WellFormed(t: Interned, hash: Name -> bv64) {
    && |t.hashes| == |t.names|
    && Distinct(t.names)
    && forall i :: 0 <= i < |t.names| ==> t.hashes[i] == hash(t.names[i])
  }

  /** The built-in names: known ones get ids of their own in `1..COUNT`. */
  ghost predicate BuiltinTable(std: Name -> nat) {
    && (forall n :: std(n) < COUNT)
    && (forall m, n :: std(m) == std(n) != UNKNOWN ==> m == n)
  }

  // ---------------------------------------------------------------------
  // The reference meaning: a list of distinct names
  // ---------------------------------------------------------------------

  /** First position of a name in a plain list, from `from` on. */
  function Position(names: seq<Name>, name: Name, from: nat): (r: Option<nat>)
    requires from <= |names|
    ensures r.None? ==> forall i :: from <= i < |names| ==> names[i] != name
    ensures r.Some? ==> from <= r.value < |names| && names[r.value] == name
    ensures r.Some? ==> forall i :: from <= i < r.value ==> names[i] != name
    decreases |names| - from
  {
    if from == |names| then None
    else if names[from] == name then Some(from)
    else Position(names, name, from + 1)
  }

  /** Appends every name not yet carried, in order, and moves nothing. */
  function Intern(known: seq<Name>, names: seq<Name>): (r: seq<Name>)
    ensures known <= r
    ensures Distinct(known) ==> Distinct(r)
    ensures forall n :: n in r <==> n in known || n in names
    decreases |names|
  {
    if names == [] then known
    else Intern(if names[0] in known then known else known + [names[0]], names[1..])
  }

  // ---------------------------------------------------------------------
  // The hash and the index
  // ---------------------------------------------------------------------

  const MULTIPLIER: bv64 := 0x517c_c1b7_2722_0a95

  function Mix(h: bv64, byte: Byte): bv64 {
    (h.RotateLeft(5) ^ (byte as bv64)) * MULTIPLIER
  }

  function FxHash(name: Name): bv64 {
    if name == [] then 0 else Mix(FxHash(name[..|name| - 1]), name[|name| - 1])
  }

  method HashName(name: Name) returns (h: bv64)
    ensures h == FxHash(name)
  {
    h := 0;
    for i := 0 to |name|
      invariant h == FxHash(name[..i])
    {
      assert name[..i + 1][..i] == name[..i];
      h := Mix(h, name[i]);
    }
    assert name[..|name|] == name;
  }

  /** The first bytes of `eth`, hashed. */
  lemma MixOfEth()
    ensures Mix(0, 0x65) == 0x2638_6d42_706e_2cc9
    ensures Mix(0x2638_6d42_706e_2cc9, 0x74) == 0x0592_d8c1_489f_5b90
    ensures Mix(0x0592_d8c1_489f_5b90, 0x68) == 0xe663_5eba_d451_a688
  {}

  lemma HashOfEth()
    ensures FxHash([0x65, 0x74, 0x68]) == 0xe663_5eba_d451_a688
  {
    MixOfEth();
    var e, et: Name := [0x65], [0x65, 0x74];
    HashSnoc([], 0x65);
    assert [] + [0x65] == e;
    HashSnoc(e, 0x74);
    assert e + [0x74] == et;
    HashSnoc(et, 0x68);
    assert et + [0x68] == [0x65, 0x74, 0x68];
  }

  lemma HashSnoc(name: Name, byte: Byte)
    ensures FxHash(name + [byte]) == Mix(FxHash(name), byte)
  {
    assert (name + [byte])[..|name|] == name;
  }

  /** What one pass of the `rcu` closure builds from the table it was given. */
  method Extend(current: Interned, names: seq<Name>, hash: Name -> bv64) returns (next: Interned)
    requires WellFormed(current, hash)
    ensures next == Extended(current, names, hash)
    ensures WellFormed(next, hash)
  {
    next := current;
    for i := 0 to |names|
      invariant WellFormed(next, hash)
      invariant Intern(next.names, names[i..]) == Intern(current.names, names)
    {
      InternStep(next.names, names, i);
      if names[i] !in next.names {
        next := Push(next, names[i], hash);
      }
    }
    assert names[|names|..] == [];
    assert next.hashes == Extended(current, names, hash).hashes;
  }

  function Push(t: Interned, name: Name, hash: Name -> bv64): (r: Interned)
    requires WellFormed(t, hash) && name !in t.names
    ensures WellFormed(r, hash)
  {
    Interned(t.hashes + [hash(name)], t.names + [name])
  }

  lemma InternStep(known: seq<Name>, names: seq<Name>, i: nat)
    requires i < |names|
    ensures Intern(known, names[i..]) ==
            Intern(if names[i] in known then known else known + [names[i]], names[i + 1..])
  {
    assert names[i..][0] == names[i];
    assert names[i..][1..] == names[i + 1..];
  }

  function Extended(current: Interned, names: seq<Name>, hash: Name -> bv64): Interned {
    var all := Intern(current.names, names);
    Interned(seq(|all|, i requires 0 <= i < |all| => hash(all[i])), all)
  }

  /** First entry from `from` on whose hash matches and whose name confirms it. */
  function ScanIndex(t: Interned, wanted: bv64, name: Name, from: nat): Option<nat>
    requires |t.hashes| == |t.names| && from <= |t.names|
    decreases |t.names| - from
  {
    if from == |t.names| then None
    else if t.hashes[from] == wanted && t.names[from] == name then Some(from)
    else ScanIndex(t, wanted, name, from + 1)
  }

  function Lookup(t: Interned, hash: Name -> bv64, name: Name): Option<nat>
    requires |t.hashes| == |t.names|
  {
    match ScanIndex(t, hash(name), name, 0)
    case None => None
    case Some(i) => Some(COUNT + i)
  }

  function TableSize(t: Interned): nat {
    COUNT + |t.hashes|
  }

  function Resolve(std: Name -> nat, t: Interned, hash: Name -> bv64, name: Name): nat
    requires |t.hashes| == |t.names|
  {
    if std(name) == UNKNOWN then
      match Lookup(t, hash, name)
      case None => UNKNOWN
      case Some(id) => id
    else std(name)
  }

  lemma {:induction false} ScanIndexIsPosition(t: Interned, hash: Name -> bv64, name: Name, from: nat)
    requires WellFormed(t, hash) && from <= |t.names|
    ensures ScanIndex(t, hash(name), name, from) == Position(t.names, name, from)
    decreases |t.names| - from
  {
    if from < |t.names| && t.names[from] != name {
      ScanIndexIsPosition(t, hash, name, from + 1);
    }
  }

  /** Whatever the hash collides on, the index answers as the name list does. */
  lemma LookupRefinesNameList(t: Interned, hash: Name -> bv64, name: Name)
    requires WellFormed(t, hash)
    ensures Lookup(t, hash, name) ==
            match Position(t.names, name, 0) { case None => None case Some(i) => Some(COUNT + i) }
    ensures Lookup(t, hash, name).Some? <==> name in t.names
    ensures forall i :: 0 <= i < |t.names| && t.names[i] == name ==> Lookup(t, hash, name) == Some(117 + i)
  {
    ScanIndexIsPosition(t, hash, name, 0);
  }

  /** The scan over both arrays, with the wanted hash in hand. */
  method ScanTable(t: Interned, ghost hash: Name -> bv64, wanted: bv64, name: Name) returns (id: Option<nat>)
    requires WellFormed(t, hash) && wanted == hash(name)
    ensures id == match Position(t.names, name, 0) { case None => None case Some(i) => Some(COUNT + i) }
  {
    var i := 0;
    while i < |t.names|
      invariant i <= |t.names| && forall j :: 0 <= j < i ==> t.names[j] != name
    {
      if t.hashes[i] == wanted && t.names[i] == name {
        return Some(COUNT + i);
      }
      i := i + 1;
    }
    return None;
  }

  /** The lookup with the hash in use: whatever it collides on, the answer is the
      name's position in the list. */
  method FindId(t: Interned, name: Name) returns (id: Option<nat>)
    requires WellFormed(t, FxHash)
    ensures id == match Position(t.names, name, 0) { case None => None case Some(i) => Some(COUNT + i) }
    ensures id == Lookup(t, FxHash, name)
  {
    var wanted := HashName(name);
    id := ScanTable(t, FxHash, wanted, name);
    LookupRefinesNameList(t, FxHash, name);
  }

  /** Two names share an id only when neither is known at all. */
  lemma ResolveInjective(std: Name -> nat, t: Interned, hash: Name -> bv64, m: Name, n: Name)
    requires BuiltinTable(std) && WellFormed(t, hash)
    requires m != n && Resolve(std, t, hash, m) == Resolve(std, t, hash, n)
    ensures Resolve(std, t, hash, m) == UNKNOWN
    ensures std(m) == std(n) == UNKNOWN && m !in t.names && n !in t.names
  {
    LookupRefinesNameList(t, hash, m);
    LookupRefinesNameList(t, hash, n);
  }

  /** An id in hand stays the id of the same name in every later table. */
  lemma ResolveStable(std: Name -> nat, t: Interned, later: Interned, hash: Name -> bv64, name: Name)
    requires BuiltinTable(std) && WellFormed(t, hash) && WellFormed(later, hash)
    requires t.names <= later.names
    requires Resolve(std, t, hash, name) != UNKNOWN
    ensures Resolve(std, later, hash, name) == Resolve(std, t, hash, name)
  {
    LookupRefinesNameList(t, hash, name);
    LookupRefinesNameList(later, hash, name);
  }

  // ---------------------------------------------------------------------
  // Racing registrations
  // ---------------------------------------------------------------------

  /** One caller of `register`: not started, holding a loaded pointer, or done. */
  datatype Writer =
    | Waiting(names: seq<Name>)
    | Loaded(names: seq<Name>, version: nat)
    | Done(names: seq<Name>)

  /** Every table ever published, newest last, and the callers in flight.
      A position in `published` stands for the pointer that was swapped in. */
  datatype Race = Race(published: seq<Interned>, writers: seq<Writer>)

  ghost predicate Start(r: Race) {
    r.published == [Interned([], [])] && forall w :: w in r.writers ==> w.Waiting?
  }

  ghost predicate Load(r: Race, r': Race, w: nat) {
    && w < |r.writers| && r.writers[w].Waiting? && r.published != []
    && r' == r.(writers := r.writers[w := Loaded(r.writers[w].names, |r.published| - 1)])
  }

  /** Compare-and-swap: publish if nobody did since the load, else take the
      pointer that won and build again from it. */
  ghost predicate Swap(r: Race, r': Race, w: nat, hash: Name -> bv64) {
    && w < |r.writers| && r.writers[w].Loaded? && r.writers[w].version < |r.published|
    && var Loaded(names, version) := r.writers[w];
    if version == |r.published| - 1 then
      r' == Race(r.published + [Extended(r.published[version], names, hash)], r.writers[w := Done(names)])
    else
      r' == r.(writers := r.writers[w := Loaded(names, |r.published| - 1)])
  }

  ghost predicate Arrive(r: Race, r': Race, names: seq<Name>) {
    r' == r.(writers := r.writers + [Waiting(names)])
  }

  ghost predicate Next(r: Race, r': Race, hash: Name -> bv64) {
    || (exists w :: Load(r, r', w))
    || (exists w :: Swap(r, r', w, hash))
    || (exists names :: Arrive(r, r', names))
  }

  ghost predicate StepAt(run: seq<Race>, hash: Name -> bv64, i: nat)
    requires i + 1 < |run|
  {
    Next(run[i], run[i + 1], hash)
  }

  ghost predicate IsRun(run: seq<Race>, hash: Name -> bv64) {
    run != [] && Start(run[0]) && forall i :: 0 <= i < |run| - 1 ==> StepAt(run, hash, i)
  }

  ghost predicate Inv(r: Race, hash: Name -> bv64) {
    && r.published != []
    && (forall i :: 0 <= i < |r.published| ==> WellFormed(r.published[i], hash))
    && (forall i, j :: 0 <= i <= j < |r.published| ==> r.published[i].names <= r.published[j].names)
    && (forall w :: w in r.writers && w.Loaded? ==> w.version < |r.published|)
    && (forall w, n :: w in r.writers && w.Done? && n in w.names ==> n in r.published[|r.published| - 1].names)
  }

  /** A winning swap publishes a well-formed extension of everything before. */
  lemma PublishKeepsInv(r: Race, names: seq<Name>, hash: Name -> bv64, w: nat)
    requires Inv(r, hash) && w < |r.writers|
    ensures Inv(Race(r.published + [Extended(r.published[|r.published| - 1], names, hash)],
                     r.writers[w := Done(names)]), hash)
  {
    var last := r.published[|r.published| - 1];
    var next := Extended(last, names, hash);
    var published := r.published + [next];
    assert WellFormed(next, hash) && last.names <= next.names;
    forall i, j | 0 <= i <= j < |published| ensures published[i].names <= published[j].names {
      if i < j == |r.published| {
        assert r.published[i].names <= last.names;
      }
    }
  }

  /** Moving one writer without publishing keeps the invariant, as long as it
      neither claims to be done nor points past the newest table. */
  lemma MoveKeepsInv(r: Race, hash: Name -> bv64, writers: seq<Writer>)
    requires Inv(r, hash)
    requires forall w :: w in writers ==> w in r.writers || w.Waiting? || (w.Loaded? && w.version < |r.published|)
    ensures Inv(r.(writers := writers), hash)
  {}

  lemma NextKeepsInv(r: Race, r': Race, hash: Name -> bv64)
    requires Inv(r, hash) && Next(r, r', hash)
    ensures Inv(r', hash)
    ensures r.published <= r'.published
  {
    if w: nat :| Swap(r, r', w, hash) {
      if r.writers[w].version == |r.published| - 1 {
        PublishKeepsInv(r, r.writers[w].names, hash, w);
      } else {
        MoveKeepsInv(r, hash, r'.writers);
      }
    } else {
      MoveKeepsInv(r, hash, r'.writers);
    }
  }

  /** In every state of every race: no finished registration has lost a name,
      each table extends every earlier one, and published tables never change. */
  lemma {:induction false} NoNameIsLost(run: seq<Race>, hash: Name -> bv64, k: nat)
    requires IsRun(run, hash) && k < |run|
    ensures Inv(run[k], hash)
    ensures forall i :: 0 <= i <= k ==> run[i].published <= run[k].published
  {
    if k > 0 {
      NoNameIsLost(run, hash, k - 1);
      assert StepAt(run, hash, k - 1);
      NextKeepsInv(run[k - 1], run[k], hash);
    }
  }

  /** An id resolved at any moment of a race still means the same method, and
      no other method, at every later moment. */
  lemma IdKeepsItsMeaning(run: seq<Race>, hash: Name -> bv64, std: Name -> nat, i: nat, k: nat, m: Name, n: Name)
    requires IsRun(run, hash) && i <= k < |run| && BuiltinTable(std)
    ensures Inv(run[i], hash) && Inv(run[k], hash)
    ensures var before := run[i].published[|run[i].published| - 1];
            var after := run[k].published[|run[k].published| - 1];
            Resolve(std, before, hash, m) != UNKNOWN
            ==> (Resolve(std, after, hash, n) == Resolve(std, before, hash, m) <==> m == n)
  {
    NoNameIsLost(run, hash, i);
    NoNameIsLost(run, hash, k);
    var before := run[i].published[|run[i].published| - 1];
    var after := run[k].published[|run[k].published| - 1];
    assert before == run[k].published[|run[i].published| - 1];
    if Resolve(std, before, hash, m) != UNKNOWN {
      ResolveStable(std, before, after, hash, m);
      if m != n && Resolve(std, after, hash, n) == Resolve(std, after, hash, m) {
        ResolveInjective(std, after, hash, m, n);
      }
    }
  }
}
