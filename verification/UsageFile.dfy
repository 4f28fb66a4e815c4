/**
 Writing the usage file: a temp file of its own for every write, synced, then
 renamed over the target, then the directory synced. Any number of writers run
 at once; any step may fail; the machine may crash between any two steps.

 A crash keeps the contents of files that were synced and may leave anything in
 the others. It keeps the last synced directory entry of the target, or any
 entry the target has had since.
 */
module UsageFile {
  import opened Wrappers

  datatype Inode = Inode(data: Bytes, synced: bool)

  datatype Phase =
    | Waiting
    | Writing(ino: nat, n: nat)   // created; the first `n` bytes are written
    | Synced(ino: nat)
    | Renamed
    | Done
    | Failing                     // some step returned an error
    | Failed                      // cleaned up after
    | Leaked                      // the cleanup failed too, and its error was dropped

  datatype Writer = Writer(temp: string, data: Bytes, phase: Phase)

  /** `target` is the entry of the usage file. `survivors` are the entries a
      crash may leave in its place. `whole` are the contents it may ever have:
      what it held at first, and the complete bytes of every write begun. */
  datatype Disk = Disk(inodes: seq<Inode>, temps: map<string, nat>, target: Option<nat>,
                       survivors: set<Option<nat>>, writers: seq<Writer>, whole: set<Option<Bytes>>)

  // ---------------------------------------------------------------------
  // Steps
  // ---------------------------------------------------------------------

  function Move(d: Disk, w: nat, phase: Phase): Disk
    requires w < |d.writers|
  {
    d.(writers := d.writers[w := d.writers[w].(phase := phase)])
  }

  /** A write begins, under a name no other write of this process has used. */
  ghost predicate Begin(d: Disk, d': Disk, temp: string, data: Bytes) {
    && (forall w :: 0 <= w < |d.writers| ==> d.writers[w].temp != temp)
    && d' == d.(writers := d.writers + [Writer(temp, data, Waiting)], whole := d.whole + {Some(data)})
  }

  /** Creating the temp file; a leftover of the same name is truncated. */
  ghost predicate Create(d: Disk, d': Disk, w: nat) {
    && w < |d.writers| && d.writers[w].phase.Waiting?
    && var temp := d.writers[w].temp;
    if temp in d.temps && d.temps[temp] < |d.inodes| then
      d' == Move(d, w, Writing(d.temps[temp], 0)).(inodes := d.inodes[d.temps[temp] := Inode([], false)])
    else
      d' == Move(d, w, Writing(|d.inodes|, 0)).(inodes := d.inodes + [Inode([], false)],
                                                temps := d.temps[temp := |d.inodes|])
  }

  ghost predicate Write(d: Disk, d': Disk, w: nat, m: nat) {
    && w < |d.writers| && d.writers[w].phase.Writing?
    && var Writing(ino, n) := d.writers[w].phase;
    && ino < |d.inodes| && n <= m <= |d.writers[w].data|
    && d' == Move(d, w, Writing(ino, m)).(inodes := d.inodes[ino := Inode(d.writers[w].data[..m], false)])
  }

  ghost predicate SyncFile(d: Disk, d': Disk, w: nat) {
    && w < |d.writers| && d.writers[w].phase.Writing?
    && var Writing(ino, n) := d.writers[w].phase;
    && ino < |d.inodes| && n == |d.writers[w].data|
    && d' == Move(d, w, Synced(ino)).(inodes := d.inodes[ino := d.inodes[ino].(synced := true)])
  }

  ghost predicate Rename(d: Disk, d': Disk, w: nat) {
    && w < |d.writers| && d.writers[w].phase.Synced?
    && var ino := d.writers[w].phase.ino;
    d' == Move(d, w, Renamed).(temps := d.temps - {d.writers[w].temp}, target := Some(ino),
                               survivors := d.survivors + {Some(ino)})
  }

  ghost predicate SyncDirectory(d: Disk, d': Disk, w: nat) {
    && w < |d.writers| && d.writers[w].phase.Renamed?
    && d' == Move(d, w, Done).(survivors := {d.target})
  }

  /** Any step may return an error instead. */
  ghost predicate Fail(d: Disk, d': Disk, w: nat) {
    && w < |d.writers| && !d.writers[w].phase.Done? && !d.writers[w].phase.Failed? && !d.writers[w].phase.Leaked?
    && d' == Move(d, w, Failing)
  }

  /** The cleanup in the caller, which covers every point of failure. */
  ghost predicate CleanUp(d: Disk, d': Disk, w: nat) {
    && w < |d.writers| && d.writers[w].phase.Failing?
    && d' == Move(d, w, Failed).(temps := d.temps - {d.writers[w].temp})
  }

  ghost predicate Leak(d: Disk, d': Disk, w: nat) {
    && w < |d.writers| && d.writers[w].phase.Failing?
    && d' == Move(d, w, Leaked)
  }

  /** Everything in flight is gone; temp files that survive are not the target. */
  ghost predicate Crash(d: Disk, d': Disk) {
    && d'.writers == [] && d'.whole == d.whole
    && d'.target in d.survivors && d'.survivors == {d'.target}
    && |d'.inodes| == |d.inodes|
    && (forall i :: 0 <= i < |d.inodes| && d.inodes[i].synced ==> d'.inodes[i] == d.inodes[i])
    && (forall name :: name in d'.temps ==> d'.temps[name] < |d'.inodes| && Some(d'.temps[name]) != d'.target)
    && (forall m, n :: m in d'.temps && n in d'.temps && d'.temps[m] == d'.temps[n] ==> m == n)
  }

  datatype Step =
    | BeginStep(temp: string, data: Bytes)
    | CreateStep(w: nat)
    | WriteStep(w: nat, m: nat)
    | SyncFileStep(w: nat)
    | RenameStep(w: nat)
    | SyncDirectoryStep(w: nat)
    | FailStep(w: nat)
    | CleanUpStep(w: nat)
    | LeakStep(w: nat)
    | CrashStep

  ghost predicate Takes(d: Disk, d': Disk, step: Step) {
    match step
    case BeginStep(temp, data) => Begin(d, d', temp, data)
    case CreateStep(w) => Create(d, d', w)
    case WriteStep(w, m) => Write(d, d', w, m)
    case SyncFileStep(w) => SyncFile(d, d', w)
    case RenameStep(w) => Rename(d, d', w)
    case SyncDirectoryStep(w) => SyncDirectory(d, d', w)
    case FailStep(w) => Fail(d, d', w)
    case CleanUpStep(w) => CleanUp(d, d', w)
    case LeakStep(w) => Leak(d, d', w)
    case CrashStep => Crash(d, d')
  }

  ghost predicate Next(d: Disk, d': Disk) {
    exists step :: Takes(d, d', step)
  }

  ghost predicate StepAt(run: seq<Disk>, i: nat)
    requires i + 1 < |run|
  {
    Next(run[i], run[i + 1])
  }

  /** Nobody is writing; the file, if there is one, is safely on disk. */
  ghost predicate Start(d: Disk) {
    && d.writers == [] && d.temps == map[] && d.survivors == {d.target} && d.whole == {Content(d, d.target)}
    && (d.target.Some? ==> d.target.value < |d.inodes| && d.inodes[d.target.value].synced)
  }

  ghost predicate IsRun(run: seq<Disk>) {
    run != [] && Start(run[0]) && forall i :: 0 <= i < |run| - 1 ==> StepAt(run, i)
  }

  /** What a reader of an entry gets; no entry reads as a missing file. */
  function Content(d: Disk, entry: Option<nat>): Option<Bytes> {
    match entry
    case None => None
    case Some(ino) => if ino < |d.inodes| then Some(d.inodes[ino].data) else None
  }

  // ---------------------------------------------------------------------
  // The invariant
  // ---------------------------------------------------------------------

  /** Every entry a crash may leave is a synced file with whole contents. */
  ghost predicate Safe(d: Disk, entry: Option<nat>) {
    && (entry.Some? ==> entry.value < |d.inodes| && d.inodes[entry.value].synced)
    && Content(d, entry) in d.whole
  }

  ghost predicate TempsOk(d: Disk) {
    && (forall n :: n in d.temps ==> d.temps[n] < |d.inodes| && Some(d.temps[n]) !in d.survivors)
    && (forall m, n :: m in d.temps && n in d.temps && d.temps[m] == d.temps[n] ==> m == n)
  }

  ghost predicate WriterOk(d: Disk, w: Writer) {
    && Some(w.data) in d.whole
    && match w.phase
       case Waiting => true
       case Writing(ino, n) =>
         && w.temp in d.temps && d.temps[w.temp] == ino < |d.inodes|
         && n <= |w.data| && d.inodes[ino].data == w.data[..n]
       case Synced(ino) =>
         && w.temp in d.temps && d.temps[w.temp] == ino < |d.inodes|
         && d.inodes[ino] == Inode(w.data, true)
       case Failing => true
       case Leaked => true
       case _ => w.temp !in d.temps
  }

  ghost predicate Inv(d: Disk) {
    && d.target in d.survivors
    && (forall e :: e in d.survivors ==> Safe(d, e))
    && TempsOk(d)
    && (forall w :: 0 <= w < |d.writers| ==> WriterOk(d, d.writers[w]))
    && (forall v, w :: 0 <= v < w < |d.writers| ==> d.writers[v].temp != d.writers[w].temp)
  }

  /** Rewriting the file behind one writer's temp name leaves every other
      writer's file, and every entry a crash may leave, as they were. */
  lemma InodeChange(d: Disk, d': Disk, w: nat, inode: Inode)
    requires Inv(d) && w < |d.writers| && d.writers[w].temp in d.temps
    requires d' == d.(inodes := d.inodes[d.temps[d.writers[w].temp] := inode], writers := d'.writers)
    requires |d'.writers| == |d.writers| && d'.writers[w].temp == d.writers[w].temp
    requires forall v :: 0 <= v < |d.writers| && v != w ==> d'.writers[v] == d.writers[v]
    requires WriterOk(d', d'.writers[w])
    ensures Inv(d')
  {
    forall v | 0 <= v < |d'.writers| ensures WriterOk(d', d'.writers[v]) {
      if v != w {
        assert WriterOk(d, d.writers[v]) && d.writers[v].temp != d.writers[w].temp;
      }
    }
    forall e | e in d'.survivors ensures Safe(d', e) {
      assert Safe(d, e);
    }
  }

  /** Moving one writer, and perhaps removing its temp name, touches no file. */
  lemma PhaseChange(d: Disk, d': Disk, w: nat, phase: Phase, removes: bool)
    requires Inv(d) && w < |d.writers| && (phase.Failing? || phase.Leaked? || (removes && phase.Failed?))
    requires d' == Move(d, w, phase).(temps := if removes then d.temps - {d.writers[w].temp} else d.temps)
    ensures Inv(d')
  {
    forall v | 0 <= v < |d'.writers| ensures WriterOk(d', d'.writers[v]) {
      assert WriterOk(d, d.writers[v]);
    }
    forall e | e in d'.survivors ensures Safe(d', e) {
      assert Safe(d, e);
    }
  }

  lemma BeginKeepsInv(d: Disk, d': Disk, temp: string, data: Bytes)
    requires Inv(d) && Begin(d, d', temp, data)
    ensures Inv(d')
  {
    forall v | 0 <= v < |d'.writers| ensures WriterOk(d', d'.writers[v]) {
      if v < |d.writers| {
        assert WriterOk(d, d.writers[v]);
      }
    }
    forall e | e in d'.survivors ensures Safe(d', e) {
      assert Safe(d, e);
    }
  }

  lemma CreateKeepsInv(d: Disk, d': Disk, w: nat)
    requires Inv(d) && Create(d, d', w)
    ensures Inv(d')
  {
    var temp := d.writers[w].temp;
    assert WriterOk(d, d.writers[w]);
    if temp in d.temps {
      InodeChange(d, d', w, Inode([], false));
    } else {
      forall v | 0 <= v < |d'.writers| ensures WriterOk(d', d'.writers[v]) {
        assert WriterOk(d, d.writers[v]);
        assert v != w ==> d.writers[v].temp != temp;
      }
      forall e | e in d'.survivors ensures Safe(d', e) && e != Some(|d.inodes|) {
        assert Safe(d, e);
      }
    }
  }

  lemma RenameKeepsInv(d: Disk, d': Disk, w: nat)
    requires Inv(d) && Rename(d, d', w)
    ensures Inv(d')
    ensures Content(d', d'.target) == Some(d.writers[w].data)
  {
    assert WriterOk(d, d.writers[w]);
    forall v | 0 <= v < |d'.writers| ensures WriterOk(d', d'.writers[v]) {
      assert WriterOk(d, d.writers[v]);
      assert v != w ==> d.writers[v].temp != d.writers[w].temp;
    }
    forall e | e in d'.survivors ensures Safe(d', e) {
      assert e in d.survivors ==> Safe(d, e);
    }
  }

  lemma SyncDirectoryKeepsInv(d: Disk, d': Disk, w: nat)
    requires Inv(d) && SyncDirectory(d, d', w)
    ensures Inv(d')
  {
    forall v | 0 <= v < |d'.writers| ensures WriterOk(d', d'.writers[v]) {
      assert WriterOk(d, d.writers[v]);
    }
    assert Safe(d, d.target);
  }

  lemma CrashKeepsInv(d: Disk, d': Disk)
    requires Inv(d) && Crash(d, d')
    ensures Inv(d')
    ensures Content(d', d'.target) == Content(d, d'.target)
  {
    assert Safe(d, d'.target);
  }

  lemma NextKeepsInv(d: Disk, d': Disk)
    requires Inv(d) && Next(d, d')
    ensures Inv(d')
  {
    var step :| Takes(d, d', step);
    match step {
      case BeginStep(temp, data) => BeginKeepsInv(d, d', temp, data);
      case CreateStep(w) => CreateKeepsInv(d, d', w);
      case WriteStep(w, m) =>
        assert WriterOk(d, d.writers[w]);
        InodeChange(d, d', w, Inode(d.writers[w].data[..m], false));
      case SyncFileStep(w) =>
        assert WriterOk(d, d.writers[w]);
        assert d.writers[w].data[..|d.writers[w].data|] == d.writers[w].data;
        InodeChange(d, d', w, Inode(d.writers[w].data, true));
      case RenameStep(w) => RenameKeepsInv(d, d', w);
      case SyncDirectoryStep(w) => SyncDirectoryKeepsInv(d, d', w);
      case FailStep(w) => PhaseChange(d, d', w, Failing, false);
      case CleanUpStep(w) => PhaseChange(d, d', w, Failed, true);
      case LeakStep(w) => PhaseChange(d, d', w, Leaked, false);
      case CrashStep => CrashKeepsInv(d, d');
    }
  }

  lemma {:induction false} RunKeepsInv(run: seq<Disk>, k: nat)
    requires IsRun(run) && k < |run|
    ensures Inv(run[k])
  {
    if k > 0 {
      RunKeepsInv(run, k - 1);
      assert StepAt(run, k - 1);
      NextKeepsInv(run[k - 1], run[k]);
    }
  }

  // ---------------------------------------------------------------------
  // What a reader of the usage file can rely on
  // ---------------------------------------------------------------------

  /** At every moment, through any failures and crashes, the usage file holds
      what it held at first or the complete bytes of one write; a write that
      finished or was cleaned up leaves no temp file behind. */
  lemma NeverHalfWritten(run: seq<Disk>, k: nat)
    requires IsRun(run) && k < |run|
    ensures Content(run[k], run[k].target) in run[k].whole
    ensures forall w :: 0 <= w < |run[k].writers| && (run[k].writers[w].phase.Done? || run[k].writers[w].phase.Failed?)
              ==> run[k].writers[w].temp !in run[k].temps
  {
    RunKeepsInv(run, k);
    var d := run[k];
    assert Safe(d, d.target);
    forall w | 0 <= w < |d.writers| && (d.writers[w].phase.Done? || d.writers[w].phase.Failed?)
      ensures d.writers[w].temp !in d.temps
    {
      assert WriterOk(d, d.writers[w]);
    }
  }

  /** The file changes in two ways only: a rename puts one write's complete bytes
      in place, a crash brings back an entry it has had. */
  lemma ChangesWhole(run: seq<Disk>, k: nat)
    requires IsRun(run) && k + 1 < |run|
    ensures var d, d' := run[k], run[k + 1];
            || Content(d', d'.target) == Content(d, d.target)
            || (exists w ::
                  && 0 <= w < |d.writers| && d.writers[w].phase.Synced?
                  && Content(d', d'.target) == Some(d.writers[w].data))
            || (d'.writers == [] && exists e :: e in d.survivors && Content(d', d'.target) == Content(d, e))
  {
    RunKeepsInv(run, k);
    RunKeepsInv(run, k + 1);
    var d, d' := run[k], run[k + 1];
    assert StepAt(run, k);
    var step :| Takes(d, d', step);
    assert Safe(d, d.target);
    match step {
      case RenameStep(w) => RenameKeepsInv(d, d', w);
      case CrashStep => CrashKeepsInv(d, d');
      case _ => TargetUntouched(d, d', step);
    }
  }

  lemma TargetUntouched(d: Disk, d': Disk, step: Step)
    requires Inv(d) && Takes(d, d', step) && !step.RenameStep? && !step.CrashStep?
    ensures Content(d', d'.target) == Content(d, d.target)
  {
    assert Safe(d, d.target);
    if step.CreateStep? || step.WriteStep? || step.SyncFileStep? {
      assert WriterOk(d, d.writers[step.w]);
    }
  }

  // ---------------------------------------------------------------------
  // Durability
  // ---------------------------------------------------------------------

  /** An entry a crash may leave reads the same after any step as before it. */
  lemma SurvivorReadsTheSame(d: Disk, d': Disk, step: Step, e: Option<nat>)
    requires Inv(d) && Takes(d, d', step) && e in d.survivors
    ensures Content(d', e) == Content(d, e)
  {
    assert Safe(d, e);
    if step.CreateStep? || step.WriteStep? || step.SyncFileStep? {
      assert WriterOk(d, d.writers[step.w]);
    }
  }

  ghost predicate RenamesAt(run: seq<Disk>, p: nat, w: nat)
    requires p + 1 < |run|
  {
    Rename(run[p], run[p + 1], w)
  }

  /** The complete bytes of a write that was renamed into place after `r` and
      before `k`, or the content `first`. */
  ghost predicate PutSince(run: seq<Disk>, first: Option<Bytes>, r: nat, k: nat, content: Option<Bytes>)
    requires k < |run|
  {
    || content == first
    || exists p: nat, w: nat :: r < p < k && RenamesAt(run, p, w) && content == Some(run[p].writers[w].data)
  }

  /** Whatever a crash may leave at `k` was put there since `r`. */
  ghost predicate LeavesSince(run: seq<Disk>, first: Option<Bytes>, r: nat, k: nat)
    requires k < |run|
  {
    forall e :: e in run[k].survivors ==> PutSince(run, first, r, k, Content(run[k], e))
  }

  /** Every entry after a step was one before it, or is the one just renamed. */
  lemma SurvivorsCome(run: seq<Disk>, k: nat, e: Option<nat>) returns (w: nat)
    requires k + 1 < |run| && StepAt(run, k) && Inv(run[k]) && e in run[k + 1].survivors
    ensures (e in run[k].survivors && Content(run[k + 1], e) == Content(run[k], e))
         || (RenamesAt(run, k, w) && Content(run[k + 1], e) == Some(run[k].writers[w].data))
  {
    var d, d' := run[k], run[k + 1];
    var step :| Takes(d, d', step);
    w := if step.RenameStep? then step.w else 0;
    if e in d.survivors {
      SurvivorReadsTheSame(d, d', step, e);
    } else {
      assert step.RenameStep?;
      RenameKeepsInv(d, d', w);
    }
  }

  lemma PutSinceStays(run: seq<Disk>, first: Option<Bytes>, r: nat, k: nat, content: Option<Bytes>)
    requires k + 1 < |run| && PutSince(run, first, r, k, content)
    ensures PutSince(run, first, r, k + 1, content)
  {}

  lemma LeavesStep(run: seq<Disk>, first: Option<Bytes>, r: nat, k: nat)
    requires IsRun(run) && r < k < |run| - 1 && LeavesSince(run, first, r, k)
    ensures LeavesSince(run, first, r, k + 1)
  {
    RunKeepsInv(run, k);
    assert StepAt(run, k);
    var d' := run[k + 1];
    forall e | e in d'.survivors ensures PutSince(run, first, r, k + 1, Content(d', e)) {
      var w := SurvivorsCome(run, k, e);
      if e in run[k].survivors && Content(d', e) == Content(run[k], e) {
        PutSinceStays(run, first, r, k, Content(run[k], e));
      }
    }
  }

  lemma {:induction false} LeavesFromThenOn(run: seq<Disk>, first: Option<Bytes>, r: nat, i: nat, k: nat)
    requires IsRun(run) && r < i <= k < |run| && LeavesSince(run, first, r, i)
    ensures LeavesSince(run, first, r, k)
    decreases k - i
  {
    if i < k {
      LeavesFromThenOn(run, first, r, i, k - 1);
      LeavesStep(run, first, r, k - 1);
    }
  }

  /** Without a crash, the file only moves on to writes renamed later. */
  lemma {:induction false} TargetMovesOn(run: seq<Disk>, r: nat, w: nat, k: nat)
    requires IsRun(run) && r < k < |run| && RenamesAt(run, r, w)
    requires forall p :: r < p < k ==> NoCrashAt(run, p)
    ensures PutSince(run, Some(run[r].writers[w].data), r, k, Content(run[k], run[k].target))
  {
    var first := Some(run[r].writers[w].data);
    if k == r + 1 {
      RunKeepsInv(run, r);
      RenameKeepsInv(run[r], run[k], w);
    } else {
      TargetMovesOn(run, r, w, k - 1);
      PutSinceStays(run, first, r, k - 1, Content(run[k - 1], run[k - 1].target));
      var w' := TargetStep(run, k - 1);
    }
  }

  ghost predicate NoCrashAt(run: seq<Disk>, p: nat)
    requires p < |run|
  {
    p + 1 < |run| ==> !Crash(run[p], run[p + 1])
  }

  lemma TargetStep(run: seq<Disk>, k: nat) returns (w: nat)
    requires IsRun(run) && k + 1 < |run| && NoCrashAt(run, k)
    ensures Content(run[k + 1], run[k + 1].target) == Content(run[k], run[k].target)
         || (RenamesAt(run, k, w) && Content(run[k + 1], run[k + 1].target) == Some(run[k].writers[w].data))
  {
    RunKeepsInv(run, k);
    assert StepAt(run, k);
    var d, d' := run[k], run[k + 1];
    var step :| Takes(d, d', step);
    w := if step.RenameStep? then step.w else 0;
    if step.RenameStep? {
      RenameKeepsInv(d, d', w);
    } else {
      TargetUntouched(d, d', step);
    }
  }

  lemma SyncLeavesTarget(run: seq<Disk>, first: Option<Bytes>, r: nat, i: nat, w: nat)
    requires IsRun(run) && r < i < |run| - 1 && SyncDirectory(run[i], run[i + 1], w)
    requires PutSince(run, first, r, i, Content(run[i], run[i].target))
    ensures LeavesSince(run, first, r, i + 1)
  {
    PutSinceStays(run, first, r, i, Content(run[i], run[i].target));
    assert run[i + 1].inodes == run[i].inodes;
  }

  /**
   A finished write is durable. Rename a write into place at `r` and sync the
   directory at `i`, with no crash in between. From then on, through any further
   writes, failures and crashes, the file holds that write's bytes or those of a
   write renamed into place after it.
   */
  lemma FinishedWriteIsDurable(run: seq<Disk>, r: nat, w: nat, i: nat, v: nat, k: nat)
    requires IsRun(run) && r < i < k < |run|
    requires RenamesAt(run, r, w) && SyncDirectory(run[i], run[i + 1], v)
    requires forall p :: r < p < i ==> NoCrashAt(run, p)
    ensures PutSince(run, Some(run[r].writers[w].data), r, k, Content(run[k], run[k].target))
  {
    var first := Some(run[r].writers[w].data);
    TargetMovesOn(run, r, w, i);
    SyncLeavesTarget(run, first, r, i, v);
    LeavesFromThenOn(run, first, r, i + 1, k);
    RunKeepsInv(run, k);
  }
}
