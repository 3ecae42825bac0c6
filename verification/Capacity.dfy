/** The free-space floor of a shared storage root: writers in several processes take
    a process lock and then a lock file, check the free space and write at most what
    they reserved, in any interleaving. */
module Capacity {
  import opened Prelude

  /** Where a writer is. From Entered on it has its process's lock, from Opened on a
      descriptor of the lock file, from Locked on the file's lock. */
  datatype Phase =
    | Away
    | Entered(reserved: nat)
    | Opened(reserved: nat)
    | Locked(reserved: nat)
    | Writing(reserved: nat, written: nat)

  predicate HasDescriptor(p: Phase) { p.Opened? || p.Locked? || p.Writing? }

  predicate HasFileLock(p: Phase) { p.Locked? || p.Writing? }

  /** The balances count acquisitions minus releases, writer by writer. */
  datatype State = State(
    free: int,
    writers: seq<Phase>,
    processLocks: map<nat, nat>,
    fileLock: Option<nat>,
    processBalance: seq<int>,
    descriptorBalance: seq<int>)

  datatype Step =
    | Enter(i: nat, bytes: nat)
    | Open(i: nat, ok: bool)
    | TryLock(i: nat)
    | GiveUp(i: nat)
    | Check(i: nat, sameFilesystem: bool)
    | Write(i: nat, bytes: nat)
    | Abort(i: nat)
    | Finish(i: nat)
    | Reclaim(bytes: nat)

  function Promised(p: Phase): int { if p.Writing? then p.reserved - p.written else 0 }

  ghost predicate Locks(s: State, process: nat -> nat) {
    && (forall i :: 0 <= i < |s.writers| && !s.writers[i].Away? ==>
         process(i) in s.processLocks && s.processLocks[process(i)] == i)
    && (forall p :: p in s.processLocks ==>
         s.processLocks[p] < |s.writers| && process(s.processLocks[p]) == p && !s.writers[s.processLocks[p]].Away?)
    && (forall i :: 0 <= i < |s.writers| ==> (HasFileLock(s.writers[i]) <==> s.fileLock == Some(i)))
    && (s.fileLock.Some? ==> s.fileLock.value < |s.writers|)
  }

  /** Every lock and descriptor taken is given back exactly once, or still held. */
  ghost predicate Balanced(s: State) {
    && |s.processBalance| == |s.descriptorBalance| == |s.writers|
    && forall i :: 0 <= i < |s.writers| ==>
         && s.processBalance[i] == (if s.writers[i].Away? then 0 else 1)
         && s.descriptorBalance[i] == (if HasDescriptor(s.writers[i]) then 1 else 0)
  }

  /** What the one writer may still write fits above the floor. */
  ghost predicate Floored(s: State, floor: int) {
    && s.free >= floor
    && forall i :: 0 <= i < |s.writers| && s.writers[i].Writing? ==>
         s.writers[i].written <= s.writers[i].reserved && s.free - Promised(s.writers[i]) >= floor
  }

  function Moved(s: State, i: nat, p: Phase): State
    requires i < |s.writers|
  {
    s.(writers := s.writers[i := p])
  }

  /** Closing the descriptor, which gives up the file's lock, and releasing the process's lock. */
  function Left(s: State, i: nat, process: nat -> nat): State
    requires i < |s.writers| && |s.processBalance| == |s.descriptorBalance| == |s.writers|
    requires process(i) in s.processLocks && s.processLocks[process(i)] == i
  {
    s.(writers := s.writers[i := Away],
       processLocks := s.processLocks - {process(i)},
       fileLock := if HasFileLock(s.writers[i]) then None else s.fileLock,
       processBalance := s.processBalance[i := s.processBalance[i] - 1],
       descriptorBalance :=
         s.descriptorBalance[i := s.descriptorBalance[i] - (if HasDescriptor(s.writers[i]) then 1 else 0)])
  }

  lemma LeftLocks(s: State, i: nat, process: nat -> nat)
    requires Locks(s, process) && Balanced(s) && i < |s.writers| && !s.writers[i].Away?
    ensures Locks(Left(s, i, process), process)
  {
    var t := Left(s, i, process);
    forall p | p in t.processLocks
      ensures t.processLocks[p] < |t.writers| && process(t.processLocks[p]) == p && !t.writers[t.processLocks[p]].Away?
    {
      assert p in s.processLocks && s.processLocks[p] != i;
    }
    forall j | 0 <= j < |t.writers| && !t.writers[j].Away?
      ensures process(j) in t.processLocks && t.processLocks[process(j)] == j
    {
      assert j != i;
    }
  }

  lemma LeftBalanced(s: State, i: nat, process: nat -> nat)
    requires Locks(s, process) && Balanced(s) && i < |s.writers| && !s.writers[i].Away?
    ensures Balanced(Left(s, i, process))
  {
  }

  lemma LeftFloored(s: State, i: nat, process: nat -> nat, floor: int)
    requires Locks(s, process) && Balanced(s) && Floored(s, floor) && i < |s.writers| && !s.writers[i].Away?
    ensures Floored(Left(s, i, process), floor)
  {
  }

  class Storage {
    const floor: int
    const process: nat -> nat
    var s: State

    ghost predicate Valid()
      reads this
    {
      floor > 0 && Locks(s, process) && Balanced(s) && Floored(s, floor)
    }

    constructor (writers: nat, process: nat -> nat, floor: int, free: int)
      requires 0 < floor <= free
      ensures Valid() && this.floor == floor && this.process == process && s.free == free && |s.writers| == writers
    {
      this.floor, this.process := floor, process;
      s := State(free, seq(writers, i => Away), map[], None, seq(writers, i => 0), seq(writers, i => 0));
    }

    /** The process's lock is free: the writer takes it. */
    method EnterAt(i: nat, bytes: nat)
      requires Valid() && i < |s.writers| && s.writers[i].Away? && process(i) !in s.processLocks
      modifies this
      ensures Valid() && s.free == old(s).free && |s.writers| == |old(s).writers| && s.writers[i] == Entered(bytes)
    {
      s := Moved(s, i, Entered(bytes)).(processLocks := s.processLocks[process(i) := i],
                                        processBalance := s.processBalance[i := s.processBalance[i] + 1]);
    }

    method OpenAt(i: nat)
      requires Valid() && i < |s.writers| && s.writers[i].Entered?
      modifies this
      ensures Valid() && s.free == old(s).free && |s.writers| == |old(s).writers|
      ensures s.writers[i] == Opened(old(s).writers[i].reserved)
    {
      s := Moved(s, i, Opened(s.writers[i].reserved)).(
        descriptorBalance := s.descriptorBalance[i := s.descriptorBalance[i] + 1]);
    }

    /** The lock file's lock is granted only when nobody has it. */
    method LockAt(i: nat)
      requires Valid() && i < |s.writers| && s.writers[i].Opened? && s.fileLock.None?
      modifies this
      ensures Valid() && s.free == old(s).free && |s.writers| == |old(s).writers|
      ensures s.writers[i] == Locked(old(s).writers[i].reserved)
    {
      s := Moved(s, i, Locked(s.writers[i].reserved)).(fileLock := Some(i));
    }

    /** Every way out of a lease or of a failed acquisition. */
    method Leave(i: nat)
      requires Valid() && i < |s.writers| && !s.writers[i].Away?
      modifies this
      ensures Valid() && s == Left(old(s), i, process)
    {
      hide Locks, Floored, Balanced;
      StillHeld(i);
      LeftLocks(s, i, process);
      LeftBalanced(s, i, process);
      LeftFloored(s, i, process, floor);
      s := Left(s, i, process);
    }

    lemma StillHeld(i: nat)
      requires Valid() && i < |s.writers| && !s.writers[i].Away?
      ensures |s.processBalance| == |s.descriptorBalance| == |s.writers|
      ensures process(i) in s.processLocks && s.processLocks[process(i)] == i
    {
    }

    /** The lease is granted when the reserve would survive the whole write. */
    method CheckAt(i: nat, sameFilesystem: bool)
      requires Valid() && i < |s.writers| && s.writers[i].Locked?
      modifies this
      ensures Valid() && s.free == old(s).free && |s.writers| == |old(s).writers|
      ensures s.writers[i] ==
        if sameFilesystem && old(s).free - old(s).writers[i].reserved >= floor then Writing(old(s).writers[i].reserved, 0)
        else Away
    {
      if !sameFilesystem || s.free - s.writers[i].reserved < floor {
        Leave(i);
      } else {
        s := Moved(s, i, Writing(s.writers[i].reserved, 0));
      }
    }

    method WriteAt(i: nat, bytes: nat)
      requires Valid() && i < |s.writers| && s.writers[i].Writing?
      requires s.writers[i].written + bytes <= s.writers[i].reserved
      modifies this
      ensures Valid() && s.free == old(s).free - bytes && |s.writers| == |old(s).writers|
    {
      s := Moved(s, i, s.writers[i].(written := s.writers[i].written + bytes)).(free := s.free - bytes);
    }

    /** The check after the write never finds the floor crossed. */
    method FinishAt(i: nat) returns (ok: bool)
      requires Valid() && i < |s.writers| && s.writers[i].Writing?
      modifies this
      ensures Valid() && ok && s == Left(old(s), i, process)
    {
      ok := s.free - 0 >= floor;
      Leave(i);
    }

    /** One step, if it applies. */
    method Perform(step: Step)
      requires Valid()
      modifies this
      ensures Valid() && |s.writers| == |old(s).writers|
    {
      hide Locks, Balanced;
      match step {
        case Enter(i, bytes) =>
          if i < |s.writers| && s.writers[i].Away? && process(i) !in s.processLocks { EnterAt(i, bytes); }
        case Open(i, ok) =>
          if i < |s.writers| && s.writers[i].Entered? {
            if ok { OpenAt(i); } else { Leave(i); }
          }
        case TryLock(i) =>
          if i < |s.writers| && s.writers[i].Opened? && s.fileLock.None? { LockAt(i); }
        case GiveUp(i) =>
          if i < |s.writers| && s.writers[i].Opened? { Leave(i); }
        case Check(i, sameFilesystem) =>
          if i < |s.writers| && s.writers[i].Locked? { CheckAt(i, sameFilesystem); }
        case Write(i, bytes) =>
          if i < |s.writers| && s.writers[i].Writing? && s.writers[i].written + bytes <= s.writers[i].reserved {
            WriteAt(i, bytes);
          }
        case Abort(i) =>
          if i < |s.writers| && s.writers[i].Writing? { Leave(i); }
        case Finish(i) =>
          if i < |s.writers| && s.writers[i].Writing? { var ok := FinishAt(i); }
        case Reclaim(bytes) =>
          Freed(bytes);
      }
    }

    /** Anyone may delete files at any time. */
    method Freed(bytes: nat)
      requires Valid()
      modifies this
      ensures Valid() && s == old(s).(free := old(s).free + bytes)
    {
      s := s.(free := s.free + bytes);
    }

    /** In every interleaving the floor holds, at most one writer has the lease, and what
        is not held has been released as often as it was acquired. */
    method Interleave(steps: seq<Step>)
      requires Valid()
      modifies this
      ensures Valid() && |s.writers| == |old(s).writers| && s.free >= floor
      ensures forall i, j :: 0 <= i < j < |s.writers| ==> !(HasFileLock(s.writers[i]) && HasFileLock(s.writers[j]))
      ensures forall i :: 0 <= i < |s.writers| && s.writers[i].Away? ==>
        s.processBalance[i] == 0 && s.descriptorBalance[i] == 0
    {
      hide Locks, Balanced;
      for k := 0 to |steps|
        invariant Valid() && |s.writers| == |old(s).writers|
      {
        Perform(steps[k]);
      }
      Unpacked();
    }

    lemma Unpacked()
      requires Valid()
      ensures forall i, j :: 0 <= i < j < |s.writers| ==> !(HasFileLock(s.writers[i]) && HasFileLock(s.writers[j]))
      ensures |s.processBalance| == |s.descriptorBalance| == |s.writers|
      ensures forall i :: 0 <= i < |s.writers| && s.writers[i].Away? ==>
        s.processBalance[i] == 0 && s.descriptorBalance[i] == 0
    {
    }
  }

  /** The lease itself: releasing it again does nothing. */
  class Lease {
    var released: bool
    var descriptorCloses: nat
    var lockReleases: nat

    ghost predicate Valid()
      reads this
    {
      descriptorCloses == lockReleases == (if released then 1 else 0)
    }

    constructor ()
      ensures Valid() && !released
    {
      released, descriptorCloses, lockReleases := false, 0, 0;
    }

    /** Closing may fail; the process's lock is released all the same. */
    method Release(closeFails: bool) returns (ok: bool)
      requires Valid()
      modifies this
      ensures Valid() && released && descriptorCloses == 1 && lockReleases == 1
      ensures ok <==> old(released) || !closeFails
    {
      if released {
        return true;
      }
      released := true;
      descriptorCloses := descriptorCloses + 1;
      lockReleases := lockReleases + 1;
      ok := !closeFails;
    }
  }
}
