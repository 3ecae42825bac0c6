/** The restartable rebuild of derived state: archived files are replayed in sequence,
    each checkpointed after its replay and catalogue bootstrap, and a run that is
    interrupted anywhere is resumed from its checkpoints. */
module Rebuild {

  /** What replaying a file and bootstrapping its catalogue entries do to derived state. */
  datatype Effects<!S> = Effects(replay: (nat, S) -> S, bootstrap: (nat, S) -> S)

  function Work<S>(e: Effects<S>, file: nat, s: S): S { e.bootstrap(file, e.replay(file, s)) }

  /** The uninterrupted rebuild. */
  function Fold<S>(e: Effects<S>, files: seq<nat>, s: S): S {
    if files == [] then s else Work(e, files[|files| - 1], Fold(e, files[..|files| - 1], s))
  }

  /** File after file, each is replayed and then its catalogue entries are bootstrapped. */
  lemma FoldMeans<S>(e: Effects<S>, files: seq<nat>, f: nat, s: S)
    ensures Fold(e, [], s) == s
    ensures Fold(e, files + [f], s) == e.bootstrap(f, e.replay(f, Fold(e, files, s)))
  {
    assert (files + [f])[..|files|] == files;
  }

  /** Doing a file twice in a row, or replaying it twice before its bootstrap, has the effect of once. */
  ghost predicate Idempotent<S(!new)>(e: Effects<S>) {
    && (forall f: nat, s: S :: e.replay(f, e.replay(f, s)) == e.replay(f, s))
    && (forall f: nat, s: S :: Work(e, f, Work(e, f, s)) == Work(e, f, s))
  }

  lemma FoldSnoc<S>(e: Effects<S>, files: seq<nat>, k: nat, s: S)
    requires k < |files|
    ensures Fold(e, files[..k + 1], s) == Work(e, files[k], Fold(e, files[..k], s))
  {
    assert files[..k + 1][..k] == files[..k];
  }

  datatype Fate = Through | Before | After

  datatype Status = Running | Failed | Completed

  datatype Run = Run(status: Status, active: bool, done: seq<bool>, last: nat, completed: nat)

  /** The pending files in sequence order, at most limit of them. */
  function Pending(done: seq<bool>, from: nat, limit: nat): (page: seq<nat>)
    requires from <= |done|
    ensures |page| <= limit
    decreases |done| - from
  {
    if from == |done| || limit == 0 then []
    else if done[from] then Pending(done, from + 1, limit)
    else [from] + Pending(done, from + 1, limit - 1)
  }

  lemma {:induction false} PendingIsNext(done: seq<bool>, from: nat, last: nat, limit: nat)
    requires from <= last <= |done| && forall i :: 0 <= i < |done| ==> (done[i] <==> i < last)
    ensures var page := Pending(done, from, limit);
      && |page| == (if |done| - last <= limit then |done| - last else limit)
      && forall i :: 0 <= i < |page| ==> page[i] == last + i
    decreases |done| - from
  {
    if from < |done| && limit > 0 {
      if done[from] {
        PendingIsNext(done, from + 1, last, limit);
      } else {
        PendingAll(done, from, limit);
      }
    }
  }

  lemma {:induction false} PendingAll(done: seq<bool>, from: nat, limit: nat)
    requires from <= |done| && forall i :: from <= i < |done| ==> !done[i]
    ensures var page := Pending(done, from, limit);
      && |page| == (if |done| - from <= limit then |done| - from else limit)
      && forall i :: 0 <= i < |page| ==> page[i] == from + i
    decreases |done| - from
  {
    if from < |done| && limit > 0 { PendingAll(done, from + 1, limit - 1); }
  }

  /** The derived state is one step's work away from the uninterrupted rebuild of the
      checkpointed files and the next, or exactly there when all are checkpointed. */
  ghost predicate OnTrack<S>(e: Effects<S>, files: seq<nat>, initial: S, last: nat, derived: S)
    requires last <= |files|
  {
    if last == |files| then derived == Fold(e, files, initial)
    else Work(e, files[last], derived) == Fold(e, files[..last + 1], initial)
  }

  lemma OnTrackAt<S>(e: Effects<S>, files: seq<nat>, initial: S, last: nat)
    requires last <= |files|
    ensures OnTrack(e, files, initial, last, Fold(e, files[..last], initial))
  {
    if last < |files| { FoldSnoc(e, files, last, initial); } else { assert files[..last] == files; }
  }

  lemma OnTrackReplay<S(!new)>(e: Effects<S>, files: seq<nat>, initial: S, last: nat, derived: S)
    requires last < |files| && Idempotent(e) && OnTrack(e, files, initial, last, derived)
    ensures OnTrack(e, files, initial, last, e.replay(files[last], derived))
    ensures Work(e, files[last], derived) == Fold(e, files[..last + 1], initial)
    ensures OnTrack(e, files, initial, last, Work(e, files[last], derived))
  {
  }

  class Rebuilder<S(!new)> {
    const effects: Effects<S>
    const files: seq<nat>
    const initial: S
    const fate: nat -> Fate
    var now: nat
    var run: Run
    var derived: S

    ghost predicate Checkpointed()
      reads this
    {
      && |run.done| == |files| && run.last == run.completed <= |files|
      && forall i :: 0 <= i < |files| ==> (run.done[i] <==> i < run.last)
    }

    ghost predicate Valid()
      reads this
    {
      && Idempotent(effects) && Checkpointed()
      && OnTrack(effects, files, initial, run.last, derived)
      && (run.status == Completed ==> run.last == |files|)
      && (run.active <==> run.status != Completed)
    }

    ghost predicate Calm(n: nat) reads this { forall k :: k >= n ==> fate(k) == Through }

    /** The derived state has just been emptied. */
    constructor (effects: Effects<S>, files: seq<nat>, initial: S, fate: nat -> Fate)
      requires Idempotent(effects)
      ensures Valid() && run.status == Running && run.last == 0
      ensures this.effects == effects && this.files == files && this.initial == initial
    {
      this.effects, this.files, this.initial, this.fate := effects, files, initial, fate;
      now, derived := 0, initial;
      run := Run(Running, true, seq(|files|, i => false), 0, 0);
      OnTrackAt(effects, files, initial, 0);
      assert files[..0] == [];
    }

    method Await() returns (f: Fate)
      modifies this`now
      ensures now == old(now) + 1 && f == fate(old(now))
    {
      f := fate(now);
      now := now + 1;
    }

    /** Replays the next file and bootstraps it, as far as that goes. */
    method ReplayNext() returns (ok: bool)
      requires Valid() && run.last < |files|
      modifies this`now, this`derived
      ensures Valid() && now > old(now)
      ensures ok ==> derived == Fold(effects, files[..run.last + 1], initial)
      ensures Calm(old(now)) ==> ok
    {
      hide Idempotent, OnTrack;
      var f := Await();
      OnTrackReplay(effects, files, initial, run.last, derived);
      ghost var target := Work(effects, files[run.last], derived);
      if f != Before {
        derived := effects.replay(files[run.last], derived);
      }
      if f != Through {
        return false;
      }
      f := Await();
      if f != Before {
        derived := effects.bootstrap(files[run.last], derived);
      }
      ok := f == Through;
    }

    /** Checkpoints the file at a zero-based sequence position. */
    method CompleteFile(sequence: nat) returns (ok: bool)
      requires Valid() && sequence < |files|
      requires run.last == sequence ==> derived == Fold(effects, files[..sequence + 1], initial)
      modifies this`now, this`run
      ensures Valid() && now > old(now)
      ensures run == old(run) || (sequence == old(run).last
        && run == old(run).(done := old(run).done[sequence := true], last := sequence + 1,
                            completed := old(run).completed + 1))
      ensures ok ==> run != old(run)
      ensures Calm(old(now)) ==> (ok <==> old(run).status == Running && sequence == old(run).last)
    {
      hide Idempotent, OnTrack;
      var f := Await();
      if f == Before || run.status != Running || sequence != run.last || run.done[sequence] {
        return false;
      }
      OnTrackAt(effects, files, initial, sequence + 1);
      run := run.(done := run.done[sequence := true], last := sequence + 1, completed := run.completed + 1);
      ok := f == Through;
    }

    /** Finishing checks both the pending rows and the counter. */
    method Finish() returns (ok: bool)
      requires Valid()
      modifies this`now, this`run
      ensures Valid() && now > old(now)
      ensures run == old(run) || (old(run).last == |files| && run == old(run).(status := Completed, active := false))
      ensures ok ==> run.status == Completed
      ensures Calm(old(now)) ==> (ok <==> old(run).active && old(run).last == |files|)
    {
      PendingIsNext(run.done, 0, run.last, 1);
      var f := Await();
      if f == Before || !run.active || Pending(run.done, 0, 1) != [] || run.completed != |files| {
        return false;
      }
      run := run.(status := Completed, active := false);
      ok := f == Through;
    }

    /** The service's loop over pages of pending files. */
    method Drive(limit: nat) returns (ok: bool)
      requires Valid() && limit > 0 && run.status == Running
      modifies this`now, this`run, this`derived
      ensures Valid() && old(run).last <= run.last
      ensures ok ==> run.status == Completed
      ensures Calm(old(now)) ==> ok
    {
      hide Idempotent, OnTrack, Pending;
      while true
        invariant Valid() && run.status == Running && old(run).last <= run.last && now >= old(now)
        decreases |files| - run.last
      {
        var f := Await();
        if f != Through {
          return false;
        }
        PendingIsNext(run.done, 0, run.last, limit);
        var page := Pending(run.done, 0, limit);
        if page == [] {
          ok := Finish();
          return;
        }
        ghost var first := run.last;
        for i := 0 to |page|
          invariant Valid() && run.status == Running && run.last == first + i && now >= old(now)
        {
          ok := ReplayNext();
          if !ok {
            return;
          }
          ok := CompleteFile(page[i]);
          if !ok {
            return;
          }
        }
      }
    }

    /** Takes the run up again; a failure is noted if that succeeds. */
    method Resume(limit: nat) returns (ok: bool)
      requires Valid() && limit > 0
      modifies this`now, this`run, this`derived
      ensures Valid() && old(run).last <= run.last
      ensures ok ==> run.status == Completed
      ensures old(run).status == Completed ==> run == old(run) && derived == old(derived)
      ensures Calm(old(now)) ==> (ok <==> old(run).active)
    {
      hide Idempotent, OnTrack;
      var f := Await();
      if f == Before || !run.active || run.status == Completed {
        return false;
      }
      run := run.(status := Running);
      if f == After {
        return false;
      }
      ok := Drive(limit);
      if !ok {
        f := Await();
        if f != Before && run.status != Completed {
          run := run.(status := Failed);
        }
      }
    }

    /** Interrupted and resumed any number of times: once completed, the derived state
        is the uninterrupted rebuild's, and it stays. */
    method ResumeRepeatedly(limits: seq<nat>)
      requires Valid() && forall i :: 0 <= i < |limits| ==> limits[i] > 0
      modifies this`now, this`run, this`derived
      ensures Valid() && old(run).last <= run.last
      ensures run.status == Completed ==>
        derived == Fold(effects, files, initial) && forall i :: 0 <= i < |files| ==> run.done[i]
      ensures old(run).status == Completed ==> derived == old(derived)
    {
      hide Idempotent;
      for k := 0 to |limits|
        invariant Valid() && old(run).last <= run.last
        invariant old(run).status == Completed ==> run == old(run) && derived == old(derived)
      {
        var ok := Resume(limits[k]);
      }
    }
  }
}
