/** The in-process scheduler: one producer and several consumers share a bounded
    queue, a set of pending sources and a health table. A step below is what one of
    them does between two awaits; every interleaving of steps is covered. */
module Worker {
  import opened Prelude

  // ----- values

  datatype Schedule = Schedule(source: string, interval: real, jitterRatio: real, immediate: bool)

  datatype Policy = Policy(concurrency: nat, capacity: nat)

  datatype Health = Health(
    source: string,
    inFlight: bool,
    successes: nat,
    failures: nat,
    consecutive: nat,
    started: Option<real>,
    succeeded: Option<real>,
    failed: Option<real>,
    error: Option<string>)

  /** Where a consumer is suspended. A reporting consumer marked last dies after its report. */
  datatype Phase =
    | Idle
    | Announcing(source: string, snapshot: Health)
    | Running(source: string, snapshot: Health)
    | Reporting(source: string, last: bool)
    | Dead

  predicate Busy(p: Phase) { !p.Idle? && !p.Dead? }

  predicate Active(p: Phase) { p.Announcing? || p.Running? }

  datatype State = State(
    queue: seq<string>,
    pending: set<string>,
    unfinished: nat,
    due: map<string, real>,
    health: map<string, Health>,
    consumers: seq<Phase>)

  datatype Outcome = Success | Failure(code: string)

  // ----- what happened to one source, and what its health should say about it

  /** A run starts, and then it ends in one of four ways; an abandoned one dies announcing itself. */
  datatype Event = Started(at: real) | Succeeded(at: real) | Failed(at: real, code: string) | Stopped | Abandoned

  function Successes(es: seq<Event>): nat {
    if es == [] then 0 else Successes(es[..|es| - 1]) + (if es[|es| - 1].Succeeded? then 1 else 0)
  }

  function Failures(es: seq<Event>): nat {
    if es == [] then 0 else Failures(es[..|es| - 1]) + (if es[|es| - 1].Failed? then 1 else 0)
  }

  /** How many failures there were since the last success. */
  function Trailing(es: seq<Event>): nat {
    if es == [] || es[|es| - 1].Succeeded? then 0
    else Trailing(es[..|es| - 1]) + (if es[|es| - 1].Failed? then 1 else 0)
  }

  function LastStart(es: seq<Event>): Option<real> {
    if es == [] then None else if es[|es| - 1].Started? then Some(es[|es| - 1].at) else LastStart(es[..|es| - 1])
  }

  function LastSuccess(es: seq<Event>): Option<real> {
    if es == [] then None else if es[|es| - 1].Succeeded? then Some(es[|es| - 1].at) else LastSuccess(es[..|es| - 1])
  }

  function LastFailure(es: seq<Event>): Option<real> {
    if es == [] then None else if es[|es| - 1].Failed? then Some(es[|es| - 1].at) else LastFailure(es[..|es| - 1])
  }

  function LastError(es: seq<Event>): Option<string> {
    if es == [] || es[|es| - 1].Succeeded? then None
    else if es[|es| - 1].Failed? then Some(es[|es| - 1].code)
    else if es[|es| - 1].Stopped? then Some("worker_shutdown")
    else LastError(es[..|es| - 1])
  }

  function Summary(s: string, es: seq<Event>): Health {
    Health(s, es != [] && (es[|es| - 1].Started? || es[|es| - 1].Abandoned?), Successes(es), Failures(es), Trailing(es),
           LastStart(es), LastSuccess(es), LastFailure(es), LastError(es))
  }

  // ----- what the summary says, in terms of the events alone

  ghost function SuccessesAt(es: seq<Event>): set<int> { set i | 0 <= i < |es| && es[i].Succeeded? }

  ghost function FailuresAt(es: seq<Event>): set<int> { set i | 0 <= i < |es| && es[i].Failed? }

  /** The failures that no success follows. */
  ghost function FailuresSince(es: seq<Event>): set<int> {
    set i | 0 <= i < |es| && es[i].Failed? && forall j :: i < j < |es| ==> !es[j].Succeeded?
  }

  ghost predicate LatestStart(es: seq<Event>, i: int) {
    0 <= i < |es| && es[i].Started? && forall j :: i < j < |es| ==> !es[j].Started?
  }

  ghost predicate LatestSuccess(es: seq<Event>, i: int) {
    0 <= i < |es| && es[i].Succeeded? && forall j :: i < j < |es| ==> !es[j].Succeeded?
  }

  ghost predicate LatestFailure(es: seq<Event>, i: int) {
    0 <= i < |es| && es[i].Failed? && forall j :: i < j < |es| ==> !es[j].Failed?
  }

  /** The last event that sets or clears the error. */
  ghost predicate LatestVerdict(es: seq<Event>, i: int) {
    && 0 <= i < |es| && (es[i].Succeeded? || es[i].Failed? || es[i].Stopped?)
    && forall j :: i < j < |es| ==> es[j].Started? || es[j].Abandoned?
  }

  ghost predicate Leaves(e: Event, error: string) {
    (e.Stopped? && error == "worker_shutdown") || (e.Failed? && error == e.code)
  }

  /** Counts are numbers of events, the consecutive failures those since the last success,
      each time is the last of its kind, and the error is what the last outcome left. */
  ghost predicate Accurate(h: Health, es: seq<Event>) {
    && h.successes == |SuccessesAt(es)| && h.failures == |FailuresAt(es)| && h.consecutive == |FailuresSince(es)|
    && (h.started.None? ==> forall i :: 0 <= i < |es| ==> !es[i].Started?)
    && (h.started.Some? ==> exists i :: LatestStart(es, i) && es[i].at == h.started.value)
    && (h.succeeded.None? ==> forall i :: 0 <= i < |es| ==> !es[i].Succeeded?)
    && (h.succeeded.Some? ==> exists i :: LatestSuccess(es, i) && es[i].at == h.succeeded.value)
    && (h.failed.None? ==> forall i :: 0 <= i < |es| ==> !es[i].Failed?)
    && (h.failed.Some? ==> exists i :: LatestFailure(es, i) && es[i].at == h.failed.value)
    && (h.error.None? ==> forall i :: LatestVerdict(es, i) ==> es[i].Succeeded?)
    && (h.error.Some? ==> exists i :: LatestVerdict(es, i) && Leaves(es[i], h.error.value))
  }

  lemma {:induction false} SuccessesMean(es: seq<Event>)
    ensures Successes(es) == |SuccessesAt(es)|
  {
    if es != [] {
      var n := |es| - 1;
      SuccessesMean(es[..n]);
      assert SuccessesAt(es) == SuccessesAt(es[..n]) + if es[n].Succeeded? then {n} else {};
    }
  }

  lemma {:induction false} FailuresMean(es: seq<Event>)
    ensures Failures(es) == |FailuresAt(es)|
  {
    if es != [] {
      var n := |es| - 1;
      FailuresMean(es[..n]);
      assert FailuresAt(es) == FailuresAt(es[..n]) + if es[n].Failed? then {n} else {};
    }
  }

  lemma {:induction false} TrailingMeans(es: seq<Event>)
    ensures Trailing(es) == |FailuresSince(es)|
  {
    if es != [] {
      var n := |es| - 1;
      TrailingMeans(es[..n]);
      SinceStep(es);
    }
  }

  lemma SinceStep(es: seq<Event>)
    requires es != []
    ensures var n := |es| - 1;
      FailuresSince(es) == if es[n].Succeeded? then {} else FailuresSince(es[..n]) + if es[n].Failed? then {n} else {}
  {
    var n := |es| - 1;
    var before := es[..n];
    if es[n].Succeeded? {
      forall i ensures i !in FailuresSince(es) {
        if 0 <= i < |es| && es[i].Failed? { assert i < n && es[n].Succeeded?; }
      }
    } else {
      forall i ensures i in FailuresSince(es) <==> i in FailuresSince(before) || (i == n && es[n].Failed?) {
        if i in FailuresSince(es) && i < n {
          assert forall j :: i < j < n ==> before[j] == es[j];
        }
        if i in FailuresSince(before) {
          assert forall j :: i < j < n ==> before[j] == es[j];
        }
      }
    }
  }

  lemma {:induction false} StartMeans(es: seq<Event>)
    ensures LastStart(es).None? ==> forall i :: 0 <= i < |es| ==> !es[i].Started?
    ensures LastStart(es).Some? ==> exists i :: LatestStart(es, i) && es[i].at == LastStart(es).value
  {
    if es != [] {
      var n := |es| - 1;
      StartMeans(es[..n]);
      if es[n].Started? {
        assert LatestStart(es, n);
      } else if LastStart(es).Some? {
        var i :| LatestStart(es[..n], i) && es[..n][i].at == LastStart(es[..n]).value;
        assert LatestStart(es, i);
      }
    }
  }

  lemma {:induction false} SuccessMeans(es: seq<Event>)
    ensures LastSuccess(es).None? ==> forall i :: 0 <= i < |es| ==> !es[i].Succeeded?
    ensures LastSuccess(es).Some? ==> exists i :: LatestSuccess(es, i) && es[i].at == LastSuccess(es).value
  {
    if es != [] {
      var n := |es| - 1;
      SuccessMeans(es[..n]);
      if es[n].Succeeded? {
        assert LatestSuccess(es, n);
      } else if LastSuccess(es).Some? {
        var i :| LatestSuccess(es[..n], i) && es[..n][i].at == LastSuccess(es[..n]).value;
        assert LatestSuccess(es, i);
      }
    }
  }

  lemma {:induction false} FailureMeans(es: seq<Event>)
    ensures LastFailure(es).None? ==> forall i :: 0 <= i < |es| ==> !es[i].Failed?
    ensures LastFailure(es).Some? ==> exists i :: LatestFailure(es, i) && es[i].at == LastFailure(es).value
  {
    if es != [] {
      var n := |es| - 1;
      FailureMeans(es[..n]);
      if es[n].Failed? {
        assert LatestFailure(es, n);
      } else if LastFailure(es).Some? {
        var i :| LatestFailure(es[..n], i) && es[..n][i].at == LastFailure(es[..n]).value;
        assert LatestFailure(es, i);
      }
    }
  }

  lemma {:induction false} ErrorMeans(es: seq<Event>)
    ensures LastError(es).None? ==> forall i :: LatestVerdict(es, i) ==> es[i].Succeeded?
    ensures LastError(es).Some? ==> exists i :: LatestVerdict(es, i) && Leaves(es[i], LastError(es).value)
  {
    if es != [] {
      var n := |es| - 1;
      var before := es[..n];
      ErrorMeans(before);
      if es[n].Succeeded? || es[n].Failed? || es[n].Stopped? {
        assert LatestVerdict(es, n);
      } else {
        assert forall i :: LatestVerdict(es, i) ==> LatestVerdict(before, i) && es[i] == before[i];
        if LastError(es).Some? {
          var i :| LatestVerdict(before, i) && Leaves(before[i], LastError(before).value);
          assert LatestVerdict(es, i);
        }
      }
    }
  }

  lemma SummaryMeans(s: string, es: seq<Event>)
    ensures Accurate(Summary(s, es), es)
  {
    hide Successes, Failures, Trailing, LastStart, LastSuccess, LastFailure, LastError, SuccessesAt, FailuresAt,
         FailuresSince, LatestStart, LatestSuccess, LatestFailure, LatestVerdict;
    SuccessesMean(es);
    FailuresMean(es);
    TrailingMeans(es);
    StartMeans(es);
    SuccessMeans(es);
    FailureMeans(es);
    ErrorMeans(es);
  }

  // ----- pairing

  /** Every outcome directly follows the start it belongs to, so runs never overlap. */
  predicate Paired(es: seq<Event>) {
    forall i :: 0 <= i < |es| && !es[i].Started? ==> i > 0 && es[i - 1].Started?
  }

  function EventsOf(events: map<string, seq<Event>>, s: string): seq<Event> { if s in events then events[s] else [] }

  function Recorded(events: map<string, seq<Event>>, s: string, e: Event): map<string, seq<Event>> {
    events[s := EventsOf(events, s) + [e]]
  }

  lemma SummaryOfStart(s: string, es: seq<Event>, at: real)
    ensures Summary(s, es + [Started(at)]) == Summary(s, es).(inFlight := true, started := Some(at))
  {
    assert (es + [Started(at)])[..|es|] == es;
  }

  lemma SummaryOfSuccess(s: string, es: seq<Event>, at: real)
    ensures Summary(s, es + [Succeeded(at)]) ==
      var h := Summary(s, es);
      h.(inFlight := false, successes := h.successes + 1, consecutive := 0, succeeded := Some(at), error := None)
  {
    assert (es + [Succeeded(at)])[..|es|] == es;
  }

  lemma SummaryOfFailure(s: string, es: seq<Event>, at: real, code: string)
    ensures Summary(s, es + [Failed(at, code)]) ==
      var h := Summary(s, es);
      h.(inFlight := false, failures := h.failures + 1, consecutive := h.consecutive + 1, failed := Some(at),
         error := Some(code))
  {
    assert (es + [Failed(at, code)])[..|es|] == es;
  }

  lemma SummaryOfStop(s: string, es: seq<Event>)
    ensures Summary(s, es + [Stopped]) == Summary(s, es).(inFlight := false, error := Some("worker_shutdown"))
  {
    assert (es + [Stopped])[..|es|] == es;
  }

  /** Nobody tells the health table that a run was abandoned. */
  lemma SummaryOfAbandon(s: string, es: seq<Event>)
    requires es != [] && es[|es| - 1].Started?
    ensures Summary(s, es + [Abandoned]) == Summary(s, es)
  {
    assert (es + [Abandoned])[..|es|] == es;
  }

  // ----- pending is queued or in flight, never both

  function BusyCount(c: seq<Phase>): nat {
    if c == [] then 0 else BusyCount(c[..|c| - 1]) + (if Busy(c[|c| - 1]) then 1 else 0)
  }

  lemma {:induction false} BusyCountUpdate(c: seq<Phase>, i: nat, p: Phase)
    requires i < |c|
    ensures BusyCount(c[i := p]) == BusyCount(c) + (if Busy(p) then 1 else 0) - (if Busy(c[i]) then 1 else 0)
  {
    var d := c[i := p];
    if i == |c| - 1 {
      assert d[..|d| - 1] == c[..|c| - 1];
    } else {
      BusyCountUpdate(c[..|c| - 1], i, p);
      assert d[..|d| - 1] == c[..|c| - 1][i := p];
    }
  }

  lemma {:induction false} BusyCountBound(c: seq<Phase>)
    ensures BusyCount(c) <= |c|
    ensures (forall i :: 0 <= i < |c| ==> !Busy(c[i])) <==> BusyCount(c) == 0
  {
    if c != [] { BusyCountBound(c[..|c| - 1]); }
  }

  ghost predicate Held(c: seq<Phase>, s: string) { exists i :: 0 <= i < |c| && Busy(c[i]) && c[i].source == s }

  predicate NoRepeats(q: seq<string>) { forall i, j :: 0 <= i < j < |q| ==> q[i] != q[j] }

  ghost predicate OnceHeld(c: seq<Phase>) {
    forall i, j :: 0 <= i < j < |c| && Busy(c[i]) && Busy(c[j]) ==> c[i].source != c[j].source
  }

  /** A source is pending exactly when it is queued or in flight; it is queued at most
      once, held by at most one consumer, and never both. The queue's count of
      unfinished tasks is the number of pending sources. */
  ghost predicate Exclusive(w: State) {
    && NoRepeats(w.queue)
    && OnceHeld(w.consumers)
    && (forall s :: Held(w.consumers, s) ==> s !in w.queue)
    && (forall s :: s in w.pending <==> s in w.queue || Held(w.consumers, s))
    && |w.pending| == w.unfinished == |w.queue| + BusyCount(w.consumers)
  }

  function Enqueued(w: State, s: string): State {
    w.(queue := w.queue + [s], pending := w.pending + {s}, unfinished := w.unfinished + 1)
  }

  lemma EnqueueExclusive(w: State, s: string)
    requires Exclusive(w) && s !in w.pending
    ensures Exclusive(Enqueued(w, s))
  {
    hide BusyCount;
  }

  lemma HeldAfter(c: seq<Phase>, i: nat, p: Phase, s: string)
    requires i < |c|
    ensures Held(c[i := p], s) <==>
      (Busy(p) && p.source == s) || exists j :: 0 <= j < |c| && j != i && Busy(c[j]) && c[j].source == s
  {
    var d := c[i := p];
    assert d[i] == p;
    if Busy(p) && p.source == s { assert Held(d, s); }
    if j :| 0 <= j < |c| && j != i && Busy(c[j]) && c[j].source == s { assert d[j] == c[j]; }
  }

  /** A consumer takes the head of the queue. */
  function Taken(w: State, i: nat, p: Phase): State
    requires w.queue != [] && i < |w.consumers|
  {
    w.(queue := w.queue[1..], consumers := w.consumers[i := p])
  }

  lemma TakeExclusive(w: State, i: nat, p: Phase)
    requires Exclusive(w) && w.queue != [] && i < |w.consumers| && w.consumers[i].Idle?
    requires Busy(p) && p.source == w.queue[0]
    ensures Exclusive(Taken(w, i, p))
  {
    hide BusyCount;
    BusyCountUpdate(w.consumers, i, p);
    forall s ensures Held(w.consumers[i := p], s) <==> s == p.source || Held(w.consumers, s) {
      HeldAfter(w.consumers, i, p, s);
      HeldAfter(w.consumers, i, w.consumers[i], s);
      assert w.consumers[i := w.consumers[i]] == w.consumers;
    }
    assert w.queue == [w.queue[0]] + w.queue[1..];
    forall j | 0 <= j < |w.consumers| && Busy(w.consumers[j]) ensures w.consumers[j].source != p.source {
      assert Held(w.consumers, w.consumers[j].source);
    }
    forall s ensures s in w.queue <==> s == p.source || s in w.queue[1..] { }
    assert p.source !in w.queue[1..];
  }

  /** A consumer moves on with the same source. */
  lemma MoveExclusive(w: State, i: nat, p: Phase)
    requires Exclusive(w) && i < |w.consumers| && Busy(w.consumers[i]) == Busy(p)
    requires Busy(p) ==> w.consumers[i].source == p.source
    ensures Exclusive(w.(consumers := w.consumers[i := p]))
  {
    hide BusyCount;
    BusyCountUpdate(w.consumers, i, p);
    forall s ensures Held(w.consumers[i := p], s) <==> Held(w.consumers, s) {
      HeldAfter(w.consumers, i, p, s);
      HeldAfter(w.consumers, i, w.consumers[i], s);
      assert w.consumers[i := w.consumers[i]] == w.consumers;
    }
  }

  /** A consumer lets go: the source is no longer pending and its task is done. */
  function Released(w: State, i: nat, p: Phase): State
    requires i < |w.consumers| && Busy(w.consumers[i]) && w.unfinished > 0
  {
    w.(pending := w.pending - {w.consumers[i].source}, unfinished := w.unfinished - 1, consumers := w.consumers[i := p])
  }

  lemma ReleaseExclusive(w: State, i: nat, p: Phase)
    requires Exclusive(w) && i < |w.consumers| && Busy(w.consumers[i]) && !Busy(p)
    ensures w.unfinished > 0 && Exclusive(Released(w, i, p))
  {
    hide BusyCount;
    var s0 := w.consumers[i].source;
    BusyCountUpdate(w.consumers, i, p);
    assert Held(w.consumers, s0);
    assert s0 in w.pending;
    forall s ensures Held(w.consumers[i := p], s) <==> s != s0 && Held(w.consumers, s) {
      HeldAfter(w.consumers, i, p, s);
      HeldAfter(w.consumers, i, w.consumers[i], s);
      assert w.consumers[i := w.consumers[i]] == w.consumers;
    }
  }

  // ----- health is the summary of what happened

  ghost predicate ActivelyHeld(c: seq<Phase>, s: string) {
    exists i :: 0 <= i < |c| && Active(c[i]) && c[i].source == s
  }

  /** The last thing that happened to the source is that it started. */
  ghost predicate Underway(events: map<string, seq<Event>>, s: string) {
    s in events && events[s] != [] && events[s][|events[s]| - 1].Started?
  }

  /** The last thing that happened to the source is that its start was abandoned. */
  ghost predicate Stranded(events: map<string, seq<Event>>, s: string) {
    s in events && events[s] != [] && events[s][|events[s]| - 1].Abandoned?
  }

  ghost predicate Faithful(health: map<string, Health>, events: map<string, seq<Event>>) {
    && health.Keys == events.Keys
    && forall s :: s in events ==> health[s] == Summary(s, events[s]) && Paired(events[s])
  }

  /** An active consumer's snapshot is still the current health, which is in flight. */
  ghost predicate Current(health: map<string, Health>, c: seq<Phase>) {
    forall i :: 0 <= i < |c| && Active(c[i]) ==>
      c[i].source in health && health[c[i].source] == c[i].snapshot && c[i].snapshot.inFlight
  }

  /** A consumer is at a source exactly while that source's last run is underway. */
  ghost predicate Attended(c: seq<Phase>, events: map<string, seq<Event>>) {
    forall s :: ActivelyHeld(c, s) <==> Underway(events, s)
  }

  ghost predicate Reported(w: State, events: map<string, seq<Event>>) {
    Faithful(w.health, events) && Current(w.health, w.consumers) && Attended(w.consumers, events)
  }

  function HealthOf(health: map<string, Health>, s: string): Health {
    if s in health then health[s] else Health(s, false, 0, 0, 0, None, None, None, None)
  }

  function Beginning(health: map<string, Health>, s: string, at: real): Health {
    HealthOf(health, s).(inFlight := true, started := Some(at))
  }

  function Finished(h: Health, o: Outcome, at: real): Health {
    match o
    case Success =>
      h.(inFlight := false, successes := h.successes + 1, consecutive := 0, succeeded := Some(at), error := None)
    case Failure(code) =>
      h.(inFlight := false, failures := h.failures + 1, consecutive := h.consecutive + 1, failed := Some(at),
         error := Some(code))
  }

  function EventOf(o: Outcome, at: real): Event {
    match o case Success => Succeeded(at) case Failure(code) => Failed(at, code)
  }

  lemma BeginFaithful(health: map<string, Health>, events: map<string, seq<Event>>, s: string, at: real)
    requires Faithful(health, events)
    ensures Faithful(health[s := Beginning(health, s, at)], Recorded(events, s, Started(at)))
  {
    SummaryOfStart(s, EventsOf(events, s), at);
  }

  lemma EndFaithful(health: map<string, Health>, events: map<string, seq<Event>>, s: string, h: Health, e: Event)
    requires Faithful(health, events) && Underway(events, s) && !e.Started?
    requires h == Summary(s, events[s] + [e])
    ensures Faithful(health[s := h], Recorded(events, s, e))
  {
    hide Successes, Failures, Trailing, LastStart, LastSuccess, LastFailure, LastError;
  }

  lemma ActivelyHeldAfter(c: seq<Phase>, i: nat, p: Phase, s: string)
    requires i < |c|
    ensures ActivelyHeld(c[i := p], s) <==>
      (Active(p) && p.source == s) || exists j :: 0 <= j < |c| && j != i && Active(c[j]) && c[j].source == s
  {
    var d := c[i := p];
    assert d[i] == p;
    if j :| 0 <= j < |c| && j != i && Active(c[j]) && c[j].source == s { assert d[j] == c[j]; }
  }

  /** Changing consumer i changes who is actively held by its old and new source only. */
  lemma ActivelyHeldMoves(c: seq<Phase>, i: nat, p: Phase, s: string)
    requires i < |c| && OnceHeld(c)
    ensures Active(c[i]) && c[i].source == s ==> (ActivelyHeld(c[i := p], s) <==> Active(p) && p.source == s)
    ensures !(Active(c[i]) && c[i].source == s) ==>
      (ActivelyHeld(c[i := p], s) <==> (Active(p) && p.source == s) || ActivelyHeld(c, s))
  {
    ActivelyHeldAfter(c, i, p, s);
    ActivelyHeldAfter(c, i, c[i], s);
    assert c[i := c[i]] == c;
    if Active(c[i]) && c[i].source == s {
      assert forall j :: 0 <= j < |c| && j != i && Active(c[j]) ==> Busy(c[j]) && Busy(c[i]) && c[j].source != s;
    }
  }

  /** Consumer i becomes active on a source nobody holds. */
  lemma BeginReported(w: State, events: map<string, seq<Event>>, i: nat, s: string, at: real)
    requires Reported(w, events) && OnceHeld(w.consumers)
    requires i < |w.consumers| && w.consumers[i].Idle? && !Held(w.consumers, s)
    ensures var h := Beginning(w.health, s, at);
      Reported(w.(health := w.health[s := h], consumers := w.consumers[i := Announcing(s, h)]),
               Recorded(events, s, Started(at)))
  {
    hide Faithful, ActivelyHeld;
    BeginFaithful(w.health, events, s, at);
    var h := Beginning(w.health, s, at);
    var p := Announcing(s, h);
    var c := w.consumers[i := p];
    var health := w.health[s := h];
    forall j | 0 <= j < |c| && Active(c[j])
      ensures c[j].source in health && health[c[j].source] == c[j].snapshot && c[j].snapshot.inFlight
    {
      if j != i { assert Busy(w.consumers[j]) && c[j] == w.consumers[j]; }
    }
    forall x ensures ActivelyHeld(c, x) <==> x == s || ActivelyHeld(w.consumers, x) {
      ActivelyHeldMoves(w.consumers, i, p, x);
    }
  }

  /** Consumer i changes phase, and neither who is actively held nor any health changes. */
  lemma MoveReported(w: State, events: map<string, seq<Event>>, i: nat, p: Phase)
    requires Reported(w, events) && OnceHeld(w.consumers) && i < |w.consumers| && Active(p) == Active(w.consumers[i])
    requires Active(p) ==> p.source == w.consumers[i].source && p.snapshot == w.consumers[i].snapshot
    ensures Reported(w.(consumers := w.consumers[i := p]), events)
  {
    hide Faithful, ActivelyHeld;
    var c := w.consumers[i := p];
    forall x ensures ActivelyHeld(c, x) <==> ActivelyHeld(w.consumers, x) {
      ActivelyHeldMoves(w.consumers, i, p, x);
      if Active(p) { AtWork(w.consumers, i); }
    }
  }

  lemma AtWork(c: seq<Phase>, i: nat)
    requires i < |c| && Active(c[i])
    ensures ActivelyHeld(c, c[i].source)
  {
  }

  /** Consumer i ends the run of its source with the health and the event that belong to it. */
  lemma EndReported(w: State, events: map<string, seq<Event>>, i: nat, h: Health, e: Event, p: Phase)
    requires Reported(w, events) && OnceHeld(w.consumers)
    requires i < |w.consumers| && Active(w.consumers[i]) && !Active(p)
    requires var s := w.consumers[i].source; s in events && h == Summary(s, events[s] + [e]) && !e.Started?
    ensures var s := w.consumers[i].source;
      Reported(w.(health := w.health[s := h], consumers := w.consumers[i := p]), Recorded(events, s, e))
  {
    hide Faithful, Successes, Failures, Trailing, LastStart, LastSuccess, LastFailure, LastError, ActivelyHeld;
    var s := w.consumers[i].source;
    AtWork(w.consumers, i);
    EndFaithful(w.health, events, s, h, e);
    var c := w.consumers[i := p];
    var health := w.health[s := h];
    forall j | 0 <= j < |c| && Active(c[j])
      ensures c[j].source in health && health[c[j].source] == c[j].snapshot && c[j].snapshot.inFlight
    {
      assert j != i && c[j] == w.consumers[j] && Busy(w.consumers[j]) && Busy(w.consumers[i]);
    }
    forall x ensures ActivelyHeld(c, x) <==> x != s && ActivelyHeld(w.consumers, x) {
      ActivelyHeldMoves(w.consumers, i, p, x);
    }
    assert (events[s] + [e])[|events[s]|] == e;
  }

  /** Consumer i dies announcing its source: the health table does not learn of it. */
  lemma AbandonReported(w: State, events: map<string, seq<Event>>, i: nat)
    requires Reported(w, events) && OnceHeld(w.consumers) && i < |w.consumers| && Active(w.consumers[i])
    ensures Reported(w.(consumers := w.consumers[i := Dead]), Recorded(events, w.consumers[i].source, Abandoned))
  {
    hide Successes, Failures, Trailing, LastStart, LastSuccess, LastFailure, LastError, ActivelyHeld, Summary;
    var s := w.consumers[i].source;
    AtWork(w.consumers, i);
    SummaryOfAbandon(s, events[s]);
    EndReported(w, events, i, w.health[s], Abandoned, Dead);
    assert w.health[s := w.health[s]] == w.health;
  }

  // ----- enqueues of a source are at least its interval apart

  predicate WellFormed(schedules: seq<Schedule>) {
    && (forall k :: 0 <= k < |schedules| ==> schedules[k].interval > 0.0 && 0.0 <= schedules[k].jitterRatio <= 1.0)
    && forall i, j :: 0 <= i < j < |schedules| ==> schedules[i].source != schedules[j].source
  }

  function MaximumJitter(s: Schedule): real { s.interval * s.jitterRatio }

  predicate Spaced(starts: seq<real>, interval: real) {
    forall i :: 0 < i < |starts| ==> starts[i] >= starts[i - 1] + interval
  }

  /** A source's next due time lies one jittered interval after its last enqueue. */
  predicate OnTime(s: Schedule, due: real, starts: seq<real>) {
    && Spaced(starts, s.interval)
    && (starts != [] ==> s.interval <= due - starts[|starts| - 1] <= s.interval + MaximumJitter(s))
  }

  ghost predicate Timed(schedules: seq<Schedule>, due: map<string, real>, starts: map<string, seq<real>>) {
    forall k :: 0 <= k < |schedules| ==>
      && schedules[k].source in due && schedules[k].source in starts
      && OnTime(schedules[k], due[schedules[k].source], starts[schedules[k].source])
  }

  lemma EnqueueTimed(schedules: seq<Schedule>, due: map<string, real>, starts: map<string, seq<real>>, k: nat,
                     now: real, jitter: real)
    requires WellFormed(schedules) && Timed(schedules, due, starts) && k < |schedules|
    requires now >= due[schedules[k].source] && 0.0 <= jitter <= MaximumJitter(schedules[k])
    ensures var s := schedules[k].source;
      Timed(schedules, due[s := now + schedules[k].interval + jitter], starts[s := starts[s] + [now]])
  {
    hide MaximumJitter;
  }

  /** The sources among the first k that are due and not pending, in schedule order. */
  function DueAmong(schedules: seq<Schedule>, w: State, now: real, k: nat): seq<string>
    requires k <= |schedules| && forall i :: 0 <= i < |schedules| ==> schedules[i].source in w.due
  {
    if k == 0 then []
    else
      var s := schedules[k - 1].source;
      DueAmong(schedules, w, now, k - 1) + (if now < w.due[s] || s in w.pending then [] else [s])
  }

  lemma {:induction false} DueAmongGrows(schedules: seq<Schedule>, w: State, now: real, k: nat, m: nat)
    requires k <= m <= |schedules| && forall i :: 0 <= i < |schedules| ==> schedules[i].source in w.due
    ensures DueAmong(schedules, w, now, k) <= DueAmong(schedules, w, now, m)
    decreases m
  {
    if k < m { DueAmongGrows(schedules, w, now, k, m - 1); }
  }

  lemma {:induction false} DueAmongOnly(schedules: seq<Schedule>, w: State, now: real, k: nat, s: string)
    requires k <= |schedules| && forall i :: 0 <= i < |schedules| ==> schedules[i].source in w.due
    ensures s in DueAmong(schedules, w, now, k) <==>
      exists i :: 0 <= i < k && schedules[i].source == s && now >= w.due[s] && s !in w.pending
  {
    if k > 0 { DueAmongOnly(schedules, w, now, k - 1, s); }
  }

  /** What a tick adds to the queue: the due sources in order, as far as there is room. */
  function Admitted(schedules: seq<Schedule>, w: State, now: real, capacity: nat): seq<string>
    requires |w.queue| <= capacity && forall i :: 0 <= i < |schedules| ==> schedules[i].source in w.due
  {
    var all := DueAmong(schedules, w, now, |schedules|);
    if |all| <= capacity - |w.queue| then all else all[..capacity - |w.queue|]
  }

  function Extended(times: seq<real>, again: bool, now: real): seq<real> { if again then times + [now] else times }

  /** The tick has considered the first k schedules, and taken up every due one. */
  ghost predicate Considered(schedules: seq<Schedule>, before: State, from: map<string, seq<real>>, now: real, k: nat,
                             w: State, starts: map<string, seq<real>>)
    requires k <= |schedules| && forall i :: 0 <= i < |schedules| ==> schedules[i].source in before.due
  {
    var taken := DueAmong(schedules, before, now, k);
    && w.queue == before.queue + taken
    && w.health == before.health && w.consumers == before.consumers
    && (forall s :: s in w.pending <==> s in before.pending || s in taken)
    && w.due.Keys == before.due.Keys && starts.Keys == from.Keys
    && (forall s :: s in before.due && s !in taken ==> w.due[s] == before.due[s])
    && (forall s :: s in from ==> starts[s] == Extended(from[s], s in taken, now))
  }

  lemma ConsiderNext(schedules: seq<Schedule>, before: State, from: map<string, seq<real>>, now: real, k: nat, w: State,
                     starts: map<string, seq<real>>, due: real)
    requires WellFormed(schedules) && k < |schedules|
    requires forall i :: 0 <= i < |schedules| ==> schedules[i].source in before.due && schedules[i].source in from
    requires Considered(schedules, before, from, now, k, w, starts)
    ensures var s := schedules[k].source;
      && s in w.due && s in starts
      && (now < w.due[s] || s in w.pending ==> Considered(schedules, before, from, now, k + 1, w, starts))
      && (now >= w.due[s] && s !in w.pending ==>
           && |DueAmong(schedules, before, now, k + 1)| == |DueAmong(schedules, before, now, k)| + 1
           && Considered(schedules, before, from, now, k + 1,
                         Enqueued(w, s).(due := w.due[s := due]), starts[s := starts[s] + [now]]))
  {
    var s := schedules[k].source;
    assert s !in DueAmong(schedules, before, now, k) by {
      DueAmongOnly(schedules, before, now, k, s);
    }
    assert schedules[k].source in before.due;
  }

  lemma EnqueueKeeps(w: State, s: string, due: map<string, real>, events: map<string, seq<Event>>)
    requires Exclusive(w) && s !in w.pending && Reported(w, events)
    ensures Exclusive(Enqueued(w, s).(due := due)) && Reported(Enqueued(w, s).(due := due), events)
  {
    hide Faithful, Current, Attended, NoRepeats;
    EnqueueExclusive(w, s);
  }

  // ----- the running worker

  datatype Step =
    | Tick(now: real, jitters: seq<real>)
    | Begin(i: nat, at: real)
    | Announce(i: nat, ok: bool)
    | Finish(i: nat, outcome: Outcome, at: real)
    | Report(i: nat, ok: bool)
    | Cancel(i: nat)

  /** A consumer lets go of a source it is still announcing: the run is abandoned. */
  function Forsaken(events: map<string, seq<Event>>, p: Phase): map<string, seq<Event>> {
    if p.Announcing? then Recorded(events, p.source, Abandoned) else events
  }

  /** What a step, performed in this state, adds to the history of which source. */
  function LoggedBy(step: Step, w: State): Option<(string, Event)> {
    match step
    case Begin(i, at) =>
      if i < |w.consumers| && w.consumers[i].Idle? && w.queue != [] then Some((w.queue[0], Started(at))) else None
    case Announce(i, ok) =>
      if i < |w.consumers| && w.consumers[i].Announcing? && !ok then Some((w.consumers[i].source, Abandoned)) else None
    case Finish(i, outcome, at) =>
      if i < |w.consumers| && w.consumers[i].Running? then Some((w.consumers[i].source, EventOf(outcome, at))) else None
    case Cancel(i) =>
      if i < |w.consumers| && w.consumers[i].Announcing? then Some((w.consumers[i].source, Abandoned))
      else if i < |w.consumers| && w.consumers[i].Running? then Some((w.consumers[i].source, Stopped))
      else None
    case _ => None
  }

  function Logged(events: map<string, seq<Event>>, entry: Option<(string, Event)>): map<string, seq<Event>> {
    if entry.Some? then Recorded(events, entry.value.0, entry.value.1) else events
  }

  /** The history of all sources after these steps, the k-th performed in the k-th state. */
  function History(events: map<string, seq<Event>>, steps: seq<Step>, trace: seq<State>): map<string, seq<Event>>
    requires |steps| <= |trace|
  {
    if steps == [] then events
    else
      var n := |steps| - 1;
      Logged(History(events, steps[..n], trace), LoggedBy(steps[n], trace[n]))
  }

  lemma HistoryNext(events: map<string, seq<Event>>, steps: seq<Step>, trace: seq<State>, k: nat, after: State)
    requires k < |steps| && |trace| == k + 1
    ensures History(events, steps[..k + 1], trace + [after])
      == Logged(History(events, steps[..k], trace), LoggedBy(steps[k], trace[k]))
  {
    assert steps[..k + 1][..k] == steps[..k];
    HistorySame(events, steps[..k], trace, after);
  }

  lemma {:induction false} HistorySame(events: map<string, seq<Event>>, steps: seq<Step>, trace: seq<State>,
                                       after: State)
    requires |steps| <= |trace|
    ensures History(events, steps, trace + [after]) == History(events, steps, trace)
  {
    if steps != [] { HistorySame(events, steps[..|steps| - 1], trace, after); }
  }

  predicate Fair(schedules: seq<Schedule>, jitters: seq<real>) {
    |jitters| == |schedules| && forall k :: 0 <= k < |jitters| ==> 0.0 <= jitters[k] <= MaximumJitter(schedules[k])
  }

  /** An immediate source is due at once, any other after its interval and at most its jitter. */
  ghost predicate InitiallyDue(s: Schedule, now: real, due: real) {
    if s.immediate then due == now else now + s.interval <= due <= now + s.interval + MaximumJitter(s)
  }

  ghost predicate AllDead(c: seq<Phase>) { forall i :: 0 <= i < |c| ==> c[i].Dead? }

  /** What no step undoes. */
  ghost predicate Onward(before: State, after: State) {
    && |before.consumers| == |after.consumers|
    && (forall i :: 0 <= i < |before.consumers| && before.consumers[i].Dead? ==> after.consumers[i].Dead?)
    && (AllDead(before.consumers) ==> before.queue <= after.queue && before.pending <= after.pending)
  }

  class Scheduler {
    const schedules: seq<Schedule>
    const policy: Policy
    var w: State
    ghost var starts: map<string, seq<real>>
    ghost var events: map<string, seq<Event>>

    ghost predicate Valid()
      reads this
    {
      && WellFormed(schedules)
      && |w.consumers| == policy.concurrency && |w.queue| <= policy.capacity
      && Exclusive(w)
      && Reported(w, events)
      && Timed(schedules, w.due, starts)
    }

    constructor (schedules: seq<Schedule>, policy: Policy, now: real, jitters: seq<real>)
      requires WellFormed(schedules) && Fair(schedules, jitters)
      ensures Valid() && this.schedules == schedules && this.policy == policy
      ensures events == map[] && w.queue == [] && w.pending == {}
      ensures forall k :: 0 <= k < |schedules| ==>
        && schedules[k].source in w.due && starts[schedules[k].source] == []
        && InitiallyDue(schedules[k], now, w.due[schedules[k].source])
    {
      this.schedules, this.policy := schedules, policy;
      var due: map<string, real> := map[];
      ghost var none: map<string, seq<real>> := map[];
      for k := 0 to |schedules|
        invariant forall j :: 0 <= j < k ==>
          && schedules[j].source in due && schedules[j].source in none && none[schedules[j].source] == []
          && InitiallyDue(schedules[j], now, due[schedules[j].source])
      {
        var s := schedules[k];
        due := due[s.source := if s.immediate then now else now + s.interval + jitters[k]];
        none := none[s.source := []];
      }
      var consumers := seq(policy.concurrency, i => Idle);
      BusyCountBound(consumers);
      w := State([], {}, 0, due, map[], consumers);
      starts, events := none, map[];
    }

    /** The producer's pass over the schedules. */
    method TickAt(now: real, jitters: seq<real>)
      requires Valid() && Fair(schedules, jitters)
      modifies this
      ensures Valid() && Onward(old(w), w) && events == old(events)
      ensures w.queue == old(w).queue + Admitted(schedules, old(w), now, policy.capacity)
      ensures w.health == old(w).health && w.consumers == old(w).consumers
      ensures forall s :: s in old(starts) ==>
        s in starts && starts[s] == Extended(old(starts)[s], s in Admitted(schedules, old(w), now, policy.capacity), now)
    {
      hide Exclusive, Reported, MaximumJitter, OnTime, Considered, DueAmong;
      ghost var before, from := w, starts;
      ConsiderNone(before, from, now);
      var k := 0;
      while k < |schedules|
        invariant k <= |schedules| && Valid() && events == old(events)
        invariant Considered(schedules, before, from, now, k, w, starts)
      {
        var s := schedules[k].source;
        ghost var due := now + schedules[k].interval + jitters[k];
        ConsiderNext(schedules, before, from, now, k, w, starts, due);
        if now >= w.due[s] && s !in w.pending {
          if |w.queue| == policy.capacity {
            break;
          }
          EnqueueTimed(schedules, w.due, starts, k, now, jitters[k]);
          EnqueueKeeps(w, s, w.due[s := due], events);
          w := Enqueued(w, s).(due := w.due[s := now + schedules[k].interval + jitters[k]]);
          starts := starts[s := starts[s] + [now]];
        }
        k := k + 1;
      }
      ConsideredEnough(before, from, now, k, w, starts);
    }

    lemma ConsiderNone(w: State, starts: map<string, seq<real>>, now: real)
      requires Timed(schedules, w.due, starts)
      ensures Considered(schedules, w, starts, now, 0, w, starts)
    {
    }

    /** Whether the pass ended or broke off at a full queue, it took what there was room for. */
    lemma ConsideredEnough(before: State, from: map<string, seq<real>>, now: real, k: nat, w: State,
                           starts: map<string, seq<real>>)
      requires Timed(schedules, before.due, from)
      requires k <= |schedules| && Considered(schedules, before, from, now, k, w, starts)
      requires |before.queue| <= policy.capacity && |w.queue| <= policy.capacity
      requires k < |schedules| ==>
        && |w.queue| == policy.capacity
        && |DueAmong(schedules, before, now, k + 1)| == |DueAmong(schedules, before, now, k)| + 1
      ensures w.queue == before.queue + Admitted(schedules, before, now, policy.capacity)
      ensures w.health == before.health && w.consumers == before.consumers && before.pending <= w.pending
      ensures forall s :: s in from ==>
        s in starts && starts[s] == Extended(from[s], s in Admitted(schedules, before, now, policy.capacity), now)
    {
      DueAmongGrows(schedules, before, now, k, |schedules|);
    }

    /** An idle consumer takes the head of the queue and announces the run. */
    method BeginRun(i: nat, at: real)
      requires Valid() && i < |w.consumers| && w.consumers[i].Idle? && w.queue != []
      modifies this
      ensures Valid() && Onward(old(w), w) && starts == old(starts)
      ensures var s := old(w).queue[0];
        var h := Beginning(old(w).health, s, at);
        && w == Taken(old(w), i, Announcing(s, h)).(health := old(w).health[s := h])
        && events == Recorded(old(events), s, Started(at))
    {
      hide Exclusive, Reported, Timed, WellFormed, Summary, BusyCount;
      var s := w.queue[0];
      var h := Beginning(w.health, s, at);
      HeadIsFree(w);
      HeldOnce(w);
      TakeExclusive(w, i, Announcing(s, h));
      BeginReported(w, events, i, s, at);
      SameExclusive(Taken(w, i, Announcing(s, h)), w.health[s := h]);
      SameReported(w.(health := w.health[s := h], consumers := w.consumers[i := Announcing(s, h)]), w.queue[1..],
                   w.pending, w.unfinished, Recorded(events, s, Started(at)));
      events := Recorded(events, s, Started(at));
      w := Taken(w, i, Announcing(s, h)).(health := w.health[s := h]);
    }

    /** The start was recorded, or recording it failed: then the consumer dies and the
        health table keeps saying the source is in flight. */
    method AnnounceRun(i: nat, ok: bool)
      requires Valid() && i < |w.consumers| && w.consumers[i].Announcing?
      modifies this
      ensures Valid() && Onward(old(w), w) && starts == old(starts)
      ensures events == if ok then old(events) else Recorded(old(events), old(w).consumers[i].source, Abandoned)
      ensures var p := old(w).consumers[i];
        if ok then w == old(w).(consumers := old(w).consumers[i := Running(p.source, p.snapshot)])
        else old(w).unfinished > 0 && w == Released(old(w), i, Dead)
      ensures !ok ==>
        var s := old(w).consumers[i].source;
        s in w.health && w.health[s].inFlight && !Held(w.consumers, s)
    {
      hide Exclusive, Reported, Timed, WellFormed, Summary, BusyCount, Held;
      ActiveInFlight(w, events, i);
      HeldOnce(w);
      if ok {
        var p := Running(w.consumers[i].source, w.consumers[i].snapshot);
        MoveExclusive(w, i, p);
        MoveReported(w, events, i, p);
        w := w.(consumers := w.consumers[i := p]);
      } else {
        LetGo(i, Dead);
        NoLongerHeld(w);
      }
    }

    /** The finally block: discard the source from pending and count its task as done. A
        consumer that is still active here was announcing, and dies. */
    method LetGo(i: nat, p: Phase)
      requires Valid() && i < |w.consumers| && Busy(w.consumers[i]) && !Busy(p)
      requires Active(w.consumers[i]) ==> w.consumers[i].Announcing? && p.Dead?
      modifies this
      ensures Valid() && old(w).unfinished > 0 && w == Released(old(w), i, p)
      ensures Onward(old(w), w) && starts == old(starts)
      ensures events == Forsaken(old(events), old(w).consumers[i])
    {
      hide Exclusive, Reported, Timed, WellFormed, Summary, BusyCount;
      HeldOnce(w);
      ReleaseExclusive(w, i, p);
      if Active(w.consumers[i]) {
        AbandonReported(w, events, i);
      } else {
        MoveReported(w, events, i, p);
      }
      events := Forsaken(events, w.consumers[i]);
      SameReported(w.(consumers := w.consumers[i := p]), w.queue, w.pending - {w.consumers[i].source}, w.unfinished - 1,
                   events);
      w := Released(w, i, p);
    }

    /** The ingestion returned or failed: the health written is built from the
        snapshot taken at the start, and yet it is right. */
    method FinishRun(i: nat, outcome: Outcome, at: real)
      requires Valid() && i < |w.consumers| && w.consumers[i].Running?
      modifies this
      ensures Valid() && Onward(old(w), w) && starts == old(starts)
      ensures var s := old(w).consumers[i].source;
        && s in old(w).health && events == Recorded(old(events), s, EventOf(outcome, at))
        && w == old(w).(health := old(w).health[s := Finished(old(w).health[s], outcome, at)],
                        consumers := old(w).consumers[i := Reporting(s, false)])
    {
      hide Exclusive, Reported, Timed, WellFormed, BusyCount, Successes, Failures, Trailing, LastStart, LastSuccess,
           LastFailure, LastError;
      var p := w.consumers[i];
      SnapshotIsCurrent(w, events, i);
      FinishedSummary(p.source, events[p.source], outcome, at);
      End(i, Finished(p.snapshot, outcome, at), EventOf(outcome, at), false);
    }

    /** Writes the health a run ended with. */
    method End(i: nat, h: Health, ghost e: Event, last: bool)
      requires Valid() && i < |w.consumers| && w.consumers[i].Running? && !e.Started?
      requires var s := w.consumers[i].source; s in events && h == Summary(s, events[s] + [e])
      modifies this
      ensures Valid() && Onward(old(w), w) && starts == old(starts)
      ensures var s := old(w).consumers[i].source;
        && events == Recorded(old(events), s, e)
        && w == old(w).(health := old(w).health[s := h], consumers := old(w).consumers[i := Reporting(s, last)])
    {
      hide Exclusive, Reported, Timed, WellFormed, Summary, BusyCount;
      var s := w.consumers[i].source;
      HeldOnce(w);
      EndReported(w, events, i, h, e, Reporting(s, last));
      MoveExclusive(w, i, Reporting(s, last));
      SameExclusive(w.(consumers := w.consumers[i := Reporting(s, last)]), w.health[s := h]);
      events := Recorded(events, s, e);
      w := w.(health := w.health[s := h], consumers := w.consumers[i := Reporting(s, last)]);
    }

    /** The outcome was recorded, or recording it failed. */
    method ReportRun(i: nat, ok: bool)
      requires Valid() && i < |w.consumers| && w.consumers[i].Reporting?
      modifies this
      ensures Valid() && Onward(old(w), w) && starts == old(starts) && events == old(events)
      ensures old(w).unfinished > 0
      ensures w == Released(old(w), i, if ok && !old(w).consumers[i].last then Idle else Dead)
    {
      LetGo(i, if ok && !w.consumers[i].last then Idle else Dead);
    }

    /** A cancellation reaches consumer i at the await where it is suspended. */
    method CancelConsumer(i: nat)
      requires Valid() && i < |w.consumers|
      modifies this
      ensures Valid() && Onward(old(w), w) && starts == old(starts)
      ensures var p := old(w).consumers[i];
        match p
        case Dead => w == old(w) && events == old(events)
        case Idle => w == old(w).(consumers := old(w).consumers[i := Dead]) && events == old(events)
        case Running(s, h) =>
          && s in old(w).health && events == Recorded(old(events), s, Stopped)
          && var stopped := old(w).health[s].(inFlight := false, error := Some("worker_shutdown"));
             w == old(w).(health := old(w).health[s := stopped], consumers := old(w).consumers[i := Reporting(s, true)])
        case _ => old(w).unfinished > 0 && w == Released(old(w), i, Dead) && events == Forsaken(old(events), p)
    {
      hide Exclusive, Reported, Timed, WellFormed, BusyCount, Successes, Failures, Trailing, LastStart, LastSuccess,
           LastFailure, LastError;
      var p := w.consumers[i];
      if p.Idle? {
        MoveExclusive(w, i, Dead);
        HeldOnce(w);
        MoveReported(w, events, i, Dead);
        w := w.(consumers := w.consumers[i := Dead]);
      } else if p.Running? {
        SnapshotIsCurrent(w, events, i);
        SummaryOfStop(p.source, events[p.source]);
        End(i, p.snapshot.(inFlight := false, error := Some("worker_shutdown")), Stopped, true);
      } else if !p.Dead? {
        LetGo(i, Dead);
      }
    }

    /** One step, if it applies. */
    method Perform(step: Step)
      requires Valid() && (step.Tick? ==> Fair(schedules, step.jitters))
      modifies this
      ensures Valid() && Onward(old(w), w)
      ensures events == Logged(old(events), LoggedBy(step, old(w)))
    {
      hide Exclusive, Reported, Timed, WellFormed, Summary, BusyCount, Admitted, Recorded;
      match step {
        case Tick(now, jitters) => TickAt(now, jitters);
        case Begin(i, at) =>
          if i < |w.consumers| && w.consumers[i].Idle? && w.queue != [] { BeginRun(i, at); }
        case Announce(i, ok) =>
          if i < |w.consumers| && w.consumers[i].Announcing? { AnnounceRun(i, ok); }
        case Finish(i, outcome, at) =>
          if i < |w.consumers| && w.consumers[i].Running? { FinishRun(i, outcome, at); }
        case Report(i, ok) =>
          if i < |w.consumers| && w.consumers[i].Reporting? { ReportRun(i, ok); }
        case Cancel(i) =>
          if i < |w.consumers| { CancelConsumer(i); }
      }
    }

    /** Every interleaving. The trace holds the state each step met, and the histories are
        what the steps logged there. */
    method Interleave(steps: seq<Step>) returns (ghost trace: seq<State>)
      requires Valid() && forall k :: 0 <= k < |steps| && steps[k].Tick? ==> Fair(schedules, steps[k].jitters)
      modifies this
      ensures Valid() && Onward(old(w), w)
      ensures |trace| == |steps| + 1 && trace[0] == old(w) && trace[|steps|] == w
      ensures events == History(old(events), steps, trace)
      ensures |w.pending| == |w.queue| + BusyCount(w.consumers) <= policy.capacity + policy.concurrency
      ensures forall s :: s in w.pending <==> s in w.queue || Held(w.consumers, s)
      ensures forall s :: !(s in w.queue && Held(w.consumers, s))
      ensures w.unfinished == 0 <==> w.queue == [] && forall i :: 0 <= i < |w.consumers| ==> !Busy(w.consumers[i])
      ensures w.health.Keys == events.Keys
      ensures forall s :: s in events ==>
        w.health[s] == Summary(s, events[s]) && Accurate(w.health[s], events[s]) && Paired(events[s])
      // A source is shown in flight exactly while a consumer is at it or its last start was abandoned.
      ensures forall s :: ActivelyHeld(w.consumers, s) <==> Underway(events, s)
      ensures forall s :: (s in w.health && w.health[s].inFlight) <==> ActivelyHeld(w.consumers, s) || Stranded(events, s)
      ensures forall k :: 0 <= k < |schedules| ==>
        schedules[k].source in starts && Spaced(starts[schedules[k].source], schedules[k].interval)
    {
      hide Exclusive, Reported, Timed, WellFormed, Summary, BusyCount, Held, LoggedBy, Logged, ActivelyHeld, Accurate;
      trace := [w];
      for k := 0 to |steps|
        invariant Valid() && Onward(old(w), w)
        invariant |trace| == k + 1 && trace[0] == old(w) && trace[k] == w
        invariant events == History(old(events), steps[..k], trace)
      {
        ghost var before := trace;
        Perform(steps[k]);
        HistoryNext(old(events), steps, before, k, w);
        trace := trace + [w];
      }
      assert steps[..|steps|] == steps;
      BusyCountBound(w.consumers);
      InFlightIsExact(w, events);
      Unpacked(w, events, schedules, starts);
      forall s | s in events ensures Accurate(Summary(s, events[s]), events[s]) { SummaryMeans(s, events[s]); }
    }
  }

  lemma Unpacked(w: State, events: map<string, seq<Event>>, schedules: seq<Schedule>, starts: map<string, seq<real>>)
    requires Exclusive(w) && Reported(w, events) && Timed(schedules, w.due, starts)
    ensures |w.pending| == w.unfinished == |w.queue| + BusyCount(w.consumers)
    ensures forall s :: s in w.pending <==> s in w.queue || Held(w.consumers, s)
    ensures forall s :: !(s in w.queue && Held(w.consumers, s))
    ensures w.health.Keys == events.Keys
    ensures forall s :: s in events ==> w.health[s] == Summary(s, events[s]) && Paired(events[s])
    ensures forall k :: 0 <= k < |schedules| ==>
      schedules[k].source in starts && Spaced(starts[schedules[k].source], schedules[k].interval)
  {
  }

  lemma HeadIsFree(w: State)
    requires Exclusive(w) && w.queue != []
    ensures !Held(w.consumers, w.queue[0])
  {
    assert w.queue[0] in w.queue;
  }

  lemma ActiveInFlight(w: State, events: map<string, seq<Event>>, i: nat)
    requires Reported(w, events) && i < |w.consumers| && Active(w.consumers[i])
    ensures w.consumers[i].source in w.health && w.health[w.consumers[i].source].inFlight
  {
  }

  lemma NoLongerHeld(w: State)
    requires Exclusive(w)
    ensures forall s :: s !in w.pending ==> !Held(w.consumers, s)
  {
  }

  lemma HeldOnce(w: State)
    requires Exclusive(w)
    ensures OnceHeld(w.consumers)
  {
  }

  lemma SameExclusive(w: State, health: map<string, Health>)
    requires Exclusive(w)
    ensures Exclusive(w.(health := health))
  {
  }

  lemma SameReported(w: State, queue: seq<string>, pending: set<string>, unfinished: nat,
                     events: map<string, seq<Event>>)
    requires Reported(w, events)
    ensures Reported(w.(queue := queue, pending := pending, unfinished := unfinished), events)
  {
    hide Faithful, Current, Attended;
  }

  lemma SnapshotIsCurrent(w: State, events: map<string, seq<Event>>, i: nat)
    requires Reported(w, events) && i < |w.consumers| && Active(w.consumers[i])
    ensures var p := w.consumers[i];
      p.source in w.health && p.source in events && p.snapshot == w.health[p.source] == Summary(p.source, events[p.source])
  {
  }

  lemma FinishedSummary(s: string, es: seq<Event>, o: Outcome, at: real)
    ensures Finished(Summary(s, es), o, at) == Summary(s, es + [EventOf(o, at)])
  {
    match o {
      case Success => SummaryOfSuccess(s, es, at);
      case Failure(code) => SummaryOfFailure(s, es, at, code);
    }
  }

  /** The table shows a source in flight exactly while a consumer is at it or its last start
      was abandoned; so it is right about every source if and only if none is stranded. */
  lemma InFlightIsExact(w: State, events: map<string, seq<Event>>)
    requires Reported(w, events)
    ensures forall s :: ActivelyHeld(w.consumers, s) <==> Underway(events, s)
    ensures forall s :: (s in w.health && w.health[s].inFlight) <==> ActivelyHeld(w.consumers, s) || Stranded(events, s)
    ensures (forall s :: (s in w.health && w.health[s].inFlight) <==> ActivelyHeld(w.consumers, s))
      <==> forall s :: !Stranded(events, s)
  {
    hide Current, ActivelyHeld, Successes, Failures, Trailing, LastStart, LastSuccess, LastFailure, LastError;
    forall s ensures (s in w.health && w.health[s].inFlight) <==> Underway(events, s) || Stranded(events, s) {
      assert s in events ==> w.health[s] == Summary(s, events[s]);
    }
  }
}
