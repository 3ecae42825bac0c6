/** The life of one source file: the table of allowed status changes, and what the
    ingestion service, its archive-only and replay forms and the recovery of stale
    jobs do to the status when any call may fail before or after taking effect. */
module Lifecycle {

  datatype Status =
    | Discovered | Downloading | Archived | Parsing | Staged | Validating | Applying
    | Completed | Quarantined | FailedRetryable | FailedTerminal

  // ----- the table

  function Allowed(s: Status): set<Status> {
    match s
    case Discovered => {Downloading, FailedRetryable, FailedTerminal}
    case Downloading => {Archived, FailedRetryable, FailedTerminal}
    case Archived => {Parsing, Quarantined, FailedRetryable, FailedTerminal}
    case Parsing => {Staged, Quarantined, FailedRetryable, FailedTerminal}
    case Staged => {Validating, Quarantined, FailedRetryable, FailedTerminal}
    case Validating => {Applying, Quarantined, FailedRetryable, FailedTerminal}
    case Applying => {Completed, Quarantined, FailedRetryable, FailedTerminal}
    case FailedRetryable => {Archived, Downloading, Parsing, Validating, Applying, FailedTerminal}
    case Completed => {}
    case Quarantined => {}
    case FailedTerminal => {}
  }

  predicate Terminal(s: Status) { s == Completed || s == Quarantined || s == FailedTerminal }

  /** In the middle of a download or of processing, or archived and waiting. */
  predicate Underway(s: Status) { s in {Downloading, Archived, Parsing, Staged, Validating, Applying} }

  predicate CanQuarantine(s: Status) { s in {Archived, Parsing, Staged, Validating, Applying} }

  /** The changes the service makes: fewer than the table allows. */
  predicate Serves(s: Status, t: Status) {
    match t
    case Discovered => false
    case Downloading => s == Discovered || s == FailedRetryable
    case Archived => s == Downloading || s == FailedRetryable
    case Parsing => s == Archived || s == FailedRetryable
    case Staged => s == Parsing
    case Validating => s == Staged
    case Applying => s == Validating
    case Completed => s == Applying
    case Quarantined => CanQuarantine(s)
    case FailedRetryable => !Terminal(s) && s != FailedRetryable
    case FailedTerminal => !Terminal(s)
  }

  /** What the service asks for is in the table; a retryable failure of a retryable
      failure is the one request that is not. */
  lemma ServedIsAllowed(s: Status, t: Status)
    ensures Serves(s, t) ==> t in Allowed(s)
    ensures FailedRetryable !in Allowed(FailedRetryable)
  {
  }

  // ----- a file's history

  predicate Chain(trail: seq<Status>) {
    && trail != [] && trail[0] == Discovered
    && forall i :: 0 < i < |trail| ==> Serves(trail[i - 1], trail[i])
  }

  /** No terminal status is ever left. */
  lemma NeverLeft(trail: seq<Status>, i: nat)
    requires Chain(trail) && i + 1 < |trail|
    ensures !Terminal(trail[i])
  {
    assert Serves(trail[i], trail[i + 1]);
  }

  /** A completed file was parsed, staged, validated and applied in one go. */
  lemma CompletedPath(trail: seq<Status>)
    requires Chain(trail) && trail[|trail| - 1] == Completed
    ensures |trail| >= 6 && trail[|trail| - 5..] == [Parsing, Staged, Validating, Applying, Completed]
    ensures trail[|trail| - 6] == Archived || trail[|trail| - 6] == FailedRetryable
  {
    var n := |trail|;
    assert Serves(trail[n - 2], trail[n - 1]);
    assert Serves(trail[n - 3], trail[n - 2]);
    assert Serves(trail[n - 4], trail[n - 3]);
    assert Serves(trail[n - 5], trail[n - 4]);
    assert Serves(trail[n - 6], trail[n - 5]);
  }

  datatype Summary = Summary(accepted: nat, rejected: nat)

  /** What the current parse has established. */
  datatype Evidence = Evidence(staged: bool, summary: Summary, clean: bool, applied: bool)

  const NOTHING := Evidence(false, Summary(0, 0), false, false)

  predicate Excessive(s: Summary, fraction: real) {
    s.rejected > 0 && (s.accepted == 0 || s.rejected as real / (s.accepted + s.rejected) as real > fraction)
  }

  predicate Passes(e: Evidence, fraction: real) { e.staged && e.clean && !Excessive(e.summary, fraction) }

  predicate Earned(e: Evidence, fraction: real) { Passes(e, fraction) && e.applied }

  predicate NeedsArchive(s: Status) { s in {Archived, Parsing, Staged, Validating, Applying, Completed, Quarantined} }

  ghost predicate Sound(status: Status, hasArchive: bool, trail: seq<Status>, evidence: Evidence, fraction: real) {
    && Chain(trail) && trail[|trail| - 1] == status
    && (hasArchive <==> Archived in trail)
    && (NeedsArchive(status) ==> hasArchive)
    && (status == Discovered || status == Downloading ==> !hasArchive)
    && (status == Completed ==> Earned(evidence, fraction))
  }

  // ----- failures

  datatype Error = Error(makolet: bool, quarantining: bool, retryable: bool, retried: bool, cancelled: bool)

  const CONFLICT := Error(false, false, false, false, false)
  const INVALID_TRANSITION := Error(true, false, false, false, false)
  const UNPROCESSABLE := Error(true, true, false, false, false)
  const UNREACHABLE := Error(true, false, true, true, false)
  const INTEGRITY := Error(true, false, false, false, false)

  datatype Result = Ok | Raised(error: Error)

  /** A call goes through, fails without effect, or takes effect and then fails. */
  datatype Fate = Through | Before(error: Error) | After(error: Error)

  datatype World = World(
    fate: nat -> Fate,
    bytes: nat -> nat,
    summary: nat -> Summary,
    issue: nat -> bool,
    lease: nat -> bool,
    intact: nat -> bool)

  datatype Policy = Policy(attempts: nat, fraction: real)

  /** Nothing goes wrong from n on. */
  ghost predicate Calm(world: World, n: nat) {
    forall k :: k >= n ==> world.fate(k) == Through && world.lease(k) && world.intact(k)
  }

  /** Then nothing goes wrong from any later point on, and the next two calls go through. */
  lemma CalmOn(world: World, n: nat, later: nat)
    requires n <= later
    ensures Calm(world, n) ==>
      Calm(world, later) && world.fate(later).Through? && world.fate(later + 1).Through?
  {
  }

  /** The calls before any work go through. */
  ghost predicate Entered(world: World, n: nat) {
    world.fate(n).Through? && world.lease(n + 1) && world.fate(n + 1).Through?
  }

  /** The parse that starts at n finds nothing to quarantine and rejects an acceptable fraction. */
  ghost predicate Accepted(world: World, n: nat, fraction: real) {
    var s := world.summary(n + 2);
    && !world.issue(n + 5)
    && (s.rejected == 0 || (s.accepted > 0 && s.rejected as real <= fraction * (s.accepted + s.rejected) as real))
  }

  lemma AcceptedExactly(world: World, n: nat, fraction: real)
    ensures Accepted(world, n, fraction) <==> !world.issue(n + 5) && !Excessive(world.summary(n + 2), fraction)
  {
    var s := world.summary(n + 2);
    var total := (s.accepted + s.rejected) as real;
    if s.rejected > 0 {
      assert s.rejected as real / total * total == s.rejected as real;
    }
  }

  /** From n on the file is marked as downloading, and then every one of `made` transfers
      fails: all but the last in a way that is retried, the last with e, which is final or
      out of attempts. */
  ghost predicate TransfersFail(world: World, attempts: nat, n: nat, made: nat, e: Error) {
    && 1 <= made <= attempts && world.fate(n).Through?
    && (forall k :: n < k <= n + made ==> !world.fate(k).Through? && world.fate(k).error.makolet)
    && (forall k :: n < k < n + made ==> world.fate(k).error.retryable && world.fate(k).error.retried)
    && e == world.fate(n + made).error && (made == attempts || !(e.retryable && e.retried))
  }

  lemma TransferFails(world: World, attempts: nat, n: nat, made: nat, e: Error, attempt: nat)
    requires TransfersFail(world, attempts, n, made, e) && attempt < made
    ensures made <= attempts && !world.fate(n + 1 + attempt).Through?
    ensures var error := world.fate(n + 1 + attempt).error;
      && error.makolet && (attempt + 1 < made ==> error.retryable && error.retried)
      && (attempt + 1 == made ==> error == e && (made == attempts || !(e.retryable && e.retried)))
  {
  }

  lemma FirstTransfer(world: World, attempts: nat, n: nat)
    ensures forall made: nat, e :: TransfersFail(world, attempts, n, made, e) ==> made > 0 && world.fate(n).Through?
    ensures Serves(Discovered, Downloading) && Serves(FailedRetryable, Downloading)
    ensures forall s :: Serves(s, Downloading) ==> s in {Discovered, FailedRetryable}
  {
  }

  lemma OneFailure(world: World, attempts: nat, n: nat, m: nat, x: Error, k: nat, y: Error)
    requires DownloadFails(world, attempts, n, m, x) && DownloadFails(world, attempts, n, k, y)
    ensures m == k && x == y
  {
  }

  lemma FailureParts(world: World, attempts: nat, n: nat, made: nat, e: Error)
    requires DownloadFails(world, attempts, n, made, e)
    ensures TransfersFail(world, attempts, n, made, e) && e.makolet && !e.cancelled
    ensures world.fate(n + made + 1).Through? && world.fate(n + made + 2).Through?
  {
  }

  /** The transfers fail and the failure can be recorded. */
  ghost predicate DownloadFails(world: World, attempts: nat, n: nat, made: nat, e: Error) {
    && TransfersFail(world, attempts, n, made, e) && e.makolet && !e.cancelled
    && world.fate(n + made + 1).Through? && world.fate(n + made + 2).Through?
  }

  ghost predicate DownloadBroken(world: World, attempts: nat, n: nat, made: nat, e: Error) {
    Entered(world, n) && DownloadFails(world, attempts, n + 2, made, e)
  }

  /** Verifying the archived bytes fails in a way that is worth a retry, and nothing else fails. */
  ghost predicate VerificationFails(world: World, n: nat) {
    && Entered(world, n) && Calm(world, n + 3) && world.fate(n + 2).Before?
    && var e := world.fate(n + 2).error; e.makolet && e.retryable && !e.cancelled
  }

  /** The file starts parsing, and that is as far as it gets. */
  ghost predicate ParsingFails(world: World, n: nat) { world.fate(n).Through? && world.fate(n + 1).Before? }

  /** The archived bytes verify and the file starts parsing, and there the operation is cancelled. */
  ghost predicate CancelledAfter(world: World, n: nat) {
    && world.fate(n).Through? && world.intact(n) && ParsingFails(world, n + 1) && world.fate(n + 2).error.cancelled
  }

  lemma CancelledParts(world: World, n: nat)
    ensures CancelledAfter(world, n) ==>
      world.fate(n).Through? && world.intact(n) && ParsingFails(world, n + 1) && world.fate(n + 2).error.cancelled
  {
  }

  ghost predicate ParseCancelled(world: World, n: nat) { Entered(world, n) && CancelledAfter(world, n + 2) }

  /** A failure outside the service's own hierarchy counts as a repository error once bytes moved. */
  function Wrapped(e: Error, bytes: nat): Error {
    if bytes > 0 && !e.makolet && !e.cancelled then UNREACHABLE else e
  }

  /** What the caller must be told of an error after so many bytes: an exception the service
      does not know counts as unreachable storage once any were moved. */
  ghost function Told(e: Error, bytes: nat): Error {
    if e.makolet || e.cancelled || bytes == 0 then e else UNREACHABLE
  }

  function FailureTarget(s: Status, e: Error): Status {
    if e.quarantining && CanQuarantine(s) then Quarantined
    else if e.makolet && e.retryable then FailedRetryable
    else FailedTerminal
  }

  /** What a failure recorded on a file in status s must leave: quarantine for a bad document
      once its bytes are archived, another try for a retryable error of the service, and the
      end for anything else. */
  ghost predicate Due(s: Status, e: Error, t: Status) {
    var quarantined := e.quarantining && s in {Archived, Parsing, Staged, Validating, Applying};
    && t in {Quarantined, FailedRetryable, FailedTerminal} && (t == Quarantined <==> quarantined)
    && (t == FailedRetryable <==> !quarantined && e.makolet && e.retryable)
  }

  /** How an ingestion in which nothing fails must end, by the status s it starts from: a file
      that can be processed completes exactly when its parse, which starts at n, is accepted,
      and one caught in the middle fails for good. */
  ghost predicate CalmEnd(world: World, n: nat, fraction: real, s: Status, ok: bool, t: Status) {
    match s
    case Discovered | Archived | FailedRetryable =>
      if Accepted(world, n, fraction) then ok && t == Completed else !ok && t == Quarantined
    case Completed => ok && t == s
    case Quarantined | FailedTerminal => !ok && t == s
    case _ => !ok && t == FailedTerminal
  }

  /** With the bytes archived, s became m, and the rest ended from there. */
  lemma EndsFromArchived(world: World, n: nat, fraction: real, s: Status, m: Status, ok: bool, t: Status)
    requires m != Completed && m != Discovered && (m == s || (m == Archived && s in {Discovered, FailedRetryable}))
    requires if m == Archived || m == FailedRetryable
      then if Accepted(world, n, fraction) then ok && t == Completed else !ok && t == Quarantined
      else !ok && t == if Terminal(m) then m else FailedTerminal
    ensures CalmEnd(world, n, fraction, s, ok, t)
  {
    hide Accepted;
  }

  lemma CompletedStays(world: World, n: nat, fraction: real)
    ensures forall k: nat :: CalmEnd(world, k, fraction, Completed, true, Completed)
  {
  }

  /** Without archived bytes, and no longer to be downloaded, the file met a conflict. */
  lemma EndsInConflict(world: World, n: nat, fraction: real, s: Status, t: Status)
    requires s !in {Discovered, FailedRetryable, Archived, Completed}
    requires if Terminal(s) then t == s else Due(s, CONFLICT, t)
    ensures CalmEnd(world, n, fraction, s, false, t)
  {
  }

  // ----- the service

  datatype Operation = Ingest | ArchiveOnly | Replay | Recover(seen: Status)

  class SourceFile {
    const world: World
    const policy: Policy
    var now: nat
    var status: Status
    var hasArchive: bool
    ghost var trail: seq<Status>
    ghost var evidence: Evidence

    ghost predicate Valid()
      reads this
    {
      policy.attempts > 0 && Sound(status, hasArchive, trail, evidence, policy.fraction)
    }

    constructor (world: World, policy: Policy)
      requires policy.attempts > 0
      ensures Valid() && status == Discovered && this.world == world && this.policy == policy
    {
      this.world, this.policy := world, policy;
      now, status, hasArchive, trail, evidence := 0, Discovered, false, [Discovered], NOTHING;
    }

    /** A file whose bytes are archived and whose processing failed retryably. */
    constructor Retryable(world: World, policy: Policy)
      requires policy.attempts > 0
      ensures Valid() && status == FailedRetryable && hasArchive && now == 0
      ensures this.world == world && this.policy == policy
    {
      this.world, this.policy := world, policy;
      now, status, hasArchive, evidence := 0, FailedRetryable, true, NOTHING;
      trail := [Discovered, Downloading, Archived, FailedRetryable];
    }

    method Await() returns (fate: Fate)
      modifies this`now
      ensures now == old(now) + 1 && fate == world.fate(old(now))
    {
      fate := world.fate(now);
      now := now + 1;
    }

    /** The repository's guarded status change. What the callers may ask for is its precondition. */
    method Transition(expected: set<Status>, target: Status) returns (r: Result)
      requires Valid()
      requires forall s :: s in expected ==> Serves(s, target) || s == target == FailedRetryable
      requires NeedsArchive(target) ==> hasArchive
      requires target == Downloading ==> !hasArchive
      requires target == Completed ==> Earned(evidence, policy.fraction)
      modifies this
      ensures Valid() && old(trail) <= trail && now == old(now) + 1 && hasArchive == old(hasArchive)
      ensures trail == old(trail) || (old(status) in expected && trail == old(trail) + [target])
      ensures r.Ok? ==> status == target && trail == old(trail) + [target]
      ensures evidence == if target == Parsing && trail != old(trail) then NOTHING else old(evidence)
      ensures world.fate(old(now)).Through? ==>
        if old(status) in expected && Serves(old(status), target) then r.Ok?
        else r == Raised(if old(status) in expected then INVALID_TRANSITION else CONFLICT) && trail == old(trail)
    {
      var fate := Await();
      if fate.Before? {
        return Raised(fate.error);
      }
      if status !in expected {
        return Raised(CONFLICT);
      }
      ServedIsAllowed(status, target);
      if target !in Allowed(status) {
        return Raised(INVALID_TRANSITION);
      }
      status := target;
      trail := trail + [target];
      if target == Parsing {
        evidence := NOTHING;
      }
      r := if fate.After? then Raised(fate.error) else Ok;
    }

    /** The download is recorded: the bytes are kept and the file is archived. */
    method RecordArchive() returns (r: Result)
      requires Valid()
      modifies this
      ensures Valid() && old(trail) <= trail && now == old(now) + 1 && evidence == old(evidence)
      ensures trail == old(trail) || (old(status) == Downloading && trail == old(trail) + [Archived])
      ensures trail == old(trail) ==> hasArchive == old(hasArchive)
      ensures r.Ok? ==> status == Archived && hasArchive
      ensures world.fate(old(now)).Through? && old(status) == Downloading ==> r.Ok?
    {
      var fate := Await();
      if fate.Before? {
        return Raised(fate.error);
      }
      if status != Downloading {
        return Raised(CONFLICT);
      }
      status, hasArchive, trail := Archived, true, trail + [Archived];
      r := if fate.After? then Raised(fate.error) else Ok;
    }

    /** One attempt: the transfer, and the record of it. `moved` counts its bytes too. */
    method AttemptDownload(bytes: nat) returns (r: Result, moved: nat)
      requires Valid() && status != Completed
      modifies this
      ensures Valid() && status != Completed && old(trail) <= trail && now > old(now) && evidence == old(evidence)
      ensures r.Ok? ==> status == Archived && hasArchive
      ensures Calm(world, old(now)) && old(status) == Downloading ==> r.Ok? && now == old(now) + 2
      ensures moved == bytes + world.bytes(old(now))
      ensures !world.fate(old(now)).Through? ==>
        && r == Raised(Told(world.fate(old(now)).error, moved)) && now == old(now) + 1
        && trail == old(trail) && hasArchive == old(hasArchive) && status == old(status)
    {
      hide Sound;
      Known();
      moved := bytes + world.bytes(now);
      var fate := Await();
      r := if !fate.Through? then Raised(fate.error) else Ok;
      if r.Ok? {
        r := RecordArchive();
      }
      if r.Raised? {
        r := Raised(Wrapped(r.error, moved));
      }
      Known();
    }

    /** Downloads with retries. */
    method DownloadAndArchive() returns (r: Result, bytes: nat)
      requires Valid() && !hasArchive
      modifies this
      ensures Valid() && old(trail) <= trail && now > old(now) && evidence == old(evidence)
      ensures Terminal(old(status)) ==> trail == old(trail)
      ensures r.Ok? ==> status == Archived && hasArchive
      ensures status == Completed ==> old(status) == Completed
      ensures Calm(world, old(now)) ==>
        if old(status) == Discovered || old(status) == FailedRetryable then r.Ok? && now == old(now) + 3
        else r == Raised(CONFLICT) && trail == old(trail)
      ensures policy.attempts == 1 && (old(status) == Discovered || old(status) == FailedRetryable) ==>
        world.fate(old(now)).Through? && !world.fate(old(now) + 1).Through? ==>
        r == Raised(Told(world.fate(old(now) + 1).error, world.bytes(old(now) + 1)))
      ensures forall made: nat, e ::
        (old(status) in {Discovered, FailedRetryable}) && TransfersFail(world, policy.attempts, old(now), made, e) ==>
        r == Raised(e) && status == Downloading && !hasArchive && now == old(now) + 1 + made
    {
      hide Sound, TransfersFail, Serves, Calm;
      Known();
      CalmOn(world, now, now);
      FirstTransfer(world, policy.attempts, now);
      bytes := 0;
      r := Transition({Discovered, FailedRetryable}, Downloading);
      Known();
      if r.Raised? {
        return;
      }
      var attempt := 0;
      while true
        invariant Valid() && old(trail) + [Downloading] <= trail && now > old(now) && evidence == old(evidence)
        invariant !Terminal(old(status)) && status != Completed && attempt < policy.attempts
        invariant attempt == 0 ==> now == old(now) + 1 && bytes == 0
        invariant Calm(world, old(now)) ==> attempt == 0 && status == Downloading
        invariant forall made: nat, e :: TransfersFail(world, policy.attempts, old(now), made, e) ==>
          attempt < made && now == old(now) + 1 + attempt && status == Downloading && !hasArchive
        decreases policy.attempts - attempt
      {
        forall made: nat, e | TransfersFail(world, policy.attempts, old(now), made, e)
          ensures made <= policy.attempts && !world.fate(now).Through?
          ensures var error := world.fate(now).error;
            && error.makolet && (attempt + 1 < made ==> error.retryable && error.retried)
            && (attempt + 1 == made ==> error == e && (made == policy.attempts || !(e.retryable && e.retried)))
        {
          TransferFails(world, policy.attempts, old(now), made, e, attempt);
        }
        CalmOn(world, old(now), now);
        attempt := attempt + 1;
        r, bytes := AttemptDownload(bytes);
        if r.Ok? {
          return;
        }
        if !(r.error.makolet && r.error.retryable && r.error.retried) || attempt == policy.attempts {
          return;
        }
      }
    }

    /** Reuses the archived bytes once they are verified, or downloads them. */
    method EnsureArchived() returns (r: Result, bytes: nat)
      requires Valid()
      modifies this
      ensures Valid() && old(trail) <= trail && now > old(now) && evidence == old(evidence)
      ensures Terminal(old(status)) || old(hasArchive) ==> trail == old(trail)
      ensures status == Completed ==> old(status) == Completed
      ensures r.Ok? ==> hasArchive && (status == Archived || old(hasArchive))
      ensures Calm(world, old(now)) ==>
        if old(hasArchive) || old(status) == Discovered || old(status) == FailedRetryable
        then r.Ok? && now == old(now) + if old(hasArchive) then 1 else 3
        else r == Raised(CONFLICT) && trail == old(trail)
      ensures forall made: nat, e ::
        !old(hasArchive) && old(status) in {Discovered, FailedRetryable}
        && TransfersFail(world, policy.attempts, old(now), made, e) ==>
        r == Raised(e) && status == Downloading && !hasArchive && now == old(now) + 1 + made
      ensures bytes > 0 ==> !old(hasArchive)
      ensures old(hasArchive) && world.fate(old(now)).Before? ==>
        r == Raised(world.fate(old(now)).error) && now == old(now) + 1
      ensures old(hasArchive) && world.fate(old(now)).Through? && world.intact(old(now)) ==>
        r.Ok? && now == old(now) + 1 && bytes == 0
    {
      if hasArchive {
        var intact := world.intact(now);
        var fate := Await();
        r := if !fate.Through? then Raised(fate.error) else if intact then Ok else Raised(INTEGRITY);
        bytes := 0;
      } else {
        r, bytes := DownloadAndArchive();
      }
    }

    /** Stages, finalises and validates. With moves, the status follows. */
    method StageAndValidate(moves: bool) returns (r: Result)
      requires Valid() && hasArchive
      modifies this
      ensures Valid() && old(trail) <= trail && now > old(now) && hasArchive
      ensures !moves ==> trail == old(trail) && evidence == old(evidence)
      ensures Terminal(old(status)) ==> trail == old(trail)
      ensures moves && r.Ok? ==> status == Validating && Passes(evidence, policy.fraction) && !Terminal(old(status))
      ensures Calm(world, old(now)) && moves ==>
        if old(status) == Archived || old(status) == FailedRetryable then
          if Accepted(world, old(now), policy.fraction) then r.Ok? else r == Raised(UNPROCESSABLE) && status == Validating
        else r == Raised(CONFLICT) && trail == old(trail)
      ensures moves && (old(status) == Archived || old(status) == FailedRetryable) && ParsingFails(world, old(now)) ==>
        r == Raised(world.fate(old(now) + 1).error) && status == Parsing && now == old(now) + 2
    {
      hide Sound, Excessive, Accepted;
      AcceptedExactly(world, now, policy.fraction);
      r := Ok;
      if moves {
        r := Transition({Archived, FailedRetryable}, Parsing);
        if r.Raised? {
          return;
        }
        assert !Terminal(old(status)) && hasArchive;
      }
      var fate := Await();
      if !fate.Through? {
        return Raised(fate.error);
      }
      var summary := world.summary(now);
      fate := Await();
      if !fate.Through? {
        return Raised(fate.error);
      }
      if moves {
        Establish(Evidence(true, summary, false, false));
        r := Transition({Parsing}, Staged);
        if r.Raised? {
          return;
        }
        r := Transition({Staged}, Validating);
        if r.Raised? {
          return;
        }
      }
      r := Gate(moves, summary);
    }

    /** The validation: no issue that quarantines, and not too much rejected. */
    method Gate(moves: bool, summary: Summary) returns (r: Result)
      requires Valid() && (moves ==> status == Validating && evidence == Evidence(true, summary, false, false))
      modifies this`now, this`evidence
      ensures Valid() && now == old(now) + 1
      ensures if moves then r.Ok? ==> Passes(evidence, policy.fraction) else evidence == old(evidence)
      ensures world.fate(old(now)).Through? ==>
        r == if !world.issue(old(now)) && !Excessive(summary, policy.fraction) then Ok else Raised(UNPROCESSABLE)
    {
      hide Sound, Excessive;
      r := Ok;
      var issue := world.issue(now);
      var fate := Await();
      if !fate.Through? {
        return Raised(fate.error);
      }
      if issue {
        return Raised(UNPROCESSABLE);
      }
      if moves {
        Establish(evidence.(clean := true));
      }
      if Excessive(summary, policy.fraction) {
        return Raised(UNPROCESSABLE);
      }
    }

    /** Notes what the current parse has established. */
    ghost method Establish(e: Evidence)
      requires Valid() && status != Completed
      modifies this`evidence
      ensures Valid() && evidence == e
    {
      evidence := e;
    }

    /** Everything after archiving. */
    method ParseValidateApply(moves: bool) returns (r: Result)
      requires Valid() && hasArchive
      modifies this
      ensures Valid() && old(trail) <= trail && now > old(now) && hasArchive
      ensures !moves ==> trail == old(trail) && evidence == old(evidence)
      ensures Terminal(old(status)) ==> trail == old(trail)
      ensures moves && r.Ok? ==> status == Completed
      ensures Calm(world, old(now)) && moves ==>
        if old(status) == Archived || old(status) == FailedRetryable then
          if Accepted(world, old(now), policy.fraction) then r.Ok? else r == Raised(UNPROCESSABLE) && status == Validating
        else r == Raised(CONFLICT) && trail == old(trail)
      ensures moves && (old(status) == Archived || old(status) == FailedRetryable) && ParsingFails(world, old(now)) ==>
        r == Raised(world.fate(old(now) + 1).error) && status == Parsing && now == old(now) + 2
    {
      hide Sound, Excessive, Accepted;
      r := StageAndValidate(moves);
      if r.Raised? {
        return;
      }
      if moves {
        r := Transition({Validating}, Applying);
        if r.Raised? {
          return;
        }
      }
      var fate := Await();
      if !fate.Through? {
        return Raised(fate.error);
      }
      if moves {
        Establish(evidence.(applied := true));
        r := Transition({Applying}, Completed);
      }
    }

    /** Records how an operation failed. Without a fault of its own this fails exactly
        when a retryable failure meets a file that already failed retryably. */
    method RecordFailure(e: Error) returns (r: Result)
      requires Valid()
      modifies this
      ensures Valid() && old(trail) <= trail && now > old(now) && hasArchive == old(hasArchive)
      ensures evidence == old(evidence)
      ensures trail == old(trail) || (trail == old(trail) + [status] && Due(old(status), e, status))
      ensures Terminal(old(status)) ==> trail == old(trail)
      ensures world.fate(old(now)).Through? && world.fate(old(now) + 1).Through? && !Terminal(old(status)) ==>
        && now == old(now) + 2
        && if old(status) == FailedRetryable && e.makolet && e.retryable
           then r == Raised(INVALID_TRANSITION) && trail == old(trail)
           else r.Ok? && Due(old(status), e, status)
      ensures world.fate(old(now)).Through? && Terminal(old(status)) ==> r.Ok?
    {
      var current := status;
      var fate := Await();
      if !fate.Through? {
        return Raised(fate.error);
      }
      if Terminal(current) {
        return Ok;
      }
      r := Transition({current}, FailureTarget(current, e));
    }

    /** What follows a failure inside an operation: it is recorded unless the operation
        was cancelled, and a failure to record it takes its place. */
    method Conclude(r: Result, bytes: nat) returns (out: Result)
      requires Valid()
      modifies this
      ensures Valid() && old(trail) <= trail && now >= old(now) && evidence == old(evidence)
      ensures Terminal(old(status)) ==> trail == old(trail)
      ensures r.Ok? ==> out.Ok? && trail == old(trail)
      ensures hasArchive == old(hasArchive)
      ensures status == Completed ==> old(status) == Completed
      ensures r.Raised? ==> out.Raised?
      ensures r.Raised? && world.fate(old(now)).Through? && world.fate(old(now) + 1).Through? ==>
        var e := Told(r.error, bytes);
        if Terminal(old(status)) || e.cancelled then trail == old(trail)
        else if old(status) == FailedRetryable && e.makolet && e.retryable
        then out == Raised(INVALID_TRANSITION) && trail == old(trail)
        else out == Raised(e) && Due(old(status), e, status) && now == old(now) + 2 && hasArchive == old(hasArchive)
      ensures r.Raised? && r.error.cancelled ==>
        out == r && trail == old(trail) && now == old(now) && status == old(status)
    {
      out := r;
      if r.Raised? {
        out := Raised(Wrapped(r.error, bytes));
        if !out.error.cancelled {
          var recorded := RecordFailure(out.error);
          if recorded.Raised? {
            out := recorded;
          }
        }
      }
    }

    /** Registration, the lease and the owned refresh, before any work. Either the
        operation is over, or it holds the lease. */
    method Enter() returns (done: bool, r: Result)
      modifies this`now
      ensures now > old(now)
      ensures r.Raised? ==> done
      ensures Calm(world, old(now)) ==> r.Ok? && (done <==> status == Completed)
      ensures done && r.Ok? ==> status == Completed
      ensures !done ==> status != Completed
      ensures Entered(world, old(now)) && status != Completed ==> !done && now == old(now) + 2
    {
      var fate := Await();
      if !fate.Through? {
        return true, Raised(fate.error);
      }
      if status == Completed {
        return true, Ok;
      }
      if !world.lease(now) {
        return true, Raised(UNREACHABLE);
      }
      fate := Await();
      if !fate.Through? {
        return true, Raised(fate.error);
      }
      return false, Ok;
    }

    /** Ingestion under the lease: archive, process, and record a failure. */
    method ProcessFile(ghost made: nat, ghost e: Error) returns (r: Result)
      requires Valid() && status != Completed
      modifies this
      ensures Valid() && old(trail) <= trail && now > old(now)
      ensures r.Ok? ==> status == Completed
      ensures Terminal(old(status)) ==> trail == old(trail)
      ensures Calm(world, old(now)) ==>
        CalmEnd(world, old(now) + (if old(hasArchive) then 1 else 3), policy.fraction, old(status), r.Ok?, status)
      ensures old(status) == FailedRetryable && old(hasArchive) ==>
        Calm(world, old(now) + 1) && world.fate(old(now)).Before? ==>
        var e := world.fate(old(now)).error;
        e.makolet && e.retryable && !e.cancelled ==> r == Raised(INVALID_TRANSITION) && trail == old(trail)
      ensures CancelledAfter(world, old(now)) && old(status) == FailedRetryable && old(hasArchive) ==>
        status == Parsing && now == old(now) + 3
      ensures !old(hasArchive) && (old(status) == Discovered || old(status) == FailedRetryable) ==>
        DownloadFails(world, policy.attempts, old(now), made, e) ==>
        && r == Raised(e) && now == old(now) + made + 3 && !hasArchive
        && status == if e.retryable then FailedRetryable else FailedTerminal
    {
      hide Sound, Accepted, TransfersFail, DownloadFails, Serves, Due, CalmEnd, Calm,
           CancelledAfter, ParsingFails, Allowed;
      ghost var s, n := status, now + if hasArchive then 1 else 3;
      Known();
      CancelledParts(world, now);
      if DownloadFails(world, policy.attempts, now, made, e) { FailureParts(world, policy.attempts, now, made, e); }
      var bytes;
      r, bytes := EnsureArchived();
      ghost var m := status;
      CalmOn(world, old(now), now);
      Known();
      if r.Ok? {
        assert old(hasArchive) || m == Archived;
        r := ProcessArchived(bytes);
        Known();
        if Calm(world, old(now)) { EndsFromArchived(world, n, policy.fraction, s, m, r.Ok?, status); }
      } else {
        CalmOn(world, old(now) + 1, now);
        r := FailUnarchived(r.error);
        if Calm(world, old(now)) { EndsInConflict(world, n, policy.fraction, s, status); }
      }
    }

    /** The bytes could not be archived or verified: that is recorded, and nothing else. */
    method FailUnarchived(e: Error) returns (r: Result)
      requires Valid() && status != Completed
      modifies this
      ensures Valid() && old(trail) <= trail && now >= old(now) && r.Raised? && hasArchive == old(hasArchive)
      ensures Terminal(old(status)) || e.cancelled ==> trail == old(trail) && status == old(status)
      ensures world.fate(old(now)).Through? && world.fate(old(now) + 1).Through? && !e.cancelled ==>
        if Terminal(old(status)) then status == old(status)
        else if old(status) == FailedRetryable && e.makolet && e.retryable
        then r == Raised(INVALID_TRANSITION) && trail == old(trail)
        else r == Raised(e) && Due(old(status), e, status) && now == old(now) + 2
      ensures old(status) == Downloading && Due(old(status), e, status) ==>
        status == if e.makolet && e.retryable then FailedRetryable else FailedTerminal
    {
      hide Sound, Serves;
      Known();
      r := Conclude(Raised(e), 0);
      Known();
    }

    /** The rest of it, once the bytes are archived. */
    method ProcessArchived(bytes: nat) returns (r: Result)
      requires Valid() && hasArchive && status != Completed
      modifies this
      ensures Valid() && old(trail) <= trail && now > old(now)
      ensures r.Ok? ==> status == Completed
      ensures Terminal(old(status)) ==> trail == old(trail)
      ensures Calm(world, old(now)) ==>
        if old(status) == Archived || old(status) == FailedRetryable then
          if Accepted(world, old(now), policy.fraction) then r.Ok? else r.Raised? && status == Quarantined
        else r.Raised? && (bytes == 0 ==> status == if Terminal(old(status)) then old(status) else FailedTerminal)
      ensures old(status) in {Archived, FailedRetryable} && ParsingFails(world, old(now)) ==>
        world.fate(old(now) + 1).error.cancelled ==> status == Parsing && now == old(now) + 2
    {
      hide Sound, Accepted, Serves;
      Known();
      r := ParseValidateApply(true);
      Known();
      r := Conclude(r, bytes);
      Known();
    }

    /** Ingestion from whatever status the file is in. */
    method IngestFile() returns (r: Result)
      requires Valid()
      modifies this
      ensures Valid() && old(trail) <= trail && now > old(now)
      ensures r.Ok? ==> status == Completed
      ensures Terminal(old(status)) ==> trail == old(trail)
      ensures Calm(world, old(now)) ==>
        CalmEnd(world, old(now) + (if old(hasArchive) then 3 else 5), policy.fraction, old(status), r.Ok?, status)
      // A second retryable failure is lost behind the refusal to record it.
      ensures VerificationFails(world, old(now)) && old(status) == FailedRetryable && old(hasArchive) ==>
        r == Raised(INVALID_TRANSITION) && trail == old(trail)
      // A cancelled parse leaves the file in the middle.
      ensures ParseCancelled(world, old(now)) && old(status) == FailedRetryable && old(hasArchive) ==>
        status == Parsing && now == old(now) + 5
      // A download that fails in a retryable way leaves the file to be tried again, any other ends it.
      ensures forall made: nat, e ::
        !old(hasArchive) && old(status) in {Discovered, FailedRetryable}
        && DownloadBroken(world, policy.attempts, old(now), made, e) ==>
        && r == Raised(e) && now == old(now) + made + 5 && !hasArchive
        && status == if e.retryable then FailedRetryable else FailedTerminal
    {
      hide Sound, Accepted, DownloadFails, CalmEnd;
      CompletedStays(world, now, policy.fraction);
      Known();
      var done;
      done, r := Enter();
      if !done {
        ghost var at := now;
        ghost var made: nat, e: Error :|
          (exists m: nat, x :: DownloadFails(world, policy.attempts, at, m, x)) ==>
          DownloadFails(world, policy.attempts, at, made, e);
        forall m: nat, x | DownloadFails(world, policy.attempts, at, m, x) ensures m == made && x == e {
          OneFailure(world, policy.attempts, at, m, x, made, e);
        }
        r := ProcessFile(made, e);
      }
      Known();
    }

    /** A failed download, and then an ingestion in which nothing fails: a file that failed
        retryably completes exactly when its parse is accepted, any other is beyond help. */
    method IngestAgain(ghost made: nat, ghost e: Error) returns (first: Result, second: Result)
      requires Valid() && !hasArchive && status in {Discovered, FailedRetryable}
      requires DownloadBroken(world, policy.attempts, now, made, e) && Calm(world, now + made + 5)
      modifies this
      ensures Valid() && first == Raised(e)
      ensures e.retryable ==>
        && (second.Ok? <==> Accepted(world, old(now) + made + 10, policy.fraction))
        && status == if second.Ok? then Completed else Quarantined
      ensures !e.retryable ==> second.Raised? && status == FailedTerminal
    {
      hide Sound, Accepted, DownloadBroken;
      first := IngestFile();
      Known();
      second := IngestFile();
      Known();
    }

    /** What the callers need to know of a valid file. */
    lemma Known()
      requires Valid()
      ensures trail != [] && status == trail[|trail| - 1]
      ensures (NeedsArchive(status) ==> hasArchive) && (status == Discovered || status == Downloading ==> !hasArchive)
    {
    }

    /** Archiving without processing. */
    method ArchiveFile() returns (r: Result)
      requires Valid()
      modifies this
      ensures Valid() && old(trail) <= trail && now > old(now)
      ensures r.Ok? ==> status == Archived || status == Completed
      ensures Terminal(old(status)) ==> trail == old(trail)
      ensures status == Completed ==> old(status) == Completed
      ensures Calm(world, old(now)) ==>
        match old(status)
        case Discovered | Archived | FailedRetryable => r.Ok? && status == Archived
        case Completed => r.Ok?
        case Quarantined | FailedTerminal => r.Raised?
        case _ => r.Raised? && status == FailedTerminal
    {
      hide Sound;
      Known();
      var done;
      done, r := Enter();
      if !done {
        r := KeepArchived();
      }
      Known();
    }

    /** Archiving under the lease. */
    method KeepArchived() returns (r: Result)
      requires Valid() && status != Completed
      modifies this
      ensures Valid() && old(trail) <= trail && now > old(now)
      ensures r.Ok? ==> status == Archived
      ensures Terminal(old(status)) ==> trail == old(trail)
      ensures status != Completed
      ensures Calm(world, old(now)) ==>
        match old(status)
        case Discovered | Archived | FailedRetryable => r.Ok?
        case Quarantined | FailedTerminal => r.Raised?
        case _ => r.Raised? && status == FailedTerminal
    {
      hide Sound;
      Known();
      var wasArchived, was := hasArchive, status;
      var bytes;
      r, bytes := EnsureArchived();
      Known();
      if r.Raised? {
        bytes := 0;
      } else if wasArchived && was != Archived {
        r := Transition({FailedRetryable}, Archived);
      }
      Known();
      r := Conclude(r, bytes);
      Known();
    }

    /** A replay applies the archived bytes again and leaves the status alone. */
    method ReplayFile() returns (r: Result)
      requires Valid()
      modifies this
      ensures Valid() && trail == old(trail) && evidence == old(evidence) && status == old(status)
      ensures r.Ok? ==> hasArchive
    {
      var leased := world.lease(now);
      var fate := Await();
      if !fate.Through? {
        return Raised(fate.error);
      }
      if !leased {
        return Raised(UNREACHABLE);
      }
      if !hasArchive {
        return Raised(UNPROCESSABLE);
      }
      var bytes;
      r, bytes := EnsureArchived();
      if r.Raised? {
        return;
      }
      r := ParseValidateApply(false);
      fate := Await();
      if !fate.Through? {
        r := Raised(fate.error);
      }
    }

    /** A job seen underway long ago is given back for a retry, if it is still there. */
    method RecoverStale(seen: Status) returns (r: Result)
      requires Valid() && Underway(seen)
      modifies this
      ensures Valid() && evidence == old(evidence)
      ensures trail == old(trail) || (old(status) == seen && trail == old(trail) + [FailedRetryable])
      ensures Calm(world, old(now)) && old(status) == seen ==> status == FailedRetryable
    {
      if !world.lease(now) {
        now := now + 1;
        return Ok;
      }
      r := Transition({seen}, FailedRetryable);
    }

    /** Every run of operations, each failing or not as it may. */
    method Serve(operations: seq<Operation>)
      requires Valid() && forall i :: 0 <= i < |operations| && operations[i].Recover? ==> Underway(operations[i].seen)
      modifies this
      ensures Valid() && old(trail) <= trail
      ensures Terminal(old(status)) ==> status == old(status)
      ensures forall i :: 0 <= i < |trail| && Terminal(trail[i]) ==> i == |trail| - 1
      ensures status == Completed ==>
        && hasArchive && Archived in trail && Earned(evidence, policy.fraction)
        && |trail| >= 6 && trail[|trail| - 5..] == [Parsing, Staged, Validating, Applying, Completed]
    {
      for k := 0 to |operations|
        invariant Valid() && old(trail) <= trail
      {
        var r;
        match operations[k] {
          case Ingest => r := IngestFile();
          case ArchiveOnly => r := ArchiveFile();
          case Replay => r := ReplayFile();
          case Recover(seen) => r := RecoverStale(seen);
        }
      }
      forall i | 0 <= i < |trail| - 1 ensures !Terminal(trail[i]) { NeverLeft(trail, i); }
      if status == Completed { CompletedPath(trail); }
    }
  }

  /** Such a failure, at an input: the archive is unreachable once, and the caller is told
      of an invalid transition instead. */
  method MaskedFailure() returns (r: Result)
    ensures r == Raised(INVALID_TRANSITION)
  {
    var world := World(n => if n == 2 then Before(UNREACHABLE) else Through, n => 0, n => Summary(0, 0), n => false,
                       n => true, n => true);
    var file := new SourceFile.Retryable(world, Policy(1, 0.0));
    assert VerificationFails(world, 0);
    r := file.IngestFile();
  }

  /** A file left in the middle, at an input: a parse is cancelled, the file is ingested again
      before anyone recovers it, and fails for good although nothing else went wrong. */
  method LeftInTheMiddle() returns (file: SourceFile)
    ensures fresh(file) && file.Valid() && file.status == FailedTerminal
  {
    var cancelled := Error(false, false, false, false, true);
    var world := World(n => if n == 4 then Before(cancelled) else Through, n => 0, n => Summary(0, 0), n => false,
                       n => true, n => true);
    file := new SourceFile.Retryable(world, Policy(1, 0.0));
    var first := file.IngestFile();
    assert file.status == Parsing && Calm(world, file.now);
    var second := file.IngestFile();
  }
}
