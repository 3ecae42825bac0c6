/** One bounded collection run over an untrusted publisher, and any number of
    them in a row: page traversal, per-file charging and resumption. */
module Collection {
  import opened Prelude
  import opened ByteLedger
  import opened Repository
  import opened Listing
  import Download

  // ----- policy, publisher and oracle types

  datatype Policy = Policy(
    maximumFiles: nat,
    maximumRecords: nat,
    objectBytes: nat,
    chunkBytes: nat,
    ftpOverheadBytes: nat,
    httpOverheadBytes: nat,
    runBytes: nat,
    dayBytes: nat,
    identitiesPerDay: nat,
    attemptsPerDay: nat,
    successesPerDay: nat,
    downloadAttempts: nat,
    strictScope: bool)

  predicate ValidPolicy(p: Policy) {
    && 1 <= p.maximumFiles <= p.maximumRecords
    && 1 <= p.objectBytes && 1 <= p.chunkBytes
    && p.objectBytes + p.chunkBytes + Max(p.ftpOverheadBytes, p.httpOverheadBytes) <= p.runBytes <= p.dayBytes
    && 1 <= p.identitiesPerDay <= p.attemptsPerDay && 1 <= p.successesPerDay
    && 1 <= p.downloadAttempts
  }

  datatype PageResult = Fetched(page: Page) | ListingExhausted | DiscoveryFailed

  /** Everything the run does not control, by page number and by entry number:
      any behaviour of publisher, clock, ingestion and catalog is one of these. */
  datatype World = World(
    discover: (nat, Option<Cursor>) -> PageResult,
    elapsed: nat -> bool,
    register: nat -> Option<FileId>,
    ingest: nat -> Download.Script,
    bootstrap: nat -> Option<Download.Error>)

  /** Every open overshoots its allowance by one transfer chunk at most. */
  ghost predicate HonestWorld(w: World, p: Policy) {
    forall n: nat :: Download.Honest(w.ingest(n), p.chunkBytes)
  }

  /** Nothing goes wrong outside: time is left, files register and bootstrap, and an
      allowance of one whole object is enough to ingest any of them. */
  ghost predicate FineWorld(w: World, p: Policy) {
    && HonestWorld(w, p)
    && (forall n: nat :: !w.elapsed(n) && w.register(n).Some? && w.bootstrap(n).None?)
    && forall n: nat :: Download.Smooth(w.ingest(n), p.objectBytes)
  }

  datatype Reason =
    | ListingBudget | DiscoveryLimit | FileLimit | RunBytes | DayBytes | IdentityDay | AttemptDay | SuccessDay

  datatype RunError =
    | DiscoveryError | InvalidPage | OutOfScope | RegistrationFailed | IngestionFailed | OnlyUnknown
    | ReservationExceeded(file: RemoteFile)

  datatype Progress = Progress(discovered: nat, ingested: nat, duplicates: nat, skipped: nat, retryBoundary: bool)

  datatype EntryResult = Advanced | Stopped(reason: Reason) | Failed(error: RunError)

  function BudgetReason(p: Policy, b: Budget): Option<Reason> {
    if b.run >= p.runBytes then Some(RunBytes)
    else if b.day >= p.dayBytes then Some(DayBytes)
    else if b.identities >= p.identitiesPerDay then Some(IdentityDay)
    else if b.attempts >= p.attemptsPerDay then Some(AttemptDay)
    else if b.successes >= p.successesPerDay then Some(SuccessDay)
    else None
  }

  function ByteReason(p: Policy, b: Budget): Reason {
    if p.runBytes - b.run <= p.dayBytes - b.day then RunBytes else DayBytes
  }

  function RemainingBytes(p: Policy, b: Budget): int {
    if p.runBytes - b.run <= p.dayBytes - b.day then p.runBytes - b.run else p.dayBytes - b.day
  }

  function FullReservation(p: Policy, file: RemoteFile): nat {
    p.objectBytes + p.chunkBytes + match file.protocol
      case Ftp => p.ftpOverheadBytes
      case Ftps => p.ftpOverheadBytes
      case Http => p.httpOverheadBytes
      case Https => p.httpOverheadBytes
      case Fixture => 0
  }

  predicate InRange(file: RemoteFile, scope: Scope) {
    (scope.since.None? && scope.until.None?)
    || (file.timestamp.Some?
        && (scope.since.None? || scope.since.value <= file.timestamp.value)
        && (scope.until.None? || file.timestamp.value <= scope.until.value))
  }

  /** A range includes both its ends, and a file without a time is in no bounded range. */
  lemma RangeIsClosed(file: RemoteFile, scope: Scope, lo: nat, hi: nat)
    ensures InRange(file, scope.(since := None, until := None))
    ensures file.timestamp.None? && (scope.since.Some? || scope.until.Some?) ==> !InRange(file, scope)
    ensures file.timestamp.Some? ==>
      && InRange(file, scope.(since := Some(file.timestamp.value - lo), until := Some(file.timestamp.value + hi)))
      && !InRange(file, scope.(since := Some(file.timestamp.value + 1 + lo)))
      && !InRange(file, scope.(until := Some(file.timestamp.value - 1 - hi)))
  {
  }

  predicate InScope(file: RemoteFile, scope: Scope) {
    file.identity.retailer == scope.source && file.identity.portal in scope.portals
  }

  /** A listed file needs no more work: unreadable, out of range, or processed to a terminal state. */
  predicate Dealt(file: RemoteFile, scope: Scope, terminal: set<(Identity, bool)>) {
    || file.unknownFormat || !InRange(file, scope)
    || (file.identity, false) in terminal || (scope.archiveOnly && (file.identity, true) in terminal)
  }

  /** Nothing was left behind that still needed work. */
  ghost predicate AllDealt(trail: seq<Visit>, scope: Scope, terminal: set<(Identity, bool)>) {
    forall k :: 0 <= k < |trail| ==> Dealt(trail[k].file, scope, terminal)
  }

  lemma DealtGrows(trail: seq<Visit>, scope: Scope, terminal: set<(Identity, bool)>, more: set<(Identity, bool)>)
    requires AllDealt(trail, scope, terminal) && terminal <= more
    ensures AllDealt(trail, scope, more)
  {
  }

  lemma DealtAppend(trail: seq<Visit>, v: Visit, scope: Scope, terminal: set<(Identity, bool)>)
    requires AllDealt(trail, scope, terminal) && Dealt(v.file, scope, terminal)
    ensures AllDealt(trail + [v], scope, terminal)
  {
  }

  // ----- the ledger facts one transfer needs

  ghost predicate AllSettled(l: Ledger, a: AttemptId) {
    forall k :: k in l.transfers && k.0 == a ==> l.transfers[k].settled
  }

  /** The attempt is open for its source and the ceilings hold. */
  ghost predicate InForce(l: Ledger, a: AttemptId, source: SourceId, p: Policy) {
    && Registered(l) && a in l.running && a in l.attemptSources && l.attemptSources[a] == source
    && Within(l, p.runBytes, p.dayBytes)
  }

  /** A reservation of `reserved` bytes for (a, f) is on the books, everything else is settled. */
  ghost predicate Booked(l: Ledger, a: AttemptId, f: FileId, reserved: nat) {
    && (a, f) in l.transfers
    && (l.transfers[(a, f)].settled || l.transfers[(a, f)].bytes == reserved)
    && (forall k :: k in l.transfers && k.0 == a && k != (a, f) ==> l.transfers[k].settled)
  }

  // ----- what a transfer costs, and when there is enough for more

  /** From l to m nothing was charged to or counted for any other source. */
  ghost predicate OthersKept(l: Ledger, m: Ledger, source: SourceId) {
    forall s :: s != source ==>
      && Get(m.sourceCharged, s) == Get(l.sourceCharged, s) && GetSet(m.identityFiles, s) == GetSet(l.identityFiles, s)
      && Get(m.attemptCounts, s) == Get(l.attemptCounts, s) && Get(m.successCounts, s) == Get(l.successCounts, s)
  }

  /** From l to m the attempt added at most so many bytes, files and archived objects. */
  ghost predicate Grown(l: Ledger, m: Ledger, a: AttemptId, source: SourceId, bytes: int, files: nat, objects: nat) {
    && Known(l, a) && Known(m, a) && l.attemptSources[a] == source == m.attemptSources[a]
    && m.attemptCharged[a] <= l.attemptCharged[a] + bytes
    && Get(m.sourceCharged, source) <= Get(l.sourceCharged, source) + bytes
    && |GetSet(m.identityFiles, source)| <= |GetSet(l.identityFiles, source)| + files
    && Get(m.attemptCounts, source) <= Get(l.attemptCounts, source) + files
    && Get(m.successCounts, source) <= Get(l.successCounts, source) + objects
    && OthersKept(l, m, source)
  }

  /** No ceiling is reached: neither of the two byte budgets nor of the three day counters. */
  ghost predicate Below(l: Ledger, a: AttemptId, source: SourceId, p: Policy) {
    && Known(l, a) && l.attemptCharged[a] < p.runBytes && Get(l.sourceCharged, source) < p.dayBytes
    && |GetSet(l.identityFiles, source)| < p.identitiesPerDay
    && Get(l.attemptCounts, source) < p.attemptsPerDay && Get(l.successCounts, source) < p.successesPerDay
  }

  /** What the books and the run's progress must show before it may stop for the reason. */
  ghost predicate Justified(reason: Reason, l: Ledger, a: AttemptId, source: SourceId, p: Policy, q: Progress) {
    && Known(l, a)
    && var run, day := p.runBytes - l.attemptCharged[a], p.dayBytes - Get(l.sourceCharged, source);
    match reason
    case ListingBudget => true
    case DiscoveryLimit => q.discovered == p.maximumRecords
    case FileLimit => q.ingested == p.maximumFiles
    case RunBytes => run <= day
    case DayBytes => day < run
    case IdentityDay => |GetSet(l.identityFiles, source)| >= p.identitiesPerDay
    case AttemptDay => Get(l.attemptCounts, source) >= p.attemptsPerDay
    case SuccessDay => Get(l.successCounts, source) >= p.successesPerDay
  }

  /** The run goes on exactly while no ceiling is reached, and stops for one that is. */
  lemma StopsJustly(l: Ledger, a: AttemptId, source: SourceId, p: Policy, q: Progress)
    requires InForce(l, a, source, p)
    ensures var reason := BudgetReason(p, BudgetOf(l, a));
      (reason.None? <==> Below(l, a, source, p)) && (reason.Some? ==> Justified(reason.value, l, a, source, p, q))
    ensures Justified(ByteReason(p, BudgetOf(l, a)), l, a, source, p, q)
  {
    assert Get(l.sourceCharged, source) <= p.dayBytes;
  }

  /** The source's day counters are at most their limits, or what they were where that is
      more, and `extra` beyond. */
  ghost predicate Held(l: Ledger, m: Ledger, source: SourceId, p: Policy, extra: nat) {
    && |GetSet(m.identityFiles, source)| <= Max(p.identitiesPerDay, |GetSet(l.identityFiles, source)|) + extra
    && Get(m.attemptCounts, source) <= Max(p.attemptsPerDay, Get(l.attemptCounts, source)) + extra
    && Get(m.successCounts, source) <= Max(p.successesPerDay, Get(l.successCounts, source)) + extra
  }

  /** The source's day counters are held, and no other source's moved. */
  ghost predicate Capped(l: Ledger, m: Ledger, source: SourceId, p: Policy, extra: nat) {
    Held(l, m, source, p, extra) && OthersKept(l, m, source)
  }

  lemma CappedStill(l: Ledger, source: SourceId, p: Policy)
    ensures forall extra: nat :: Capped(l, l, source, p, extra)
  {
  }

  /** One transfer stays within the caps if it was started below them, or counts as one extra. */
  lemma CappedTransfer(l: Ledger, m: Ledger, a: AttemptId, source: SourceId, p: Policy, bytes: int)
    requires Grown(l, m, a, source, bytes, 1, 1)
    ensures Capped(l, m, source, p, 1) && (Below(l, a, source, p) ==> Capped(l, m, source, p, 0))
  {
    hide OthersKept;
  }

  lemma CappedTwice(l: Ledger, m: Ledger, n: Ledger, source: SourceId, p: Policy, one: nat, two: nat)
    requires Capped(l, m, source, p, one) && Capped(m, n, source, p, two)
    ensures Capped(l, n, source, p, one + two)
  {
  }

  /** The most one transfer reserves, whatever its protocol. */
  function TransferCeiling(p: Policy): nat {
    p.objectBytes + p.chunkBytes + Max(p.ftpOverheadBytes, p.httpOverheadBytes)
  }

  function Cost(p: Policy, files: nat): nat { files * TransferCeiling(p) }

  /** Bytes and day counters are enough for so many more files. */
  predicate Enough(b: Budget, p: Policy, files: nat) {
    && b.run + Cost(p, files) < p.runBytes && b.day + Cost(p, files) < p.dayBytes
    && b.identities + files < p.identitiesPerDay && b.attempts + files < p.attemptsPerDay
    && b.successes + files < p.successesPerDay
  }

  lemma CostStep(p: Policy, files: nat)
    ensures Cost(p, files + 1) == Cost(p, files) + TransferCeiling(p)
  {
  }

  /** With enough for this file, nothing stops its transfer and it is reserved in full. */
  lemma EnoughForOne(b: Budget, p: Policy, file: RemoteFile, left: nat)
    requires ValidPolicy(p) && left > 0 && Enough(b, p, left)
    ensures BudgetReason(p, b).None?
    ensures RemainingBytes(p, b) > FullReservation(p, file) > p.chunkBytes
    ensures p.objectBytes + p.chunkBytes <= FullReservation(p, file) <= TransferCeiling(p)
  {
    hide Cost;
    CostStep(p, left - 1);
  }

  /** One transfer later there is enough for the rest. */
  lemma EnoughForRest(l: Ledger, m: Ledger, a: AttemptId, source: SourceId, p: Policy, left: nat)
    requires left > 0 && Grown(l, m, a, source, TransferCeiling(p), 1, 1) && Enough(BudgetOf(l, a), p, left)
    ensures Enough(BudgetOf(m, a), p, left - 1) && Below(m, a, source, p)
  {
    hide Cost, TransferCeiling, OthersKept;
    CostStep(p, left - 1);
  }

  /** Enough for so many transfers; none need nothing. */
  ghost predicate Ample(l: Ledger, a: AttemptId, p: Policy, need: nat) {
    Known(l, a) && (need > 0 ==> Enough(BudgetOf(l, a), p, need))
  }

  lemma AmpleForRest(l: Ledger, m: Ledger, a: AttemptId, source: SourceId, p: Policy, need: nat)
    requires need > 0 && Ample(l, a, p, need) && Grown(l, m, a, source, TransferCeiling(p), 1, 1)
    ensures Ample(m, a, p, need - 1) && Below(m, a, source, p)
  {
    hide Grown, Enough, Below;
    EnoughForRest(l, m, a, source, p, need);
    assert Known(m, a) by { GrownKnown(l, m, a, source, p); }
  }

  lemma GrownKnown(l: Ledger, m: Ledger, a: AttemptId, source: SourceId, p: Policy)
    requires Grown(l, m, a, source, TransferCeiling(p), 1, 1)
    ensures Known(m, a)
  {
  }

  lemma ReserveBooks(l: Ledger, a: AttemptId, source: SourceId, p: Policy, f: FileId, reserved: nat)
    requires InForce(l, a, source, p) && AllSettled(l, a)
    requires reserved == 0 || reserved <= RemainingBytes(p, BudgetOf(l, a))
    ensures var (m, r) := Reserve(l, a, f, reserved);
      && r.Answer? && InForce(m, a, source, p) && Booked(m, a, f, reserved)
      && m.terminal == l.terminal && m.chargedSources == l.chargedSources
      && Grown(l, m, a, source, reserved, 1, 0)
  {
    if (a, f) !in l.transfers {
      ReserveWithin(l, a, f, reserved, p.runBytes, p.dayBytes);
    }
  }

  /** Bytes within the reservation settle, unless the file was terminal before,
      its object never charged and its declared length beyond the reservation. */
  lemma SettleBooked(m: Ledger, a: AttemptId, source: SourceId, p: Policy, f: FileId, reserved: nat, file: RemoteFile,
                     t: nat)
    requires InForce(m, a, source, p) && Booked(m, a, f, reserved)
    ensures var (n, r) := Settle(m, a, f, file, t);
      && InForce(n, a, source, p) && Booked(n, a, f, reserved) && n.terminal == m.terminal
      && (r.Answer? ==> AllSettled(n, a) && r.budget == BudgetOf(n, a))
      && (r.Refused? ==> n == m)
      && (AllSettled(m, a) ==> r.Answer? && n == m)
      && (r.Refused? && t <= reserved ==>
            && TerminalInSomeMode(m, file) && file.identity !in m.chargedSources
            && file.contentLength.Some? && file.contentLength.value > reserved)
      && Grown(m, n, a, source, 0, 0, 1)
  {
    SettleWithin(m, a, f, file, t, p.runBytes, p.dayBytes);
    if !m.transfers[(a, f)].settled && t <= reserved {
      SettleRefusedExactly(m, a, f, file, t);
    }
  }

  // ----- what moved is what is charged

  /** A download is needed, and nothing else claims bytes or hides the failure. */
  ghost predicate Reports(script: Download.Script) {
    script.prior.NeedsDownload? && script.recording.None? && Download.Silent(script.processing)
  }

  /** An open reservation of (a, f) became the exact cost of t bytes. */
  ghost predicate Pays(l: Ledger, n: Ledger, a: AttemptId, f: FileId, file: RemoteFile, t: int) {
    && Registered(l) && a in l.running && (a, f) in l.transfers
    && (l.transfers[(a, f)].settled || ChargedExactly(l, n, a, f, file, t))
  }

  /** The first transfer of a file that is neither terminal nor paid costs the attempt exactly
      the bytes its opens moved; if none moved, its reservation may also have been left open. */
  ghost predicate PaidFor(l: Ledger, n: Ledger, a: AttemptId, f: FileId, file: RemoteFile, reserved: nat, moved: nat) {
    && Known(l, a) && Known(n, a)
    && ((a, f) !in l.transfers && !TerminalInSomeMode(l, file) && file.identity !in l.chargedSources ==>
         var cost := n.attemptCharged[a] - l.attemptCharged[a];
         cost == moved || (moved == 0 && cost == reserved))
  }

  lemma PaysNoted(l: Ledger, n: Ledger, a: AttemptId, f: FileId, file: RemoteFile, t: int, archiveOnly: bool)
    requires Pays(l, n, a, f, file, t)
    ensures Pays(l, NoteTerminal(n, file, archiveOnly), a, f, file, t)
  {
    hide CostsExactly;
  }

  /** Reserved and then settled, or left as reserved. */
  lemma PaysFor(l: Ledger, n: Ledger, a: AttemptId, source: SourceId, p: Policy, f: FileId, file: RemoteFile,
                reserved: nat, moved: nat)
    requires InForce(l, a, source, p) && InForce(n, a, source, p)
    ensures var m := Reserve(l, a, f, reserved).0;
      Pays(m, n, a, f, file, moved) || (moved == 0 && n == m) ==> PaidFor(l, n, a, f, file, reserved, moved)
  {
  }

  // ----- one listed file

  ghost predicate Attending(repo: Store, id: AttemptId, scope: Scope, policy: Policy)
    reads repo
  {
    && repo.Valid() && InForce(repo.books, id, scope.source, policy)
    && id in repo.attempts && repo.attempts[id].scope == scope
    && scope in repo.checkpoints && scope in repo.trail
    && AllDealt(repo.trail[scope], scope, repo.books.terminal)
  }

  /** Everything the generation has left behind was unreadable, and there was something. */
  predicate OnlyUnreadable(c: Checkpoint) { c.recognized == 0 && c.unknown > 0 }

  ghost predicate Standing(repo: Store, scope: Scope, cursor: Option<Cursor>, offset: nat)
    reads repo
  {
    scope in repo.checkpoints && repo.checkpoints[scope].cursor == cursor && repo.checkpoints[scope].offset == offset
  }

  ghost function Beyond(c: Checkpoint, file: RemoteFile): Checkpoint {
    c.(offset := c.offset + 1, retryBoundary := false,
       recognized := c.recognized + (if file.unknownFormat then 0 else 1),
       unknown := c.unknown + (if file.unknownFormat then 1 else 0))
  }

  /** The checkpoint and its trail moved past `file`, or did not move at all. */
  twostate predicate MovedPast(repo: Store, scope: Scope, file: RemoteFile, moved: bool)
    requires scope in old(repo.checkpoints) && scope in old(repo.trail)
    reads repo
  {
    var c := old(repo.checkpoints)[scope];
    repo.attempts.Keys == old(repo.attempts.Keys) &&
    if moved then
      && repo.checkpoints == old(repo.checkpoints)[scope := Beyond(c, file)]
      && repo.trail == old(repo.trail)[scope := old(repo.trail)[scope] + [Visit(c.cursor, c.offset, file)]]
    else repo.checkpoints == old(repo.checkpoints) && repo.trail == old(repo.trail)
  }

  /** Only a file that was terminal already can have had its settlement refused. */
  ghost predicate Excused(e: RunError, l: Ledger) {
    e.ReservationExceeded? ==> TerminalInSomeMode(l, e.file)
  }

  /** The checkpoints and everything else outside the ledger are as they were. */
  twostate predicate OnlyBooks(repo: Store)
    reads repo
  {
    && repo.checkpoints == old(repo.checkpoints) && repo.trail == old(repo.trail)
    && repo.attempts == old(repo.attempts)
    && (forall i :: i in old(repo.paid) ==> i in repo.paid && repo.paid[i] == old(repo.paid)[i])
  }

  datatype Processed = Processed(duplicate: bool) | Errored(error: Download.Error, pending: bool, refused: bool)

  /** Ingest one reserved file, settle what it moved, bootstrap the catalog. */
  method ProcessFile(repo: Store, policy: Policy, scope: Scope, id: AttemptId, world: World, n: nat, fileId: FileId,
                     file: RemoteFile, reserved: nat, limit: Option<int>)
    returns (r: Processed, ghost made: nat)
    requires ValidPolicy(policy) && Attending(repo, id, scope, policy) && Booked(repo.books, id, fileId, reserved)
    requires limit.Some? ==> limit.value == reserved - policy.chunkBytes > 0
    modifies repo
    ensures Attending(repo, id, scope, policy) && Booked(repo.books, id, fileId, reserved) && OnlyBooks(repo)
    ensures r.Processed? ==> AllSettled(repo.books, id) && IsTerminal(repo.books, file, scope.archiveOnly)
    ensures r.Errored? ==> repo.books.terminal == old(repo.books.terminal)
    ensures r.Errored? && r.pending ==> AllSettled(repo.books, id)
    ensures r.Errored? && r.refused ==> r.error.Unclassified? && repo.books == old(repo.books)
    ensures r.Errored? && !r.pending && !r.refused ==> repo.books == old(repo.books)
    ensures r.Errored? && HonestWorld(world, policy) && !TerminalInSomeMode(old(repo.books), file) && limit.Some? ==>
      !r.refused && (!r.pending ==> Download.BytesOf(r.error) <= reserved)
    ensures r.Processed? ==> repo.books.terminal == old(repo.books.terminal) + {(file.identity, scope.archiveOnly)}
    ensures Grown(old(repo.books), repo.books, id, scope.source, 0, 0, 1)
    ensures Reports(world.ingest(n)) ==>
      var moved := Download.Spent(world.ingest(n).download, limit, made);
      && Download.Makes(world.ingest(n).download, limit, policy.downloadAttempts, made)
      && (r.Processed? || r.pending ==> Pays(old(repo.books), repo.books, id, fileId, file, moved))
      && (r.Errored? && !r.pending && !r.refused ==> Download.BytesOf(r.error) == moved)
    ensures FineWorld(world, policy) && limit.Some? && limit.value >= policy.objectBytes ==>
      (file.contentLength.Some? ==> file.contentLength.value <= reserved) ==> r.Processed?
  {
    hide AllDealt, Explains, Sound, InForce, Booked, AllSettled, Settle, BudgetOf, OthersKept,
         Download.Makes, Download.Spent, Pays, ChargedExactly, Grown;
    InForceRuns(repo.books, id, scope.source, policy);
    GrownNot(repo.books, id, scope.source, policy);
    var outcome, opens := Download.Ingest(world.ingest(n), limit, policy.downloadAttempts);
    made := opens;
    assert HonestWorld(world, policy) && limit.Some? ==> Download.OutcomeBytes(outcome) <= reserved by {
      if HonestWorld(world, policy) {
        assert Download.Honest(world.ingest(n), policy.chunkBytes);
      }
    }
    if outcome.Raised? {
      return Errored(outcome.error, false, false), made;
    }
    ghost var booked := repo.books;
    SettleBooked(repo.books, id, scope.source, policy, fileId, reserved, file, outcome.transferred);
    var answer := repo.SettleTransfer(id, fileId, file, outcome.transferred);
    InForceRuns(repo.books, id, scope.source, policy);
    if answer.Refused? {
      return Errored(Download.Unclassified, false, true), made;
    }
    SettledPays(booked, repo.books, id, scope.source, policy, fileId, reserved, file, outcome.transferred);
    if !scope.archiveOnly && world.bootstrap(n).Some? {
      return Errored(world.bootstrap(n).value, true, false), made;
    }
    PaysNoted(booked, repo.books, id, fileId, file, outcome.transferred, scope.archiveOnly);
    TerminalKeeps(repo.books, id, scope.source, policy, fileId, reserved, file, scope.archiveOnly);
    DealtGrows(repo.trail[scope], scope, repo.books.terminal,
               NoteTerminal(repo.books, file, scope.archiveOnly).terminal);
    repo.RecordTerminal(file, scope.archiveOnly);
    return Processed(outcome.duplicate), made;
  }

  lemma SettledPays(l: Ledger, n: Ledger, a: AttemptId, source: SourceId, p: Policy, f: FileId, reserved: nat,
                    file: RemoteFile, t: int)
    requires InForce(l, a, source, p) && Booked(l, a, f, reserved)
    requires (a, f) in l.transfers && !l.transfers[(a, f)].settled ==> ChargedExactly(l, n, a, f, file, t)
    ensures Pays(l, n, a, f, file, t)
  {
    hide CostsExactly;
  }

  lemma TerminalKeeps(l: Ledger, a: AttemptId, source: SourceId, p: Policy, f: FileId, reserved: nat, file: RemoteFile,
                      archiveOnly: bool)
    requires InForce(l, a, source, p) && Booked(l, a, f, reserved) && AllSettled(l, a)
    ensures var n := NoteTerminal(l, file, archiveOnly);
      && InForce(n, a, source, p) && Booked(n, a, f, reserved) && AllSettled(n, a)
      && forall m :: Grown(m, l, a, source, 0, 0, 1) ==> Grown(m, n, a, source, 0, 0, 1)
  {
  }

  lemma GrownNot(l: Ledger, a: AttemptId, source: SourceId, p: Policy)
    requires InForce(l, a, source, p)
    ensures forall bytes: nat, files: nat, objects: nat :: Grown(l, l, a, source, bytes, files, objects)
  {
  }

  /** Past the file, with every count that says so. The compare-and-set never fails. */
  method AdvancePast(repo: Store, policy: Policy, scope: Scope, id: AttemptId, cursor: Option<Cursor>, index: nat,
                     file: RemoteFile)
    returns (r: AdvanceResult)
    requires Attending(repo, id, scope, policy) && Standing(repo, scope, cursor, index)
    requires Dealt(file, scope, repo.books.terminal)
    modifies repo`checkpoints, repo`attempts, repo`trail
    ensures r.Moved? && Attending(repo, id, scope, policy) && MovedPast(repo, scope, file, true)
  {
    hide AllDealt, Explains, Sound, InForce;
    InForceRuns(repo.books, id, scope.source, policy);
    DealtAppend(repo.trail[scope], Visit(cursor, index, file), scope, repo.books.terminal);
    var known, unknown := if file.unknownFormat then 0 else 1, if file.unknownFormat then 1 else 0;
    r := repo.AdvanceAttempt(id, cursor, index, cursor, index + 1, known, unknown, Some(Visit(cursor, index, file)));
  }

  lemma InForceRuns(l: Ledger, a: AttemptId, source: SourceId, p: Policy)
    requires InForce(l, a, source, p)
    ensures a in l.running && Known(l, a)
  {
  }

  /** What the run does with an error raised while a file was processed. */
  method HandleError(repo: Store, policy: Policy, scope: Scope, id: AttemptId, fileId: FileId, cursor: Option<Cursor>,
                     index: nat, file: RemoteFile, reserved: nat, e: Processed, p: Progress)
    returns (q: Progress, r: EntryResult, moved: bool)
    requires e.Errored? && !file.unknownFormat
    requires Attending(repo, id, scope, policy) && Booked(repo.books, id, fileId, reserved)
    requires Standing(repo, scope, cursor, index)
    requires e.pending ==> AllSettled(repo.books, id)
    modifies repo
    ensures Attending(repo, id, scope, policy) && MovedPast(repo, scope, file, moved)
    ensures q.discovered <= p.discovered + 1 && q == p.(discovered := q.discovered) && q.discovered >= p.discovered
    ensures !r.Advanced? && (r.Failed? ==> r.error.ReservationExceeded? || r.error.IngestionFailed?)
    ensures forall i :: i in old(repo.paid) ==> i in repo.paid && repo.paid[i] == old(repo.paid)[i]
    ensures repo.books.terminal == old(repo.books).terminal
    ensures !e.refused && (e.pending || Download.BytesOf(e.error) <= reserved) && r.Failed? ==>
      Excused(r.error, repo.books)
    ensures r.Failed? && r.error.ReservationExceeded? ==> r.error.file == file
    ensures Grown(old(repo.books), repo.books, id, scope.source, 0, 0, 1)
    ensures AllSettled(old(repo.books), id) ==> repo.books == old(repo.books)
    ensures e.error.Unclassified? ==>
      repo.books == old(repo.books) && (e.refused ==> r == Failed(ReservationExceeded(file)))
    ensures e.error.Classified? && !(r.Failed? && r.error.ReservationExceeded?) ==>
      Pays(old(repo.books), repo.books, id, fileId, file, e.error.bytes)
    ensures r.Stopped? ==> Justified(r.reason, repo.books, id, scope.source, policy, q)
  {
    hide AllDealt, Explains, Sound, InForce, Booked, AllSettled, Settle, Grown, Justified, BudgetOf, ByteReason,
         Pays, ChargedExactly;
    q, moved := p, false;
    ghost var booked := repo.books;
    GrownNot(repo.books, id, scope.source, policy);
    if e.error.Classified? {
      SettleBooked(repo.books, id, scope.source, policy, fileId, reserved, file, e.error.bytes);
      var answer := repo.SettleTransfer(id, fileId, file, e.error.bytes);
      if e.error.kind == Download.ChargeBudget {
        q := q.(discovered := q.discovered + 1);
      }
      if answer.Refused? {
        return q, Failed(ReservationExceeded(file)), false;
      }
      SettledPays(booked, repo.books, id, scope.source, policy, fileId, reserved, file, e.error.bytes);
      if e.error.kind == Download.ChargeBudget {
        StopsJustly(repo.books, id, scope.source, policy, q);
        return q, Stopped(ByteReason(policy, answer.budget)), false;
      }
    }
    q := q.(discovered := q.discovered + 1);
    if !e.pending && IsTerminal(repo.books, file, scope.archiveOnly) {
      var advance := AdvancePast(repo, policy, scope, id, cursor, index, file);
      moved := advance.Moved?;
    }
    return q, Failed(if e.refused then ReservationExceeded(file) else IngestionFailed), moved;
  }

  /** A listed file the policy has no objection to. */
  predicate Welcome(file: RemoteFile, scope: Scope, policy: Policy) {
    && (policy.strictScope ==> InScope(file, scope))
    && (file.contentLength.Some? ==> file.contentLength.value <= policy.objectBytes)
  }

  /** The run's own limits leave room for so many listed files and so many transfers. */
  predicate Room(policy: Policy, p: Progress, left: nat, need: nat) {
    p.discovered + left <= policy.maximumRecords && p.ingested + need <= policy.maximumFiles
  }

  // ----- which files still need a transfer

  /** The files among these that need a transfer, each archived object once. */
  ghost function Needy(vs: seq<Visit>, scope: Scope, terminal: set<(Identity, bool)>): set<Identity> {
    set v | v in vs && !Dealt(v.file, scope, terminal) :: v.file.identity
  }

  ghost function Need(vs: seq<Visit>, scope: Scope, terminal: set<(Identity, bool)>): nat {
    |Needy(vs, scope, terminal)|
  }

  function Transfers(file: RemoteFile, scope: Scope, terminal: set<(Identity, bool)>): nat {
    if Dealt(file, scope, terminal) then 0 else 1
  }

  /** What is terminal once the run has passed the file. */
  function Noted(terminal: set<(Identity, bool)>, file: RemoteFile, scope: Scope): set<(Identity, bool)> {
    if Dealt(file, scope, terminal) then terminal else terminal + {(file.identity, scope.archiveOnly)}
  }

  /** Passing the first file leaves one transfer less to do if it needed one. */
  lemma NeedStep(vs: seq<Visit>, scope: Scope, terminal: set<(Identity, bool)>)
    requires vs != []
    ensures Need(vs, scope, terminal)
      == Transfers(vs[0].file, scope, terminal) + Need(vs[1..], scope, Noted(terminal, vs[0].file, scope))
  {
    var file, rest := vs[0].file, vs[1..];
    assert vs == [vs[0]] + rest;
    if Dealt(file, scope, terminal) {
      assert Needy(vs, scope, terminal) == Needy(rest, scope, terminal);
    } else {
      NeedyNoted(rest, scope, terminal, file);
      assert Needy(vs, scope, terminal) == Needy(rest, scope, Noted(terminal, file, scope)) + {file.identity};
    }
  }

  lemma NeedyNoted(vs: seq<Visit>, scope: Scope, terminal: set<(Identity, bool)>, file: RemoteFile)
    requires !Dealt(file, scope, terminal)
    ensures Needy(vs, scope, Noted(terminal, file, scope)) == Needy(vs, scope, terminal) - {file.identity}
  {
    var noted := Noted(terminal, file, scope);
    assert forall v: Visit ::
      Dealt(v.file, scope, noted) <==> Dealt(v.file, scope, terminal) || v.file.identity == file.identity;
  }

  lemma NeedNothing(vs: seq<Visit>, scope: Scope, terminal: set<(Identity, bool)>)
    ensures |vs| == 0 ==> Need(vs, scope, terminal) == 0
    ensures Need(vs, scope, terminal) == 0 <==> AllDealt(vs, scope, terminal)
  {
    if Need(vs, scope, terminal) == 0 {
      forall k | 0 <= k < |vs| ensures Dealt(vs[k].file, scope, terminal) {
        assert vs[k] in vs && vs[k].file.identity !in Needy(vs, scope, terminal);
      }
    } else {
      var i :| i in Needy(vs, scope, terminal);
    }
  }

  lemma NeedFewer(vs: seq<Visit>, k: nat, scope: Scope, terminal: set<(Identity, bool)>)
    requires k <= |vs|
    ensures Need(vs[..k], scope, terminal) <= Need(vs, scope, terminal)
  {
    var some, all := Needy(vs[..k], scope, terminal), Needy(vs, scope, terminal);
    assert some <= all;
    assert all == some + (all - some);
  }

  /** Advance past a file that was transferred, and look at the budget again. */
  method PastTransferred(repo: Store, policy: Policy, scope: Scope, id: AttemptId, cursor: Option<Cursor>, index: nat,
                         file: RemoteFile, duplicate: bool, p: Progress)
    returns (q: Progress, r: EntryResult)
    requires Attending(repo, id, scope, policy) && Standing(repo, scope, cursor, index)
    requires Dealt(file, scope, repo.books.terminal)
    modifies repo`checkpoints, repo`attempts, repo`trail
    ensures Attending(repo, id, scope, policy) && MovedPast(repo, scope, file, true)
    ensures q.discovered == p.discovered + 1 && q.ingested == p.ingested + 1 && !q.retryBoundary
    ensures q.skipped == p.skipped && q.duplicates == p.duplicates + (if duplicate then 1 else 0)
    ensures !r.Failed? && (r.Advanced? <==> Below(repo.books, id, scope.source, policy))
    ensures r.Stopped? ==> Justified(r.reason, repo.books, id, scope.source, policy, q)
  {
    hide AllDealt, Explains, Sound, InForce, BudgetOf, BudgetReason, Justified, Below, ByteReason;
    var advance := AdvancePast(repo, policy, scope, id, cursor, index, file);
    q := p.(ingested := p.ingested + 1, duplicates := p.duplicates + (if duplicate then 1 else 0),
            discovered := p.discovered + 1, retryBoundary := false);
    InForceRuns(repo.books, id, scope.source, policy);
    StopsJustly(repo.books, id, scope.source, policy, q);
    var reason := BudgetReason(policy, BudgetOf(repo.books, id));
    r := if reason.Some? then Stopped(reason.value) else Advanced;
  }

  /** Reserve, ingest, settle and advance past one registered file. */
  method CarryOut(repo: Store, policy: Policy, scope: Scope, id: AttemptId, world: World, n: nat, fileId: FileId,
                  cursor: Option<Cursor>, index: nat, file: RemoteFile, p: Progress, reserved: nat, limit: Option<int>,
                  ghost calm: bool, ghost need: nat)
    returns (q: Progress, r: EntryResult, moved: bool, ghost made: nat)
    requires ValidPolicy(policy) && !file.unknownFormat
    requires Attending(repo, id, scope, policy) && AllSettled(repo.books, id)
    requires Standing(repo, scope, cursor, index)
    requires Known(repo.books, id) && (reserved == 0 || reserved <= RemainingBytes(policy, BudgetOf(repo.books, id)))
    requires reserved <= TransferCeiling(policy)
    requires limit.Some? ==> limit.value == reserved - policy.chunkBytes > 0
    requires limit.None? ==> TerminalInSomeMode(repo.books, file)
    requires calm ==>
      && FineWorld(world, policy) && Welcome(file, scope, policy) && need > 0 && Ample(repo.books, id, policy, need)
      && limit.Some? && policy.objectBytes + policy.chunkBytes <= reserved
    modifies repo
    ensures Attending(repo, id, scope, policy) && MovedPast(repo, scope, file, moved)
    ensures old(repo.books.terminal) <= repo.books.terminal
    ensures forall i :: i in old(repo.paid) ==> i in repo.paid && repo.paid[i] == old(repo.paid)[i]
    ensures r.Advanced? ==> moved && AllSettled(repo.books, id) && q.discovered == p.discovered + 1 && !q.retryBoundary
    ensures r.Advanced? ==> q.ingested == p.ingested + 1
    ensures p.discovered <= q.discovered <= p.discovered + 1 && p.ingested <= q.ingested <= p.ingested + 1
    ensures q.ingested - p.ingested <= q.discovered - p.discovered
    ensures r.Failed? ==> r.error.ReservationExceeded? || r.error.IngestionFailed?
    ensures r.Failed? && HonestWorld(world, policy) ==> Excused(r.error, repo.books)
    ensures Grown(old(repo.books), repo.books, id, scope.source, TransferCeiling(policy), 1, 1)
    ensures r.Advanced? ==>
      Below(repo.books, id, scope.source, policy) && (file.identity, scope.archiveOnly) in repo.books.terminal
    ensures r.Stopped? ==> Justified(r.reason, repo.books, id, scope.source, policy, q)
    ensures q.skipped == p.skipped
    ensures Reports(world.ingest(n)) && !(r.Failed? && r.error.ReservationExceeded?) ==>
      && Download.Makes(world.ingest(n).download, limit, policy.downloadAttempts, made)
      && PaidFor(old(repo.books), repo.books, id, fileId, file, reserved,
                 Download.Spent(world.ingest(n).download, limit, made))
    ensures calm ==>
      && r.Advanced? && Ample(repo.books, id, policy, need - 1)
      && repo.books.terminal == old(repo.books.terminal) + {(file.identity, scope.archiveOnly)}
  {
    hide AllDealt, Explains, Sound, InForce, Booked, AllSettled, Settle, Reserve, HonestWorld, FineWorld, BudgetReason,
         BudgetOf, RemainingBytes, Enough, Grown, ValidPolicy, Below, Justified, TransferCeiling,
         Pays, PaidFor, Reports, Download.Makes, Download.Spent, Ample;
    ghost var before := repo.books;
    ReserveBooks(repo.books, id, scope.source, policy, fileId, reserved);
    var answer := repo.ReserveTransfer(id, fileId, reserved);
    InForceRuns(repo.books, id, scope.source, policy);
    ghost var booked := repo.books;
    var processed;
    processed, made := ProcessFile(repo, policy, scope, id, world, n, fileId, file, reserved, limit);
    ghost var moves := Download.Spent(world.ingest(n).download, limit, made);
    if processed.Errored? {
      q, r, moved := HandleError(repo, policy, scope, id, fileId, cursor, index, file, reserved, processed, p);
      GrownTwice(before, booked, repo.books, id, scope.source, reserved, TransferCeiling(policy));
      PaysFor(before, repo.books, id, scope.source, policy, fileId, file, reserved, moves);
      return;
    }
    GrownTwice(before, booked, repo.books, id, scope.source, reserved, TransferCeiling(policy));
    PaysFor(before, repo.books, id, scope.source, policy, fileId, file, reserved, moves);
    q, r := PastTransferred(repo, policy, scope, id, cursor, index, file, processed.duplicate, p);
    moved := true;
    if calm {
      AmpleForRest(before, repo.books, id, scope.source, policy, need);
    }
  }

  lemma GrownTwice(l: Ledger, m: Ledger, n: Ledger, a: AttemptId, source: SourceId, bytes: int, most: int)
    requires Grown(l, m, a, source, bytes, 1, 0) && Grown(m, n, a, source, 0, 0, 1) && bytes <= most
    ensures Grown(l, n, a, source, most, 1, 1)
  {
  }

  /** Register, reserve, ingest, settle and advance past one file. */
  method TransferFile(repo: Store, policy: Policy, scope: Scope, id: AttemptId, world: World, n: nat,
                      cursor: Option<Cursor>, index: nat, file: RemoteFile, p: Progress, retryingTerminal: bool,
                      ghost calm: bool, ghost need: nat)
    returns (q: Progress, r: EntryResult, moved: bool)
    requires ValidPolicy(policy) && !file.unknownFormat
    requires Attending(repo, id, scope, policy) && AllSettled(repo.books, id)
    requires Standing(repo, scope, cursor, index)
    requires !retryingTerminal ==> RemainingBytes(policy, BudgetOf(repo.books, id)) > policy.chunkBytes
    requires retryingTerminal ==> TerminalInSomeMode(repo.books, file)
    requires calm ==>
      && FineWorld(world, policy) && Welcome(file, scope, policy) && need > 0 && Ample(repo.books, id, policy, need)
      && !retryingTerminal
    modifies repo
    ensures Attending(repo, id, scope, policy) && MovedPast(repo, scope, file, moved)
    ensures old(repo.books.terminal) <= repo.books.terminal
    ensures forall i :: i in old(repo.paid) ==> i in repo.paid && repo.paid[i] == old(repo.paid)[i]
    ensures r.Advanced? ==> moved && AllSettled(repo.books, id) && q.discovered == p.discovered + 1 && !q.retryBoundary
    ensures r.Advanced? ==> q.ingested == p.ingested + 1
    ensures p.discovered <= q.discovered <= p.discovered + 1 && p.ingested <= q.ingested <= p.ingested + 1
    ensures q.ingested - p.ingested <= q.discovered - p.discovered
    ensures r.Failed? ==> r.error.ReservationExceeded? || r.error.IngestionFailed? || r.error.RegistrationFailed?
    ensures r.Failed? && HonestWorld(world, policy) ==> Excused(r.error, repo.books)
    ensures Grown(old(repo.books), repo.books, id, scope.source, TransferCeiling(policy), 1, 1)
    ensures r.Advanced? ==>
      Below(repo.books, id, scope.source, policy) && (file.identity, scope.archiveOnly) in repo.books.terminal
    ensures r.Stopped? ==> Justified(r.reason, repo.books, id, scope.source, policy, q)
    ensures q.skipped == p.skipped
    ensures calm ==>
      && r.Advanced? && Ample(repo.books, id, policy, need - 1)
      && repo.books.terminal == old(repo.books.terminal) + {(file.identity, scope.archiveOnly)}
  {
    hide AllDealt, Explains, Sound, InForce, AllSettled, HonestWorld, BudgetReason, BudgetOf, RemainingBytes, Enough,
         FullReservation, Grown, Below, Justified, TransferCeiling;
    q, moved := p, false;
    InForceRuns(repo.books, id, scope.source, policy);
    GrownNot(repo.books, id, scope.source, policy);
    var remaining := RemainingBytes(policy, BudgetOf(repo.books, id));
    var full := FullReservation(policy, file);
    FullCovers(policy, file);
    if calm {
      EnoughForOne(BudgetOf(repo.books, id), policy, file, need);
    }
    var registered := world.register(n);
    if registered.None? {
      return q, Failed(RegistrationFailed), moved;
    }
    var reserved: nat := if retryingTerminal then 0 else if remaining <= full then remaining else full;
    var limit := if retryingTerminal then None else Some(reserved - policy.chunkBytes);
    ghost var made;
    q, r, moved, made := CarryOut(repo, policy, scope, id, world, n, registered.value, cursor, index, file, p, reserved,
                                  limit, calm, need);
  }

  lemma FullCovers(policy: Policy, file: RemoteFile)
    requires ValidPolicy(policy)
    ensures policy.chunkBytes < FullReservation(policy, file) <= TransferCeiling(policy)
    ensures file.protocol in {Ftp, Ftps} ==>
      FullReservation(policy, file) == policy.objectBytes + policy.chunkBytes + policy.ftpOverheadBytes
    ensures file.protocol in {Http, Https} ==>
      FullReservation(policy, file) == policy.objectBytes + policy.chunkBytes + policy.httpOverheadBytes
  {
  }

  /** The decisions the run takes about one listed file, in order. */
  method VisitFile(repo: Store, policy: Policy, scope: Scope, id: AttemptId, world: World, n: nat,
                   cursor: Option<Cursor>, index: nat, file: RemoteFile, p: Progress, ghost calm: bool, ghost need: nat)
    returns (q: Progress, r: EntryResult, moved: bool)
    requires ValidPolicy(policy)
    requires Attending(repo, id, scope, policy) && AllSettled(repo.books, id)
    requires Standing(repo, scope, cursor, index)
    requires p.discovered <= policy.maximumRecords && p.ingested <= policy.maximumFiles
    requires calm ==>
      && FineWorld(world, policy) && Welcome(file, scope, policy) && Ample(repo.books, id, policy, need)
      && Transfers(file, scope, repo.books.terminal) <= need && Room(policy, p, 1, need)
      && !(p.retryBoundary && IsTerminal(repo.books, file, scope.archiveOnly))
    modifies repo
    ensures Attending(repo, id, scope, policy) && MovedPast(repo, scope, file, moved)
    ensures old(repo.books.terminal) <= repo.books.terminal
    ensures calm ==>
      var done := Transfers(file, scope, old(repo.books.terminal));
      && r.Advanced? && q.ingested == p.ingested + done && Ample(repo.books, id, policy, need - done)
      && repo.books.terminal == Noted(old(repo.books.terminal), file, scope)
    ensures forall i :: i in old(repo.paid) ==> i in repo.paid && repo.paid[i] == old(repo.paid)[i]
    ensures r.Advanced? ==> moved && AllSettled(repo.books, id) && q.discovered == p.discovered + 1 && !q.retryBoundary
    ensures p.discovered <= q.discovered <= policy.maximumRecords && p.ingested <= q.ingested <= policy.maximumFiles
    ensures q.ingested - p.ingested <= q.discovered - p.discovered
    ensures r.Failed? ==> r.error != OnlyUnknown
    ensures r.Failed? && HonestWorld(world, policy) ==> Excused(r.error, repo.books)
    ensures r.Advanced? ==>
      var settled := IsTerminal(old(repo.books), file, scope.archiveOnly) && !p.retryBoundary;
      q.ingested == p.ingested + if file.unknownFormat || !InRange(file, scope) || settled then 0 else 1
    ensures r.Advanced? ==>
      if q.ingested > p.ingested then Below(repo.books, id, scope.source, policy) else repo.books == old(repo.books)
    ensures r.Advanced? ==>
      || file.unknownFormat || !InRange(file, scope) || (file.identity, false) in repo.books.terminal
      || (scope.archiveOnly && (file.identity, true) in repo.books.terminal)
    ensures r == Failed(OutOfScope) || (r.Advanced? && policy.strictScope) ==>
      (r.Advanced? <==> file.identity.retailer == scope.source && file.identity.portal in scope.portals)
    ensures r.Stopped? ==> Justified(r.reason, repo.books, id, scope.source, policy, q)
    ensures q.skipped == p.skipped + if moved && file.unknownFormat then 1 else 0
    ensures Capped(old(repo.books), repo.books, scope.source, policy, if p.retryBoundary then 1 else 0)
  {
    hide AllDealt, Explains, Sound, InForce, AllSettled, HonestWorld, Enough, BudgetOf, BudgetReason, RemainingBytes,
         FullReservation, Grown, Below, Capped, TransferCeiling, ByteReason;
    q, moved := p, false;
    CappedStill(repo.books, scope.source, policy);
    InForceRuns(repo.books, id, scope.source, policy);
    if calm && need > 0 {
      EnoughForOne(BudgetOf(repo.books, id), policy, file, need);
    }
    if world.elapsed(n) {
      return q, Stopped(ListingBudget), moved;
    }
    if p.discovered >= policy.maximumRecords {
      return q, Stopped(DiscoveryLimit), moved;
    }
    if policy.strictScope && !InScope(file, scope) {
      return q, Failed(OutOfScope), moved;
    }
    if file.unknownFormat {
      var advance := AdvancePast(repo, policy, scope, id, cursor, index, file);
      moved := advance.Moved?;
      q := q.(discovered := q.discovered + 1, skipped := q.skipped + 1, retryBoundary := false);
      return q, Advanced, moved;
    }
    var terminal := IsTerminal(repo.books, file, scope.archiveOnly);
    if !InRange(file, scope) || (terminal && !p.retryBoundary) {
      var advance := AdvancePast(repo, policy, scope, id, cursor, index, file);
      moved := advance.Moved?;
      q := q.(discovered := q.discovered + 1, retryBoundary := false);
      return q, Advanced, moved;
    }
    if p.ingested >= policy.maximumFiles {
      return q, Stopped(FileLimit), moved;
    }
    StopsJustly(repo.books, id, scope.source, policy, q);
    var budget := BudgetOf(repo.books, id);
    var reason := BudgetReason(policy, budget);
    var retryingTerminal := terminal && p.retryBoundary;
    if reason.Some? && !retryingTerminal {
      return q, Stopped(reason.value), moved;
    }
    if RemainingBytes(policy, budget) <= policy.chunkBytes && !retryingTerminal {
      return q, Stopped(ByteReason(policy, budget)), moved;
    }
    ghost var books := repo.books;
    q, r, moved := TransferFile(repo, policy, scope, id, world, n, cursor, index, file, p, retryingTerminal, calm,
                                need);
    CappedTransfer(books, repo.books, id, scope.source, policy, TransferCeiling(policy));
  }

  // ----- one page

  /** From books l and checkpoint c to books m and checkpoint d, while p became q: skipped
      files are the unreadable ones left behind, and the day counters stay capped, with one
      extra once the pending retry has been used. */
  ghost predicate Accounted(l: Ledger, c: Checkpoint, p: Progress, m: Ledger, d: Checkpoint, q: Progress,
                            source: SourceId, policy: Policy, goesOn: bool) {
    && q.skipped + c.unknown == p.skipped + d.unknown
    && (goesOn && q.retryBoundary ==> p.retryBoundary)
    && Capped(l, m, source, policy, if p.retryBoundary && !(goesOn && q.retryBoundary) then 1 else 0)
  }

  lemma AccountedStill(l: Ledger, c: Checkpoint, p: Progress, source: SourceId, policy: Policy)
    ensures forall goesOn :: Accounted(l, c, p, l, c, p, source, policy, goesOn)
  {
    hide Capped;
    CappedStill(l, source, policy);
  }

  lemma AccountedMore(l: Ledger, c: Checkpoint, p: Progress, m: Ledger, d: Checkpoint, q: Progress, source: SourceId,
                      policy: Policy)
    requires Accounted(l, c, p, m, d, q, source, policy, true)
    ensures forall e: Checkpoint, goesOn ::
      e.unknown == d.unknown ==> Accounted(l, c, p, m, e, q, source, policy, goesOn)
  {
  }

  lemma AccountedTwice(l: Ledger, c: Checkpoint, p: Progress, m: Ledger, d: Checkpoint, q: Progress, n: Ledger,
                       e: Checkpoint, r: Progress, source: SourceId, policy: Policy, goesOn: bool)
    requires Accounted(l, c, p, m, d, q, source, policy, true) && Accounted(m, d, q, n, e, r, source, policy, goesOn)
    ensures Accounted(l, c, p, n, e, r, source, policy, goesOn)
  {
    hide Capped;
    CappedTwice(l, m, n, source, policy, if p.retryBoundary && !q.retryBoundary then 1 else 0,
                if q.retryBoundary && !(goesOn && r.retryBoundary) then 1 else 0);
  }

  /** From one state to the other the scope's trail gained the files of the page from lo up
      to hi; nothing else moved, and no payment was touched. */
  ghost predicate Walked(c0: map<Scope, Checkpoint>, t0: map<Scope, seq<Visit>>, paid0: Payments,
                         c1: map<Scope, Checkpoint>, t1: map<Scope, seq<Visit>>, paid1: Payments, scope: Scope,
                         cursor: Option<Cursor>, files: seq<RemoteFile>, lo: nat, hi: nat) {
    && lo <= hi <= |files| && scope in c0 && scope in c1 && scope in t0
    && t1 == t0[scope := t0[scope] + Visits(cursor, files, lo, hi)]
    && c1 == c0[scope := c1[scope]] && c1[scope].complete == c0[scope].complete
    && c1[scope].generation == c0[scope].generation
    && (forall i :: i in paid0 ==> i in paid1 && paid1[i] == paid0[i])
  }

  lemma WalkedNowhere(c: map<Scope, Checkpoint>, t: map<Scope, seq<Visit>>, paid: Payments, scope: Scope,
                      cursor: Option<Cursor>, files: seq<RemoteFile>, at: nat)
    requires at <= |files| && scope in c && scope in t
    ensures Walked(c, t, paid, c, t, paid, scope, cursor, files, at, at)
  {
    NoVisits(cursor, files, at);
    assert t[scope] + [] == t[scope];
  }

  lemma WalkedMore(c0: map<Scope, Checkpoint>, t0: map<Scope, seq<Visit>>, paid0: Payments, c1: map<Scope, Checkpoint>,
                   t1: map<Scope, seq<Visit>>, paid1: Payments, c2: map<Scope, Checkpoint>, t2: map<Scope, seq<Visit>>,
                   paid2: Payments, scope: Scope, cursor: Option<Cursor>, files: seq<RemoteFile>, lo: nat, hi: nat,
                   moved: bool)
    requires Walked(c0, t0, paid0, c1, t1, paid1, scope, cursor, files, lo, hi) && hi < |files| && scope in t1
    requires forall i :: i in paid1 ==> i in paid2 && paid2[i] == paid1[i]
    requires c1[scope].cursor == cursor && c1[scope].offset == hi
    requires if moved then
        && c2 == c1[scope := Beyond(c1[scope], files[hi])]
        && t2 == t1[scope := t1[scope] + [Visit(cursor, hi, files[hi])]]
      else c2 == c1 && t2 == t1
    ensures Walked(c0, t0, paid0, c2, t2, paid2, scope, cursor, files, lo, if moved then hi + 1 else hi)
  {
    hide Visits;
    VisitMore(t0[scope], cursor, files, lo, hi);
  }

  /** The visits ahead begin with the files of the page from the offset on. */
  ghost predicate Heads(ahead: seq<Visit>, files: seq<RemoteFile>, offset: nat) {
    && offset <= |files| && |files| - offset <= |ahead|
    && forall k :: 0 <= k < |files| - offset ==> ahead[k].file == files[offset + k]
  }

  /** After the first k of the files ahead there is enough for the rest, and every file that
      needed a transfer got one: of all of them, and of the first `cut` of them. */
  ghost predicate Paced(l: Ledger, id: AttemptId, policy: Policy, scope: Scope, ahead: seq<Visit>, cut: nat, k: nat,
                        terminal: set<(Identity, bool)>, p: Progress, q: Progress) {
    && k <= |ahead| && cut <= |ahead|
    && Ample(l, id, policy, Need(ahead[k..], scope, l.terminal))
    && q.ingested + Need(ahead[k..], scope, l.terminal) == p.ingested + Need(ahead, scope, terminal)
    && (k <= cut ==>
         q.ingested + Need(ahead[k..cut], scope, l.terminal) == p.ingested + Need(ahead[..cut], scope, terminal))
  }

  lemma PacedStart(l: Ledger, id: AttemptId, policy: Policy, scope: Scope, ahead: seq<Visit>, cut: nat, p: Progress)
    requires cut <= |ahead| && Ample(l, id, policy, Need(ahead, scope, l.terminal))
    ensures Paced(l, id, policy, scope, ahead, cut, 0, l.terminal, p, p)
  {
    hide Need, Ample;
    assert ahead[0..] == ahead && ahead[0..cut] == ahead[..cut];
  }

  lemma PacedNext(l: Ledger, id: AttemptId, policy: Policy, scope: Scope, ahead: seq<Visit>, cut: nat, k: nat,
                  terminal: set<(Identity, bool)>, p: Progress, q: Progress)
    requires Paced(l, id, policy, scope, ahead, cut, k, terminal, p, q) && k < |ahead|
    ensures var need := Need(ahead[k..], scope, l.terminal);
      && Ample(l, id, policy, need) && Transfers(ahead[k].file, scope, l.terminal) <= need
      && q.ingested + need == p.ingested + Need(ahead, scope, terminal)
  {
    hide Need, Ample;
    NeedStep(ahead[k..], scope, l.terminal);
  }

  lemma PacedStep(l: Ledger, m: Ledger, id: AttemptId, policy: Policy, scope: Scope, ahead: seq<Visit>, cut: nat,
                  k: nat, terminal: set<(Identity, bool)>, p: Progress, q: Progress, next: Progress)
    requires Paced(l, id, policy, scope, ahead, cut, k, terminal, p, q) && k < |ahead|
    requires var done := Transfers(ahead[k].file, scope, l.terminal);
      && done <= Need(ahead[k..], scope, l.terminal) && next.ingested == q.ingested + done
      && Ample(m, id, policy, Need(ahead[k..], scope, l.terminal) - done)
      && m.terminal == Noted(l.terminal, ahead[k].file, scope)
    ensures Paced(m, id, policy, scope, ahead, cut, k + 1, terminal, p, next)
  {
    hide Need, Ample, Noted, Transfers;
    NeedStep(ahead[k..], scope, l.terminal);
    assert ahead[k..][1..] == ahead[k + 1..];
    if k < cut {
      NeedStep(ahead[k..cut], scope, l.terminal);
      assert ahead[k..cut][1..] == ahead[k + 1..cut];
    }
  }

  lemma ScopeAttended(repo: Store, id: AttemptId, scope: Scope, policy: Policy)
    requires Attending(repo, id, scope, policy)
    ensures scope in repo.checkpoints && scope in repo.trail && InForce(repo.books, id, scope.source, policy)
    ensures AllDealt(repo.trail[scope], scope, repo.books.terminal)
  {
  }

  /** Walk the rest of a page. `reached` is the offset of the first file not left behind. */
  method WalkPage(repo: Store, policy: Policy, scope: Scope, id: AttemptId, world: World, base: nat,
                  cursor: Option<Cursor>, offset: nat, files: seq<RemoteFile>, p: Progress, ghost calm: bool,
                  ghost ahead: seq<Visit>, ghost cut: nat)
    returns (q: Progress, r: EntryResult, seen: nat, ghost reached: nat)
    requires ValidPolicy(policy) && offset <= |files|
    requires Attending(repo, id, scope, policy) && AllSettled(repo.books, id)
    requires Standing(repo, scope, cursor, offset)
    requires p.discovered <= policy.maximumRecords && p.ingested <= policy.maximumFiles
    requires p.ingested > 0 ==> Below(repo.books, id, scope.source, policy)
    requires calm ==>
      && FineWorld(world, policy) && Heads(ahead, files, offset) && cut <= |ahead|
      && Ample(repo.books, id, policy, Need(ahead, scope, repo.books.terminal))
      && Room(policy, p, |ahead|, Need(ahead, scope, repo.books.terminal))
      && (forall j :: 0 <= j < |files| ==> Welcome(files[j], scope, policy))
      && (p.retryBoundary && offset < |files| ==> !IsTerminal(repo.books, files[offset], scope.archiveOnly))
    modifies repo
    ensures Attending(repo, id, scope, policy)
    ensures old(repo.books.terminal) <= repo.books.terminal
    ensures calm ==>
      && r.Advanced?
      && Paced(repo.books, id, policy, scope, ahead, cut, |files| - offset, old(repo.books.terminal), p, q)
      && (q.retryBoundary ==> p.retryBoundary && repo.books == old(repo.books) && offset == |files|)
    ensures offset <= reached <= |files| && Standing(repo, scope, cursor, reached)
    ensures repo.attempts.Keys == old(repo.attempts.Keys)
    ensures Walked(old(repo.checkpoints), old(repo.trail), old(repo.paid), repo.checkpoints, repo.trail, repo.paid,
                   scope, cursor, files, offset, reached)
    ensures r.Advanced? ==>
      reached == |files| && AllSettled(repo.books, id) && q.discovered == p.discovered + (|files| - offset)
    ensures p.discovered <= q.discovered <= policy.maximumRecords && p.ingested <= q.ingested <= policy.maximumFiles
    ensures q.ingested - p.ingested <= q.discovered - p.discovered
    ensures r.Failed? ==> r.error != OnlyUnknown
    ensures r.Failed? && HonestWorld(world, policy) ==> Excused(r.error, repo.books)
    ensures r.Stopped? ==> Justified(r.reason, repo.books, id, scope.source, policy, q)
    ensures r.Advanced? && q.ingested > 0 ==> Below(repo.books, id, scope.source, policy)
    ensures Accounted(old(repo.books), old(repo.checkpoints)[scope], p, repo.books, repo.checkpoints[scope], q,
                      scope.source, policy, r.Advanced?)
  {
    hide AllDealt, Explains, Sound, InForce, AllSettled, HonestWorld, Visits, ValidPolicy, FineWorld, Welcome, Ample,
         IsTerminal, Walked, Beyond, Need, Paced, Noted, Transfers, Below, Capped, Justified, InRange,
         Accounted, Attending;
    ScopeAttended(repo, id, scope, policy);
    q, seen, reached := p, base, offset;
    var index := offset;
    ghost var c0, t0, paid0 := repo.checkpoints, repo.trail, repo.paid;
    WalkedNowhere(c0, t0, paid0, scope, cursor, files, offset);
    AccountedStill(repo.books, c0[scope], p, scope.source, policy);
    if calm {
      PacedStart(repo.books, id, policy, scope, ahead, cut, p);
    }
    while index < |files|
      invariant offset <= index == reached <= |files|
      invariant Attending(repo, id, scope, policy) && AllSettled(repo.books, id)
      invariant Standing(repo, scope, cursor, index) && repo.attempts.Keys == old(repo.attempts.Keys)
      invariant Walked(c0, t0, paid0, repo.checkpoints, repo.trail, repo.paid, scope, cursor, files, offset, index)
      invariant q.discovered == p.discovered + (index - offset) <= policy.maximumRecords
      invariant p.ingested <= q.ingested <= policy.maximumFiles
      invariant q.ingested - p.ingested <= q.discovered - p.discovered
      invariant old(repo.books.terminal) <= repo.books.terminal
      invariant calm ==>
        Paced(repo.books, id, policy, scope, ahead, cut, index - offset, old(repo.books.terminal), p, q)
      invariant calm && q.retryBoundary ==> index == offset && p.retryBoundary && repo.books == old(repo.books)
      invariant q.ingested > 0 ==> Below(repo.books, id, scope.source, policy)
      invariant Accounted(old(repo.books), c0[scope], p, repo.books, repo.checkpoints[scope], q, scope.source, policy,
                          true)
    {
      ghost var c1, t1, paid1 := repo.checkpoints, repo.trail, repo.paid;
      ScopeAttended(repo, id, scope, policy);
      var moved;
      ghost var books, was := repo.books, q;
      if calm {
        PacedNext(books, id, policy, scope, ahead, cut, index - offset, old(repo.books.terminal), p, q);
      }
      q, r, moved := VisitFile(repo, policy, scope, id, world, seen, cursor, index, files[index], q, calm,
                               if calm then Need(ahead[index - offset..], scope, repo.books.terminal) else 0);
      if calm {
        PacedStep(books, repo.books, id, policy, scope, ahead, cut, index - offset, old(repo.books.terminal), p, was, q);
      }
      seen := seen + 1;
      WalkedMore(c0, t0, paid0, c1, t1, paid1, repo.checkpoints, repo.trail, repo.paid, scope, cursor, files, offset,
                 index, moved);
      BeyondMoves(c1[scope], files[index]);
      VisitAccounted(books, c1[scope], was, repo.books, repo.checkpoints[scope], q, scope.source, policy, files[index],
                     moved, r.Advanced?);
      AccountedTwice(old(repo.books), c0[scope], p, books, c1[scope], was, repo.books, repo.checkpoints[scope], q,
                     scope.source, policy, r.Advanced?);
      reached := if moved then index + 1 else index;
      if !r.Advanced? {
        return;
      }
      index := index + 1;
    }
    r := Advanced;
  }

  lemma VisitAccounted(l: Ledger, c: Checkpoint, p: Progress, m: Ledger, d: Checkpoint, q: Progress, source: SourceId,
                       policy: Policy, file: RemoteFile, moved: bool, goesOn: bool)
    requires q.skipped == p.skipped + (if moved && file.unknownFormat then 1 else 0)
    requires d.unknown == c.unknown + (if moved && file.unknownFormat then 1 else 0)
    requires goesOn ==> !q.retryBoundary
    requires Capped(l, m, source, policy, if p.retryBoundary then 1 else 0)
    ensures Accounted(l, c, p, m, d, q, source, policy, goesOn)
  {
  }

  lemma BeyondMoves(c: Checkpoint, file: RemoteFile)
    ensures Beyond(c, file).cursor == c.cursor && Beyond(c, file).offset == c.offset + 1
    ensures Beyond(c, file).unknown == c.unknown + if file.unknownFormat then 1 else 0
  {
  }

  // ----- one run

  datatype Ending = Completed | Bounded(reason: Reason) | Broken(error: RunError)

  /** The publisher serves one fixed acyclic listing, whenever it answers at all. */
  ghost predicate Faithful(w: World, l: Listing) {
    Acyclic(l) && forall n: nat, c :: w.discover(n, c).Fetched? ==> Lists(l, c, w.discover(n, c).page)
  }

  ghost predicate StandsIn(repo: Store, scope: Scope, l: Listing, closed: bool)
    reads repo
  {
    && scope in repo.checkpoints && scope in repo.trail
    && Stands(repo.checkpoints[scope].(complete := closed), repo.trail[scope], l)
  }

  predicate UsableCursor(value: Option<Cursor>, current: Option<Cursor>, seen: set<Cursor>) {
    value.Some? && value != current && value.value !in seen && 1 <= |value.value| <= 8192
  }

  /** Move the checkpoint to the next page, or to the start once the listing is done.
      Here too the compare-and-set never fails. */
  method TurnPage(repo: Store, policy: Policy, scope: Scope, id: AttemptId, cursor: Option<Cursor>, offset: nat,
                  next: Option<Cursor>)
    returns (r: AdvanceResult)
    requires Attending(repo, id, scope, policy) && Standing(repo, scope, cursor, offset)
    modifies repo`checkpoints, repo`attempts, repo`trail
    ensures Attending(repo, id, scope, policy) && Standing(repo, scope, next, 0)
    ensures repo.trail == old(repo.trail) && repo.attempts.Keys == old(repo.attempts.Keys)
    ensures repo.checkpoints == old(repo.checkpoints)[scope := old(repo.checkpoints)[scope].(
      cursor := next, offset := 0, retryBoundary := false)]
    ensures r.Moved? && r.attempt.recognized == repo.checkpoints[scope].recognized
      && r.attempt.unknown == repo.checkpoints[scope].unknown
  {
    hide AllDealt, Explains, Sound, InForce;
    InForceRuns(repo.books, id, scope.source, policy);
    r := repo.AdvanceAttempt(id, cursor, offset, next, 0, 0, 0, None);
    assert old(repo.trail)[scope] + [] == old(repo.trail)[scope];
  }

  // ----- favourable runs

  /** The publisher answers every request for a listed page with that page. */
  ghost predicate Serving(w: World, l: Listing) {
    forall n: nat, i: nat :: i < |l| ==> w.discover(n, l[i].cursor) == Fetched(Served(l, i))
  }

  ghost predicate AllWelcome(l: Listing, scope: Scope, policy: Policy) {
    forall i, j :: 0 <= i < |l| && 0 <= j < |l[i].files| ==> Welcome(l[i].files[j], scope, policy)
  }

  /** The listed files a checkpoint with this trail has ahead of it. */
  ghost function Ahead(l: Listing, trail: seq<Visit>): seq<Visit> {
    if |trail| <= |Flat(l, |l|)| then Flat(l, |l|)[|trail|..] else []
  }

  /** How many of them come before the last page. */
  ghost function BeforeLast(l: Listing, trail: seq<Visit>): nat
    requires |l| > 0
  {
    if |trail| <= |Flat(l, |l| - 1)| then |Flat(l, |l| - 1)| - |trail| else 0
  }

  lemma BeforeLastFits(l: Listing, trail: seq<Visit>)
    requires |l| > 0
    ensures BeforeLast(l, trail) <= |Ahead(l, trail)|
  {
    FlatPrefix(l, |l| - 1, |l|);
  }

  /** How many of those need a transfer. */
  ghost function NeedBeforeLast(l: Listing, trail: seq<Visit>, scope: Scope, terminal: set<(Identity, bool)>): nat
    requires |l| > 0
  {
    BeforeLastFits(l, trail);
    Need(Ahead(l, trail)[..BeforeLast(l, trail)], scope, terminal)
  }

  /** The next file ahead is not terminal. */
  ghost predicate NextIsNew(books: Ledger, scope: Scope, ahead: seq<Visit>) {
    ahead != [] ==> !IsTerminal(books, ahead[0].file, scope.archiveOnly)
  }

  ghost predicate SeenBefore(seen: set<Cursor>, l: Listing, at: nat) {
    forall c :: c in seen ==> exists j :: 0 <= j <= at < |l| && l[j].cursor == Some(c)
  }

  /** Standing on page `at`, everything allows the run to go on: limits count the listed
      files and the transfers ahead, budgets the transfers only. A pending retry boundary
      asks that the next file is not terminal. */
  ghost predicate Calm(books: Ledger, id: AttemptId, policy: Policy, scope: Scope, world: World, l: Listing, at: nat,
                       cursor: Option<Cursor>, offset: nat, trail: seq<Visit>, seen: set<Cursor>, p: Progress) {
    var ahead := Ahead(l, trail);
    && FineWorld(world, policy) && Serving(world, l) && Tidy(l) && AllWelcome(l, scope, policy)
    && OnPage(cursor, offset, trail, l, at) && SeenBefore(seen, l, at)
    && Ample(books, id, policy, Need(ahead, scope, books.terminal))
    && Room(policy, p, |ahead|, Need(ahead, scope, books.terminal))
    && (p.retryBoundary ==> NextIsNew(books, scope, ahead))
  }

  lemma AheadOnPage(cursor: Option<Cursor>, offset: nat, trail: seq<Visit>, l: Listing, at: nat)
    requires OnPage(cursor, offset, trail, l, at)
    ensures Heads(Ahead(l, trail), l[at].files, offset)
    ensures at + 1 < |l| ==> |l[at].files| - offset <= BeforeLast(l, trail)
    ensures at + 1 == |l| ==> BeforeLast(l, trail) == 0 && |Ahead(l, trail)| == |l[at].files| - offset
  {
    hide Flat, Visits;
    OnPageLeft(cursor, offset, trail, l, at);
    FlatPrefix(l, at + 1, |l|);
    forall k | 0 <= k < |l[at].files| - offset ensures Ahead(l, trail)[k].file == l[at].files[offset + k] {
      OnPageFile(cursor, offset, trail, l, at, k);
    }
    if at + 1 < |l| {
      FlatPrefix(l, at + 1, |l| - 1);
    } else {
      OnLastPage(cursor, offset, trail, l, at);
    }
  }

  lemma OnPageFile(cursor: Option<Cursor>, offset: nat, trail: seq<Visit>, l: Listing, at: nat, k: nat)
    requires OnPage(cursor, offset, trail, l, at) && k < |l[at].files| - offset
    ensures |trail| + k < |Flat(l, at + 1)| && Flat(l, at + 1)[|trail| + k].file == l[at].files[offset + k]
  {
  }

  lemma OnLastPage(cursor: Option<Cursor>, offset: nat, trail: seq<Visit>, l: Listing, at: nat)
    requires OnPage(cursor, offset, trail, l, at) && at + 1 == |l|
    ensures |trail| >= |Flat(l, |l| - 1)|
  {
  }

  lemma AheadAfterPage(cursor: Option<Cursor>, offset: nat, trail: seq<Visit>, l: Listing, at: nat, now: seq<Visit>)
    requires OnPage(cursor, offset, trail, l, at)
    requires now == trail + Visits(cursor, l[at].files, offset, |l[at].files|)
    ensures var k := |l[at].files| - offset;
      && k <= |Ahead(l, trail)| && Ahead(l, now) == Ahead(l, trail)[k..]
      && BeforeLast(l, now) <= |Ahead(l, now)| && BeforeLast(l, trail) <= |Ahead(l, trail)|
      && (at + 1 < |l| ==>
           && k <= BeforeLast(l, trail) && BeforeLast(l, now) == BeforeLast(l, trail) - k
           && Ahead(l, now)[..BeforeLast(l, now)] == Ahead(l, trail)[k..BeforeLast(l, trail)])
      && (at + 1 == |l| ==> Ahead(l, now) == [])
  {
    hide Flat, Visits;
    VisitsLength(cursor, l[at].files, offset, |l[at].files|);
    OnPageLeft(cursor, offset, trail, l, at);
    AheadOnPage(cursor, offset, trail, l, at);
    BeforeLastFits(l, trail);
    BeforeLastFits(l, now);
  }

  lemma CalmWalks(books: Ledger, id: AttemptId, policy: Policy, scope: Scope, world: World, l: Listing, at: nat,
                  cursor: Option<Cursor>, offset: nat, trail: seq<Visit>, seen: set<Cursor>, p: Progress)
    requires Calm(books, id, policy, scope, world, l, at, cursor, offset, trail, seen, p)
    ensures at < |l| && l[at].cursor == cursor && offset <= |l[at].files| && FineWorld(world, policy) && Serving(world, l)
    ensures var ahead := Ahead(l, trail);
      && Heads(ahead, l[at].files, offset) && BeforeLast(l, trail) <= |ahead|
      && Ample(books, id, policy, Need(ahead, scope, books.terminal))
      && Room(policy, p, |ahead|, Need(ahead, scope, books.terminal))
    ensures forall j :: 0 <= j < |l[at].files| ==> Welcome(l[at].files[j], scope, policy)
    ensures p.retryBoundary && offset < |l[at].files| ==> !IsTerminal(books, l[at].files[offset], scope.archiveOnly)
    ensures at + 1 < |l| ==> l[at].files != []
    ensures at + 1 == |l| ==> l[at].complete && BeforeLast(l, trail) == 0
  {
    hide FineWorld, Ample, Need, Room, Welcome, IsTerminal, Flat, Visits, Serving, SeenBefore, Ahead, BeforeLast;
    AheadOnPage(cursor, offset, trail, l, at);
    BeforeLastFits(l, trail);
  }

  /** From p and trail to q and now: listed files and transfers are accounted for, and those
      before the last page too as long as the page walked is not the last. */
  ghost predicate Progressed(l: Listing, scope: Scope, trail: seq<Visit>, terminal: set<(Identity, bool)>, p: Progress,
                             now: seq<Visit>, later: set<(Identity, bool)>, q: Progress, early: bool)
    requires |l| > 0
  {
    && q.discovered + |Ahead(l, now)| == p.discovered + |Ahead(l, trail)|
    && q.ingested + Need(Ahead(l, now), scope, later) == p.ingested + Need(Ahead(l, trail), scope, terminal)
    && (early ==>
         && q.discovered + BeforeLast(l, now) == p.discovered + BeforeLast(l, trail)
         && q.ingested + NeedBeforeLast(l, now, scope, later) == p.ingested + NeedBeforeLast(l, trail, scope, terminal))
  }

  lemma ProgressedNot(l: Listing, scope: Scope, trail: seq<Visit>, terminal: set<(Identity, bool)>, p: Progress)
    requires |l| > 0
    ensures forall early :: Progressed(l, scope, trail, terminal, p, trail, terminal, p, early)
  {
  }

  lemma ProgressedTwice(l: Listing, scope: Scope, t0: seq<Visit>, s0: set<(Identity, bool)>, p: Progress,
                        t1: seq<Visit>, s1: set<(Identity, bool)>, q: Progress, t2: seq<Visit>,
                        s2: set<(Identity, bool)>, r: Progress, early: bool)
    requires |l| > 0 && Progressed(l, scope, t0, s0, p, t1, s1, q, early)
    ensures Progressed(l, scope, t1, s1, q, t2, s2, r, early) ==> Progressed(l, scope, t0, s0, p, t2, s2, r, early)
    ensures Progressed(l, scope, t1, s1, q, t2, s2, r, false) ==> Progressed(l, scope, t0, s0, p, t2, s2, r, false)
  {
    hide Need, NeedBeforeLast, Ahead, BeforeLast;
  }

  /** Having walked the page, the run is as calm at the next one. */
  lemma CalmTurns(books: Ledger, id: AttemptId, policy: Policy, scope: Scope, world: World, l: Listing, at: nat,
                  cursor: Option<Cursor>, offset: nat, trail: seq<Visit>, seen: set<Cursor>, p: Progress, after: Ledger,
                  now: seq<Visit>, q: Progress)
    requires Calm(books, id, policy, scope, world, l, at, cursor, offset, trail, seen, p)
    requires at < |l| && offset <= |l[at].files| && now == trail + Visits(cursor, l[at].files, offset, |l[at].files|)
    requires q.discovered == p.discovered + (|l[at].files| - offset)
    requires Paced(after, id, policy, scope, Ahead(l, trail), BeforeLast(l, trail), |l[at].files| - offset, books.terminal,
                   p, q)
    requires q.retryBoundary ==> p.retryBoundary && after == books && offset == |l[at].files|
    ensures Progressed(l, scope, trail, books.terminal, p, now, after.terminal, q, at + 1 < |l|)
    ensures Room(policy, q, |Ahead(l, now)|, Need(Ahead(l, now), scope, after.terminal))
    ensures at + 1 < |l| ==>
      && UsableCursor(l[at + 1].cursor, cursor, seen)
      && Calm(after, id, policy, scope, world, l, at + 1, l[at + 1].cursor, 0, now, seen + {l[at + 1].cursor.value}, q)
    ensures at + 1 == |l| ==> now == Flat(l, |l|) && Ahead(l, now) == []
    ensures now <= Flat(l, |l|)
  {
    hide FineWorld, Serving, Ample, Welcome, IsTerminal, Flat, Visits, Need, Ahead, BeforeLast, AllWelcome, SeenBefore,
         Tidy, Progressed, Paced, Room;
    PageBehind(cursor, offset, trail, l, at, now);
    PacedProgress(after, id, policy, scope, l, at, cursor, offset, trail, books.terminal, p, now, q);
    AheadAfterPage(cursor, offset, trail, l, at, now);
    assert Ahead(l, trail)[0..] == Ahead(l, trail);
    if at + 1 < |l| {
      NextUsable(l, at, cursor, seen);
    }
  }

  lemma PageBehind(cursor: Option<Cursor>, offset: nat, trail: seq<Visit>, l: Listing, at: nat, now: seq<Visit>)
    requires OnPage(cursor, offset, trail, l, at)
    requires now == trail + Visits(cursor, l[at].files, offset, |l[at].files|)
    ensures now <= Flat(l, |l|)
    ensures at + 1 < |l| ==> OnPage(l[at + 1].cursor, 0, now, l, at + 1)
    ensures at + 1 == |l| ==> now == Flat(l, |l|)
  {
    hide Flat, Visits;
    FlatPrefix(l, at + 1, |l|);
    OnPageAfterWalk(cursor, offset, |l[at].files|, trail, l, at);
    PageIsPrefix(cursor, |l[at].files|, now, l, at);
    PrefixTransitive(now, Flat(l, at + 1), Flat(l, |l|));
    OnNextPage(cursor, now, l, at);
  }

  /** A page walked at the right pace accounts for its files and its transfers. */
  lemma PacedProgress(after: Ledger, id: AttemptId, policy: Policy, scope: Scope, l: Listing, at: nat,
                      cursor: Option<Cursor>, offset: nat, trail: seq<Visit>, terminal: set<(Identity, bool)>,
                      p: Progress, now: seq<Visit>, q: Progress)
    requires OnPage(cursor, offset, trail, l, at)
    requires now == trail + Visits(cursor, l[at].files, offset, |l[at].files|)
    requires q.discovered == p.discovered + (|l[at].files| - offset)
    requires Paced(after, id, policy, scope, Ahead(l, trail), BeforeLast(l, trail), |l[at].files| - offset, terminal, p, q)
    ensures Progressed(l, scope, trail, terminal, p, now, after.terminal, q, at + 1 < |l|)
    ensures Ample(after, id, policy, Need(Ahead(l, now), scope, after.terminal))
    ensures Room(policy, p, |Ahead(l, trail)|, Need(Ahead(l, trail), scope, terminal)) ==>
      Room(policy, q, |Ahead(l, now)|, Need(Ahead(l, now), scope, after.terminal))
  {
    hide Ample, Flat, Visits, Need, Ahead, BeforeLast;
    AheadAfterPage(cursor, offset, trail, l, at, now);
  }

  lemma VisitsLength(cursor: Option<Cursor>, files: seq<RemoteFile>, lo: nat, hi: nat)
    requires lo <= hi <= |files|
    ensures |Visits(cursor, files, lo, hi)| == hi - lo
  {
  }

  lemma NextUsable(l: Listing, at: nat, cursor: Option<Cursor>, seen: set<Cursor>)
    requires Tidy(l) && at + 1 < |l| && l[at].cursor == cursor && SeenBefore(seen, l, at)
    ensures UsableCursor(l[at + 1].cursor, cursor, seen)
    ensures SeenBefore(seen + {l[at + 1].cursor.value}, l, at + 1)
  {
    var next := l[at + 1].cursor.value;
    assert l[at + 1].cursor == Some(next);
    assert forall j :: 0 <= j <= at ==> l[j].cursor != Some(next);
    forall c | c in seen + {next} ensures exists j :: 0 <= j <= at + 1 < |l| && l[j].cursor == Some(c) {
      if c != next {
        var j :| 0 <= j <= at < |l| && l[j].cursor == Some(c);
        assert l[j].cursor == Some(c);
      }
    }
  }

  lemma UsableIsSome(value: Option<Cursor>, current: Option<Cursor>, seen: set<Cursor>)
    requires UsableCursor(value, current, seen)
    ensures value.Some? && 1 <= |value.value| <= 8192 && value != current && value.value !in seen
  {
  }

  /** The run has reached one of its own limits. */
  predicate Full(policy: Policy, p: Progress) {
    p.ingested >= policy.maximumFiles || p.discovered >= policy.maximumRecords
  }

  /** The files before the last page use up one of the run's own limits, so that a run that
      starts before the last page never gets to it. */
  ghost predicate StopsShort(policy: Policy, l: Listing, trail: seq<Visit>, at: nat, scope: Scope,
                             terminal: set<(Identity, bool)>) {
    && at + 1 < |l|
    && (BeforeLast(l, trail) == policy.maximumRecords || NeedBeforeLast(l, trail, scope, terminal) == policy.maximumFiles)
  }

  /** A run that has arrived at the last page within its limits does not stop short. */
  lemma ArrivedAtLast(policy: Policy, l: Listing, scope: Scope, start: nat, trail: seq<Visit>,
                      terminal: set<(Identity, bool)>, boundary: bool, now: seq<Visit>, later: set<(Identity, bool)>,
                      p: Progress)
    requires |l| > 0 && BeforeLast(l, now) == 0 && !Full(policy, p)
    requires Progressed(l, scope, trail, terminal, Progress(0, 0, 0, 0, boundary), now, later, p, true)
    ensures !StopsShort(policy, l, trail, start, scope, terminal)
  {
    hide Need, Ahead, BeforeLast;
    NeedNothing(Ahead(l, now)[..0], scope, later);
  }

  /** A run that reached a limit at the end of an earlier page stops short, with every
      transfer made. */
  lemma FullBeforeLast(policy: Policy, l: Listing, scope: Scope, start: nat, trail: seq<Visit>,
                       terminal: set<(Identity, bool)>, boundary: bool, now: seq<Visit>, later: set<(Identity, bool)>,
                       q: Progress)
    requires start + 1 < |l| && Full(policy, q)
    requires Room(policy, q, |Ahead(l, now)|, Need(Ahead(l, now), scope, later))
    requires Progressed(l, scope, trail, terminal, Progress(0, 0, 0, 0, boundary), now, later, q, true)
    ensures StopsShort(policy, l, trail, start, scope, terminal)
    ensures Need(Ahead(l, now), scope, later) == 0
  {
    hide Need, Ahead, BeforeLast;
    BeforeLastFits(l, now);
    NeedNothing(Ahead(l, now), scope, later);
    NeedFewer(Ahead(l, now), BeforeLast(l, now), scope, later);
  }

  datatype PageStep = Onward(next: Cursor) | Over(ending: Ending, closed: bool)

  /** The store at one moment, as far as runs may change it. */
  datatype Snapshot = Snapshot(
    checkpoints: map<Scope, Checkpoint>,
    trail: map<Scope, seq<Visit>>,
    attempts: set<AttemptId>,
    terminal: set<(Identity, bool)>,
    paid: Payments)

  ghost function Now(repo: Store): Snapshot
    reads repo
  {
    Snapshot(repo.checkpoints, repo.trail, repo.attempts.Keys, repo.books.terminal, repo.paid)
  }

  /** Other checkpoints and trails, older payments and the trail so far are as they were. */
  ghost predicate Kept(a: Snapshot, b: Snapshot, scope: Scope) {
    && scope in a.checkpoints && scope in a.trail && scope in b.checkpoints && scope in b.trail
    && b.checkpoints == a.checkpoints[scope := b.checkpoints[scope]]
    && b.checkpoints[scope].complete == a.checkpoints[scope].complete
    && b.checkpoints[scope].generation == a.checkpoints[scope].generation
    && b.trail == a.trail[scope := b.trail[scope]] && a.trail[scope] <= b.trail[scope]
    && a.attempts == b.attempts && a.terminal <= b.terminal
    && (forall i :: i in a.paid ==> i in b.paid && b.paid[i] == a.paid[i])
  }

  lemma KeptStill(a: Snapshot, scope: Scope)
    requires scope in a.checkpoints && scope in a.trail
    ensures Kept(a, a, scope)
  {
    assert a.trail == a.trail[scope := a.trail[scope]];
    assert a.checkpoints == a.checkpoints[scope := a.checkpoints[scope]];
  }

  lemma KeptTransitive(a: Snapshot, b: Snapshot, c: Snapshot, scope: Scope)
    requires Kept(a, b, scope) && Kept(b, c, scope)
    ensures Kept(a, c, scope)
  {
  }

  lemma KeptAtScope(a: Snapshot, b: Snapshot, scope: Scope)
    requires Kept(a, b, scope)
    ensures scope in b.checkpoints && scope in b.trail && scope in a.checkpoints && scope in a.trail
    ensures b.checkpoints[scope].complete == a.checkpoints[scope].complete
  {
  }

  /** The run kept to its scope. */
  twostate predicate KeptToScope(repo: Store, scope: Scope)
    reads repo
  {
    Kept(old(Now(repo)), Now(repo), scope)
  }

  /** At the end of a walked page: close the listing, or go on to the next page. */
  method LeavePage(repo: Store, policy: Policy, scope: Scope, id: AttemptId, cursor: Option<Cursor>, page: Page,
                   seen: set<Cursor>, q: Progress, ghost standing: bool, ghost listing: Listing, ghost calm: bool,
                   ghost world: World, ghost at: nat)
    returns (step: PageStep)
    requires ValidPolicy(policy) && (page.next.NoNext? || page.files != [])
    requires Attending(repo, id, scope, policy) && AllSettled(repo.books, id)
    requires Standing(repo, scope, cursor, |page.files|)
    requires q.discovered <= policy.maximumRecords && q.ingested <= policy.maximumFiles
    requires standing ==>
      && At(cursor, |page.files|, repo.trail[scope], listing)
      && (page.next.Next? ==> At(page.next.value, 0, repo.trail[scope], listing))
      && (page.next.NoNext? ==> repo.trail[scope] == Flat(listing, |listing|))
    requires calm ==>
      && at < |listing| && page == Served(listing, at) && (at + 1 == |listing| ==> listing[at].complete)
      && (at + 1 < |listing| ==>
            && UsableCursor(listing[at + 1].cursor, cursor, seen)
            && Calm(repo.books, id, policy, scope, world, listing, at + 1, listing[at + 1].cursor, 0, repo.trail[scope],
                    seen + {listing[at + 1].cursor.value}, q))
    modifies repo
    ensures Attending(repo, id, scope, policy) && KeptToScope(repo, scope)
    ensures step.Onward? ==>
      && AllSettled(repo.books, id) && Standing(repo, scope, Some(step.next), 0) && |page.files| > 0
      && q.ingested < policy.maximumFiles && q.discovered < policy.maximumRecords
      && 1 <= |step.next| <= 8192 && Some(step.next) != cursor && step.next !in seen
      && (standing ==> At(Some(step.next), 0, repo.trail[scope], listing))
    ensures step.Over? ==>
      && (step.closed <==> step.ending.Completed? || step.ending == Broken(OnlyUnknown))
      && (step.closed ==> (step.ending.Broken? <==> OnlyUnreadable(repo.checkpoints[scope])))
      && (step.closed ==> Standing(repo, scope, None, 0))
      && (step.ending.Broken? ==> Excused(step.ending.error, repo.books))
      && (standing ==> StandsIn(repo, scope, listing, step.closed))
    ensures repo.books == old(repo.books) && repo.trail == old(repo.trail)
    ensures repo.checkpoints[scope].unknown == old(repo.checkpoints)[scope].unknown
    ensures step.Over? && step.ending.Bounded? ==>
      Justified(step.ending.reason, repo.books, id, scope.source, policy, q)
    ensures calm && step.Onward? ==>
      && at + 1 < |listing|
      && Calm(repo.books, id, policy, scope, world, listing, at + 1, Some(step.next), 0, repo.trail[scope],
              seen + {step.next}, q)
    ensures calm && step.Over? ==>
      (step.closed <==> at + 1 == |listing|) && (!step.closed ==> step.ending.Bounded? && Full(policy, q))
  {
    hide AllDealt, Explains, Sound, InForce, AllSettled, HonestWorld, ValidPolicy, At, Visits, Flat, Calm, UsableCursor;
    ghost var was := repo.trail[scope];
    InForceRuns(repo.books, id, scope.source, policy);
    if page.next.NoNext? {
      if !page.complete {
        assert repo.trail == repo.trail[scope := was];
        assert repo.checkpoints == repo.checkpoints[scope := repo.checkpoints[scope]];
        return Over(Broken(InvalidPage), false);
      }
      var turn := TurnPage(repo, policy, scope, id, cursor, |page.files|, None);
      var ending := if turn.attempt.recognized == 0 && turn.attempt.unknown > 0 then Broken(OnlyUnknown) else Completed;
      return Over(ending, true);
    }
    if !UsableCursor(page.next.value, cursor, seen) {
      assert repo.trail == repo.trail[scope := was];
      assert repo.checkpoints == repo.checkpoints[scope := repo.checkpoints[scope]];
      return Over(Broken(InvalidPage), false);
    }
    var _ := TurnPage(repo, policy, scope, id, cursor, |page.files|, page.next.value);
    if q.ingested >= policy.maximumFiles {
      return Over(Bounded(FileLimit), false);
    }
    if q.discovered >= policy.maximumRecords {
      return Over(Bounded(DiscoveryLimit), false);
    }
    UsableIsSome(page.next.value, cursor, seen);
    return Onward(page.next.value.value);
  }

  /** What a calm run has done when it leaves page `at`. */
  ghost predicate Turned(policy: Policy, l: Listing, scope: Scope, at: nat, t0: seq<Visit>, s0: set<(Identity, bool)>,
                         p: Progress, t1: seq<Visit>, s1: set<(Identity, bool)>, q: Progress, step: PageStep) {
    && at < |l| && Progressed(l, scope, t0, s0, p, t1, s1, q, at + 1 < |l|)
    && Room(policy, q, |Ahead(l, t1)|, Need(Ahead(l, t1), scope, s1))
    && (at + 1 == |l| ==> t1 == Flat(l, |l|) && Ahead(l, t1) == []) && t1 <= Flat(l, |l|)
    && match step
       case Onward(_) => at + 1 < |l| && !Full(policy, q)
       case Over(ending, closed) =>
         (closed <==> at + 1 == |l|) && (!closed ==> ending.Bounded? && Full(policy, q))
  }

  /** Walk one fetched page and turn to the next one. */
  method TakePage(repo: Store, policy: Policy, scope: Scope, id: AttemptId, world: World, base: nat,
                  cursor: Option<Cursor>, offset: nat, page: Page, seen: set<Cursor>, p: Progress, ghost standing: bool,
                  ghost listing: Listing, ghost calm: bool, ghost at: nat)
    returns (step: PageStep, q: Progress, entries: nat)
    requires ValidPolicy(policy)
    requires Attending(repo, id, scope, policy) && AllSettled(repo.books, id) && Standing(repo, scope, cursor, offset)
    requires p.discovered <= policy.maximumRecords && p.ingested <= policy.maximumFiles
    requires p.ingested > 0 ==> Below(repo.books, id, scope.source, policy)
    requires standing ==>
      Acyclic(listing) && Lists(listing, cursor, page) && At(cursor, offset, repo.trail[scope], listing)
    requires calm ==>
      && Calm(repo.books, id, policy, scope, world, listing, at, cursor, offset, repo.trail[scope], seen, p)
      && at < |listing| && page == Served(listing, at)
    modifies repo
    ensures Attending(repo, id, scope, policy) && KeptToScope(repo, scope)
    ensures p.discovered <= q.discovered <= policy.maximumRecords && p.ingested <= q.ingested <= policy.maximumFiles
    ensures q.ingested - p.ingested <= q.discovered - p.discovered
    ensures step.Onward? ==>
      && AllSettled(repo.books, id) && Standing(repo, scope, Some(step.next), 0) && |page.files| > 0
      && offset <= |page.files| && q.discovered == p.discovered + (|page.files| - offset) < policy.maximumRecords
      && (standing ==> At(Some(step.next), 0, repo.trail[scope], listing))
    ensures step.Over? ==>
      && (step.closed <==> step.ending.Completed? || step.ending == Broken(OnlyUnknown))
      && (step.closed ==> (step.ending.Broken? <==> OnlyUnreadable(repo.checkpoints[scope])))
      && (step.closed ==> Standing(repo, scope, None, 0))
      && (step.ending.Broken? && HonestWorld(world, policy) ==> Excused(step.ending.error, repo.books))
      && (standing ==> StandsIn(repo, scope, listing, step.closed))
      && (step.ending.Bounded? ==> Justified(step.ending.reason, repo.books, id, scope.source, policy, q))
    ensures (step.Onward? || step.closed) && q.ingested > 0 ==> Below(repo.books, id, scope.source, policy)
    ensures Accounted(old(repo.books), old(repo.checkpoints)[scope], p, repo.books, repo.checkpoints[scope], q,
                      scope.source, policy, step.Onward?)
    ensures calm ==>
      Turned(policy, listing, scope, at, old(repo.trail)[scope], old(repo.books.terminal), p, repo.trail[scope],
             repo.books.terminal, q, step)
    ensures calm && step.Onward? ==>
      Calm(repo.books, id, policy, scope, world, listing, at + 1, Some(step.next), 0, repo.trail[scope],
           seen + {step.next}, q)
  {
    hide AllDealt, Explains, Sound, InForce, AllSettled, HonestWorld, ValidPolicy, At, Visits, Flat, Acyclic, Lists,
         Calm, Ample, Room, Welcome, IsTerminal, FineWorld, UsableCursor, Need, Ahead, BeforeLast, Progressed, Paced,
         Heads, Serving, Below, Capped, Justified, Accounted, Attending, Walked, Kept;
    ScopeAttended(repo, id, scope, policy);
    q, entries := p, base;
    ghost var begun, was := Now(repo), repo.trail[scope];
    KeptStill(begun, scope);
    AccountedStill(repo.books, repo.checkpoints[scope], p, scope.source, policy);
    if calm {
      CalmWalks(repo.books, id, policy, scope, world, listing, at, cursor, offset, was, seen, p);
    }
    if offset > |page.files| || (page.files == [] && page.next.Next?) {
      return Over(Broken(InvalidPage), false), q, entries;
    }
    ghost var reached;
    var r;
    ghost var books := repo.books;
    q, r, entries, reached := WalkPage(repo, policy, scope, id, world, entries, cursor, offset, page.files, q, calm,
                                       if calm then Ahead(listing, was) else [],
                                       if calm then BeforeLast(listing, was) else 0);
    WalkedKeeps(begun, Now(repo), scope, cursor, page.files, offset, reached);
    ghost var walked := Now(repo);
    if standing {
      StandsAfterWalk(listing, cursor, page, offset, reached, was);
    }
    match r {
      case Stopped(reason) => return Over(Bounded(reason), false), q, entries;
      case Failed(error) => return Over(Broken(error), false), q, entries;
      case Advanced =>
    }
    if standing {
      StandsAfterPage(listing, cursor, page, repo.trail[scope]);
    }
    if calm {
      CalmTurns(books, id, policy, scope, world, listing, at, cursor, offset, was, seen, p, repo.books,
                repo.trail[scope], q);
    }
    AccountedMore(books, old(repo.checkpoints)[scope], p, repo.books, repo.checkpoints[scope], q, scope.source, policy);
    step := LeavePage(repo, policy, scope, id, cursor, page, seen, q, standing, listing, calm, world, at);
    KeptTransitive(begun, walked, Now(repo), scope);
  }

  lemma WalkedKeeps(a: Snapshot, b: Snapshot, scope: Scope, cursor: Option<Cursor>, files: seq<RemoteFile>, lo: nat,
                    hi: nat)
    requires Walked(a.checkpoints, a.trail, a.paid, b.checkpoints, b.trail, b.paid, scope, cursor, files, lo, hi)
    requires a.attempts == b.attempts && a.terminal <= b.terminal
    ensures Kept(a, b, scope) && scope in a.trail && scope in b.trail && lo <= hi <= |files|
    ensures b.trail[scope] == a.trail[scope] + Visits(cursor, files, lo, hi)
  {
    hide Visits;
  }

  /** Walk pages until the listing ends, a limit is reached or something fails. The
      loop ends on every publisher, one that keeps inventing cursors included. */
  method Traverse(repo: Store, policy: Policy, scope: Scope, id: AttemptId, world: World, retryBoundary: bool,
                  ghost listing: Listing, ghost calm: bool, ghost start: nat)
    returns (ending: Ending, closed: bool, p: Progress, pages: nat)
    requires ValidPolicy(policy)
    requires Attending(repo, id, scope, policy) && AllSettled(repo.books, id) && !repo.checkpoints[scope].complete
    requires calm ==>
      var c := repo.checkpoints[scope];
      Calm(repo.books, id, policy, scope, world, listing, start, c.cursor, c.offset, repo.trail[scope], {},
           Progress(0, 0, 0, 0, retryBoundary))
    modifies repo
    ensures Attending(repo, id, scope, policy) && KeptToScope(repo, scope)
    ensures world.discover(0, old(repo.checkpoints)[scope].cursor).ListingExhausted? ==>
      ending == Bounded(ListingBudget) && repo.trail == old(repo.trail) && repo.checkpoints == old(repo.checkpoints)
    ensures calm ==>
      Reached(policy, listing, scope, start, old(repo.trail)[scope], old(repo.books.terminal), repo.trail[scope],
              repo.books.terminal, p, ending, closed)
    ensures p.ingested <= p.discovered
    ensures pages <= policy.maximumRecords + 1
    ensures p.discovered <= policy.maximumRecords && p.ingested <= policy.maximumFiles
    ensures closed <==> ending.Completed? || ending == Broken(OnlyUnknown)
    ensures closed ==> (ending.Broken? <==> OnlyUnreadable(repo.checkpoints[scope]))
    ensures closed ==> Standing(repo, scope, None, 0)
    ensures ending.Broken? && HonestWorld(world, policy) ==> Excused(ending.error, repo.books)
    ensures Faithful(world, listing) && old(StandsIn(repo, scope, listing, false)) ==>
      StandsIn(repo, scope, listing, closed)
    ensures ending.Bounded? ==> Justified(ending.reason, repo.books, id, scope.source, policy, p)
    ensures closed && p.ingested > 0 ==> Below(repo.books, id, scope.source, policy)
    ensures Accounted(old(repo.books), old(repo.checkpoints)[scope], Progress(0, 0, 0, 0, retryBoundary), repo.books,
                      repo.checkpoints[scope], p, scope.source, policy, false)
  {
    hide AllDealt, Explains, Sound, InForce, AllSettled, HonestWorld, ValidPolicy, At, Visits, Flat, Acyclic, Lists,
         Calm, Serving, Kept, Need, Ahead, BeforeLast, Progressed, StopsShort, Room, Full, Below, Capped,
         Accounted, Justified, Turned, Reached, Attending,
         OnlyUnreadable, Faithful, Underway;
    ScopeAttended(repo, id, scope, policy);
    ghost var at: nat := start;
    ghost var trail0, terminal0 := repo.trail[scope], repo.books.terminal;
    var cursor := repo.checkpoints[scope].cursor;
    ghost var first := cursor;
    var offset: nat := repo.checkpoints[scope].offset;
    p := Progress(0, 0, 0, 0, retryBoundary);
    ghost var books0, c0, p0 := repo.books, repo.checkpoints[scope], p;
    closed, pages := false, 0;
    var seen: set<Cursor> := {};
    var entries: nat := 0;
    PolicyPositive(policy);
    ghost var standing := Faithful(world, listing) && StandsIn(repo, scope, listing, false);
    ghost var begun := Now(repo);
    KeptStill(begun, scope);
    AccountedStill(books0, c0, p0, scope.source, policy);
    if calm {
      UnderwayFirst(repo.books, id, policy, scope, world, listing, at, cursor, offset, trail0, retryBoundary);
    }
    while true
      invariant Attending(repo, id, scope, policy) && AllSettled(repo.books, id)
      invariant Standing(repo, scope, cursor, offset) && Kept(begun, Now(repo), scope) && scope in repo.trail
      invariant pages > 0 ==> offset == 0 && pages - 1 <= p.discovered
      invariant p.discovered <= policy.maximumRecords && p.ingested <= policy.maximumFiles
      invariant pages <= policy.maximumRecords
      invariant standing ==> At(cursor, offset, repo.trail[scope], listing)
      invariant pages == 0 ==> cursor == first && repo.trail == begun.trail && repo.checkpoints == begun.checkpoints
      invariant pages > 0 ==> !world.discover(0, first).ListingExhausted?
      invariant p.ingested <= p.discovered
      invariant p.ingested > 0 ==> Below(repo.books, id, scope.source, policy)
      invariant Accounted(books0, c0, p0, repo.books, repo.checkpoints[scope], p, scope.source, policy, true)
      invariant calm ==>
        Underway(repo.books, id, policy, scope, world, listing, start, at, cursor, offset, trail0, terminal0, retryBoundary,
                 repo.trail[scope], seen, p)
      decreases policy.maximumRecords + 1 - pages
    {
      if calm {
        UnderwayNext(repo.books, id, policy, scope, world, listing, start, at, cursor, offset, trail0, terminal0,
                     retryBoundary, repo.trail[scope], seen, p, pages);
      }
      ScopeAttended(repo, id, scope, policy);
      AccountedMore(books0, c0, p0, repo.books, repo.checkpoints[scope], p, scope.source, policy);
      StopsForTime(repo.books, id, scope.source, policy, p);
      FaithfulAnswers(world, listing, pages, cursor);
      var answer := world.discover(pages, cursor);
      pages := pages + 1;
      if answer.ListingExhausted? {
        return Bounded(ListingBudget), false, p, pages;
      }
      if answer.DiscoveryFailed? {
        return Broken(DiscoveryError), false, p, pages;
      }
      ghost var before, books, c, was := Now(repo), repo.books, repo.checkpoints[scope], p;
      ghost var left := repo.trail[scope];
      var step;
      step, p, entries := TakePage(repo, policy, scope, id, world, entries, cursor, offset, answer.page, seen, p,
                                   standing, listing, calm, at);
      KeptTransitive(begun, before, Now(repo), scope);
      KeptAtScope(begun, Now(repo), scope);
      AccountedTwice(books0, c0, p0, books, c, was, repo.books, repo.checkpoints[scope], p, scope.source, policy,
                     step.Onward?);
      if calm {
        UnderwayTurns(books, id, policy, scope, world, listing, start, at, cursor, offset, trail0, terminal0,
                      retryBoundary, left, seen, was, repo.books, repo.trail[scope], p, step);
      }
      if step.Over? {
        return step.ending, step.closed, p, pages;
      }
      at := at + 1;
      seen := seen + {step.next};
      cursor, offset := Some(step.next), 0;
    }
  }

  /** What a calm run has come to when it ends: every transfer made, and the last page
      reached unless it stops short. */
  ghost predicate Reached(policy: Policy, l: Listing, scope: Scope, start: nat, t0: seq<Visit>,
                          s0: set<(Identity, bool)>, now: seq<Visit>, later: set<(Identity, bool)>, q: Progress,
                          ending: Ending, closed: bool) {
    && start < |l| && Need(Ahead(l, now), scope, later) == 0 && q.ingested == Need(Ahead(l, t0), scope, s0)
    && q.discovered + |Ahead(l, now)| == |Ahead(l, t0)| && now <= Flat(l, |l|)
    && (closed <==> !StopsShort(policy, l, t0, start, scope, s0))
    && (if closed then now == Flat(l, |l|) else ending.Bounded?)
  }

  /** A calm run that started on page `start` stands on page `at`, with every file and transfer
      so far accounted for. */
  ghost predicate Underway(l: Ledger, id: AttemptId, policy: Policy, scope: Scope, world: World, listing: Listing,
                           start: nat, at: nat, cursor: Option<Cursor>, offset: nat, t0: seq<Visit>,
                           s0: set<(Identity, bool)>, boundary: bool, trail: seq<Visit>, seen: set<Cursor>, p: Progress) {
    && start <= at < |listing| && Calm(l, id, policy, scope, world, listing, at, cursor, offset, trail, seen, p)
    && (start < at ==> !Full(policy, p))
    && Progressed(listing, scope, t0, s0, Progress(0, 0, 0, 0, boundary), trail, l.terminal, p, start + 1 < |listing|)
  }

  lemma UnderwayFirst(l: Ledger, id: AttemptId, policy: Policy, scope: Scope, world: World, listing: Listing, start: nat,
                      cursor: Option<Cursor>, offset: nat, trail: seq<Visit>, boundary: bool)
    requires Calm(l, id, policy, scope, world, listing, start, cursor, offset, trail, {}, Progress(0, 0, 0, 0, boundary))
    ensures Underway(l, id, policy, scope, world, listing, start, start, cursor, offset, trail, l.terminal, boundary, trail,
                     {}, Progress(0, 0, 0, 0, boundary))
  {
    hide Calm, Progressed;
    CalmWalks(l, id, policy, scope, world, listing, start, cursor, offset, trail, {}, Progress(0, 0, 0, 0, boundary));
    ProgressedNot(listing, scope, trail, l.terminal, Progress(0, 0, 0, 0, boundary));
  }

  /** Its next request is answered with the page it stands on. */
  lemma UnderwayNext(l: Ledger, id: AttemptId, policy: Policy, scope: Scope, world: World, listing: Listing, start: nat,
                     at: nat, cursor: Option<Cursor>, offset: nat, t0: seq<Visit>, s0: set<(Identity, bool)>,
                     boundary: bool, trail: seq<Visit>, seen: set<Cursor>, p: Progress, n: nat)
    requires Underway(l, id, policy, scope, world, listing, start, at, cursor, offset, t0, s0, boundary, trail, seen, p)
    ensures at < |listing| && Calm(l, id, policy, scope, world, listing, at, cursor, offset, trail, seen, p)
    ensures world.discover(n, cursor) == Fetched(Served(listing, at))
  {
    hide Calm, Progressed, Serving;
    CalmWalks(l, id, policy, scope, world, listing, at, cursor, offset, trail, seen, p);
    Answered(world, listing, n, at);
  }

  /** It goes on to the next page, or it ends. */
  lemma UnderwayTurns(l: Ledger, id: AttemptId, policy: Policy, scope: Scope, world: World, listing: Listing, start: nat,
                      at: nat, cursor: Option<Cursor>, offset: nat, t0: seq<Visit>, s0: set<(Identity, bool)>,
                      boundary: bool, trail: seq<Visit>, seen: set<Cursor>, p: Progress, m: Ledger, now: seq<Visit>,
                      q: Progress, step: PageStep)
    requires Underway(l, id, policy, scope, world, listing, start, at, cursor, offset, t0, s0, boundary, trail, seen, p)
    requires Turned(policy, listing, scope, at, trail, l.terminal, p, now, m.terminal, q, step)
    requires step.Onward? ==>
      Calm(m, id, policy, scope, world, listing, at + 1, Some(step.next), 0, now, seen + {step.next}, q)
    ensures step.Onward? ==>
      Underway(m, id, policy, scope, world, listing, start, at + 1, Some(step.next), 0, t0, s0, boundary, now,
               seen + {step.next}, q)
    ensures step.Over? ==>
      Reached(policy, listing, scope, start, t0, s0, now, m.terminal, q, step.ending, step.closed)
  {
    hide Calm, Progressed, Turned, Reached, Full;
    CalmWalks(l, id, policy, scope, world, listing, at, cursor, offset, trail, seen, p);
    Ends(policy, listing, scope, start, at, t0, s0, boundary, trail, l.terminal, p, now, m.terminal, q, step);
  }

  /** What a calm run comes to when it leaves page `at` for the next one, and when it ends there. */
  lemma Ends(policy: Policy, l: Listing, scope: Scope, start: nat, at: nat, t0: seq<Visit>, s0: set<(Identity, bool)>,
             boundary: bool, t1: seq<Visit>, s1: set<(Identity, bool)>, p: Progress, t2: seq<Visit>,
             s2: set<(Identity, bool)>, q: Progress, step: PageStep)
    requires start <= at < |l| && (start < at ==> !Full(policy, p)) && (at + 1 == |l| ==> BeforeLast(l, t1) == 0)
    requires Progressed(l, scope, t0, s0, Progress(0, 0, 0, 0, boundary), t1, s1, p, start + 1 < |l|)
    requires Turned(policy, l, scope, at, t1, s1, p, t2, s2, q, step)
    ensures step.Onward? ==>
      && at + 1 < |l| && !Full(policy, q)
      && Progressed(l, scope, t0, s0, Progress(0, 0, 0, 0, boundary), t2, s2, q, start + 1 < |l|)
    ensures step.Over? ==> Reached(policy, l, scope, start, t0, s0, t2, s2, q, step.ending, step.closed)
  {
    hide Need, Ahead, BeforeLast, NeedBeforeLast, Room, Full, Flat;
    ProgressedTwice(l, scope, t0, s0, Progress(0, 0, 0, 0, boundary), t1, s1, p, t2, s2, q, start + 1 < |l|);
    if step.Over? {
      NeedNothing(Ahead(l, t2), scope, s2);
      if at + 1 < |l| {
        FullBeforeLast(policy, l, scope, start, t0, s0, boundary, t2, s2, q);
      } else if start < at {
        ArrivedAtLast(policy, l, scope, start, t0, s0, boundary, t1, s1, p);
      }
    }
  }

  lemma FaithfulAnswers(world: World, l: Listing, n: nat, c: Option<Cursor>)
    ensures Faithful(world, l) ==>
      Acyclic(l) && (world.discover(n, c).Fetched? ==> Lists(l, c, world.discover(n, c).page))
  {
  }

  lemma Answered(world: World, l: Listing, n: nat, i: nat)
    requires Serving(world, l) && i < |l|
    ensures world.discover(n, l[i].cursor) == Fetched(Served(l, i))
  {
  }

  lemma StopsForTime(l: Ledger, a: AttemptId, source: SourceId, p: Policy, q: Progress)
    requires InForce(l, a, source, p)
    ensures Justified(ListingBudget, l, a, source, p, q)
  {
  }

  lemma PolicyPositive(policy: Policy)
    requires ValidPolicy(policy)
    ensures 0 < policy.maximumFiles <= policy.maximumRecords
  {
  }

  lemma OpenWithin(l: Ledger, a: AttemptId, scope: Scope, p: Policy, paid: Payments)
    requires Explains(l, paid) && a !in l.attemptSources && Within(l, p.runBytes, p.dayBytes)
    ensures InForce(ByteLedger.Open(l, a, scope.source), a, scope.source, p)
    ensures AllSettled(ByteLedger.Open(l, a, scope.source), a)
  {
  }

  lemma NothingLeft(scope: Scope, terminal: set<(Identity, bool)>)
    ensures AllDealt([], scope, terminal)
  {
  }

  lemma CloseWithin(l: Ledger, a: AttemptId, source: SourceId, p: Policy)
    requires InForce(l, a, source, p)
    ensures Within(Close(l, a), p.runBytes, p.dayBytes) && a !in Close(l, a).running
  {
  }

  /** Whatever the scope's generation has behind it has been dealt with. */
  ghost predicate Caught(repo: Store, scope: Scope)
    reads repo
  {
    scope in repo.checkpoints ==> scope in repo.trail && AllDealt(repo.trail[scope], scope, repo.books.terminal)
  }

  /** Nothing is recorded for the scope yet, or its checkpoint stands in the listing. */
  ghost predicate Resumable(repo: Store, scope: Scope, l: Listing)
    reads repo
  {
    scope in repo.checkpoints ==> StandsIn(repo, scope, l, repo.checkpoints[scope].complete)
  }

  /** What an attempt starts from. */
  datatype Moment = Moment(checkpoints: map<Scope, Checkpoint>, trail: map<Scope, seq<Visit>>, books: Ledger)

  ghost function MomentOf(repo: Store): Moment
    reads repo
  {
    Moment(repo.checkpoints, repo.trail, repo.books)
  }

  /** Where the next attempt at the scope starts. */
  ghost function Starting(m: Moment, scope: Scope): Checkpoint {
    Reopened(if scope in m.checkpoints then m.checkpoints[scope] else FRESH)
  }

  /** What the generation it works on has behind it. */
  ghost function Behind(m: Moment, scope: Scope): seq<Visit> {
    if scope in m.checkpoints && scope in m.trail && !m.checkpoints[scope].complete then m.trail[scope] else []
  }

  /** What the source has used up when a new attempt opens. */
  function Fresh(l: Ledger, source: SourceId): Budget {
    Budget(0, Get(l.sourceCharged, source), |GetSet(l.identityFiles, source)|, Get(l.attemptCounts, source),
           Get(l.successCounts, source))
  }

  /** Seen from page `at`, where the attempt starts, nothing stands in its way: the world is
      fine, the listing tidy and welcome, the limits have room for the files ahead and for
      those of them that need a transfer, the budgets are enough for these, and with a retry
      boundary pending the next file is not terminal. */
  ghost predicate Favoured(m: Moment, policy: Policy, scope: Scope, world: World, l: Listing, at: nat) {
    var c, ahead := Starting(m, scope), Ahead(l, Behind(m, scope));
    var need := Need(ahead, scope, m.books.terminal);
    && FineWorld(world, policy) && Serving(world, l) && Tidy(l) && AllWelcome(l, scope, policy)
    && OnPage(c.cursor, c.offset, Behind(m, scope), l, at)
    && |ahead| <= policy.maximumRecords && need <= policy.maximumFiles
    && (need > 0 ==> Enough(Fresh(m.books, scope.source), policy, need))
    && (c.retryBoundary ==> NextIsNew(m.books, scope, ahead))
  }

  lemma FavouredBegins(m: Moment, id: AttemptId, policy: Policy, scope: Scope, world: World, l: Listing, at: nat)
    requires Favoured(m, policy, scope, world, l, at)
    ensures var c := Starting(m, scope);
      Calm(ByteLedger.Open(m.books, id, scope.source), id, policy, scope, world, l, at, c.cursor, c.offset,
           Behind(m, scope), {}, Progress(0, 0, 0, 0, c.retryBoundary))
  {
    hide FineWorld, Serving, Tidy, AllWelcome, OnPage, Flat, Enough, Need, Ahead;
    var books := ByteLedger.Open(m.books, id, scope.source);
    assert BudgetOf(books, id) == Fresh(m.books, scope.source) && books.terminal == m.books.terminal;
  }

  /** What a favoured run leaves of its scope: nothing to transfer, and the whole listing
      behind a closed generation unless it had to stop short. */
  ghost predicate Accomplished(m: Moment, policy: Policy, scope: Scope, l: Listing, at: nat, n: Moment) {
    && scope in n.checkpoints && scope in n.trail && AllDealt(Flat(l, |l|), scope, n.books.terminal)
    && (n.checkpoints[scope].complete <==> !StopsShort(policy, l, Behind(m, scope), at, scope, m.books.terminal))
    && (n.checkpoints[scope].complete ==> n.trail[scope] == Flat(l, |l|))
  }

  /** What a favoured run does on the way: it makes exactly the transfers that are needed, and
      accounts for every file it leaves behind. */
  ghost predicate Fulfilled(m: Moment, policy: Policy, scope: Scope, l: Listing, at: nat, n: Moment, p: Progress,
                            ending: Ending) {
    && Accomplished(m, policy, scope, l, at, n)
    && p.ingested == Need(Ahead(l, Behind(m, scope)), scope, m.books.terminal)
    && p.discovered + |Ahead(l, n.trail[scope])| == |Ahead(l, Behind(m, scope))|
    && n.trail[scope] <= Flat(l, |l|) && (!n.checkpoints[scope].complete ==> ending.Bounded?)
  }

  /** One attempt from `begin_attempt` to `finish_attempt`, against any world. */
  method Collect(repo: Store, policy: Policy, scope: Scope, world: World, newId: AttemptId, ghost listing: Listing,
                 ghost at: nat)
    returns (ending: Ending, p: Progress, pages: nat)
    requires ValidPolicy(policy) && repo.Valid() && newId !in repo.attempts
    requires Within(repo.books, policy.runBytes, policy.dayBytes) && Caught(repo, scope)
    modifies repo
    ensures repo.Valid() && Within(repo.books, policy.runBytes, policy.dayBytes) && Caught(repo, scope)
    ensures newId !in repo.books.running && repo.attempts.Keys == old(repo.attempts.Keys) + {newId}
    ensures forall i :: i in old(repo.paid) ==> i in repo.paid && repo.paid[i] == old(repo.paid)[i]
    // The run ends, and within its limits.
    ensures pages <= policy.maximumRecords + 1
    ensures p.ingested <= p.discovered <= policy.maximumRecords && p.ingested <= policy.maximumFiles
    // The day counters stop at their limits, or one later if a file was to be retried; no other source's move.
    ensures Capped(old(repo.books), repo.books, scope.source, policy,
                   if Starting(old(MomentOf(repo)), scope).retryBoundary then 1 else 0)
    // It stops for a limit only if that limit is reached, and closes a generation in which it transferred
    // anything only while none is.
    ensures ending.Bounded? ==> Justified(ending.reason, repo.books, newId, scope.source, policy, p)
    ensures scope in repo.checkpoints && repo.checkpoints[scope].complete && p.ingested > 0 ==>
      Below(repo.books, newId, scope.source, policy)
    // Only a file that was terminal already can break its reservation.
    ensures ending.Broken? && HonestWorld(world, policy) ==> Excused(ending.error, repo.books)
    // A generation closes exactly when the traversal completed; a truncated run never closes one.
    ensures scope in repo.checkpoints && scope in repo.trail
    ensures repo.checkpoints[scope].complete <==> ending.Completed? || ending == Broken(OnlyUnknown)
    ensures ending == Broken(OnlyUnknown) <==> repo.checkpoints[scope].complete && OnlyUnreadable(repo.checkpoints[scope])
    ensures repo.checkpoints[scope].retryBoundary <==> ending.Broken? && ending != Broken(OnlyUnknown)
    ensures repo.checkpoints[scope].generation ==
      if scope !in old(repo.checkpoints) then 1
      else old(repo.checkpoints)[scope].generation + if old(repo.checkpoints)[scope].complete then 1 else 0
    ensures p.skipped + Starting(old(MomentOf(repo)), scope).unknown == repo.checkpoints[scope].unknown
    // Other scopes are as they were, and terminal files stay terminal.
    ensures repo.checkpoints == old(repo.checkpoints)[scope := repo.checkpoints[scope]]
    ensures repo.trail == old(repo.trail)[scope := repo.trail[scope]] && old(repo.books.terminal) <= repo.books.terminal
    // Against a fixed listing, exactly the files before the checkpoint are behind it.
    ensures Faithful(world, listing) && old(Resumable(repo, scope, listing)) ==> Resumable(repo, scope, listing)
    // A run whose listing budget is already used up moves nothing, and yet clears the retry boundary.
    ensures world.discover(0, Starting(old(MomentOf(repo)), scope).cursor).ListingExhausted? ==>
      && ending == Bounded(ListingBudget) && repo.trail[scope] == Behind(old(MomentOf(repo)), scope)
      && repo.checkpoints[scope] == Starting(old(MomentOf(repo)), scope).(complete := false, retryBoundary := false)
    // A favoured run makes every transfer that is needed, and closes the generation with the whole listing
    // behind it unless the files before the last page use up one of its own limits: then it stays open.
    ensures Favoured(old(MomentOf(repo)), policy, scope, world, listing, at) ==>
      Fulfilled(old(MomentOf(repo)), policy, scope, listing, at, MomentOf(repo), p, ending)
  {
    hide AllDealt, Explains, Sound, InForce, AllSettled, HonestWorld, Flat, Within, Calm, Favoured, Stands, Kept,
         Faithful, Starting, Behind, Ahead, Need, StopsShort, FineWorld, ValidPolicy, Resumable, StandsIn, Caught,
         CheckpointOk, Capped, Below, Justified, Accounted, Reached, Attending,
         Fulfilled;
    ghost var calm := Favoured(MomentOf(repo), policy, scope, world, listing, at);
    ghost var first, books := Now(repo), repo.books;
    var boundary := StartAttempt(repo, policy, scope, newId, world, listing, at);
    ghost var begun := Now(repo);
    ScopeAttended(repo, newId, scope, policy);
    StartsGeneration(old(MomentOf(repo)), scope);
    var closed;
    ending, closed, p, pages := Traverse(repo, policy, scope, newId, world, boundary, listing, calm, at);
    ScopeAttended(repo, newId, scope, policy);
    KeptParts(begun, Now(repo), scope);
    PolicyPositive(policy);
    Overwritten(first.trail, begun.trail, repo.trail, scope);
    Overwritten(first.checkpoints, begun.checkpoints, repo.checkpoints, scope);
    ghost var walked, ended := repo.checkpoints, repo.books;
    EndAttempt(repo, policy, scope, newId, ending.Broken?, closed, listing);
    ClosesAccounts(books, begun.checkpoints[scope], ended, walked[scope], p, newId, scope.source, policy, boundary,
                   ending);
    Overwritten(first.checkpoints, walked, repo.checkpoints, scope);
    if calm {
      Fulfils(old(MomentOf(repo)), policy, scope, listing, at, MomentOf(repo), p, ending, closed);
    }
  }

  lemma StartsGeneration(m: Moment, scope: Scope)
    ensures Starting(m, scope).generation ==
      if scope !in m.checkpoints then 1
      else m.checkpoints[scope].generation + if m.checkpoints[scope].complete then 1 else 0
  {
  }

  /** Opening and closing an attempt counts nothing. */
  lemma ClosesAccounts(l: Ledger, c: Checkpoint, m: Ledger, d: Checkpoint, q: Progress, a: AttemptId, source: SourceId,
                       policy: Policy, boundary: bool, ending: Ending)
    requires Accounted(ByteLedger.Open(l, a, source), c, Progress(0, 0, 0, 0, boundary), m, d, q, source, policy, false)
    ensures q.skipped + c.unknown == d.unknown && Capped(l, Close(m, a), source, policy, if boundary then 1 else 0)
    ensures Below(m, a, source, policy) ==> Below(Close(m, a), a, source, policy)
    ensures ending.Bounded? && Justified(ending.reason, m, a, source, policy, q) ==>
      Justified(ending.reason, Close(m, a), a, source, policy, q)
  {
  }

  /** Overwriting one entry twice is overwriting it once. */
  lemma Overwritten<V>(a: map<Scope, V>, b: map<Scope, V>, c: map<Scope, V>, k: Scope)
    requires k in b && k in c && b == a[k := b[k]] && c == b[k := c[k]]
    ensures c == a[k := c[k]]
  {
  }

  /** Closes the attempt, and its generation if it was traversed. */
  method EndAttempt(repo: Store, policy: Policy, scope: Scope, id: AttemptId, failed: bool, closed: bool,
                    ghost listing: Listing)
    requires Attending(repo, id, scope, policy)
    modifies repo`books, repo`checkpoints
    ensures repo.Valid() && Within(repo.books, policy.runBytes, policy.dayBytes) && Caught(repo, scope)
    ensures id !in repo.books.running && repo.books == Close(old(repo.books), id)
    ensures repo.checkpoints == old(repo.checkpoints)[scope := old(repo.checkpoints)[scope].(
      complete := closed, retryBoundary := failed && !closed)]
    ensures old(StandsIn(repo, scope, listing, closed)) ==> Resumable(repo, scope, listing)
  {
    hide AllDealt, Explains, Sound, InForce, Within, At, Flat;
    CloseWithin(repo.books, id, scope.source, policy);
    repo.FinishAttempt(id, failed, closed);
  }

  lemma Fulfils(m: Moment, policy: Policy, scope: Scope, l: Listing, at: nat, n: Moment, p: Progress, ending: Ending,
                closed: bool)
    requires scope in n.checkpoints && scope in n.trail && n.checkpoints[scope].complete == closed
    requires AllDealt(n.trail[scope], scope, n.books.terminal)
    requires Reached(policy, l, scope, at, Behind(m, scope), m.books.terminal, n.trail[scope], n.books.terminal, p, ending,
                     closed)
    ensures Fulfilled(m, policy, scope, l, at, n, p, ending)
  {
    hide AllDealt, Need, Ahead, Flat, StopsShort, Behind;
    EverythingDealt(l, n.trail[scope], scope, n.books.terminal);
  }

  /** What is behind is dealt with, and nothing ahead needs a transfer. */
  lemma EverythingDealt(l: Listing, trail: seq<Visit>, scope: Scope, terminal: set<(Identity, bool)>)
    requires trail <= Flat(l, |l|) && AllDealt(trail, scope, terminal) && Need(Ahead(l, trail), scope, terminal) == 0
    ensures AllDealt(Flat(l, |l|), scope, terminal)
  {
    hide Flat, Need;
    NeedNothing(Ahead(l, trail), scope, terminal);
    assert Flat(l, |l|) == trail + Ahead(l, trail);
  }

  /** Opens the attempt where the scope's generation stands, or starts the next one. */
  method StartAttempt(repo: Store, policy: Policy, scope: Scope, newId: AttemptId, ghost world: World,
                      ghost listing: Listing, ghost at: nat)
    returns (retryBoundary: bool)
    requires ValidPolicy(policy) && repo.Valid() && newId !in repo.attempts
    requires Within(repo.books, policy.runBytes, policy.dayBytes) && Caught(repo, scope)
    modifies repo
    ensures Attending(repo, newId, scope, policy) && AllSettled(repo.books, newId) && !repo.checkpoints[scope].complete
    ensures repo.checkpoints == old(repo.checkpoints)[scope := Starting(old(MomentOf(repo)), scope)]
    ensures repo.trail == old(repo.trail)[scope := Behind(old(MomentOf(repo)), scope)]
    ensures repo.attempts.Keys == old(repo.attempts.Keys) + {newId} && repo.paid == old(repo.paid)
    ensures repo.books == ByteLedger.Open(old(repo.books), newId, scope.source)
    ensures retryBoundary == Starting(old(MomentOf(repo)), scope).retryBoundary
    ensures Faithful(world, listing) && old(Resumable(repo, scope, listing)) ==> StandsIn(repo, scope, listing, false)
    ensures Favoured(old(MomentOf(repo)), policy, scope, world, listing, at) ==>
      var c := Starting(old(MomentOf(repo)), scope);
      Calm(repo.books, newId, policy, scope, world, listing, at, c.cursor, c.offset,
           Behind(old(MomentOf(repo)), scope), {}, Progress(0, 0, 0, 0, c.retryBoundary))
  {
    hide AllDealt, Explains, Sound, InForce, AllSettled, HonestWorld, At, Flat, Acyclic, Lists, Within, Calm,
         Favoured, Stands, ValidPolicy;
    ghost var m := MomentOf(repo);
    ExplainedIdentities(repo.books, repo.paid);
    OpenWithin(repo.books, newId, scope, policy, repo.paid);
    NothingLeft(scope, repo.books.terminal);
    var attempt := repo.BeginAttempt(scope, newId);
    if Faithful(world, listing) {
      StartsStanding(listing, Starting(m, scope), Behind(m, scope));
    }
    if Favoured(m, policy, scope, world, listing, at) {
      FavouredBegins(m, newId, policy, scope, world, listing, at);
    }
    retryBoundary := attempt.retryBoundary;
  }

  lemma StartsStanding(l: Listing, c: Checkpoint, trail: seq<Visit>)
    requires Acyclic(l)
    ensures c.cursor == None && c.offset == 0 && !c.complete && trail == [] ==> Stands(c, trail, l)
  {
    StandsAtStart(l);
  }

  lemma KeptParts(a: Snapshot, b: Snapshot, scope: Scope)
    requires Kept(a, b, scope)
    ensures scope in b.checkpoints && scope in b.trail && scope in a.trail
    ensures b.checkpoints == a.checkpoints[scope := b.checkpoints[scope]]
    ensures scope in a.checkpoints && b.checkpoints[scope].generation == a.checkpoints[scope].generation
    ensures b.trail == a.trail[scope := b.trail[scope]]
    ensures b.attempts == a.attempts && a.terminal <= b.terminal
    ensures forall i :: i in a.paid ==> i in b.paid && b.paid[i] == a.paid[i]
  {
  }

  // ----- any number of runs

  /** What the generation has behind it, against a fixed listing. */
  ghost predicate ExactPrefix(repo: Store, scope: Scope, l: Listing)
    requires scope in repo.checkpoints && scope in repo.trail
    reads repo
  {
    var c, trail := repo.checkpoints[scope], repo.trail[scope];
    && trail <= Flat(l, |l|) && Distinct(trail)
    && c.recognized + c.unknown == |trail| && c.unknown == UnknownIn(trail)
    && (c.complete ==> trail == Flat(l, |l|))
  }

  datatype Job = Job(scope: Scope, world: World)

  /** Every job at this scope meets the same listing. */
  ghost predicate Consistently(jobs: seq<Job>, scope: Scope, l: Listing) {
    forall k :: 0 <= k < |jobs| && jobs[k].scope == scope ==> Faithful(jobs[k].world, l)
  }

  /** The last of the jobs at the scope. */
  ghost predicate LastAt(jobs: seq<Job>, k: nat, scope: Scope) {
    k < |jobs| && jobs[k].scope == scope && forall j :: k < j < |jobs| ==> jobs[j].scope != scope
  }

  /** The jobs for the source that began with a file to retry. */
  ghost function Retries(jobs: seq<Job>, moments: seq<Moment>, source: SourceId): nat
    requires |jobs| == |moments|
  {
    if jobs == [] then 0
    else
      var last := |jobs| - 1;
      var retries := jobs[last].scope.source == source && Starting(moments[last], jobs[last].scope).retryBoundary;
      Retries(jobs[..last], moments[..last], source) + if retries then 1 else 0
  }

  /** Every source's day counters are held, one extra for each of its jobs that had a file to retry. */
  ghost predicate AllHeld(l: Ledger, m: Ledger, p: Policy, jobs: seq<Job>, moments: seq<Moment>) {
    |jobs| == |moments| && forall s :: Held(l, m, s, p, Retries(jobs, moments, s))
  }

  lemma HeldYet(l: Ledger, p: Policy)
    ensures forall jobs: seq<Job>, moments: seq<Moment> ::
      |jobs| == 0 && |moments| == 0 ==> AllHeld(l, l, p, jobs, moments)
  {
  }

  lemma HeldLonger(l: Ledger, m: Ledger, n: Ledger, p: Policy, jobs: seq<Job>, moments: seq<Moment>, job: Job,
                   moment: Moment)
    requires AllHeld(l, m, p, jobs, moments)
    requires Capped(m, n, job.scope.source, p, if Starting(moment, job.scope).retryBoundary then 1 else 0)
    ensures AllHeld(l, n, p, jobs + [job], moments + [moment])
  {
    hide Starting;
    var more, later := jobs + [job], moments + [moment];
    assert more[..|jobs|] == jobs && later[..|jobs|] == moments;
    forall s ensures Held(l, n, s, p, Retries(more, later, s)) {
      assert Held(l, m, s, p, Retries(jobs, moments, s));
    }
  }

  /** However many attempts at whatever scopes complete, are truncated or fail, one after
      another, each generation goes through its listing gap-free and without repeating a file;
      and a scope whose last attempt was favoured is left as a favoured run leaves it.
      `moments[k]` is what the k-th job started from. */
  method CollectRepeatedly(repo: Store, policy: Policy, jobs: seq<Job>, firstId: AttemptId,
                           ghost listings: map<Scope, Listing>)
    returns (endings: seq<Ending>, ghost moments: seq<Moment>)
    requires ValidPolicy(policy) && repo.Valid() && forall a :: a in repo.attempts ==> a < firstId
    requires Within(repo.books, policy.runBytes, policy.dayBytes) && forall s :: Caught(repo, s)
    modifies repo
    ensures repo.Valid() && Within(repo.books, policy.runBytes, policy.dayBytes)
    ensures |endings| == |moments| == |jobs| && (jobs != [] ==> moments[0] == old(MomentOf(repo)))
    ensures forall s :: Caught(repo, s)
    ensures AllHeld(old(repo.books), repo.books, policy, jobs, moments)
    ensures forall s ::
      && s in listings && Acyclic(listings[s]) && Consistently(jobs, s, listings[s])
      && old(Resumable(repo, s, listings[s])) ==>
      Resumable(repo, s, listings[s]) && (s in repo.checkpoints ==> s in repo.trail && ExactPrefix(repo, s, listings[s]))
    ensures forall s, k: nat, at: nat :: s in listings && LastAt(jobs, k, s) ==>
      Favoured(moments[k], policy, s, jobs[k].world, listings[s], at) ==>
      Accomplished(moments[k], policy, s, listings[s], at, MomentOf(repo))
  {
    hide AllDealt, Explains, Sound, Within, ValidPolicy, Stands, Flat, Acyclic, Distinct, UnknownIn, Faithful, Resumable,
         Favoured, Accomplished, AllHeld, Capped, Starting;
    endings, moments := [], [];
    HeldYet(repo.books, policy);
    for k := 0 to |jobs|
      invariant repo.Valid() && Within(repo.books, policy.runBytes, policy.dayBytes) && |endings| == |moments| == k
      invariant forall s :: Caught(repo, s)
      invariant forall a :: a in repo.attempts ==> a < firstId + k
      invariant AllHeld(old(repo.books), repo.books, policy, jobs[..k], moments)
      invariant (if k == 0 then MomentOf(repo) else moments[0]) == old(MomentOf(repo))
      invariant forall s ::
        s in listings && Consistently(jobs, s, listings[s]) && old(Resumable(repo, s, listings[s])) ==>
        Resumable(repo, s, listings[s])
      invariant forall s, j: nat, at: nat :: s in listings && LastAt(jobs[..k], j, s) ==>
        Favoured(moments[j], policy, s, jobs[j].world, listings[s], at) ==>
        Accomplished(moments[j], policy, s, listings[s], at, MomentOf(repo))
    {
      var job := jobs[k];
      ghost var m := MomentOf(repo);
      var ending := RunJob(repo, policy, job, firstId + k, listings);
      assert forall s ::
        s == job.scope && s in listings && Consistently(jobs, s, listings[s]) ==> Faithful(job.world, listings[s]);
      forall s, j: nat, at: nat |
        && s in listings && LastAt(jobs[..k + 1], j, s) && j < k
        && Favoured(moments[j], policy, s, jobs[j].world, listings[s], at)
        ensures Accomplished(moments[j], policy, s, listings[s], at, MomentOf(repo))
      {
        assert jobs[..k + 1][k].scope != s;
        assert LastAt(jobs[..k], j, s);
        StillAccomplished(moments[j], policy, s, listings[s], at, m, MomentOf(repo));
      }
      assert jobs[..k + 1] == jobs[..k] + [job];
      HeldLonger(old(repo.books), m.books, repo.books, policy, jobs[..k], moments, job, m);
      endings, moments := endings + [ending], moments + [m];
    }
    assert jobs[..|jobs|] == jobs;
    forall s | s in listings && Acyclic(listings[s]) && Resumable(repo, s, listings[s]) && s in repo.checkpoints
      ensures s in repo.trail && ExactPrefix(repo, s, listings[s])
    {
      StandingIsExact(repo, s, listings[s]);
    }
  }

  /** A job at another scope does not undo it. */
  lemma StillAccomplished(m: Moment, policy: Policy, scope: Scope, l: Listing, at: nat, n: Moment, later: Moment)
    requires Accomplished(m, policy, scope, l, at, n) && n.books.terminal <= later.books.terminal
    requires scope in n.checkpoints ==> scope in later.checkpoints && later.checkpoints[scope] == n.checkpoints[scope]
    requires scope in n.trail ==> scope in later.trail && later.trail[scope] == n.trail[scope]
    ensures Accomplished(m, policy, scope, l, at, later)
  {
    hide Flat, AllDealt, StopsShort, Behind;
    DealtGrows(Flat(l, |l|), scope, n.books.terminal, later.books.terminal);
  }

  /** One job, and what it leaves as it was at every scope. */
  method RunJob(repo: Store, policy: Policy, job: Job, newId: AttemptId, ghost listings: map<Scope, Listing>)
    returns (ending: Ending)
    requires ValidPolicy(policy) && repo.Valid() && newId !in repo.attempts
    requires Within(repo.books, policy.runBytes, policy.dayBytes) && forall s :: Caught(repo, s)
    modifies repo
    ensures repo.Valid() && Within(repo.books, policy.runBytes, policy.dayBytes)
    ensures forall s :: Caught(repo, s)
    ensures repo.attempts.Keys == old(repo.attempts.Keys) + {newId} && old(repo.books.terminal) <= repo.books.terminal
    ensures Capped(old(repo.books), repo.books, job.scope.source, policy,
                   if Starting(old(MomentOf(repo)), job.scope).retryBoundary then 1 else 0)
    ensures forall s ::
      s in listings && (s == job.scope ==> Faithful(job.world, listings[s])) && old(Resumable(repo, s, listings[s])) ==>
      Resumable(repo, s, listings[s])
    ensures forall s :: s != job.scope && s in old(repo.checkpoints) ==>
      s in repo.checkpoints && repo.checkpoints[s] == old(repo.checkpoints)[s]
    ensures forall s :: s != job.scope && s in old(repo.trail) ==> s in repo.trail && repo.trail[s] == old(repo.trail)[s]
    ensures forall at: nat :: job.scope in listings ==>
      Favoured(old(MomentOf(repo)), policy, job.scope, job.world, listings[job.scope], at) ==>
      Accomplished(old(MomentOf(repo)), policy, job.scope, listings[job.scope], at, MomentOf(repo))
  {
    hide AllDealt, Explains, Sound, Within, ValidPolicy, Stands, Flat, Acyclic, Faithful, Favoured, StopsShort, Ahead,
         Need, Capped, Justified, Below, Starting;
    ghost var before := Now(repo);
    ghost var m := MomentOf(repo);
    assert forall s :: s in before.checkpoints ==> s in before.trail && AllDealt(before.trail[s], s, before.terminal) by {
      forall s | s in before.checkpoints ensures s in before.trail && AllDealt(before.trail[s], s, before.terminal) {
        assert Caught(repo, s);
      }
    }
    ghost var listing := if job.scope in listings then listings[job.scope] else [];
    ghost var page: nat :| (exists at: nat :: Favoured(m, policy, job.scope, job.world, listing, at)) ==>
      Favoured(m, policy, job.scope, job.world, listing, page);
    forall at: nat | Favoured(m, policy, job.scope, job.world, listing, at) ensures at == page {
      OnePage(m, policy, job.scope, job.world, listing, at, page);
    }
    var p, pages;
    ending, p, pages := Collect(repo, policy, job.scope, job.world, newId, listing, page);
    forall s | s != job.scope && s in repo.checkpoints
      ensures s in repo.trail && AllDealt(repo.trail[s], s, repo.books.terminal)
    {
      DealtGrows(before.trail[s], s, before.terminal, repo.books.terminal);
    }
  }

  /** A favoured attempt starts on one page only. */
  lemma OnePage(m: Moment, policy: Policy, scope: Scope, world: World, l: Listing, i: nat, j: nat)
    requires Favoured(m, policy, scope, world, l, i) && Favoured(m, policy, scope, world, l, j)
    ensures i == j
  {
    hide FineWorld, Serving, AllWelcome, Flat, Visits, Need, Ahead, Enough;
  }

  lemma StandingIsExact(repo: Store, scope: Scope, l: Listing)
    requires Acyclic(l) && repo.Valid() && scope in repo.checkpoints && Resumable(repo, scope, l)
    ensures scope in repo.trail && ExactPrefix(repo, scope, l)
  {
    hide Explains, Sound, Distinct, UnknownIn, Flat;
    SoundAt(repo.checkpoints, repo.attempts, repo.trail, scope);
    TrailIsPrefix(repo.checkpoints[scope], repo.trail[scope], l);
    TrailNeverRepeats(repo.checkpoints[scope], repo.trail[scope], l);
  }

  // ----- a run that exhausts its listing and leaves the generation open

  /** One transfer at a time, two listed files, and a chunk shorter than the file. */
  const NARROW := Policy(1, 2, 10, 1, 0, 0, 100, 100, 5, 5, 5, 1, false)

  /** One page with one file, and then an empty last page. */
  function TrailingPage(file: RemoteFile): Listing {
    [ListedPage(None, [file], false), ListedPage(Some([1]), [], true)]
  }

  /** Five bytes, if the allowance is enough for them. */
  function FiveBytes(allowance: Option<int>): Download.Open {
    if allowance.Some? && allowance.value < 5 then Download.LimitHit(0, 0, 0, true) else Download.Stored(5, 5, false)
  }

  function TrailingWorld(file: RemoteFile): World {
    World((n, c) => Fetched(if c == None then Page([file], Next(Some([1])), false) else Page([], NoNext, true)),
          n => false,
          n => Some(n),
          n => Download.Script(Download.NeedsDownload, (k, m) => FiveBytes(m), None, None),
          n => None)
  }

  lemma TrailingIsFine(file: RemoteFile)
    ensures FineWorld(TrailingWorld(file), NARROW)
  {
    var w := TrailingWorld(file);
    forall n: nat
      ensures !w.elapsed(n) && w.register(n).Some? && w.bootstrap(n).None?
      ensures Download.Smooth(w.ingest(n), 10) && Download.Honest(w.ingest(n), 1)
    {
      var script := w.ingest(n);
      assert script == Download.Script(Download.NeedsDownload, script.download, None, None);
      assert forall k: nat, m :: script.download(k, m) == FiveBytes(m);
    }
  }

  lemma TrailingIsServed(file: RemoteFile)
    ensures Serving(TrailingWorld(file), TrailingPage(file)) && Tidy(TrailingPage(file))
  {
    var l := TrailingPage(file);
    forall n: nat, i: nat | i < |l| ensures TrailingWorld(file).discover(n, l[i].cursor) == Fetched(Served(l, i)) {
      assert i == 0 || i == 1;
    }
  }

  lemma TrailingFiles(file: RemoteFile)
    ensures var l := TrailingPage(file);
      && Flat(l, 1) == Flat(l, 2) == [Visit(None, 0, file)] && OnPage(None, 0, [], l, 0)
      && Ahead(l, []) == [Visit(None, 0, file)] && BeforeLast(l, []) == 1
  {
    var l := TrailingPage(file);
    assert Flat(l, 0) == [] && Visits(None, [file], 0, 1) == [Visit(None, 0, file)];
    assert Visits(Some([1]), [], 0, 0) == [] && Visits(None, [file], 0, 0) == [];
    assert Flat(l, 1) == Flat(l, 0) + Visits(None, [file], 0, 1) == [Visit(None, 0, file)];
    assert Flat(l, 2) == Flat(l, 1) + Visits(Some([1]), [], 0, 0) == [Visit(None, 0, file)];
  }

  lemma TrailingIsFavoured(m: Moment, scope: Scope, file: RemoteFile)
    requires m.checkpoints == map[] && m.books == EMPTY
    requires file.contentLength.None? && !file.unknownFormat && InRange(file, scope)
    ensures Favoured(m, NARROW, scope, TrailingWorld(file), TrailingPage(file), 0)
    ensures StopsShort(NARROW, TrailingPage(file), Behind(m, scope), 0, scope, m.books.terminal)
    ensures |Ahead(TrailingPage(file), Behind(m, scope))| == 1
    ensures Need(Ahead(TrailingPage(file), Behind(m, scope)), scope, m.books.terminal) == 1
  {
    hide FineWorld, Serving, Tidy, Flat, Visits, OnPage, Ahead, BeforeLast;
    TrailingIsFine(file);
    TrailingIsServed(file);
    TrailingFiles(file);
    var vs := [Visit(None, 0, file)];
    assert vs[..1] == vs && vs[0] in vs;
    assert Needy(vs, scope, {}) == {file.identity};
    assert Cost(NARROW, 1) == 11;
  }

  /** From an empty store one such run leaves the whole listing behind and the generation
      open, so having everything behind it does not close a generation. */
  method ExhaustedYetOpen(file: RemoteFile, scope: Scope) returns (repo: Store)
    requires file.contentLength.None? && !file.unknownFormat && InRange(file, scope)
    ensures fresh(repo) && repo.Valid() && scope in repo.checkpoints && scope in repo.trail
    ensures !repo.checkpoints[scope].complete
    ensures Acyclic(TrailingPage(file)) && repo.trail[scope] == Flat(TrailingPage(file), 2)
  {
    hide FineWorld, Serving, Flat, Visits, OnPage, Favoured, Explains, Sound, AllDealt, HonestWorld, StopsShort,
         Need, Ahead;
    repo := new Store();
    TrailingIsFavoured(MomentOf(repo), scope, file);
    TrailingIsServed(file);
    NothingCharged();
    var ending, p, pages := Collect(repo, NARROW, scope, TrailingWorld(file), 0, TrailingPage(file), 0);
    AllBehind(TrailingPage(file), repo.trail[scope]);
  }

  lemma AllBehind(l: Listing, trail: seq<Visit>)
    requires trail <= Flat(l, |l|)
    ensures |Ahead(l, trail)| == 0 ==> trail == Flat(l, |l|)
  {
  }

  lemma NothingCharged()
    ensures ValidPolicy(NARROW) && Within(EMPTY, NARROW.runBytes, NARROW.dayBytes)
  {
  }
}
