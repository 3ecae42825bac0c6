/** The byte ledger of the collection repository: reservations before a
    transfer, settlement after it, and the per-attempt and per-source totals
    that the collection policy is checked against. */
module ByteLedger {
  import opened Prelude
  import opened Sums

  type AttemptId = nat
  type FileId = nat
  type SourceId = string

  /** The retailer, portal and remote id that name one archived object. */
  datatype Identity = Identity(retailer: string, portal: string, remote: string)

  datatype Protocol = Https | Http | Ftp | Ftps | Fixture

  datatype RemoteFile = RemoteFile(
    identity: Identity,
    contentLength: Option<nat>,
    unknownFormat: bool,
    timestamp: Option<int>,
    protocol: Protocol)

  /** A reservation while open, the exact transfer charge once settled. */
  datatype Transfer = Transfer(bytes: int, settled: bool)

  datatype Budget = Budget(run: int, day: int, identities: int, attempts: int, successes: int)

  datatype Failure = NotRunning | NegativeBytes | NoReservation | ExceedsReservation

  datatype Answer = Answer(budget: Budget) | Refused(failure: Failure)

  datatype Ledger = Ledger(
    running: set<AttemptId>,
    terminal: set<(Identity, bool)>,
    attemptSources: map<AttemptId, SourceId>,
    attemptCharged: map<AttemptId, int>,
    sourceCharged: map<SourceId, int>,
    chargedSources: set<Identity>,
    transfers: map<(AttemptId, FileId), Transfer>,
    identityFiles: map<SourceId, set<FileId>>,
    attemptCounts: map<SourceId, int>,
    successCounts: map<SourceId, int>)

  const EMPTY := Ledger({}, {}, map[], map[], map[], {}, map[], map[], map[], map[])

  function Get<K>(m: map<K, int>, k: K): int { if k in m then m[k] else 0 }

  function GetSet<K, V>(m: map<K, set<V>>, k: K): set<V> { if k in m then m[k] else {} }

  // ----- operations

  function Open(l: Ledger, attempt: AttemptId, source: SourceId): Ledger {
    l.(running := l.running + {attempt},
       attemptSources := l.attemptSources[attempt := source],
       attemptCharged := l.attemptCharged[attempt := 0])
  }

  function Close(l: Ledger, attempt: AttemptId): Ledger {
    l.(running := l.running - {attempt})
  }

  function NoteTerminal(l: Ledger, file: RemoteFile, archiveOnly: bool): Ledger {
    l.(terminal := l.terminal + {(file.identity, archiveOnly)})
  }

  predicate IsTerminal(l: Ledger, file: RemoteFile, archiveOnly: bool) {
    (file.identity, false) in l.terminal || (archiveOnly && (file.identity, true) in l.terminal)
  }

  predicate Known(l: Ledger, attempt: AttemptId) {
    attempt in l.attemptSources && attempt in l.attemptCharged
  }

  function BudgetOf(l: Ledger, attempt: AttemptId): Budget
    requires Known(l, attempt)
  {
    var source := l.attemptSources[attempt];
    Budget(l.attemptCharged[attempt], Get(l.sourceCharged, source),
           |GetSet(l.identityFiles, source)|, Get(l.attemptCounts, source), Get(l.successCounts, source))
  }

  function Reserve(l: Ledger, attempt: AttemptId, file: FileId, bytes: int): (Ledger, Answer)
    requires attempt in l.running ==> Known(l, attempt)
  {
    if attempt !in l.running then (l, Refused(NotRunning))
    else if bytes < 0 then (l, Refused(NegativeBytes))
    else if (attempt, file) in l.transfers then (l, Answer(BudgetOf(l, attempt)))
    else
      var source := l.attemptSources[attempt];
      var next := l.(
        transfers := l.transfers[(attempt, file) := Transfer(bytes, false)],
        identityFiles := l.identityFiles[source := GetSet(l.identityFiles, source) + {file}],
        attemptCounts := l.attemptCounts[source := Get(l.attemptCounts, source) + 1],
        attemptCharged := l.attemptCharged[attempt := l.attemptCharged[attempt] + bytes],
        sourceCharged := l.sourceCharged[source := Get(l.sourceCharged, source) + bytes]);
      (next, Answer(BudgetOf(next, attempt)))
  }

  /** The archived object counts as attached once its file is terminal in either
      mode, or once at least its declared length has been transferred. */
  predicate Attached(l: Ledger, file: RemoteFile, transferred: int) {
    (file.identity, false) in l.terminal || (file.identity, true) in l.terminal
    || (file.contentLength.Some? && transferred >= file.contentLength.value)
  }

  /** The declared length when it is known and not zero, the transferred bytes otherwise. */
  function ArchiveBytes(l: Ledger, file: RemoteFile, transferred: int): int {
    if !Attached(l, file, transferred) then 0
    else if file.contentLength.Some? && file.contentLength.value != 0 then file.contentLength.value
    else transferred
  }

  predicate NewArchive(l: Ledger, file: RemoteFile, transferred: int) {
    Attached(l, file, transferred) && file.identity !in l.chargedSources
  }

  function ArchiveCharge(l: Ledger, file: RemoteFile, transferred: int): int {
    if NewArchive(l, file, transferred) then ArchiveBytes(l, file, transferred) else 0
  }

  function TransferCharge(l: Ledger, file: RemoteFile, transferred: int): int {
    if Attached(l, file, transferred) then Max(0, transferred - ArchiveBytes(l, file, transferred))
    else transferred
  }

  function Settle(l: Ledger, attempt: AttemptId, fileId: FileId, file: RemoteFile, transferred: int)
    : (Ledger, Answer)
    requires attempt in l.running ==> Known(l, attempt)
  {
    if attempt !in l.running then (l, Refused(NotRunning))
    else if transferred < 0 then (l, Refused(NegativeBytes))
    else if (attempt, fileId) !in l.transfers then (l, Refused(NoReservation))
    else if l.transfers[(attempt, fileId)].settled then (l, Answer(BudgetOf(l, attempt)))
    else
      var source := l.attemptSources[attempt];
      var reserved := l.transfers[(attempt, fileId)].bytes;
      var isNew := NewArchive(l, file, transferred);
      var transferBytes := TransferCharge(l, file, transferred);
      var exact := transferBytes + ArchiveCharge(l, file, transferred);
      if exact > reserved then (l, Refused(ExceedsReservation))
      else
        var next := l.(
          chargedSources := if isNew then l.chargedSources + {file.identity} else l.chargedSources,
          successCounts := if isNew then l.successCounts[source := Get(l.successCounts, source) + 1] else l.successCounts,
          transfers := l.transfers[(attempt, fileId) := Transfer(transferBytes, true)],
          attemptCharged := l.attemptCharged[attempt := l.attemptCharged[attempt] + (exact - reserved)],
          sourceCharged := l.sourceCharged[source := Get(l.sourceCharged, source) + (exact - reserved)]);
        (next, Answer(BudgetOf(next, attempt)))
  }

  // ----- what every total stands for

  /** Which attempt paid for an archived object, and how much. */
  datatype Payment = Payment(attempt: AttemptId, bytes: int)
  type Payments = map<Identity, Payment>

  ghost function TransfersOf(l: Ledger, a: AttemptId): map<(AttemptId, FileId), int> {
    map k | k in l.transfers && k.0 == a :: l.transfers[k].bytes
  }

  ghost function PaymentsOf(paid: Payments, a: AttemptId): map<Identity, int> {
    map i | i in paid && paid[i].attempt == a :: paid[i].bytes
  }

  ghost function AttemptsOf(l: Ledger, s: SourceId): map<AttemptId, int> {
    map a | a in l.attemptSources && a in l.attemptCharged && l.attemptSources[a] == s :: l.attemptCharged[a]
  }

  ghost function TransferKeysOf(l: Ledger, s: SourceId): set<(AttemptId, FileId)> {
    set k | k in l.transfers && k.0 in l.attemptSources && l.attemptSources[k.0] == s
  }

  ghost function FilesOf(keys: set<(AttemptId, FileId)>): set<FileId> {
    set k | k in keys :: k.1
  }

  ghost function PaidBy(l: Ledger, paid: Payments, s: SourceId): set<Identity> {
    set i | i in paid && paid[i].attempt in l.attemptSources && l.attemptSources[paid[i].attempt] == s
  }

  ghost predicate WellFormed(l: Ledger, paid: Payments) {
    && l.attemptCharged.Keys == l.attemptSources.Keys
    && l.running <= l.attemptSources.Keys
    && (forall k :: k in l.transfers ==> k.0 in l.attemptSources && l.transfers[k].bytes >= 0)
    && paid.Keys == l.chargedSources
    && (forall i :: i in paid ==> paid[i].attempt in l.attemptSources && paid[i].bytes >= 0)
  }

  ghost predicate AttemptBalanced(l: Ledger, paid: Payments, a: AttemptId)
    requires a in l.attemptCharged
  {
    l.attemptCharged[a] == Sum(TransfersOf(l, a)) + Sum(PaymentsOf(paid, a))
  }

  ghost predicate SourceBalanced(l: Ledger, paid: Payments, s: SourceId) {
    && Get(l.sourceCharged, s) == Sum(AttemptsOf(l, s))
    && Get(l.attemptCounts, s) == |TransferKeysOf(l, s)|
    && Get(l.successCounts, s) == |PaidBy(l, paid, s)|
    && GetSet(l.identityFiles, s) == FilesOf(TransferKeysOf(l, s))
  }

  /** `paid` accounts for every byte: each attempt's charge is its open
      reservations and settled transfers plus the archive objects it paid for,
      each source's charge is the sum over its attempts, and the day counters
      are the cardinalities they claim to be. */
  ghost predicate Explains(l: Ledger, paid: Payments) {
    && WellFormed(l, paid)
    && (forall a :: a in l.attemptCharged ==> AttemptBalanced(l, paid, a))
    && (forall s :: SourceBalanced(l, paid, s))
  }

  // ----- preservation

  /** Operations that touch neither charges, transfers nor sources keep one attempt's balance. */
  lemma AttemptKept(l: Ledger, n: Ledger, paid: Payments, b: AttemptId)
    requires b in l.attemptCharged && b in n.attemptCharged && n.attemptCharged[b] == l.attemptCharged[b]
    requires n.transfers == l.transfers && AttemptBalanced(l, paid, b)
    ensures AttemptBalanced(n, paid, b)
  {
    assert TransfersOf(n, b) == TransfersOf(l, b);
  }

  lemma SourceKept(l: Ledger, n: Ledger, paid: Payments, s: SourceId)
    requires n == l.(running := n.running, terminal := n.terminal) && SourceBalanced(l, paid, s)
    ensures SourceBalanced(n, paid, s)
  {
    assert AttemptsOf(n, s) == AttemptsOf(l, s);
    assert TransferKeysOf(n, s) == TransferKeysOf(l, s);
    assert PaidBy(n, paid, s) == PaidBy(l, paid, s);
  }

  lemma SameBooks(l: Ledger, n: Ledger, paid: Payments)
    requires Explains(l, paid) && n == l.(running := n.running, terminal := n.terminal) && n.running <= l.running
    ensures Explains(n, paid)
  {
    hide AttemptBalanced, SourceBalanced;
    forall b | b in n.attemptCharged ensures AttemptBalanced(n, paid, b) { AttemptKept(l, n, paid, b); }
    forall s ensures SourceBalanced(n, paid, s) { SourceKept(l, n, paid, s); }
  }

  lemma CloseExplained(l: Ledger, paid: Payments, a: AttemptId)
    requires Explains(l, paid)
    ensures Explains(Close(l, a), paid)
  {
    SameBooks(l, Close(l, a), paid);
  }

  lemma NoteTerminalExplained(l: Ledger, paid: Payments, file: RemoteFile, archiveOnly: bool)
    requires Explains(l, paid)
    ensures Explains(NoteTerminal(l, file, archiveOnly), paid)
  {
    SameBooks(l, NoteTerminal(l, file, archiveOnly), paid);
  }

  lemma OpenAttempt(l: Ledger, paid: Payments, a: AttemptId, source: SourceId)
    requires WellFormed(l, paid) && a !in l.attemptSources
    ensures AttemptBalanced(Open(l, a, source), paid, a)
  {
    assert TransfersOf(Open(l, a, source), a) == map[];
    assert PaymentsOf(paid, a) == map[];
  }

  lemma OpenSource(l: Ledger, paid: Payments, a: AttemptId, source: SourceId, s: SourceId)
    requires WellFormed(l, paid) && a !in l.attemptSources && SourceBalanced(l, paid, s)
    ensures SourceBalanced(Open(l, a, source), paid, s)
  {
    hide AttemptsOf, TransferKeysOf, FilesOf, PaidBy;
    SumUpdate(AttemptsOf(l, s), a, 0);
    OpenViews(l, paid, a, source, s);
  }

  lemma OpenViews(l: Ledger, paid: Payments, a: AttemptId, source: SourceId, s: SourceId)
    requires WellFormed(l, paid) && a !in l.attemptSources
    ensures var n := Open(l, a, source);
      && a !in AttemptsOf(l, s)
      && AttemptsOf(n, s) == (if s == source then AttemptsOf(l, s)[a := 0] else AttemptsOf(l, s))
      && TransferKeysOf(n, s) == TransferKeysOf(l, s) && PaidBy(n, paid, s) == PaidBy(l, paid, s)
  {
    OpenAttempts(l, a, source, s);
    OpenKeys(l, paid, a, source, s);
    hide AttemptsOf, TransferKeysOf, PaidBy, WellFormed;
  }

  lemma OpenAttempts(l: Ledger, a: AttemptId, source: SourceId, s: SourceId)
    requires l.attemptCharged.Keys == l.attemptSources.Keys && a !in l.attemptSources
    ensures a !in AttemptsOf(l, s)
    ensures AttemptsOf(Open(l, a, source), s) == if s == source then AttemptsOf(l, s)[a := 0] else AttemptsOf(l, s)
  {
  }

  lemma OpenKeys(l: Ledger, paid: Payments, a: AttemptId, source: SourceId, s: SourceId)
    requires WellFormed(l, paid) && a !in l.attemptSources
    ensures TransferKeysOf(Open(l, a, source), s) == TransferKeysOf(l, s)
    ensures PaidBy(Open(l, a, source), paid, s) == PaidBy(l, paid, s)
  {
  }

  lemma OpenExplained(l: Ledger, paid: Payments, a: AttemptId, source: SourceId)
    requires Explains(l, paid) && a !in l.attemptSources
    ensures Explains(Open(l, a, source), paid)
  {
    hide AttemptBalanced, SourceBalanced;
    var n := Open(l, a, source);
    forall b | b in n.attemptCharged ensures AttemptBalanced(n, paid, b) {
      if b == a { OpenAttempt(l, paid, a, source); } else { AttemptKept(l, n, paid, b); }
    }
    forall s ensures SourceBalanced(n, paid, s) { OpenSource(l, paid, a, source, s); }
  }

  /** Moving one attempt's charge moves the sum over its own source by as much, and no other. */
  lemma ChargeMoves(l: Ledger, n: Ledger, a: AttemptId, s: SourceId)
    requires l.attemptCharged.Keys == l.attemptSources.Keys && a in l.attemptSources
    requires n.attemptSources == l.attemptSources && a in n.attemptCharged
    requires n.attemptCharged == l.attemptCharged[a := n.attemptCharged[a]]
    ensures Sum(AttemptsOf(n, s)) == Sum(AttemptsOf(l, s))
          + (if s == l.attemptSources[a] then n.attemptCharged[a] - l.attemptCharged[a] else 0)
  {
    if s == l.attemptSources[a] {
      assert AttemptsOf(n, s) == AttemptsOf(l, s)[a := n.attemptCharged[a]];
      SumUpdate(AttemptsOf(l, s), a, n.attemptCharged[a]);
    } else {
      assert AttemptsOf(n, s) == AttemptsOf(l, s);
    }
  }

  lemma TransferMoves(l: Ledger, n: Ledger, k: (AttemptId, FileId), b: AttemptId)
    requires k in n.transfers && n.transfers == l.transfers[k := n.transfers[k]]
    ensures Sum(TransfersOf(n, b)) == Sum(TransfersOf(l, b))
          + (if k.0 == b then n.transfers[k].bytes - (if k in l.transfers then l.transfers[k].bytes else 0) else 0)
  {
    if k.0 == b {
      assert TransfersOf(n, b) == TransfersOf(l, b)[k := n.transfers[k].bytes];
      SumUpdate(TransfersOf(l, b), k, n.transfers[k].bytes);
    } else {
      assert TransfersOf(n, b) == TransfersOf(l, b);
    }
  }

  lemma PaymentMoves(paid: Payments, p: Payments, b: AttemptId, i: Identity, isNew: bool)
    requires isNew ==> i !in paid && i in p && p == paid[i := p[i]]
    requires !isNew ==> p == paid
    ensures Sum(PaymentsOf(p, b)) == Sum(PaymentsOf(paid, b))
          + (if isNew && p[i].attempt == b then p[i].bytes else 0)
  {
    if isNew && p[i].attempt == b {
      assert PaymentsOf(p, b) == PaymentsOf(paid, b)[i := p[i].bytes];
      SumUpdate(PaymentsOf(paid, b), i, p[i].bytes);
    } else {
      assert PaymentsOf(p, b) == PaymentsOf(paid, b);
    }
  }

  /** A new reservation adds one transfer to its own source. */
  lemma KeysAdded(l: Ledger, n: Ledger, k: (AttemptId, FileId), s: SourceId)
    requires n.attemptSources == l.attemptSources && k.0 in l.attemptSources && s == l.attemptSources[k.0]
    requires k !in l.transfers && n.transfers.Keys == l.transfers.Keys + {k}
    ensures |TransferKeysOf(n, s)| == |TransferKeysOf(l, s)| + 1
    ensures FilesOf(TransferKeysOf(n, s)) == FilesOf(TransferKeysOf(l, s)) + {k.1}
  {
    hide FilesOf;
    assert TransferKeysOf(n, s) == TransferKeysOf(l, s) + {k};
    FilesJoin(TransferKeysOf(l, s), k);
  }

  /** Settlements, and reservations of other sources, add none. */
  lemma KeysKept(l: Ledger, n: Ledger, k: (AttemptId, FileId), s: SourceId)
    requires n.attemptSources == l.attemptSources && k.0 in l.attemptSources
    requires s != l.attemptSources[k.0] || k in l.transfers
    requires n.transfers.Keys == l.transfers.Keys + {k}
    ensures TransferKeysOf(n, s) == TransferKeysOf(l, s)
  {
  }

  lemma FilesJoin(keys: set<(AttemptId, FileId)>, k: (AttemptId, FileId))
    ensures FilesOf(keys + {k}) == FilesOf(keys) + {k.1}
  {
  }

  lemma PaidMoves(l: Ledger, n: Ledger, paid: Payments, p: Payments, s: SourceId, i: Identity, isNew: bool)
    requires n.attemptSources == l.attemptSources
    requires isNew ==> i !in paid && i in p && p == paid[i := p[i]] && p[i].attempt in l.attemptSources
    requires !isNew ==> p == paid
    ensures |PaidBy(n, p, s)| == |PaidBy(l, paid, s)|
          + (if isNew && s == l.attemptSources[p[i].attempt] then 1 else 0)
  {
    if isNew && s == l.attemptSources[p[i].attempt] {
      assert PaidBy(n, p, s) == PaidBy(l, paid, s) + {i};
    } else {
      assert PaidBy(n, p, s) == PaidBy(l, paid, s);
    }
  }

  lemma ReserveParts(l: Ledger, a: AttemptId, f: FileId, bytes: nat, s: SourceId)
    requires a in l.running && Known(l, a) && (a, f) !in l.transfers
    ensures var n := Reserve(l, a, f, bytes).0;
      var here := s == l.attemptSources[a];
      && n.attemptSources == l.attemptSources && n.transfers.Keys == l.transfers.Keys + {(a, f)}
      && n.attemptCharged == l.attemptCharged[a := l.attemptCharged[a] + bytes]
      && Get(n.sourceCharged, s) == Get(l.sourceCharged, s) + (if here then bytes else 0)
      && Get(n.attemptCounts, s) == Get(l.attemptCounts, s) + (if here then 1 else 0)
      && Get(n.successCounts, s) == Get(l.successCounts, s)
      && GetSet(n.identityFiles, s) == GetSet(l.identityFiles, s) + (if here then {f} else {})
  {
  }

  lemma ReserveSource(l: Ledger, paid: Payments, a: AttemptId, f: FileId, bytes: nat, s: SourceId)
    requires WellFormed(l, paid) && a in l.running && (a, f) !in l.transfers && SourceBalanced(l, paid, s)
    ensures SourceBalanced(Reserve(l, a, f, bytes).0, paid, s)
  {
    hide AttemptsOf, TransferKeysOf, FilesOf, PaidBy, Reserve, Get, GetSet;
    var n := Reserve(l, a, f, bytes).0;
    ReserveParts(l, a, f, bytes, s);
    ChargeMoves(l, n, a, s);
    PaidMoves(l, n, paid, paid, s, Identity("", "", ""), false);
    if s == l.attemptSources[a] {
      KeysAdded(l, n, (a, f), s);
    } else {
      KeysKept(l, n, (a, f), s);
    }
  }

  lemma ReserveAttempt(l: Ledger, paid: Payments, a: AttemptId, f: FileId, bytes: nat, b: AttemptId)
    requires WellFormed(l, paid) && a in l.running && (a, f) !in l.transfers
    requires b in l.attemptCharged && AttemptBalanced(l, paid, b)
    ensures AttemptBalanced(Reserve(l, a, f, bytes).0, paid, b)
  {
    hide TransfersOf, PaymentsOf;
    TransferMoves(l, Reserve(l, a, f, bytes).0, (a, f), b);
  }

  lemma ReserveExplained(l: Ledger, paid: Payments, a: AttemptId, f: FileId, bytes: int)
    requires Explains(l, paid)
    ensures Explains(Reserve(l, a, f, bytes).0, paid)
  {
    hide AttemptBalanced, SourceBalanced;
    if a in l.running && bytes >= 0 && (a, f) !in l.transfers {
      var n := Reserve(l, a, f, bytes).0;
      forall b | b in n.attemptCharged ensures AttemptBalanced(n, paid, b) { ReserveAttempt(l, paid, a, f, bytes, b); }
      forall s ensures SourceBalanced(n, paid, s) { ReserveSource(l, paid, a, f, bytes, s); }
    }
  }

  /** The payments after a settlement: one more exactly when the object is newly attached. */
  ghost function PaidAfter(l: Ledger, paid: Payments, a: AttemptId, f: FileId, file: RemoteFile, transferred: int)
    : Payments
    requires a in l.running ==> Known(l, a)
  {
    if Settle(l, a, f, file, transferred).0 != l && NewArchive(l, file, transferred) then
      paid[file.identity := Payment(a, ArchiveCharge(l, file, transferred))]
    else paid
  }

  lemma SettleSource(l: Ledger, paid: Payments, a: AttemptId, f: FileId, file: RemoteFile, t: int, s: SourceId)
    requires WellFormed(l, paid) && SourceBalanced(l, paid, s) && Settle(l, a, f, file, t).0 != l
    ensures SourceBalanced(Settle(l, a, f, file, t).0, PaidAfter(l, paid, a, f, file, t), s)
  {
    hide AttemptsOf, TransferKeysOf, FilesOf, PaidBy, ArchiveCharge, TransferCharge, Attached;
    var n, p := Settle(l, a, f, file, t).0, PaidAfter(l, paid, a, f, file, t);
    ChargeMoves(l, n, a, s);
    KeysKept(l, n, (a, f), s);
    PaidMoves(l, n, paid, p, s, file.identity, NewArchive(l, file, t));
  }

  lemma SettleAttempt(l: Ledger, paid: Payments, a: AttemptId, f: FileId, file: RemoteFile, t: int, b: AttemptId)
    requires WellFormed(l, paid) && Settle(l, a, f, file, t).0 != l
    requires b in l.attemptCharged && AttemptBalanced(l, paid, b)
    ensures AttemptBalanced(Settle(l, a, f, file, t).0, PaidAfter(l, paid, a, f, file, t), b)
  {
    hide TransfersOf, PaymentsOf, TransferCharge, ArchiveBytes, Attached;
    var n, p := Settle(l, a, f, file, t).0, PaidAfter(l, paid, a, f, file, t);
    TransferMoves(l, n, (a, f), b);
    PaymentMoves(paid, p, b, file.identity, NewArchive(l, file, t));
  }

  lemma SettleExplained(l: Ledger, paid: Payments, a: AttemptId, f: FileId, file: RemoteFile, t: int)
    requires Explains(l, paid)
    ensures Explains(Settle(l, a, f, file, t).0, PaidAfter(l, paid, a, f, file, t))
  {
    hide AttemptBalanced, SourceBalanced;
    var n, p := Settle(l, a, f, file, t).0, PaidAfter(l, paid, a, f, file, t);
    if n != l {
      forall b | b in n.attemptCharged ensures AttemptBalanced(n, p, b) { SettleAttempt(l, paid, a, f, file, t, b); }
      forall s ensures SourceBalanced(n, p, s) { SettleSource(l, paid, a, f, file, t, s); }
    }
  }

  // ----- every run of the repository

  /** One call on the repository; an attempt id is fresh when its attempt opens. */
  datatype Call =
    | CallOpen(attempt: AttemptId, source: SourceId)
    | CallReserve(attempt: AttemptId, fileId: FileId, bytes: int)
    | CallSettle(attempt: AttemptId, fileId: FileId, file: RemoteFile, transferred: int)
    | CallNoteTerminal(file: RemoteFile, archiveOnly: bool)
    | CallClose(attempt: AttemptId)

  predicate Registered(l: Ledger) {
    l.running <= l.attemptSources.Keys && l.attemptSources.Keys == l.attemptCharged.Keys
  }

  function Apply(l: Ledger, call: Call): (n: Ledger)
    requires Registered(l)
    ensures Registered(n)
  {
    match call
    case CallOpen(a, s) => if a in l.attemptSources then l else Open(l, a, s)
    case CallReserve(a, f, bytes) => Reserve(l, a, f, bytes).0
    case CallSettle(a, f, file, t) => Settle(l, a, f, file, t).0
    case CallNoteTerminal(file, archiveOnly) => NoteTerminal(l, file, archiveOnly)
    case CallClose(a) => Close(l, a)
  }

  function Run(calls: seq<Call>): (l: Ledger)
    ensures Registered(l)
  {
    if calls == [] then EMPTY else Apply(Run(calls[..|calls| - 1]), calls[|calls| - 1])
  }

  lemma EmptyExplained()
    ensures Explains(EMPTY, map[])
  {
    forall s ensures SourceBalanced(EMPTY, map[], s) {
      assert AttemptsOf(EMPTY, s) == map[];
      assert TransferKeysOf(EMPTY, s) == {};
      assert PaidBy(EMPTY, map[], s) == {};
    }
  }

  /** Who paid for which archived object over a run. */
  ghost function PaidOver(calls: seq<Call>): Payments {
    if calls == [] then map[]
    else
      var before, last := calls[..|calls| - 1], calls[|calls| - 1];
      if last.CallSettle? then
        PaidAfter(Run(before), PaidOver(before), last.attempt, last.fileId, last.file, last.transferred)
      else PaidOver(before)
  }

  /** Whatever calls are made, in whatever order, every charged byte is explained
      by an open reservation, a settled transfer or one archived object. */
  lemma {:induction false} EveryRunExplained(calls: seq<Call>)
    ensures Explains(Run(calls), PaidOver(calls))
  {
    hide Explains;
    if calls == [] {
      EmptyExplained();
    } else {
      var before := calls[..|calls| - 1];
      EveryRunExplained(before);
      var l, paid := Run(before), PaidOver(before);
      match calls[|calls| - 1]
      case CallOpen(a, s) => if a !in l.attemptSources { OpenExplained(l, paid, a, s); }
      case CallReserve(a, f, bytes) => ReserveExplained(l, paid, a, f, bytes);
      case CallSettle(a, f, file, t) => SettleExplained(l, paid, a, f, file, t);
      case CallNoteTerminal(file, archiveOnly) => NoteTerminalExplained(l, paid, file, archiveOnly);
      case CallClose(a) => CloseExplained(l, paid, a);
    }
  }

  /** Each archived object is paid for at most once: later calls never re-price or re-assign it. */
  lemma {:induction false} PaidAtMostOnce(calls: seq<Call>, k: nat, i: Identity)
    requires k <= |calls| && i in PaidOver(calls[..k])
    ensures i in PaidOver(calls) && PaidOver(calls)[i] == PaidOver(calls[..k])[i]
  {
    if k == |calls| {
      assert calls[..k] == calls;
    } else {
      var before := calls[..|calls| - 1];
      assert before[..k] == calls[..k];
      PaidAtMostOnce(before, k, i);
      EveryRunExplained(before);
      ExplainedIdentities(Run(before), PaidOver(before));
    }
  }

  lemma ExplainedIdentities(l: Ledger, paid: Payments)
    requires Explains(l, paid)
    ensures paid.Keys == l.chargedSources
  {
  }

  lemma ExplainedKnown(l: Ledger, paid: Payments, a: AttemptId)
    requires Explains(l, paid)
    ensures Registered(l) && (a in l.running ==> Known(l, a))
  {
  }

  // ----- settlement against its reservation

  /** Settling never raises a charge: not the attempt's, not the source's, and not anyone else's. */
  lemma SettleNeverRaises(l: Ledger, a: AttemptId, f: FileId, file: RemoteFile, t: int)
    requires Registered(l)
    ensures var n := Settle(l, a, f, file, t).0;
      && (forall b :: b in l.attemptCharged ==> b in n.attemptCharged && n.attemptCharged[b] <= l.attemptCharged[b])
      && (forall s :: Get(n.sourceCharged, s) <= Get(l.sourceCharged, s))
      && n.attemptCharged.Keys == l.attemptCharged.Keys
  {
    var n := Settle(l, a, f, file, t).0;
    if n != l {
      assert n.attemptCharged[a] <= l.attemptCharged[a];
    }
  }

  predicate TerminalInSomeMode(l: Ledger, file: RemoteFile) {
    (file.identity, false) in l.terminal || (file.identity, true) in l.terminal
  }

  /** What settling t bytes of a file costs. Nothing moved goes uncharged while its object is
      unpaid; a terminal file pays at least for the length it declares; a paid object is not
      paid again, and what its file moves beyond it still is. */
  ghost predicate CostsExactly(l: Ledger, file: RemoteFile, t: int, cost: int) {
    var paid, declared := file.identity in l.chargedSources, file.contentLength.Some? && file.contentLength.value > 0;
    && (!paid && !TerminalInSomeMode(l, file) ==> cost == t)
    && (!paid && TerminalInSomeMode(l, file) ==> cost == if declared then Max(t, file.contentLength.value) else t)
    && (paid && declared && (TerminalInSomeMode(l, file) || t >= file.contentLength.value) ==>
         cost == Max(0, t - file.contentLength.value))
    && (paid && declared && !TerminalInSomeMode(l, file) && t < file.contentLength.value ==> cost == t)
    && (paid && !declared && (TerminalInSomeMode(l, file) || file.contentLength.Some?) ==> cost == 0)
    && (paid && !declared && !TerminalInSomeMode(l, file) && file.contentLength.None? ==> cost == t)
  }

  /** From l to n the open reservation of attempt a for f became the exact cost of its t
      bytes, for the attempt and for its source and for no one else; the object is marked paid
      exactly when its file is terminal or its declared length was reached, and a success is
      counted exactly when it was not paid before. */
  ghost predicate ChargedExactly(l: Ledger, n: Ledger, a: AttemptId, f: FileId, file: RemoteFile, t: int)
    requires Registered(l) && a in l.running && (a, f) in l.transfers
  {
    var source, reserved := l.attemptSources[a], l.transfers[(a, f)].bytes;
    var cost := Get(n.attemptCharged, a) + reserved - l.attemptCharged[a];
    var reached := file.contentLength.Some? && t >= file.contentLength.value;
    var pays := file.identity !in l.chargedSources && (TerminalInSomeMode(l, file) || reached);
    && CostsExactly(l, file, t, cost)
    && n.attemptCharged == l.attemptCharged[a := l.attemptCharged[a] - reserved + cost]
    && Get(n.sourceCharged, source) == Get(l.sourceCharged, source) - reserved + cost
    && (forall s :: s != source ==> Get(n.sourceCharged, s) == Get(l.sourceCharged, s))
    && n.chargedSources == l.chargedSources + (if pays then {file.identity} else {})
    && Get(n.successCounts, source) == Get(l.successCounts, source) + (if pays then 1 else 0)
    && n.transfers.Keys == l.transfers.Keys && n.transfers[(a, f)].settled
  }

  /** A granted settlement over an open reservation charges exactly what its bytes cost. */
  lemma SettleCharges(l: Ledger, a: AttemptId, f: FileId, file: RemoteFile, t: int)
    requires Registered(l) && a in l.running && (a, f) in l.transfers && !l.transfers[(a, f)].settled
    requires Settle(l, a, f, file, t).1.Answer?
    ensures ChargedExactly(l, Settle(l, a, f, file, t).0, a, f, file, t)
  {
    hide TransferCharge, ArchiveCharge, Attached;
    PriceIsExact(l, file, t);
  }

  lemma PriceIsExact(l: Ledger, file: RemoteFile, t: int)
    requires t >= 0
    ensures CostsExactly(l, file, t, TransferCharge(l, file, t) + ArchiveCharge(l, file, t))
    ensures NewArchive(l, file, t) <==>
      && file.identity !in l.chargedSources
      && (TerminalInSomeMode(l, file) || (file.contentLength.Some? && t >= file.contentLength.value))
  {
  }

  /** A settlement that reports no more bytes than were reserved is refused exactly
      when the file is already terminal, its object was never charged, and its
      declared length is longer than the reservation. */
  lemma SettleRefusedExactly(l: Ledger, a: AttemptId, f: FileId, file: RemoteFile, t: int)
    requires Registered(l) && a in l.running
    requires (a, f) in l.transfers && !l.transfers[(a, f)].settled
    requires 0 <= t <= l.transfers[(a, f)].bytes
    ensures Settle(l, a, f, file, t).1.Refused? <==>
      && ((file.identity, false) in l.terminal || (file.identity, true) in l.terminal)
      && file.identity !in l.chargedSources
      && file.contentLength.Some?
      && file.contentLength.value > l.transfers[(a, f)].bytes
  {
    if Attached(l, file, t) && file.contentLength.Some? && file.contentLength.value != 0 {
      assert ArchiveBytes(l, file, t) == file.contentLength.value;
    }
  }

  /** After these calls, a settlement within its open reservation is refused: the file
      is terminal and uncharged, and declares more than was reserved. */
  ghost predicate RefusedWithin(calls: seq<Call>, a: AttemptId, f: FileId, file: RemoteFile, t: int) {
    var l := Run(calls);
    && a in l.running && (a, f) in l.transfers && !l.transfers[(a, f)].settled
    && 0 <= t <= l.transfers[(a, f)].bytes
    && (file.identity, false) in l.terminal && file.identity !in l.chargedSources
    && file.contentLength.Some? && file.contentLength.value > l.transfers[(a, f)].bytes
    && Settle(l, a, f, file, t) == (l, Refused(ExceedsReservation))
  }

  /** The refusal does happen in a run of calls: a terminal file is reserved nothing,
      reports nothing, and is refused for the length it declares. */
  lemma SettleRefusedWitness()
    ensures exists calls, a, f, file, t :: RefusedWithin(calls, a, f, file, t)
  {
    hide Run, Settle, Reserve, RefusedWithin;
    var file := RemoteFile(Identity("r", "p", "f"), Some(5), false, None, Https);
    var calls := [CallOpen(0, "r"), CallNoteTerminal(file, false), CallReserve(0, 7, 0)];
    WitnessRun(calls, file);
    WitnessRefused(Run(calls), file);
    RefusedAfter(calls, file);
  }

  lemma RefusedAfter(calls: seq<Call>, file: RemoteFile)
    requires var l := Run(calls);
      && 0 in l.running && (0, 7) in l.transfers && l.transfers[(0, 7)] == Transfer(0, false)
      && (file.identity, false) in l.terminal && file.identity !in l.chargedSources && file.contentLength == Some(5)
      && Settle(l, 0, 7, file, 0) == (l, Refused(ExceedsReservation))
    ensures RefusedWithin(calls, 0, 7, file, 0)
  {
    hide Run, Settle;
  }

  lemma WitnessRun(calls: seq<Call>, file: RemoteFile)
    requires calls == [CallOpen(0, "r"), CallNoteTerminal(file, false), CallReserve(0, 7, 0)]
    ensures Run(calls) == Reserve(NoteTerminal(Open(EMPTY, 0, "r"), file, false), 0, 7, 0).0
  {
    hide Run, Reserve;
    RunNothing(calls[..0]);
    RunNext(calls[..0], calls[0]);
    RunNext(calls[..1], calls[1]);
    RunNext(calls[..2], calls[2]);
    assert calls[..0] + [calls[0]] == calls[..1] && calls[..1] + [calls[1]] == calls[..2];
    assert calls[..2] + [calls[2]] == calls;
  }

  lemma WitnessRefused(l: Ledger, file: RemoteFile)
    requires l == Reserve(NoteTerminal(Open(EMPTY, 0, "r"), file, false), 0, 7, 0).0
    requires file.contentLength == Some(5)
    ensures 0 in l.running && (0, 7) in l.transfers && l.transfers[(0, 7)] == Transfer(0, false)
    ensures (file.identity, false) in l.terminal && file.identity !in l.chargedSources
    ensures Registered(l) && Settle(l, 0, 7, file, 0) == (l, Refused(ExceedsReservation))
  {
  }

  lemma RunNothing(calls: seq<Call>)
    requires |calls| == 0
    ensures Run(calls) == EMPTY
  {
  }

  lemma RunNext(calls: seq<Call>, call: Call)
    ensures Run(calls + [call]) == Apply(Run(calls), call)
  {
    assert (calls + [call])[..|calls|] == calls;
  }

  // ----- ceilings

  /** No attempt is charged above the run ceiling, no source above the day ceiling. */
  ghost predicate Within(l: Ledger, run: int, day: int) {
    && (forall a :: a in l.attemptCharged ==> l.attemptCharged[a] <= run)
    && (forall s :: Get(l.sourceCharged, s) <= day)
  }

  /** Reserving no more than both remainders keeps both ceilings; settling always does. */
  lemma ReserveWithin(l: Ledger, a: AttemptId, f: FileId, bytes: int, run: int, day: int)
    requires Registered(l) && Within(l, run, day)
    requires a in l.attemptSources ==>
      bytes <= run - l.attemptCharged[a] && bytes <= day - Get(l.sourceCharged, l.attemptSources[a])
    ensures Within(Reserve(l, a, f, bytes).0, run, day)
  {
    var n := Reserve(l, a, f, bytes).0;
    forall s ensures Get(n.sourceCharged, s) <= day {
      assert Get(l.sourceCharged, s) <= day;
    }
  }

  lemma SettleWithin(l: Ledger, a: AttemptId, f: FileId, file: RemoteFile, t: int, run: int, day: int)
    requires Registered(l) && Within(l, run, day)
    ensures Within(Settle(l, a, f, file, t).0, run, day)
  {
    hide Settle;
    SettleNeverRaises(l, a, f, file, t);
  }
}
