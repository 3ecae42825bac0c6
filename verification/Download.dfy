/** The retrying download of one file and the bytes an ingestion call reports,
    whether it returns or raises. */
module Download {
  import opened Prelude

  /** The error families the retry loop and the collection run tell apart. */
  datatype Kind = ChargeBudget | Capacity | DownloadLimit | Repository | Transient | Permanent

  /** A classified error carries a byte count, any other exception does not. */
  datatype Error = Classified(kind: Kind, bytes: nat) | Unclassified

  predicate Retried(e: Error) {
    e.Classified? && (e.kind == Repository || e.kind == Transient)
  }

  /** What one download open does: `attemptBytes` is known once the archive has
      stored the body, `sessionBytes` is what the session counted. */
  datatype Open =
    | Stored(contentLength: nat, sessionBytes: nat, duplicate: bool)
    | LimitHit(attemptBytes: nat, errorBytes: nat, sessionBytes: nat, budgetLimited: bool)
    | Fault(error: Error, attemptBytes: nat, sessionBytes: nat)

  /** The largest of the counts the open leaves: what the session saw pass, what was stored
      and what its error carries. */
  function Reported(o: Open): (bytes: nat)
    ensures bytes >= o.sessionBytes
    ensures bytes >= if o.Stored? then o.contentLength else o.attemptBytes
    ensures o.LimitHit? ==> bytes >= o.errorBytes
    ensures o.Fault? ==> bytes >= BytesOf(o.error)
    ensures || bytes == o.sessionBytes || bytes == (if o.Stored? then o.contentLength else o.attemptBytes)
      || (o.LimitHit? && bytes == o.errorBytes) || (o.Fault? && bytes == BytesOf(o.error))
  {
    match o
    case Stored(length, session, _) => Max(length, session)
    case LimitHit(attempt, error, session, _) => Max(attempt, Max(error, session))
    case Fault(error, attempt, session) =>
      Max(attempt, Max(if error.Classified? then error.bytes else 0, session))
  }

  /** Attempt number and remaining byte allowance, to what the publisher does. */
  type Downloader = (nat, Option<int>) -> Open

  datatype DownloadResult =
    | Downloaded(transferred: nat, duplicate: bool)
    | DownloadFailed(error: Error)

  function Remaining(maximum: Option<int>, spent: int): Option<int> {
    if maximum.Some? then Some(maximum.value - spent) else None
  }

  /** Bytes moved by the first `n` opens, each given what the earlier ones left. */
  ghost function Spent(d: Downloader, maximum: Option<int>, n: nat): (bytes: nat)
  {
    if n == 0 then 0
    else
      var before := Spent(d, maximum, n - 1);
      before + Reported(d(n - 1, Remaining(maximum, before)))
  }

  /** Bytes the sessions of the first `n` opens saw pass. */
  ghost function SeenBySessions(d: Downloader, maximum: Option<int>, n: nat): nat {
    if n == 0 then 0 else SeenBySessions(d, maximum, n - 1) + OpenAt(d, maximum, n - 1).sessionBytes
  }

  /** Nothing a session saw pass is missing from what is reported. */
  lemma {:induction false} SessionsReported(d: Downloader, maximum: Option<int>, n: nat)
    ensures SeenBySessions(d, maximum, n) <= Spent(d, maximum, n)
  {
    if n > 0 {
      SessionsReported(d, maximum, n - 1);
    }
  }

  /** Each bounded open may overshoot its allowance by at most one transfer chunk. */
  ghost predicate OvershootsAtMost(d: Downloader, chunk: nat) {
    forall n: nat, m: nat {:trigger d(n, Some(m))} :: Reported(d(n, Some(m))) <= m + chunk
  }

  function BytesOf(e: Error): nat { if e.Classified? then e.bytes else 0 }

  function ResultBytes(r: DownloadResult): nat {
    match r
    case Downloaded(bytes, _) => bytes
    case DownloadFailed(e) => BytesOf(e)
  }

  /** However many opens were retried and however the loop ended, the cumulative
      bytes stay within one chunk of the allowance. */
  lemma SpentWithinOneChunk(d: Downloader, maximum: nat, n: nat, chunk: nat)
    requires OvershootsAtMost(d, chunk)
    requires forall k: nat :: k < n ==> Spent(d, Some(maximum), k) < maximum
    ensures Spent(d, Some(maximum), n) <= maximum + chunk
  {
    if n > 0 {
      var left: nat := maximum - Spent(d, Some(maximum), n - 1);
      assert Reported(d(n - 1, Some(left))) <= left + chunk;
    }
  }

  /** What the n-th open does, given what the earlier ones left. */
  ghost function OpenAt(d: Downloader, maximum: Option<int>, n: nat): Open {
    d(n, Remaining(maximum, Spent(d, maximum, n)))
  }

  /** Worth another open: a transient or repository error, or an exception the service does
      not know once bytes have been moved. A limit is final. */
  ghost predicate Recoverable(o: Open, spent: nat) {
    o.Fault? && match o.error
      case Classified(kind, _) => kind in {Transient, Repository}
      case Unclassified => spent > 0
  }

  /** So many opens are made: while something is left of the allowance and of the attempts,
      and the last failure was worth another one. */
  ghost predicate Makes(d: Downloader, maximum: Option<int>, attempts: nat, made: nat) {
    && made <= attempts
    && (forall k: nat :: k + 1 < made ==> Recoverable(OpenAt(d, maximum, k), Spent(d, maximum, k + 1)))
    && (maximum.Some? ==> forall k: nat :: k < made ==> Spent(d, maximum, k) < maximum.value)
    && (made == attempts || (maximum.Some? && Spent(d, maximum, made) >= maximum.value)
        || (made > 0 && !Recoverable(OpenAt(d, maximum, made - 1), Spent(d, maximum, made))))
  }

  lemma MakesOneNumber(d: Downloader, maximum: Option<int>, attempts: nat, m: nat, n: nat)
    requires Makes(d, maximum, attempts, m) && Makes(d, maximum, attempts, n)
    ensures m == n
  {
    hide Recoverable, Spent;
    if 0 < m < n { RecoveredBefore(d, maximum, attempts, n, m); }
    if 0 < n < m { RecoveredBefore(d, maximum, attempts, m, n); }
  }

  lemma RecoveredBefore(d: Downloader, maximum: Option<int>, attempts: nat, made: nat, k: nat)
    requires Makes(d, maximum, attempts, made) && 0 < k < made
    ensures Recoverable(OpenAt(d, maximum, k - 1), Spent(d, maximum, k))
  {
    var before: nat := k - 1;
    assert before + 1 < made;
  }

  /** The error a failed open ends in once `spent` bytes were moved altogether. */
  function RaisedBy(o: Open, spent: nat): (e: Error)
    requires !o.Stored?
    ensures BytesOf(e) == spent
    ensures Retried(e) <==> Recoverable(o, spent)
    ensures o.LimitHit? ==> e.Classified? && (e.kind == ChargeBudget <==> o.budgetLimited)
    ensures o.Fault? && o.error.Classified? ==> e == o.error.(bytes := spent)
  {
    match o
    case LimitHit(_, _, _, budgetLimited) => Classified(if budgetLimited then ChargeBudget else DownloadLimit, spent)
    case Fault(Classified(kind, _), _, _) => Classified(kind, spent)
    case Fault(Unclassified, _, _) => if spent > 0 then Classified(Repository, spent) else Unclassified
  }

  /** The open failed in a way that is worth another one. */
  ghost predicate WorthRetrying(d: Downloader, maximum: Option<int>, n: nat) {
    var o := OpenAt(d, maximum, n);
    !o.Stored? && Retried(RaisedBy(o, Spent(d, maximum, n + 1)))
  }

  lemma NothingSpent(d: Downloader, maximum: Option<int>)
    ensures Spent(d, maximum, 0) == 0
  {
  }

  lemma NextOpen(d: Downloader, maximum: Option<int>, n: nat)
    ensures Spent(d, maximum, n + 1) == Spent(d, maximum, n) + Reported(OpenAt(d, maximum, n))
    ensures var o := OpenAt(d, maximum, n);
      && (WorthRetrying(d, maximum, n) <==> !o.Stored? && Retried(RaisedBy(o, Spent(d, maximum, n + 1))))
      && (WorthRetrying(d, maximum, n) <==> Recoverable(o, Spent(d, maximum, n + 1)))
  {
  }

  /** How one attempt ends, and the bytes moved so far. */
  method AttemptEnds(o: Open, before: nat) returns (r: DownloadResult, transferred: nat)
    ensures transferred == before + Reported(o)
    ensures r == if o.Stored? then Downloaded(transferred, o.duplicate) else DownloadFailed(RaisedBy(o, transferred))
  {
    match o {
      case Stored(contentLength, sessionBytes, duplicate) =>
        transferred := before + Max(contentLength, sessionBytes);
        r := Downloaded(transferred, duplicate);
      case LimitHit(attemptBytes, errorBytes, sessionBytes, budgetLimited) =>
        transferred := before + Max(attemptBytes, Max(errorBytes, sessionBytes));
        r := DownloadFailed(Classified(if budgetLimited then ChargeBudget else DownloadLimit, transferred));
      case Fault(error, attemptBytes, sessionBytes) =>
        transferred := before + Max(attemptBytes, Max(BytesOf(error), sessionBytes));
        var raised := match error
          case Classified(kind, _) => Classified(kind, transferred)
          case Unclassified => if transferred > 0 then Classified(Repository, transferred) else Unclassified;
        r := DownloadFailed(raised);
    }
  }

  method DownloadAndArchive(download: Downloader, maximum: Option<int>, attempts: nat)
    returns (r: DownloadResult, made: nat)
    requires attempts > 0
    // Every open but the last failed in a way that is retried, and a failure is not given up on before
    // the last attempt unless it is final or the allowance is used up.
    ensures Makes(download, maximum, attempts, made)
    ensures forall k: nat :: k + 1 < made ==> WorthRetrying(download, maximum, k)
    ensures r.Downloaded? ==>
      && made > 0 && OpenAt(download, maximum, made - 1).Stored?
      && r.duplicate == OpenAt(download, maximum, made - 1).duplicate
    // A failure is the last open's, final or out of attempts, or the allowance was used up.
    ensures r.DownloadFailed? ==>
      var spent := Spent(download, maximum, made);
      || (made > 0 && !OpenAt(download, maximum, made - 1).Stored?
          && r.error == RaisedBy(OpenAt(download, maximum, made - 1), spent)
          && (made == attempts || !WorthRetrying(download, maximum, made - 1)))
      || (maximum.Some? && spent >= maximum.value && made < attempts && r.error == Classified(ChargeBudget, spent)
          && forall k: nat :: k < made ==> WorthRetrying(download, maximum, k))
    ensures SeenBySessions(download, maximum, made) <= ResultBytes(r) == Spent(download, maximum, made)
  {
    hide Spent, WorthRetrying, RaisedBy, Reported, Retried, Recoverable;
    var transferred: nat := 0;
    made := 0;
    NothingSpent(download, maximum);
    while true
      invariant made < attempts && forall k: nat :: k < made ==> WorthRetrying(download, maximum, k)
      invariant forall k: nat :: k < made ==> Recoverable(OpenAt(download, maximum, k), Spent(download, maximum, k + 1))
      invariant transferred == Spent(download, maximum, made)
      invariant maximum.Some? ==> forall k: nat :: k < made ==> Spent(download, maximum, k) < maximum.value
      decreases attempts - made
    {
      SessionsReported(download, maximum, made);
      if maximum.Some? && maximum.value - transferred <= 0 {
        return DownloadFailed(Classified(ChargeBudget, transferred)), made;
      }
      var o := download(made, Remaining(maximum, transferred));
      NextOpen(download, maximum, made);
      made := made + 1;
      SessionsReported(download, maximum, made);
      r, transferred := AttemptEnds(o, transferred);
      if r.Downloaded? || !Retried(r.error) || made == attempts {
        return;
      }
    }
  }

  /** A first open that stores the file is the only one. */
  lemma FirstStored(d: Downloader, maximum: Option<int>)
    ensures OpenAt(d, maximum, 0) == d(0, maximum) && Spent(d, maximum, 0) == 0
    ensures d(0, maximum).Stored? ==> !WorthRetrying(d, maximum, 0)
  {
  }

  /** How far the durable record of a file already is when ingestion starts. */
  datatype Prior =
    | Barred(error: Error)      // a maintenance barrier, a held lease, a failed registration
    | Completed
    | Archived(verifyError: Option<Error>)
    | NeedsDownload

  /** Everything outside the application layer that one ingestion call meets. */
  datatype Script = Script(
    prior: Prior,
    download: Downloader,
    processing: Option<Error>,  // parse, validate, apply
    recording: Option<Error>)   // recording the failure fails too

  datatype IngestOutcome =
    | Ingested(transferred: nat, duplicate: bool)
    | Raised(error: Error)

  function OutcomeBytes(o: IngestOutcome): nat {
    match o
    case Ingested(bytes, _) => bytes
    case Raised(e) => BytesOf(e)
  }

  predicate Silent(e: Option<Error>) { e.Some? ==> BytesOf(e.value) == 0 }

  /** Only downloads move publisher bytes, and they overshoot by one chunk at most. */
  ghost predicate Honest(s: Script, chunk: nat) {
    && OvershootsAtMost(s.download, chunk)
    && Silent(s.processing) && Silent(s.recording)
    && (s.prior.Barred? ==> Silent(Some(s.prior.error)))
    && (s.prior.Archived? ==> Silent(s.prior.verifyError))
  }

  /** Nothing goes wrong: if the file has to be downloaded, an allowance of `least` bytes or
      more is enough for the first open to store it. */
  ghost predicate Smooth(s: Script, least: nat) {
    && s.processing.None? && !s.prior.Barred? && (s.prior.Archived? ==> s.prior.verifyError.None?)
    && (s.prior.NeedsDownload? ==>
         forall m: nat {:trigger s.download(0, Some(m))} :: m > 0 && m >= least ==> s.download(0, Some(m)).Stored?)
  }

  /** The error raised for a failure after `transferred` bytes were moved. */
  function Propagated(e: Error, transferred: nat): (raised: Error)
    ensures BytesOf(raised) == Max(BytesOf(e), transferred)
    ensures e.Classified? ==> raised.Classified? && raised.kind == e.kind
    ensures e.Unclassified? ==> raised == if transferred > 0 then Classified(Repository, transferred) else Unclassified
  {
    if transferred == 0 then e
    else match e
      case Classified(kind, bytes) => Classified(kind, Max(bytes, transferred))
      case Unclassified => Classified(Repository, transferred)
  }

  method Ingest(s: Script, maximum: Option<int>, attempts: nat) returns (r: IngestOutcome, made: nat)
    requires attempts > 0
    ensures maximum.Some? && maximum.value <= 0 ==> r == Raised(Unclassified)
    // Nothing moved goes unreported unless recording the failure fails as well.
    ensures s.prior.NeedsDownload? && s.recording.None? && Silent(s.processing) && (maximum.None? || maximum.value > 0) ==>
      SeenBySessions(s.download, maximum, made) <= OutcomeBytes(r) == Spent(s.download, maximum, made)
    ensures maximum.None? || maximum.value > 0 ==>
      match s.prior
      case Barred(error) => r == Raised(error) && made == 0
      case Completed => r == Ingested(0, true) && made == 0
      case Archived(_) => made == 0 && (r.Ingested? ==> r == Ingested(0, false))
      case NeedsDownload =>
        && Makes(s.download, maximum, attempts, made)
        && (r.Ingested? ==>
             && made > 0 && OpenAt(s.download, maximum, made - 1).Stored?
             && r.duplicate == OpenAt(s.download, maximum, made - 1).duplicate)
    // What is reported fits the allowance and one chunk of headroom.
    ensures forall chunk: nat ::
      Honest(s, chunk) && maximum.Some? && maximum.value > 0 ==> OutcomeBytes(r) <= maximum.value + chunk
    ensures forall least: nat ::
      Smooth(s, least) && maximum.Some? && maximum.value > 0 && maximum.value >= least ==> r.Ingested?
  {
    hide Spent, WorthRetrying, RaisedBy, OvershootsAtMost;
    made := 0;
    if maximum.Some? && maximum.value <= 0 {
      return Raised(Unclassified), made;
    }
    match s.prior {
      case Barred(error) => return Raised(error), made;
      case Completed => return Ingested(0, true), made;
      case _ =>
    }
    var transferred: nat := 0;
    var duplicate := false;
    var failure: Option<Error> := None;
    if s.prior.Archived? {
      failure := s.prior.verifyError;
    } else {
      var d;
      d, made := DownloadAndArchive(s.download, maximum, attempts);
      FirstStored(s.download, maximum);
      forall least: nat | Smooth(s, least) && maximum.Some? && maximum.value >= least ensures d.Downloaded? {
        var m: nat := maximum.value;
        assert s.download(0, Some(m)).Stored?;
      }
      forall chunk: nat | OvershootsAtMost(s.download, chunk) && maximum.Some?
        ensures ResultBytes(d) <= maximum.value + chunk
      {
        SpentWithinOneChunk(s.download, maximum.value, made, chunk);
      }
      match d {
        case Downloaded(bytes, dup) => transferred, duplicate := bytes, dup;
        case DownloadFailed(error) => failure := Some(error);
      }
    }
    if failure.None? {
      failure := s.processing;
    }
    if failure.None? {
      return Ingested(transferred, duplicate), made;
    }
    if s.recording.Some? {
      return Raised(s.recording.value), made;
    }
    return Raised(Propagated(failure.value, transferred)), made;
  }
}
