/** Parsed events are staged in greedy batches under a row limit and a memory
    limit, and the batches' summaries add up to the summary of the file. */
module Staging {

  // ----- events and their charges

  /** A retained Python value, as far as the memory charge looks at it. */
  datatype Value =
    | Text(length: nat)
    | Tuple(elements: seq<Value>)
    | Decimal(digits: nat)
    | Integer(bits: nat)
    | Record(fields: seq<Value>)
    | Scalar

  function Charge(v: Value): (bytes: nat)
    ensures bytes >= 128
    decreases v
  {
    match v
    case Text(length) => 128 + 4 * length
    case Tuple(elements) => 256 + ChargeAll(elements)
    case Decimal(digits) => 128 + 4 * digits
    case Integer(bits) => 128 + (bits + 7) / 8
    case Record(fields) => 256 + ChargeAll(fields)
    case Scalar => 128
  }

  function ChargeAll(vs: seq<Value>): nat
    decreases vs
  {
    if vs == [] then 0 else Charge(vs[0]) + ChargeAll(vs[1..])
  }

  lemma {:induction false} ChargeAllJoin(a: seq<Value>, b: seq<Value>)
    ensures ChargeAll(a + b) == ChargeAll(a) + ChargeAll(b)
  {
    if a == [] {
      assert a + b == b;
    } else {
      assert (a + b)[1..] == a[1..] + b;
      ChargeAllJoin(a[1..], b);
    }
  }

  /** A text pays for its characters, a number for its digits or bytes, a container for its
      parts: cut or joined anywhere, it costs what its parts cost, and no part costs as much
      as the whole. */
  lemma ChargeByShape(a: seq<Value>, v: Value, b: seq<Value>, m: nat, n: nat)
    ensures Charge(Text(m + n)) == Charge(Text(m)) + 4 * n && Charge(Decimal(m + n)) == Charge(Decimal(m)) + 4 * n
    ensures 8 * (Charge(Integer(n)) - Charge(Scalar)) >= n > 8 * (Charge(Integer(n)) - Charge(Scalar) - 1)
    ensures Charge(Text(0)) == Charge(Decimal(0)) == Charge(Integer(0)) == Charge(Scalar) == 128
    ensures Charge(Tuple([])) == Charge(Record([])) == 256
    ensures Charge(Tuple(a + [v] + b)) == Charge(Tuple(a + b)) + Charge(v)
    ensures Charge(Record(a + [v] + b)) == Charge(Record(a + b)) + Charge(v)
    ensures Charge(v) < Charge(Tuple(a + [v] + b)) && Charge(v) < Charge(Record(a + [v] + b))
  {
    ChargeAllJoin(a + [v], b);
    ChargeAllJoin(a, [v]);
    ChargeAllJoin(a, b);
    assert [v][1..] == [];
  }

  datatype Severity = Warning | RecordRejection | FileQuarantine | SourceFailure | SystemFailure

  datatype Kind =
    | Metadata
    | StoreRecord
    | PriceRecord
    | PromotionRecord(items: seq<string>, stores: seq<string>, ownStore: string, clubs: seq<string>)
    | Issue(severity: Severity, evidenceBytes: nat)

  datatype Event = Event(kind: Kind, value: Value)

  /** Each of these once, in the order of their first mention. */
  function Distinct(ids: seq<string>): (r: seq<string>)
    ensures forall i, j :: 0 <= i < j < |r| ==> r[i] != r[j]
    ensures forall id :: id in r <==> id in ids
  {
    if ids == [] then []
    else
      var before, last := Distinct(ids[..|ids| - 1]), ids[|ids| - 1];
      assert ids == ids[..|ids| - 1] + [last];
      if last in before then before else before + [last]
  }

  /** The stores a promotion is related to: those it lists and the one it comes from, if any. */
  function StoresOf(k: Kind): seq<string>
    requires k.PromotionRecord?
  {
    Distinct(k.stores + if k.ownStore == "" then [] else [k.ownStore])
  }

  /** The row limit's count for one event. */
  function Units(e: Event): (n: nat)
    ensures n >= 1
  {
    if e.kind.PromotionRecord? then 1 + |e.kind.items| + |StoresOf(e.kind)| + |e.kind.clubs| else 1
  }

  /** A row the repository writes for an event. */
  datatype Row =
    | RecordRow
    | ItemRow(index: nat, item: string)
    | StoreRow(index: nat, store: string)
    | ClubRow(index: nat, club: string)

  /** The rows of one event: its record, and the relationships of a promotion. */
  ghost function RowsOf(e: Event): seq<Row> {
    if !e.kind.PromotionRecord? then [RecordRow]
    else
      var stores := StoresOf(e.kind);
      [RecordRow] + seq(|e.kind.items|, i requires 0 <= i < |e.kind.items| => ItemRow(i, e.kind.items[i]))
      + seq(|stores|, i requires 0 <= i < |stores| => StoreRow(i, stores[i]))
      + seq(|e.kind.clubs|, i requires 0 <= i < |e.kind.clubs| => ClubRow(i, e.kind.clubs[i]))
  }

  /** One row for the record, one for each item and club, and one for each store the promotion
      lists or comes from, however often it is mentioned; no row twice. */
  ghost predicate RowsExactly(e: Event, rows: seq<Row>) {
    && RecordRow in rows && (forall i, j :: 0 <= i < j < |rows| ==> rows[i] != rows[j])
    && (!e.kind.PromotionRecord? ==> rows == [RecordRow])
    && (e.kind.PromotionRecord? ==> Relates(e.kind.items, e.kind.clubs, e.kind.stores, e.kind.ownStore, rows))
  }

  ghost predicate HasStore(rows: seq<Row>, store: string) { exists i :: StoreRow(i, store) in rows }

  ghost predicate Relates(items: seq<string>, clubs: seq<string>, stores: seq<string>, own: string, rows: seq<Row>) {
    && (forall i: nat, x :: ItemRow(i, x) in rows <==> i < |items| && items[i] == x)
    && (forall i: nat, x :: ClubRow(i, x) in rows <==> i < |clubs| && clubs[i] == x)
    && (forall x :: HasStore(rows, x) <==> x in stores || (x == own && x != ""))
    && (forall i, j, x :: StoreRow(i, x) in rows && StoreRow(j, x) in rows ==> i == j)
  }

  /** The row in each place. */
  lemma RowAt(e: Event, k: nat)
    requires e.kind.PromotionRecord?
    ensures var items, stores, clubs, rows := e.kind.items, StoresOf(e.kind), e.kind.clubs, RowsOf(e);
      && |rows| == 1 + |items| + |stores| + |clubs| && rows[0] == RecordRow
      && (k < |items| ==> rows[1 + k] == ItemRow(k, items[k]))
      && (k < |stores| ==> rows[1 + |items| + k] == StoreRow(k, stores[k]))
      && (k < |clubs| ==> rows[1 + |items| + |stores| + k] == ClubRow(k, clubs[k]))
  {
  }

  /** What a row tells of its place. */
  lemma RowFrom(e: Event, k: nat)
    requires e.kind.PromotionRecord? && k < |RowsOf(e)|
    ensures var items, stores, clubs := e.kind.items, StoresOf(e.kind), e.kind.clubs;
      match RowsOf(e)[k]
      case RecordRow => k == 0
      case ItemRow(i, x) => i < |items| && items[i] == x && k == 1 + i
      case StoreRow(i, x) => i < |stores| && stores[i] == x && k == 1 + |items| + i
      case ClubRow(i, x) => i < |clubs| && clubs[i] == x && k == 1 + |items| + |stores| + i
  {
  }

  lemma RowsDiffer(e: Event, i: nat, j: nat)
    requires e.kind.PromotionRecord? && i < j < |RowsOf(e)|
    ensures RowsOf(e)[i] != RowsOf(e)[j]
  {
    hide RowsOf, StoresOf;
    RowFrom(e, i);
    RowFrom(e, j);
  }

  lemma ItemAndClubRows(e: Event, i: nat, x: string)
    requires e.kind.PromotionRecord?
    ensures ItemRow(i, x) in RowsOf(e) <==> i < |e.kind.items| && e.kind.items[i] == x
    ensures ClubRow(i, x) in RowsOf(e) <==> i < |e.kind.clubs| && e.kind.clubs[i] == x
  {
    hide RowsOf, StoresOf;
    RowAt(e, i);
    forall k: nat | k < |RowsOf(e)| && (RowsOf(e)[k] == ItemRow(i, x) || RowsOf(e)[k] == ClubRow(i, x))
      ensures RowsOf(e)[k].ItemRow? ==> i < |e.kind.items| && e.kind.items[i] == x
      ensures RowsOf(e)[k].ClubRow? ==> i < |e.kind.clubs| && e.kind.clubs[i] == x
    {
      RowFrom(e, k);
    }
  }

  lemma StoreRows(e: Event, i: nat, x: string)
    requires e.kind.PromotionRecord?
    ensures var stores := StoresOf(e.kind); StoreRow(i, x) in RowsOf(e) <==> i < |stores| && stores[i] == x
  {
    hide RowsOf, StoresOf;
    RowAt(e, i);
    forall k: nat | k < |RowsOf(e)| && RowsOf(e)[k] == StoreRow(i, x)
      ensures var stores := StoresOf(e.kind); i < |stores| && stores[i] == x
    {
      RowFrom(e, k);
    }
  }

  lemma PromotionRows(e: Event)
    requires e.kind.PromotionRecord?
    ensures RowsExactly(e, RowsOf(e))
  {
    hide RowsOf, StoresOf, Relates;
    RowAt(e, 0);
    assert RowsOf(e)[0] == RecordRow;
    forall i, j | 0 <= i < j < |RowsOf(e)| ensures RowsOf(e)[i] != RowsOf(e)[j] { RowsDiffer(e, i, j); }
    RowsRelate(e);
  }

  lemma RowsRelate(e: Event)
    requires e.kind.PromotionRecord?
    ensures Relates(e.kind.items, e.kind.clubs, e.kind.stores, e.kind.ownStore, RowsOf(e))
  {
    hide RowsOf, StoresOf, HasStore;
    forall i: nat, x ensures ItemRow(i, x) in RowsOf(e) <==> i < |e.kind.items| && e.kind.items[i] == x {
      ItemAndClubRows(e, i, x);
    }
    forall i: nat, x ensures ClubRow(i, x) in RowsOf(e) <==> i < |e.kind.clubs| && e.kind.clubs[i] == x {
      ItemAndClubRows(e, i, x);
    }
    StoreRowsExactly(e);
  }

  /** The row limit counts exactly the rows the repository writes, and the memory limit 512
      bytes for each. */
  lemma UnitsAreRows(e: Event)
    ensures Units(e) == |RowsOf(e)| && RowsExactly(e, RowsOf(e)) && Bytes(e) == Charge(e.value) + 512 * |RowsOf(e)|
  {
    if e.kind.PromotionRecord? {
      hide RowsOf, RowsExactly, StoresOf;
      RowAt(e, 0);
      PromotionRows(e);
    }
  }

  lemma StoreRowsExactly(e: Event)
    requires e.kind.PromotionRecord?
    ensures forall x :: HasStore(RowsOf(e), x) <==> x in e.kind.stores || (x == e.kind.ownStore && x != "")
    ensures forall i, j, x :: StoreRow(i, x) in RowsOf(e) && StoreRow(j, x) in RowsOf(e) ==> i == j
  {
    hide RowsOf, Distinct;
    var stores := StoresOf(e.kind);
    forall i: nat, x ensures StoreRow(i, x) in RowsOf(e) <==> i < |stores| && stores[i] == x { StoreRows(e, i, x); }
    forall x ensures HasStore(RowsOf(e), x) <==> x in stores {
      if x in stores {
        var i :| 0 <= i < |stores| && stores[i] == x;
        assert StoreRow(i, x) in RowsOf(e);
      }
    }
    StoresListed(e.kind);
  }

  lemma StoresListed(k: Kind)
    requires k.PromotionRecord?
    ensures forall x :: x in StoresOf(k) <==> x in k.stores || (x == k.ownStore && x != "")
  {
  }

  /** The rows of a batch. */
  ghost function RowsIn(b: seq<Event>): seq<Row> {
    if b == [] then [] else RowsIn(b[..|b| - 1]) + RowsOf(b[|b| - 1])
  }

  lemma {:induction false} BatchRows(b: seq<Event>)
    ensures |RowsIn(b)| == TotalUnits(b)
  {
    if b != [] {
      BatchRows(b[..|b| - 1]);
      UnitsAreRows(b[|b| - 1]);
    }
  }

  /** The memory limit's count: the retained value, and 512 bytes for every row. */
  function Bytes(e: Event): (n: nat)
    ensures n >= 1
  {
    Charge(e.value) + Units(e) * 512
  }

  function IssueCharge(e: Event): nat { if e.kind.Issue? then 64 + e.kind.evidenceBytes else 0 }

  function TotalUnits(b: seq<Event>): nat { if b == [] then 0 else TotalUnits(b[..|b| - 1]) + Units(b[|b| - 1]) }
  function TotalBytes(b: seq<Event>): nat { if b == [] then 0 else TotalBytes(b[..|b| - 1]) + Bytes(b[|b| - 1]) }
  function TotalIssues(b: seq<Event>): nat {
    if b == [] then 0 else TotalIssues(b[..|b| - 1]) + if b[|b| - 1].kind.Issue? then 1 else 0
  }
  function TotalIssueBytes(b: seq<Event>): nat {
    if b == [] then 0 else TotalIssueBytes(b[..|b| - 1]) + IssueCharge(b[|b| - 1])
  }

  /** The bytes of the issues' own texts. */
  ghost function Evidence(b: seq<Event>): nat {
    if b == [] then 0
    else Evidence(b[..|b| - 1]) + if b[|b| - 1].kind.Issue? then b[|b| - 1].kind.evidenceBytes else 0
  }

  /** Every issue costs 64 bytes and its texts, and nothing else costs anything. */
  lemma {:induction false} IssueBytesMean(b: seq<Event>)
    ensures TotalIssueBytes(b) == 64 * TotalIssues(b) + Evidence(b)
    ensures TotalIssues(b) == |set i | 0 <= i < |b| && b[i].kind.Issue?|
  {
    if b != [] {
      var n := |b| - 1;
      IssueBytesMean(b[..n]);
      assert (set i | 0 <= i < |b| && b[i].kind.Issue?)
          == (set i | 0 <= i < n && b[..n][i].kind.Issue?) + if b[n].kind.Issue? then {n} else {};
    }
  }

  datatype Policy = Policy(batchRows: nat, batchBytes: nat, issues: nat, issueBytes: nat)

  predicate Fits(b: seq<Event>, p: Policy) { TotalUnits(b) <= p.batchRows && TotalBytes(b) <= p.batchBytes }

  lemma {:induction false} TotalsJoin(a: seq<Event>, b: seq<Event>)
    ensures TotalUnits(a + b) == TotalUnits(a) + TotalUnits(b)
    ensures TotalBytes(a + b) == TotalBytes(a) + TotalBytes(b)
  {
    if b == [] {
      assert a + b == a;
    } else {
      assert (a + b)[..|a + b| - 1] == a + b[..|b| - 1];
      TotalsJoin(a, b[..|b| - 1]);
    }
  }

  /** A contiguous part of a batch that fits fits as well. */
  lemma PartFits(x: seq<Event>, y: seq<Event>, z: seq<Event>, p: Policy)
    requires Fits(x + y + z, p)
    ensures Fits(y, p)
  {
    TotalsJoin(x + y, z);
    TotalsJoin(x, y);
  }

  // ----- partitions into batches

  function Concat(bs: seq<seq<Event>>): seq<Event> {
    if bs == [] then [] else bs[0] + Concat(bs[1..])
  }

  lemma {:induction false} ConcatSnoc(bs: seq<seq<Event>>, b: seq<Event>)
    ensures Concat(bs + [b]) == Concat(bs) + b
  {
    if bs == [] {
      assert bs + [b] == [b] && [b][1..] == [];
      assert b + [] == b && [] + b == b;
    } else {
      ConcatSnoc(bs[1..], b);
      assert (bs + [b])[1..] == bs[1..] + [b];
      assert bs[0] + (Concat(bs[1..]) + b) == bs[0] + Concat(bs[1..]) + b;
    }
  }

  ghost predicate Batches(bs: seq<seq<Event>>, p: Policy) {
    forall k :: 0 <= k < |bs| ==> bs[k] != [] && Fits(bs[k], p)
  }

  /** No batch could have taken the first event of the next one. */
  ghost predicate Greedy(bs: seq<seq<Event>>, p: Policy)
    requires Batches(bs, p)
  {
    forall k :: 0 <= k < |bs| - 1 ==> !Fits(bs[k] + [bs[k + 1][0]], p)
  }

  /** Greedy batches of a suffix are no more than the batches of the whole, however those are cut. */
  lemma {:induction false} GreedyStaysAhead(g: seq<seq<Event>>, q: seq<seq<Event>>, extra: seq<Event>, p: Policy)
    requires Batches(g, p) && Greedy(g, p)
    requires forall k :: 0 <= k < |q| ==> Fits(q[k], p)
    requires Concat(q) == extra + Concat(g)
    ensures |g| <= |q|
    decreases |g|
  {
    if g != [] {
      var g0, gs := g[0], g[1..];
      assert Concat(g) == g0 + Concat(gs);
      assert |Concat(q)| > 0;
      var q0, qs := q[0], q[1..];
      if |g| > 1 {
        assert gs[0] == g[1];
        NextEvent(gs);
        assert !Fits(g[0] + [g[0 + 1][0]], p);
        if |q0| > |extra| + |g0| {
          var whole := extra + g0 + Concat(gs);
          assert whole == q0 + Concat(qs) by { assert extra + (g0 + Concat(gs)) == whole; }
          assert q0 == whole[..|q0|];
          assert q0 == extra + (g0 + [g[1][0]]) + q0[|extra| + |g0| + 1..];
          PartFits(extra, g0 + [g[1][0]], q0[|extra| + |g0| + 1..], p);
        }
        var rest := (extra + g0)[|q0|..];
        assert Concat(qs) == rest + Concat(gs) by {
          assert extra + (g0 + Concat(gs)) == (extra + g0) + Concat(gs);
          assert q0 + Concat(qs) == (extra + g0) + Concat(gs);
          assert (q0 + Concat(qs))[|q0|..] == Concat(qs);
        }
        forall k | 0 <= k < |gs| - 1 ensures !Fits(gs[k] + [gs[k + 1][0]], p) {
          assert !Fits(g[k + 1] + [g[k + 1 + 1][0]], p);
        }
        GreedyStaysAhead(gs, qs, rest, p);
      }
    }
  }

  lemma NextEvent(bs: seq<seq<Event>>)
    requires bs != [] && bs[0] != []
    ensures Concat(bs) != [] && Concat(bs)[0] == bs[0][0]
  {
  }

  // ----- summaries

  datatype Summary = Summary(
    metadata: nat, stores: nat, prices: nat, promotions: nat,
    warnings: nat, rejected: nat, quarantines: nat, issueBytes: nat, sampled: nat)

  const EMPTY := Summary(0, 0, 0, 0, 0, 0, 0, 0, 0)

  function Combine(a: Summary, b: Summary): Summary {
    Summary(a.metadata + b.metadata, a.stores + b.stores, a.prices + b.prices, a.promotions + b.promotions,
            a.warnings + b.warnings, a.rejected + b.rejected, a.quarantines + b.quarantines,
            a.issueBytes + b.issueBytes, a.sampled + b.sampled)
  }

  /** What the summary tells apart. */
  datatype Category = OfMetadata | OfStores | OfPrices | OfPromotions | OfIssues(severity: Severity)

  function CategoryOf(e: Event): (c: Category)
    ensures (c.OfMetadata? <==> e.kind.Metadata?) && (c.OfStores? <==> e.kind.StoreRecord?)
    ensures (c.OfPrices? <==> e.kind.PriceRecord?) && (c.OfPromotions? <==> e.kind.PromotionRecord?)
    ensures c.OfIssues? ==> e.kind.Issue? && c.severity == e.kind.severity
  {
    match e.kind
    case Metadata => OfMetadata
    case StoreRecord => OfStores
    case PriceRecord => OfPrices
    case PromotionRecord(_, _, _, _) => OfPromotions
    case Issue(severity, _) => OfIssues(severity)
  }

  /** How many events are of one category. */
  function Count(events: seq<Event>, c: Category): nat {
    if events == [] then 0 else Count(events[..|events| - 1], c) + if CategoryOf(events[|events| - 1]) == c then 1 else 0
  }

  /** What the summary of a sequence of events means, field by field. */
  predicate Summarises(s: Summary, events: seq<Event>) {
    && s.metadata == Count(events, OfMetadata)
    && s.stores == Count(events, OfStores)
    && s.prices == Count(events, OfPrices)
    && s.promotions == Count(events, OfPromotions)
    && s.warnings == Count(events, OfIssues(Warning))
    && s.rejected == Count(events, OfIssues(RecordRejection))
    && s.quarantines == Count(events, OfIssues(FileQuarantine))
    && s.issueBytes == TotalIssueBytes(events)
    && s.sampled == s.warnings + s.rejected + s.quarantines
  }

  lemma {:induction false} CountJoin(a: seq<Event>, b: seq<Event>, c: Category)
    ensures Count(a + b, c) == Count(a, c) + Count(b, c)
  {
    if b == [] {
      assert a + b == a;
    } else {
      assert (a + b)[..|a + b| - 1] == a + b[..|b| - 1];
      CountJoin(a, b[..|b| - 1], c);
    }
  }

  lemma {:induction false} IssueBytesJoin(a: seq<Event>, b: seq<Event>)
    ensures TotalIssueBytes(a + b) == TotalIssueBytes(a) + TotalIssueBytes(b)
  {
    if b == [] {
      assert a + b == a;
    } else {
      assert (a + b)[..|a + b| - 1] == a + b[..|b| - 1];
      IssueBytesJoin(a, b[..|b| - 1]);
    }
  }

  /** Summaries of parts combine to the summary of the whole. */
  lemma SummariesCombine(s: Summary, a: seq<Event>, t: Summary, b: seq<Event>)
    requires Summarises(s, a) && Summarises(t, b)
    ensures Summarises(Combine(s, t), a + b)
  {
    CountJoin(a, b, OfMetadata);
    CountJoin(a, b, OfStores);
    CountJoin(a, b, OfPrices);
    CountJoin(a, b, OfPromotions);
    CountJoin(a, b, OfIssues(Warning));
    CountJoin(a, b, OfIssues(RecordRejection));
    CountJoin(a, b, OfIssues(FileQuarantine));
    IssueBytesJoin(a, b);
  }

  method StageEvents(events: seq<Event>) returns (s: Summary)
    ensures Summarises(s, events)
  {
    var metadata, stores, prices, promotions, warnings, rejected, quarantines, issueBytes: nat := 0, 0, 0, 0, 0, 0, 0, 0;
    for i := 0 to |events|
      invariant Summarises(Summary(metadata, stores, prices, promotions, warnings, rejected, quarantines, issueBytes,
                                   warnings + rejected + quarantines), events[..i])
    {
      assert events[..i + 1][..i] == events[..i];
      match events[i].kind {
        case Metadata => metadata := metadata + 1;
        case StoreRecord => stores := stores + 1;
        case PriceRecord => prices := prices + 1;
        case PromotionRecord(_, _, _, _) => promotions := promotions + 1;
        case Issue(severity, evidence) =>
          issueBytes := issueBytes + 64 + evidence;
          if severity.Warning? {
            warnings := warnings + 1;
          } else if severity.RecordRejection? {
            rejected := rejected + 1;
          } else if severity.FileQuarantine? {
            quarantines := quarantines + 1;
          }
      }
    }
    assert events[..|events|] == events;
    s := Summary(metadata, stores, prices, promotions, warnings, rejected, quarantines, issueBytes,
                 warnings + rejected + quarantines);
  }

  // ----- the staging loop

  datatype Outcome = Staged(summary: Summary) | Quarantined | StageFailed

  /** The file is refused at the first event that is too large or whose issue is one too many. */
  predicate Refused(events: seq<Event>, i: nat, p: Policy)
    requires i < |events|
  {
    || (&& events[i].kind.Issue?
          && (TotalIssues(events[..i + 1]) > p.issues || TotalIssueBytes(events[..i + 1]) > p.issueBytes))
    || Units(events[i]) > p.batchRows || Bytes(events[i]) > p.batchBytes
  }

  ghost predicate Acceptable(events: seq<Event>, p: Policy) {
    forall i :: 0 <= i < |events| ==> !Refused(events, i, p)
  }

  /** Flushed batches, then the open one: each fits, none could take the next one's first event. */
  ghost predicate Filling(flushed: seq<seq<Event>>, batch: seq<Event>, p: Policy) {
    && Batches(flushed, p) && Greedy(flushed, p) && Fits(batch, p)
    && (flushed != [] && batch != [] ==> !Fits(flushed[|flushed| - 1] + [batch[0]], p))
    && (flushed != [] && batch == [] ==> Full(flushed[|flushed| - 1], p))
  }

  predicate Full(b: seq<Event>, p: Policy) { TotalUnits(b) >= p.batchRows || TotalBytes(b) >= p.batchBytes }

  lemma FullBlocks(b: seq<Event>, e: Event, p: Policy)
    requires Full(b, p)
    ensures !Fits(b + [e], p)
  {
    TotalsJoin(b, [e]);
    assert [e][..0] == [];
  }

  /** A batch is flushed before an event it cannot take, or as soon as it is full. */
  ghost predicate Ready(flushed: seq<seq<Event>>, next: Event, p: Policy) {
    && Batches(flushed, p) && Greedy(flushed, p)
    && (flushed != [] ==> !Fits(flushed[|flushed| - 1] + [next], p))
  }

  lemma FlushKeeps(flushed: seq<seq<Event>>, batch: seq<Event>, p: Policy)
    requires Filling(flushed, batch, p) && batch != []
    ensures Batches(flushed + [batch], p) && Greedy(flushed + [batch], p)
    ensures Full(batch, p) ==> Filling(flushed + [batch], [], p)
    ensures forall e :: !Fits(batch + [e], p) ==> Ready(flushed + [batch], e, p)
  {
    var bs := flushed + [batch];
    forall k | 0 <= k < |bs| - 1 ensures !Fits(bs[k] + [bs[k + 1][0]], p) {
      if k < |flushed| - 1 { assert !Fits(flushed[k] + [flushed[k + 1][0]], p); }
    }
  }

  /** The open batch takes one more event, or a new batch starts with it. */
  lemma TakeKeeps(flushed: seq<seq<Event>>, batch: seq<Event>, e: Event, p: Policy)
    requires if batch == [] then Ready(flushed, e, p) else Filling(flushed, batch, p)
    requires Fits(batch + [e], p)
    ensures Filling(flushed, batch + [e], p)
  {
    if batch == [] { assert batch + [e] == [e]; }
  }

  lemma FillingReady(flushed: seq<seq<Event>>, e: Event, p: Policy)
    requires Filling(flushed, [], p)
    ensures Ready(flushed, e, p)
  {
    if flushed != [] { FullBlocks(flushed[|flushed| - 1], e, p); }
  }

  lemma FillingBatches(flushed: seq<seq<Event>>, batch: seq<Event>, p: Policy)
    requires Filling(flushed, batch, p)
    ensures Batches(flushed, p) && Greedy(flushed, p)
  {
  }

  /** Hand the open batch to the repository and add its summary. */
  method FlushBatch(flushed: seq<seq<Event>>, batch: seq<Event>, summary: Summary, p: Policy, stageFails: nat -> bool)
    returns (ok: bool, batches: seq<seq<Event>>, combined: Summary)
    requires Filling(flushed, batch, p) && batch != [] && Summarises(summary, Concat(flushed))
    ensures ok <==> !stageFails(|flushed|)
    ensures batches == if ok then flushed + [batch] else flushed
    ensures Batches(batches, p) && Greedy(batches, p)
    ensures ok ==> Summarises(combined, Concat(batches))
    ensures ok && Full(batch, p) ==> Filling(batches, [], p)
    ensures ok ==> forall e :: !Fits(batch + [e], p) ==> Ready(batches, e, p)
  {
    hide Filling, Batches, Greedy, Ready, Summarises;
    batches, combined := flushed, summary;
    if stageFails(|flushed|) {
      ok := false;
      FillingBatches(flushed, batch, p);
      return;
    }
    FlushKeeps(flushed, batch, p);
    var staged := StageEvents(batch);
    SummariesCombine(summary, Concat(flushed), staged, batch);
    ConcatSnoc(flushed, batch);
    ok, batches, combined := true, flushed + [batch], Combine(summary, staged);
  }

  /** Any way of cutting the events into consecutive batches within both limits. */
  ghost predicate Cuts(q: seq<seq<Event>>, events: seq<Event>, p: Policy) {
    Concat(q) == events && forall k :: 0 <= k < |q| ==> Fits(q[k], p)
  }

  /** Greedy batching is optimal. */
  lemma GreedyIsOptimal(g: seq<seq<Event>>, events: seq<Event>, p: Policy)
    requires Batches(g, p) && Greedy(g, p) && Concat(g) == events
    ensures forall q :: Cuts(q, events, p) ==> |g| <= |q|
  {
    forall q | Cuts(q, events, p) ensures |g| <= |q| {
      assert [] + Concat(g) == Concat(g);
      GreedyStaysAhead(g, q, [], p);
    }
  }

  /** Flushed batches and the open batch are exactly the first i events. */
  ghost predicate Covers(flushed: seq<seq<Event>>, batch: seq<Event>, events: seq<Event>, i: nat) {
    i <= |events| && Concat(flushed) + batch == events[..i]
  }

  lemma CoversNext(flushed: seq<seq<Event>>, batch: seq<Event>, events: seq<Event>, i: nat)
    requires Covers(flushed, batch, events, i) && i < |events|
    ensures Covers(flushed, batch + [events[i]], events, i + 1)
  {
    assert Concat(flushed) + (batch + [events[i]]) == events[..i] + [events[i]];
  }

  lemma CoversFlush(flushed: seq<seq<Event>>, batch: seq<Event>, events: seq<Event>, i: nat)
    requires Covers(flushed, batch, events, i)
    ensures Covers(flushed + [batch], [], events, i)
  {
    ConcatSnoc(flushed, batch);
    assert Concat(flushed) + batch + [] == Concat(flushed) + batch;
  }

  lemma CoversPrefix(flushed: seq<seq<Event>>, batch: seq<Event>, events: seq<Event>, i: nat)
    requires Covers(flushed, batch, events, i)
    ensures Concat(flushed) <= events
    ensures i == |events| && batch == [] ==> Concat(flushed) == events
  {
    assert events[..|events|] == events && Concat(flushed) + [] == Concat(flushed);
  }

  /** The local state of the staging loop. */
  datatype Filler = Filler(batches: seq<seq<Event>>, batch: seq<Event>, units: nat, bytes: nat, summary: Summary)

  ghost predicate Holds(f: Filler, events: seq<Event>, i: nat, p: Policy, stageFails: nat -> bool) {
    && Filling(f.batches, f.batch, p) && Covers(f.batches, f.batch, events, i)
    && f.units == TotalUnits(f.batch) && f.bytes == TotalBytes(f.batch)
    && Summarises(f.summary, Concat(f.batches))
    && Stored(f.batches, stageFails)
  }

  /** Every batch so far was accepted by the repository. */
  ghost predicate Stored(batches: seq<seq<Event>>, stageFails: nat -> bool) {
    forall k :: 0 <= k < |batches| ==> !stageFails(k)
  }

  /** What a stopped loop leaves behind: whole batches that are a prefix of the file. */
  ghost predicate Stopped(batches: seq<seq<Event>>, events: seq<Event>, p: Policy) {
    Batches(batches, p) && Concat(batches) <= events
  }

  lemma NothingYet(p: Policy, events: seq<Event>, stageFails: nat -> bool)
    ensures Holds(Filler([], [], 0, 0, EMPTY), events, 0, p, stageFails)
  {
  }

  lemma NoIssues(none: seq<Event>)
    requires |none| == 0
    ensures TotalIssues(none) == 0 && TotalIssueBytes(none) == 0
  {
  }

  lemma HoldsStopped(f: Filler, events: seq<Event>, i: nat, p: Policy, stageFails: nat -> bool)
    requires Holds(f, events, i, p, stageFails)
    ensures Stopped(f.batches, events, p)
  {
    hide Filling, Covers, Summarises, Concat, Batches;
    FillingBatches(f.batches, f.batch, p);
    CoversPrefix(f.batches, f.batch, events, i);
  }

  lemma FlushedAll(f: Filler, events: seq<Event>, p: Policy, stageFails: nat -> bool)
    requires Batches(f.batches, p) && Greedy(f.batches, p) && Covers(f.batches, [], events, |events|)
    ensures Concat(f.batches) == events && forall q :: Cuts(q, events, p) ==> |f.batches| <= |q|
  {
    hide Batches, Greedy, Covers, Concat, Cuts;
    CoversPrefix(f.batches, [], events, |events|);
    GreedyIsOptimal(f.batches, events, p);
  }

  lemma HeldAll(f: Filler, events: seq<Event>, p: Policy, stageFails: nat -> bool)
    requires Holds(f, events, |events|, p, stageFails) && f.batch == []
    ensures Concat(f.batches) == events && forall q :: Cuts(q, events, p) ==> |f.batches| <= |q|
    ensures Summarises(f.summary, Concat(f.batches)) && Stored(f.batches, stageFails)
  {
    hide Filling, Batches, Greedy, Covers, Concat, Cuts, Summarises;
    FillingBatches(f.batches, f.batch, p);
    FlushedAll(f, events, p, stageFails);
  }

  method Flush(f: Filler, ghost events: seq<Event>, ghost i: nat, p: Policy, stageFails: nat -> bool)
    returns (ok: bool, g: Filler)
    requires Holds(f, events, i, p, stageFails) && f.batch != []
    ensures Stopped(g.batches, events, p) && (ok <==> !stageFails(|f.batches|))
    ensures !ok ==> g == f
    ensures ok ==> g == Filler(f.batches + [f.batch], [], 0, 0, g.summary)
    ensures ok ==>
      Covers(g.batches, [], events, i) && Summarises(g.summary, Concat(g.batches)) && Stored(g.batches, stageFails)
    ensures ok ==> Batches(g.batches, p) && Greedy(g.batches, p)
    ensures ok && Full(f.batch, p) ==> Holds(g, events, i, p, stageFails)
    ensures ok ==> forall e :: !Fits(f.batch + [e], p) ==> Ready(g.batches, e, p)
  {
    hide Filling, Batches, Greedy, Ready, Summarises, Concat, Covers, TotalUnits, TotalBytes, Fits, Full;
    HoldsStopped(f, events, i, p, stageFails);
    var batches, summary;
    ok, batches, summary := FlushBatch(f.batches, f.batch, f.summary, p, stageFails);
    if !ok {
      return ok, f;
    }
    CoversFlush(f.batches, f.batch, events, i);
    CoversPrefix(batches, [], events, i);
    NoTotals();
    g := Filler(batches, [], 0, 0, summary);
  }

  /** Flush if the event does not fit, take it, flush if the batch is full. */
  method TakeEvent(f: Filler, events: seq<Event>, i: nat, p: Policy, stageFails: nat -> bool)
    returns (ok: bool, g: Filler)
    requires i < |events| && Holds(f, events, i, p, stageFails)
    requires Units(events[i]) <= p.batchRows && Bytes(events[i]) <= p.batchBytes
    ensures Stopped(g.batches, events, p)
    ensures ok ==> Holds(g, events, i + 1, p, stageFails)
    ensures !ok ==> stageFails(|g.batches|)
  {
    hide Filling, Batches, Greedy, Ready, Summarises, Concat, Covers, TotalUnits, TotalBytes, Stopped, Stored, Units,
         Bytes;
    var event := events[i];
    var units, bytes := Units(event), Bytes(event);
    ok, g := true, f;
    TotalsSnoc(f.batch, event);
    TotalsSnoc([], event);
    NoTotals();
    if f.batch == [] {
      FillingReady(f.batches, event, p);
    } else if f.units + units > p.batchRows || f.bytes + bytes > p.batchBytes {
      ok, g := Flush(f, events, i, p, stageFails);
      if !ok {
        return;
      }
    }
    TakeKeeps(g.batches, g.batch, event, p);
    CoversNext(g.batches, g.batch, events, i);
    g := g.(batch := g.batch + [event], units := g.units + units, bytes := g.bytes + bytes);
    HoldsStopped(g, events, i + 1, p, stageFails);
    if g.units >= p.batchRows || g.bytes >= p.batchBytes {
      ok, g := Flush(g, events, i + 1, p, stageFails);
    }
  }

  lemma StoppedRows(batches: seq<seq<Event>>, events: seq<Event>, p: Policy)
    requires Stopped(batches, events, p)
    ensures forall k :: 0 <= k < |batches| ==> 0 < |RowsIn(batches[k])| <= p.batchRows
  {
    forall k | 0 <= k < |batches| ensures 0 < |RowsIn(batches[k])| <= p.batchRows {
      BatchRows(batches[k]);
    }
  }

  method ParseAndStage(events: seq<Event>, p: Policy, stageFails: nat -> bool)
    returns (r: Outcome, batches: seq<seq<Event>>)
    requires p.batchRows > 0 && p.batchBytes > 0 && p.issues > 0 && p.issueBytes > 0
    ensures Stopped(batches, events, p)
    ensures forall k :: 0 <= k < |batches| ==> 0 < |RowsIn(batches[k])| <= p.batchRows
    ensures r.Staged? ==> Concat(batches) == events && Summarises(r.summary, events)
    ensures r.Staged? ==> forall q :: Cuts(q, events, p) ==> |batches| <= |q|
    ensures r.Staged? ==> Acceptable(events, p) && Stored(batches, stageFails)
    ensures r.Quarantined? ==> !Acceptable(events, p)
    ensures r.StageFailed? ==> stageFails(|batches|)
  {
    hide Filling, Batches, Greedy, Ready, Summarises, Concat, Cuts, Covers, Holds, Stopped,
         TotalUnits, TotalBytes, TotalIssues, TotalIssueBytes, Refused, Units, Bytes, RowsIn;
    var f := Filler([], [], 0, 0, EMPTY);
    var issues: nat, issueBytes: nat := 0, 0;
    var ok;
    NothingYet(p, events, stageFails);
    NoIssues(events[..0]);
    for i := 0 to |events|
      invariant Holds(f, events, i, p, stageFails)
      invariant issues == TotalIssues(events[..i]) && issueBytes == TotalIssueBytes(events[..i])
      invariant forall j :: 0 <= j < i ==> !Refused(events, j, p)
    {
      var event := events[i];
      HoldsStopped(f, events, i, p, stageFails);
      RefusedExactly(events, i, p);
      if event.kind.Issue? {
        issues := issues + 1;
        issueBytes := issueBytes + 64 + event.kind.evidenceBytes;
        if issues > p.issues || issueBytes > p.issueBytes {
          StoppedRows(f.batches, events, p);
          return Quarantined, f.batches;
        }
      }
      if Units(event) > p.batchRows || Bytes(event) > p.batchBytes {
        StoppedRows(f.batches, events, p);
        return Quarantined, f.batches;
      }
      ok, f := TakeEvent(f, events, i, p, stageFails);
      if !ok {
        StoppedRows(f.batches, events, p);
        return StageFailed, f.batches;
      }
    }
    HoldsStopped(f, events, |events|, p, stageFails);
    if f.batch != [] {
      ok, f := Flush(f, events, |events|, p, stageFails);
      if !ok {
        StoppedRows(f.batches, events, p);
        return StageFailed, f.batches;
      }
      FlushedAll(f, events, p, stageFails);
    } else {
      HeldAll(f, events, p, stageFails);
    }
    StoppedRows(f.batches, events, p);
    return Staged(f.summary), f.batches;
  }

  lemma NoTotals()
    ensures TotalUnits([]) == 0 && TotalBytes([]) == 0
  {
  }

  /** The check on the running counters is the check on the prefix. */
  lemma RefusedExactly(events: seq<Event>, i: nat, p: Policy)
    requires i < |events|
    ensures TotalIssues(events[..i + 1]) == TotalIssues(events[..i]) + if events[i].kind.Issue? then 1 else 0
    ensures TotalIssueBytes(events[..i + 1]) == TotalIssueBytes(events[..i]) + IssueCharge(events[i])
    ensures Refused(events, i, p) <==>
      || (&& events[i].kind.Issue?
          && (TotalIssues(events[..i + 1]) > p.issues || TotalIssueBytes(events[..i + 1]) > p.issueBytes))
      || Units(events[i]) > p.batchRows || Bytes(events[i]) > p.batchBytes
  {
    assert events[..i + 1][..i] == events[..i];
  }

  lemma TotalsSnoc(b: seq<Event>, e: Event)
    ensures TotalUnits(b + [e]) == TotalUnits(b) + Units(e)
    ensures TotalBytes(b + [e]) == TotalBytes(b) + Bytes(e)
  {
    assert (b + [e])[..|b|] == b;
  }
}
