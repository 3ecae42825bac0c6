/** Five-minute budget buckets: batched upserts of audit rows that must equal one
    GROUP BY, and the 24-hour window read from them that must not under-count. */
module Buckets {
  import opened Prelude
  import opened Sums
  import opened Keyset

  type RetailerId = nat

  /** An audit row by the rank of its primary key; times are microseconds since 1970. */
  datatype Charge = Charge(retailer: RetailerId, at: int, bytes: nat)
  type Charges = map<nat, Charge>

  /** A bucket is named by its retailer and the instant it starts at. */
  datatype Group = Group(retailer: RetailerId, start: int)

  datatype Bucket = Bucket(bytes: nat, identities: nat, attempts: nat, successes: nat)
  type BucketTable = map<Group, Bucket>

  const FIVE_MINUTES := 300_000_000
  const DAY := 86_400_000_000

  /** date_bin: the start of the five-minute bucket that holds an instant. */
  function Bin(t: int): (start: int)
    ensures start <= t < start + FIVE_MINUTES
    ensures start % FIVE_MINUTES == 0
  {
    t / FIVE_MINUTES * FIVE_MINUTES
  }

  function GroupOf(c: Charge): Group { Group(c.retailer, Bin(c.at)) }

  /** Which counters a table of audit rows feeds. */
  datatype Source = Observations | Transfers | Archives

  function Tally(source: Source, bytes: nat, count: nat): Bucket {
    match source
    case Observations => Bucket(0, count, 0, 0)
    case Transfers => Bucket(bytes, 0, count, 0)
    case Archives => Bucket(bytes, 0, 0, count)
  }

  function Plus(a: Bucket, b: Bucket): Bucket {
    Bucket(a.bytes + b.bytes, a.identities + b.identities, a.attempts + b.attempts, a.successes + b.successes)
  }

  function Get(t: BucketTable, g: Group): Bucket { if g in t then t[g] else Bucket(0, 0, 0, 0) }

  // ----- sums over key sets

  function Bytes(rows: Charges, keys: set<nat>): nat
    requires keys <= rows.Keys
    decreases |keys|
  {
    if keys == {} then 0
    else
      var k := Smallest(keys);
      rows[k].bytes + Bytes(rows, keys - {k})
  }

  lemma {:induction false} BytesJoin(rows: Charges, a: set<nat>, b: set<nat>)
    requires a <= rows.Keys && b <= rows.Keys && a !! b
    ensures Bytes(rows, a + b) == Bytes(rows, a) + Bytes(rows, b)
    decreases |a| + |b|
  {
    if a + b == {} {
    } else {
      var k := Smallest(a + b);
      if k in a {
        assert Smallest(a) == k;
        assert (a + b) - {k} == (a - {k}) + b;
        BytesJoin(rows, a - {k}, b);
      } else {
        assert Smallest(b) == k;
        assert (a + b) - {k} == a + (b - {k});
        BytesJoin(rows, a, b - {k});
      }
    }
  }

  /** The bytes of rows are the sum of each row's own. */
  lemma {:induction false} BytesAreSum(rows: Charges, keys: set<nat>)
    requires keys <= rows.Keys
    ensures var all: map<nat, int> := map k | k in keys :: rows[k].bytes; Bytes(rows, keys) == Sum(all)
    decreases |keys|
  {
    var all: map<nat, int> := map k | k in keys :: rows[k].bytes;
    if keys == {} {
      assert all == map[];
    } else {
      var k := Smallest(keys);
      BytesAreSum(rows, keys - {k});
      SumRemove(all, k);
      var rest: map<nat, int> := map j | j in keys - {k} :: rows[j].bytes;
      assert all - {k} == rest;
    }
  }

  function InGroup(rows: Charges, keys: set<nat>, g: Group): (members: set<nat>)
    requires keys <= rows.Keys
    ensures members <= keys
  {
    set k | k in keys && GroupOf(rows[k]) == g
  }

  function Groups(rows: Charges, keys: set<nat>): set<Group>
    requires keys <= rows.Keys
  {
    set k | k in keys :: GroupOf(rows[k])
  }

  function Aggregate(rows: Charges, keys: set<nat>, source: Source, g: Group): Bucket
    requires keys <= rows.Keys
  {
    Tally(source, Bytes(rows, InGroup(rows, keys, g)), |InGroup(rows, keys, g)|)
  }

  /** INSERT ... SELECT ... GROUP BY ... ON CONFLICT DO UPDATE with addition. */
  function Upserted(t: BucketTable, rows: Charges, keys: set<nat>, source: Source): BucketTable
    requires keys <= rows.Keys
  {
    map g | g in t.Keys + Groups(rows, keys) :: Plus(Get(t, g), Aggregate(rows, keys, source, g))
  }

  lemma AggregateJoin(rows: Charges, a: set<nat>, b: set<nat>, source: Source, g: Group)
    requires a <= rows.Keys && b <= rows.Keys && a !! b
    ensures Aggregate(rows, a + b, source, g) == Plus(Aggregate(rows, a, source, g), Aggregate(rows, b, source, g))
  {
    hide Bytes, InGroup, Tally, Plus;
    var ga, gb := InGroup(rows, a, g), InGroup(rows, b, g);
    InGroupJoin(rows, a, b, g);
    BytesJoin(rows, ga, gb);
    TallyJoin(source, Bytes(rows, ga), |ga|, Bytes(rows, gb), |gb|);
    assert |ga + gb| == |ga| + |gb|;
  }

  lemma TallyJoin(source: Source, x: nat, m: nat, y: nat, n: nat)
    ensures Tally(source, x + y, m + n) == Plus(Tally(source, x, m), Tally(source, y, n))
  {
  }

  lemma InGroupJoin(rows: Charges, a: set<nat>, b: set<nat>, g: Group)
    requires a <= rows.Keys && b <= rows.Keys && a !! b
    ensures InGroup(rows, a + b, g) == InGroup(rows, a, g) + InGroup(rows, b, g)
    ensures InGroup(rows, a, g) !! InGroup(rows, b, g)
  {
  }

  lemma GroupsJoin(rows: Charges, a: set<nat>, b: set<nat>)
    requires a <= rows.Keys && b <= rows.Keys
    ensures Groups(rows, a + b) == Groups(rows, a) + Groups(rows, b)
  {
  }

  lemma UpsertTwiceAt(t: BucketTable, rows: Charges, a: set<nat>, b: set<nat>, source: Source, g: Group)
    requires a <= rows.Keys && b <= rows.Keys && a !! b
    requires g in t || g in Groups(rows, a) || g in Groups(rows, b)
    ensures Plus(Get(Upserted(t, rows, a, source), g), Aggregate(rows, b, source, g))
         == Plus(Get(t, g), Aggregate(rows, a + b, source, g))
  {
    hide Aggregate, Groups;
    AggregateJoin(rows, a, b, source, g);
    if g !in t && g !in Groups(rows, a) {
      NoMembers(rows, a, source, g);
    }
  }

  /** Aggregating in two batches is aggregating once. */
  lemma UpsertTwice(t: BucketTable, rows: Charges, a: set<nat>, b: set<nat>, source: Source)
    requires a <= rows.Keys && b <= rows.Keys && a !! b
    ensures Upserted(Upserted(t, rows, a, source), rows, b, source) == Upserted(t, rows, a + b, source)
  {
    hide Aggregate, Groups, Plus, Get;
    GroupsJoin(rows, a, b);
    var once, twice := Upserted(t, rows, a + b, source), Upserted(Upserted(t, rows, a, source), rows, b, source);
    forall g | g in once ensures g in twice && twice[g] == once[g] {
      UpsertTwiceAt(t, rows, a, b, source, g);
    }
  }

  lemma NoMembers(rows: Charges, keys: set<nat>, source: Source, g: Group)
    requires keys <= rows.Keys && g !in Groups(rows, keys)
    ensures Aggregate(rows, keys, source, g) == Bucket(0, 0, 0, 0)
  {
    assert InGroup(rows, keys, g) == {};
  }

  lemma UpsertNothing(t: BucketTable, rows: Charges, source: Source)
    ensures Upserted(t, rows, {}, source) == t
  {
    forall g | g in t ensures Upserted(t, rows, {}, source)[g] == t[g] { NoMembers(rows, {}, source, g); }
  }

  // ----- the batched backfill

  /** The rows the backfill looks at. */
  function Eligible(rows: Charges, cutoff: int): (keys: set<nat>)
    ensures keys <= rows.Keys
  {
    set k | k in rows && rows[k].at >= cutoff - DAY - FIVE_MINUTES
  }

  /** Keyset batches of `limit` rows, each upserted on its own. */
  method BackfillCharges(t: BucketTable, rows: Charges, cutoff: int, source: Source, limit: nat)
    returns (out: BucketTable)
    requires limit > 0
    ensures out == Upserted(t, rows, Eligible(rows, cutoff), source)
  {
    hide Upserted, Remaining, Eligible;
    var eligible := Eligible(rows, cutoff);
    out := t;
    var cursor: Option<nat> := None;
    var remaining := Remaining(eligible, cursor);
    ghost var done: set<nat> := {};
    UpsertNothing(t, rows, source);
    AllRemain(eligible);
    while remaining != {}
      invariant remaining == Remaining(eligible, cursor) && done == eligible - remaining
      invariant out == Upserted(t, rows, done, source)
      decreases |remaining|
    {
      var last := BatchLast(remaining, limit);
      var batch := set k | k in remaining && k <= last;
      NextBatch(eligible, cursor, last, batch);
      UpsertTwice(t, rows, done, batch, source);
      out := Upserted(out, rows, batch, source);
      cursor := Some(last);
      done := done + batch;
      remaining := Remaining(eligible, cursor);
    }
    assert done == eligible;
  }

  lemma AllRemain(ids: set<nat>)
    ensures Remaining(ids, None) == ids
  {
  }

  lemma NextBatch(ids: set<nat>, cursor: Option<nat>, last: nat, batch: set<nat>)
    requires last in Remaining(ids, cursor) && batch == set k | k in Remaining(ids, cursor) && k <= last
    ensures Remaining(ids, cursor) <= ids && batch <= Remaining(ids, cursor)
    ensures Remaining(ids, Some(last)) == Remaining(ids, cursor) - batch
    ensures |Remaining(ids, Some(last))| < |Remaining(ids, cursor)|
  {
    var was, left := Remaining(ids, cursor), Remaining(ids, Some(last));
    assert left == was - batch && last in batch;
    assert was == left + batch;
  }

  /** The whole backfill: identity counts, then transfer charges, then archive charges. */
  method BackfillBuckets(observations: Charges, transfers: Charges, archives: Charges, cutoff: int, limit: nat)
    returns (t: BucketTable)
    requires limit > 0
    ensures t == Direct(observations, transfers, archives, cutoff)
  {
    t := Upserted(map[], observations, Eligible(observations, cutoff), Observations);
    t := BackfillCharges(t, transfers, cutoff, Transfers, limit);
    t := BackfillCharges(t, archives, cutoff, Archives, limit);
  }

  /** One GROUP BY per table, no batches. */
  ghost function Direct(observations: Charges, transfers: Charges, archives: Charges, cutoff: int): BucketTable {
    var identities := Upserted(map[], observations, Eligible(observations, cutoff), Observations);
    var moved := Upserted(identities, transfers, Eligible(transfers, cutoff), Transfers);
    Upserted(moved, archives, Eligible(archives, cutoff), Archives)
  }

  // ----- the 24-hour window

  /** The buckets the budget adds up: from a day before the current one up to it. */
  predicate InWindow(g: Group, retailer: RetailerId, cutoff: int) {
    g.retailer == retailer && Bin(cutoff) - DAY <= g.start <= Bin(cutoff)
  }

  /** The four columns the budget reads from a bucket. */
  datatype Column = ChargedBytes | Identities | Attempts | Successes

  function Cell(b: Bucket, column: Column): nat {
    match column
    case ChargedBytes => b.bytes
    case Identities => b.identities
    case Attempts => b.attempts
    case Successes => b.successes
  }

  /** What rows of one table amount to in a column: observations are identities,
      transfers are attempts and archived objects successes; the last two move bytes. */
  function Amount(rows: Charges, keys: set<nat>, source: Source, column: Column): nat
    requires keys <= rows.Keys
  {
    match column
    case ChargedBytes => if source.Observations? then 0 else Bytes(rows, keys)
    case Identities => if source.Observations? then |keys| else 0
    case Attempts => if source.Transfers? then |keys| else 0
    case Successes => if source.Archives? then |keys| else 0
  }

  lemma AmountJoin(rows: Charges, a: set<nat>, b: set<nat>, source: Source, column: Column)
    requires a <= rows.Keys && b <= rows.Keys && a !! b
    ensures Amount(rows, a + b, source, column) == Amount(rows, a, source, column) + Amount(rows, b, source, column)
  {
    hide Bytes;
    BytesJoin(rows, a, b);
    assert |a + b| == |a| + |b|;
  }

  ghost function WindowTotal(t: BucketTable, retailer: RetailerId, cutoff: int, column: Column): int {
    Sum(WindowColumn(t, retailer, cutoff, column))
  }

  ghost function WindowColumn(t: BucketTable, retailer: RetailerId, cutoff: int, column: Column): map<Group, int> {
    map g | g in t && InWindow(g, retailer, cutoff) :: Cell(t[g], column)
  }

  /** All audit rows whose bucket is in the window, old enough for the backfill or not. */
  ghost function WindowRows(rows: Charges, retailer: RetailerId, cutoff: int): set<nat> {
    set k | k in rows && InWindow(GroupOf(rows[k]), retailer, cutoff)
  }

  /** The rows of the exact trailing 24 hours. */
  ghost function TrailingRows(rows: Charges, retailer: RetailerId, cutoff: int): set<nat> {
    set k | k in rows && rows[k].retailer == retailer && cutoff - DAY <= rows[k].at <= cutoff
  }

  /** Every bucket inside the window is complete: the backfill saw each of its rows. */
  lemma WindowIsComplete(rows: Charges, k: nat, retailer: RetailerId, cutoff: int)
    requires k in rows && InWindow(GroupOf(rows[k]), retailer, cutoff)
    ensures k in Eligible(rows, cutoff)
  {
  }

  /** Rounding both ends down to five minutes keeps every trailing row: a day is a whole number of buckets. */
  lemma TrailingInWindow(rows: Charges, retailer: RetailerId, cutoff: int)
    ensures TrailingRows(rows, retailer, cutoff) <= WindowRows(rows, retailer, cutoff)
  {
    forall k | k in TrailingRows(rows, retailer, cutoff) ensures k in WindowRows(rows, retailer, cutoff) {
      BinMonotone(cutoff - DAY, rows[k].at);
      BinMonotone(rows[k].at, cutoff);
      BinOfDayBefore(cutoff);
    }
  }

  lemma BinMonotone(a: int, b: int)
    requires a <= b
    ensures Bin(a) <= Bin(b)
  {
  }

  lemma BinOfDayBefore(t: int)
    ensures Bin(t - DAY) == Bin(t) - DAY
  {
    assert DAY == 288 * FIVE_MINUTES;
    assert (t - 288 * FIVE_MINUTES) / FIVE_MINUTES == t / FIVE_MINUTES - 288;
  }

  lemma AmountMonotone(rows: Charges, a: set<nat>, b: set<nat>, source: Source, column: Column)
    requires a <= b <= rows.Keys
    ensures Amount(rows, a, source, column) <= Amount(rows, b, source, column)
  {
    hide Amount;
    assert b == a + (b - a);
    AmountJoin(rows, a, b - a, source, column);
  }

  ghost function GroupTotals(rows: Charges, keys: set<nat>, groups: set<Group>, source: Source, column: Column)
    : map<Group, int>
    requires keys <= rows.Keys
  {
    map g | g in groups :: Amount(rows, InGroup(rows, keys, g), source, column)
  }

  ghost function Members(rows: Charges, keys: set<nat>, groups: set<Group>): (members: set<nat>)
    requires keys <= rows.Keys
    ensures members <= keys
  {
    set k | k in keys && GroupOf(rows[k]) in groups
  }

  /** Adding up group totals is adding up the rows of those groups. */
  lemma {:induction false} Regroup(rows: Charges, keys: set<nat>, groups: set<Group>, source: Source, column: Column)
    requires keys <= rows.Keys
    ensures Sum(GroupTotals(rows, keys, groups, source, column))
         == Amount(rows, Members(rows, keys, groups), source, column)
    decreases |groups|
  {
    hide Amount, GroupOf;
    if groups == {} {
      assert GroupTotals(rows, keys, groups, source, column) == map[] && Members(rows, keys, groups) == {};
      NoAmount(rows, {}, source, column);
    } else {
      var g :| g in groups;
      var others := groups - {g};
      Regroup(rows, keys, others, source, column);
      SumRemove(GroupTotals(rows, keys, groups, source, column), g);
      assert GroupTotals(rows, keys, groups, source, column) - {g} == GroupTotals(rows, keys, others, source, column);
      assert Members(rows, keys, groups) == InGroup(rows, keys, g) + Members(rows, keys, others);
      AmountJoin(rows, InGroup(rows, keys, g), Members(rows, keys, others), source, column);
    }
  }

  lemma NoAmount(rows: Charges, none: set<nat>, source: Source, column: Column)
    requires |none| == 0
    ensures none <= rows.Keys && Amount(rows, none, source, column) == 0
  {
  }

  ghost function WindowGroups(t: BucketTable, retailer: RetailerId, cutoff: int): set<Group> {
    set g | g in t && InWindow(g, retailer, cutoff)
  }

  /** A row's own bucket exists, and the rows in the window's buckets are the window's rows. */
  lemma WindowMembers(t: BucketTable, rows: Charges, retailer: RetailerId, cutoff: int)
    requires Groups(rows, Eligible(rows, cutoff)) <= t.Keys
    ensures Members(rows, Eligible(rows, cutoff), WindowGroups(t, retailer, cutoff)) == WindowRows(rows, retailer, cutoff)
  {
    forall k | k in WindowRows(rows, retailer, cutoff) ensures k in Eligible(rows, cutoff) && GroupOf(rows[k]) in t {
      WindowIsComplete(rows, k, retailer, cutoff);
      assert GroupOf(rows[k]) in Groups(rows, Eligible(rows, cutoff));
    }
  }

  /** Every windowed column is exactly what all rows whose bucket is in the window amount to. */
  lemma WindowIsExact(observations: Charges, transfers: Charges, archives: Charges, retailer: RetailerId, cutoff: int,
                      column: Column)
    ensures WindowTotal(Direct(observations, transfers, archives, cutoff), retailer, cutoff, column)
         == Amount(observations, WindowRows(observations, retailer, cutoff), Observations, column)
          + Amount(transfers, WindowRows(transfers, retailer, cutoff), Transfers, column)
          + Amount(archives, WindowRows(archives, retailer, cutoff), Archives, column)
  {
    hide Amount, GroupOf, InGroup, Eligible, InWindow, Direct, Members, Sum, Cell;
    var t := Direct(observations, transfers, archives, cutoff);
    var groups := WindowGroups(t, retailer, cutoff);
    var seen := GroupTotals(observations, Eligible(observations, cutoff), groups, Observations, column);
    var moved := GroupTotals(transfers, Eligible(transfers, cutoff), groups, Transfers, column);
    var stored := GroupTotals(archives, Eligible(archives, cutoff), groups, Archives, column);
    var first := map g | g in groups :: seen[g] + moved[g];
    forall g | g in groups ensures Cell(t[g], column) == seen[g] + moved[g] + stored[g] {
      BucketCells(observations, transfers, archives, cutoff, g, column);
    }
    SumAdd(first, seen, moved);
    SumAdd(WindowColumn(t, retailer, cutoff, column), first, stored);
    DirectGroups(observations, transfers, archives, cutoff);
    WindowPart(t, observations, retailer, cutoff, Observations, column);
    WindowPart(t, transfers, retailer, cutoff, Transfers, column);
    WindowPart(t, archives, retailer, cutoff, Archives, column);
  }

  lemma WindowPart(t: BucketTable, rows: Charges, retailer: RetailerId, cutoff: int, source: Source, column: Column)
    requires Groups(rows, Eligible(rows, cutoff)) <= t.Keys
    ensures Sum(GroupTotals(rows, Eligible(rows, cutoff), WindowGroups(t, retailer, cutoff), source, column))
         == Amount(rows, WindowRows(rows, retailer, cutoff), source, column)
  {
    hide Amount, Members, Sum, GroupTotals;
    Regroup(rows, Eligible(rows, cutoff), WindowGroups(t, retailer, cutoff), source, column);
    WindowMembers(t, rows, retailer, cutoff);
  }

  lemma DirectGroups(observations: Charges, transfers: Charges, archives: Charges, cutoff: int)
    ensures var t := Direct(observations, transfers, archives, cutoff);
      && Groups(observations, Eligible(observations, cutoff)) <= t.Keys
      && Groups(transfers, Eligible(transfers, cutoff)) <= t.Keys
      && Groups(archives, Eligible(archives, cutoff)) <= t.Keys
  {
    hide Groups, Eligible, Aggregate;
  }

  lemma CellPlus(a: Bucket, b: Bucket, column: Column)
    ensures Cell(Plus(a, b), column) == Cell(a, column) + Cell(b, column)
  {
  }

  lemma CellOfAggregate(rows: Charges, keys: set<nat>, source: Source, g: Group, column: Column)
    requires keys <= rows.Keys
    ensures Cell(Aggregate(rows, keys, source, g), column) == Amount(rows, InGroup(rows, keys, g), source, column)
  {
    hide Bytes, InGroup;
  }

  /** One bucket holds what its own observations, transfers and archived objects amount to. */
  lemma BucketCells(observations: Charges, transfers: Charges, archives: Charges, cutoff: int, g: Group, column: Column)
    ensures var t := Direct(observations, transfers, archives, cutoff);
      Cell(Get(t, g), column)
        == Amount(observations, InGroup(observations, Eligible(observations, cutoff), g), Observations, column)
         + Amount(transfers, InGroup(transfers, Eligible(transfers, cutoff), g), Transfers, column)
         + Amount(archives, InGroup(archives, Eligible(archives, cutoff), g), Archives, column)
  {
    hide Amount, GroupOf, InGroup, Eligible, Groups, Aggregate, Cell, Plus, Get, Upserted;
    var identities := Upserted(map[], observations, Eligible(observations, cutoff), Observations);
    var moved := Upserted(identities, transfers, Eligible(transfers, cutoff), Transfers);
    UpsertCell(map[], observations, Eligible(observations, cutoff), Observations, g, column);
    UpsertCell(identities, transfers, Eligible(transfers, cutoff), Transfers, g, column);
    UpsertCell(moved, archives, Eligible(archives, cutoff), Archives, g, column);
    NoCell(map[], g, column);
  }

  lemma NoCell(t: BucketTable, g: Group, column: Column)
    requires g !in t
    ensures Cell(Get(t, g), column) == 0
  {
  }

  lemma UpsertCell(t: BucketTable, rows: Charges, keys: set<nat>, source: Source, g: Group, column: Column)
    requires keys <= rows.Keys
    ensures Cell(Get(Upserted(t, rows, keys, source), g), column)
         == Cell(Get(t, g), column) + Amount(rows, InGroup(rows, keys, g), source, column)
  {
    hide Amount, InGroup, Aggregate, Cell, Plus, Get, Upserted;
    UpsertAt(t, rows, keys, source, g);
    CellPlus(Get(t, g), Aggregate(rows, keys, source, g), column);
    CellOfAggregate(rows, keys, source, g, column);
  }

  lemma UpsertAt(t: BucketTable, rows: Charges, keys: set<nat>, source: Source, g: Group)
    requires keys <= rows.Keys
    ensures Get(Upserted(t, rows, keys, source), g) == Plus(Get(t, g), Aggregate(rows, keys, source, g))
  {
    hide Aggregate, Groups, Plus;
    if g in t || g in Groups(rows, keys) {
      assert g in Upserted(t, rows, keys, source);
    } else {
      NoMembers(rows, keys, source, g);
      assert Plus(Bucket(0, 0, 0, 0), Bucket(0, 0, 0, 0)) == Bucket(0, 0, 0, 0) by { PlusNothing(); }
    }
  }

  lemma PlusNothing()
    ensures Plus(Bucket(0, 0, 0, 0), Bucket(0, 0, 0, 0)) == Bucket(0, 0, 0, 0)
  {
  }

  /** No column of the budget under-counts the trailing 24 hours, and none reaches
      further than five minutes beyond them. */
  lemma WindowNeverUnderCounts(observations: Charges, transfers: Charges, archives: Charges, retailer: RetailerId,
                               cutoff: int, column: Column)
    ensures WindowTotal(Direct(observations, transfers, archives, cutoff), retailer, cutoff, column)
         >= Amount(observations, TrailingRows(observations, retailer, cutoff), Observations, column)
          + Amount(transfers, TrailingRows(transfers, retailer, cutoff), Transfers, column)
          + Amount(archives, TrailingRows(archives, retailer, cutoff), Archives, column)
    ensures forall rows: Charges, k :: k in WindowRows(rows, retailer, cutoff) ==>
      cutoff - DAY - FIVE_MINUTES < rows[k].at < cutoff + FIVE_MINUTES
  {
    hide Amount, Direct, WindowTotal;
    WindowIsExact(observations, transfers, archives, retailer, cutoff, column);
    TrailingAmount(observations, retailer, cutoff, Observations, column);
    TrailingAmount(transfers, retailer, cutoff, Transfers, column);
    TrailingAmount(archives, retailer, cutoff, Archives, column);
  }

  lemma TrailingAmount(rows: Charges, retailer: RetailerId, cutoff: int, source: Source, column: Column)
    ensures Amount(rows, TrailingRows(rows, retailer, cutoff), source, column)
         <= Amount(rows, WindowRows(rows, retailer, cutoff), source, column)
  {
    hide Amount;
    TrailingInWindow(rows, retailer, cutoff);
    AmountMonotone(rows, TrailingRows(rows, retailer, cutoff), WindowRows(rows, retailer, cutoff), source, column);
  }
}
