/** The database under the projection triggers: statements, deferred work,
    transactions and the backfills that install the columns. */
module ProjectionStore {
  import opened Prelude
  import opened Keyset
  import opened Projection

  datatype Tables = Tables(
    items: map<ItemId, RetailerId>,
    matches: map<MatchId, Match>,
    prices: Rows,
    history: Rows,
    availability: Rows,
    pending: seq<ItemId>)   // deferred trigger events, one per deleted match

  function Normalised(t: Tables): Base {
    Base(t.items, t.matches, ItemsOf(t.prices), ItemsOf(t.history), ItemsOf(t.availability))
  }

  ghost function Items(pending: seq<ItemId>): set<ItemId> { set i | i in pending }

  /** One table agrees with the join up to the pending items. */
  ghost predicate Ok(b: Base, pending: seq<ItemId>, table: Table, rows: Rows)
    requires Unique(b.matches)
  {
    TableOk(Lookup(b.matches), b.items, table, Items(pending), Keys(b, table), rows)
  }

  /** Inside a transaction: only rows of items with a deferred event may lag behind. */
  ghost predicate AgreesWith(b: Base, t: Tables) {
    && Consistent(b) && t.items == b.items && t.matches == b.matches
    && Ok(b, t.pending, Prices, t.prices) && Ok(b, t.pending, History, t.history)
    && Ok(b, t.pending, Availability, t.availability)
  }

  /** Between transactions: all three tables are the join, row by row. */
  ghost predicate Projects(b: Base, t: Tables) {
    && Consistent(b)
    && t == Tables(b.items, b.matches, View(b, Prices), View(b, History), View(b, Availability), [])
  }

  lemma ProjectsExactly(b: Base, t: Tables)
    ensures Projects(b, t) <==> AgreesWith(b, t) && t.pending == []
  {
    hide Lookup, Unique, View, TableOk;
    if Unique(b.matches) {
      NothingPending(b, Prices, t.prices);
      NothingPending(b, History, t.history);
      NothingPending(b, Availability, t.availability);
      assert Items([]) == {};
    }
  }

  /** The tables determine the normalised state they agree with. */
  lemma AgreesNormalised(b: Base, t: Tables)
    requires AgreesWith(b, t)
    ensures b == Normalised(t)
  {
    hide Lookup, Unique, TableOk;
    TableItems(Lookup(b.matches), b.items, Prices, Items(t.pending), b.prices, t.prices);
    TableItems(Lookup(b.matches), b.items, History, Items(t.pending), b.history, t.history);
    TableItems(Lookup(b.matches), b.items, Availability, Items(t.pending), b.availability, t.availability);
  }

  function RowsIn(t: Tables, table: Table): Rows {
    match table case Prices => t.prices case History => t.history case Availability => t.availability
  }

  function WithRows(t: Tables, table: Table, rows: Rows): Tables {
    match table
    case Prices => t.(prices := rows)
    case History => t.(history := rows)
    case Availability => t.(availability := rows)
  }

  lemma InsertedUnique(b: Base, matches: map<MatchId, Match>)
    requires Consistent(b) && Admits(b, InsertMatches(matches))
    ensures Unique(matches)
  {
    LookupInserted(b.matches, matches, 0);
  }

  // ----- statements whose effect on the lookup needs an argument

  lemma InsertMatchTable(b: Base, matches: map<MatchId, Match>, pending: seq<ItemId>, table: Table, rows: Rows,
                         after: Base)
    requires Unique(b.matches) && Unique(matches) && Unique(after.matches)
    requires after == b.(matches := b.matches + matches) && matches.Keys !! b.matches.Keys
    requires Ok(b, pending, table, rows)
    ensures Ok(after, pending, table, ProjectMatched(rows, Lookup(matches), b.items, table))
  {
    hide Lookup, Unique, TableOk, ProjectMatched, Find, Refers, Items;
    var p, q := Lookup(b.matches), Lookup(after.matches);
    forall i ensures Find(q, i) == if i in Lookup(matches) then Some(Lookup(matches)[i]) else Find(p, i) {
      LookupInserted(b.matches, matches, i);
    }
    MatchKeeps(p, q, b.items, table, Items(pending), Keys(b, table), rows, Lookup(matches));
  }

  lemma InsertMatchKeeps(b: Base, t: Tables, matches: map<MatchId, Match>, n: Tables)
    requires AgreesWith(b, t) && Admits(b, InsertMatches(matches)) && Unique(matches)
    requires n == t.(matches := t.matches + matches,
                     prices := ProjectMatched(t.prices, Lookup(matches), t.items, Prices),
                     history := ProjectMatched(t.history, Lookup(matches), t.items, History),
                     availability := ProjectMatched(t.availability, Lookup(matches), t.items, Availability))
    ensures AgreesWith(Apply(b, InsertMatches(matches)), n)
  {
    hide Lookup, Unique, Ok, ProjectMatched, Refers;
    ApplyConsistent(b, InsertMatches(matches));
    InsertMatchTable(b, matches, t.pending, Prices, t.prices, Apply(b, InsertMatches(matches)));
    InsertMatchTable(b, matches, t.pending, History, t.history, Apply(b, InsertMatches(matches)));
    InsertMatchTable(b, matches, t.pending, Availability, t.availability, Apply(b, InsertMatches(matches)));
  }

  lemma UpdateMatchTable(b: Base, replaced: set<MatchId>, replacements: map<MatchId, Match>, affected: set<ItemId>,
                         pending: seq<ItemId>, table: Table, rows: Rows, after: Base)
    requires Unique(b.matches) && Unique(after.matches) && replaced <= b.matches.Keys
    requires replacements.Keys !! (b.matches.Keys - replaced)
    requires after == b.(matches := (b.matches - replaced) + replacements) && Ok(b, pending, table, rows)
    requires affected == Affected(map m | m in replaced :: b.matches[m], replacements)
    ensures Ok(after, pending, table, Reproject(rows, affected, Lookup(after.matches), b.items, table))
  {
    hide Lookup, Unique, TableOk, Reproject, Find, Refers, Items, Affected;
    var p, q := Lookup(b.matches), Lookup(after.matches);
    forall i | i !in affected ensures Find(q, i) == Find(p, i) {
      LookupUpdated(b.matches, replaced, replacements, i);
    }
    ReprojectKeeps(p, q, b.items, table, Items(pending), Keys(b, table), rows, affected);
  }

  /** Deleting matches: every item whose product changes has an event pending. */
  lemma DeletedLookup(before: map<MatchId, Match>, after: map<MatchId, Match>, events: set<ItemId>)
    requires Unique(before) && after.Keys <= before.Keys && forall m :: m in after ==> after[m] == before[m]
    requires forall m :: m in before && m !in after ==> before[m].item in events
    ensures Unique(after)
    ensures forall i :: Find(Lookup(after), i) == Find(Lookup(before), i) || (i in events && Find(Lookup(after), i).None?)
  {
    hide Lookup;
    forall i ensures Unique(after)
      && (Find(Lookup(after), i) == Find(Lookup(before), i) || (i in events && Find(Lookup(after), i).None?))
    {
      LookupDeleted(before, after, i);
    }
  }

  lemma DeleteMatchKeeps(b: Base, t: Tables, deleted: set<MatchId>, n: Tables)
    requires AgreesWith(b, t) && n == t.(matches := t.matches - deleted, pending := n.pending)
    requires Items(t.pending) <= Items(n.pending)
    requires forall m :: m in t.matches && m in deleted ==> t.matches[m].item in Items(n.pending)
    ensures AgreesWith(Apply(b, DeleteMatches(deleted)), n)
  {
    hide Lookup, Unique, TableOk, Find;
    ApplyConsistent(b, DeleteMatches(deleted));
    DeletedLookup(b.matches, n.matches, Items(n.pending));
    var p, q := Lookup(b.matches), Lookup(n.matches);
    DeleteKeeps(p, q, t.items, Prices, Items(t.pending), Items(n.pending), b.prices, t.prices);
    DeleteKeeps(p, q, t.items, History, Items(t.pending), Items(n.pending), b.history, t.history);
    DeleteKeeps(p, q, t.items, Availability, Items(t.pending), Items(n.pending), b.availability, t.availability);
  }

  lemma DropItemKeeps(b: Base, t: Tables, gone: set<ItemId>, n: Tables)
    requires AgreesWith(b, t) && Items(t.pending) <= Items(n.pending)
    requires n == Tables(t.items - gone, Surviving(t.matches, gone), RowsWithout(t.prices, gone),
                         RowsWithout(t.history, gone), RowsWithout(t.availability, gone), n.pending)
    ensures AgreesWith(Apply(b, DropItems(gone)), n)
  {
    hide Lookup, Unique, TableOk, Find, RowsWithout, Without;
    ApplyConsistent(b, DropItems(gone));
    var p, q := Lookup(b.matches), Lookup(n.matches);
    forall i | i !in gone ensures Find(q, i) == Find(p, i) {
      LookupDeleted(b.matches, n.matches, i);
    }
    DropKeeps(p, q, t.items, Prices, Items(t.pending), Items(n.pending), b.prices, t.prices, gone);
    DropKeeps(p, q, t.items, History, Items(t.pending), Items(n.pending), b.history, t.history, gone);
    DropKeeps(p, q, t.items, Availability, Items(t.pending), Items(n.pending), b.availability, t.availability, gone);
  }

  lemma ForgetKeeps(b: Base, t: Tables, product: ProductId, n: Tables)
    requires AgreesWith(b, t) && Admits(b, DropProduct(product))
    requires n == t.(prices := Orphaned(t.prices, product), history := Orphaned(t.history, product),
                     availability := Orphaned(t.availability, product))
    ensures AgreesWith(b, n)
  {
    hide Unique, TableOk, Orphaned, Lookup;
    var p := Lookup(t.matches);
    forall i | i in p ensures p[i] != product {
      LookupHas(t.matches, i, p[i]);
    }
    OrphanKeeps(p, t.items, Prices, Items(t.pending), b.prices, t.prices, product);
    OrphanKeeps(p, t.items, History, Items(t.pending), b.history, t.history, product);
    OrphanKeeps(p, t.items, Availability, Items(t.pending), b.availability, t.availability, product);
  }

  class Database {
    var t: Tables
    /** The normalised tables: what the statements alone would have produced. */
    ghost var base: Base

    ghost predicate Valid()
      reads this
    {
      AgreesWith(base, t)
    }

    constructor ()
      ensures Projects(base, t)
    {
      t := Tables(map[], map[], map[], map[], map[], []);
      base := Base(map[], map[], map[], map[], map[]);
      new;
      assert Unique(t.matches);
    }

    method Insert(table: Table, rows: Rows)
      requires Valid() && Admits(base, InsertRows(table, rows))
      modifies this
      ensures Valid() && t.pending == old(t.pending) && base == Apply(old(base), InsertRows(table, rows))
    {
      hide Lookup, Unique, TableOk, ProjectInserted;
      ApplyConsistent(base, InsertRows(table, rows));
      InsertKeeps(Lookup(t.matches), t.items, table, Items(t.pending), Keys(base, table), RowsIn(t, table), rows);
      var inserted := RowsIn(t, table) + rows;
      t := WithRows(t, table, inserted);
      t := WithRows(t, table, ProjectInserted(inserted, rows.Keys, Lookup(t.matches), t.items, table));
      base := Apply(base, InsertRows(table, rows));
    }

    method RekeyRows(table: Table, to: map<RowId, ItemId>)
      requires Valid() && Admits(base, Rekey(table, to))
      modifies this
      ensures Valid() && t.pending == old(t.pending) && base == Apply(old(base), Rekey(table, to))
    {
      hide Lookup, Unique, TableOk, Rekeyed;
      ApplyConsistent(base, Rekey(table, to));
      RekeyKeeps(Lookup(t.matches), t.items, table, Items(t.pending), Keys(base, table), RowsIn(t, table), to);
      t := WithRows(t, table, Rekeyed(RowsIn(t, table), to, Lookup(t.matches), t.items, table));
      base := Apply(base, Rekey(table, to));
    }

    method InsertMatch(matches: map<MatchId, Match>)
      requires Valid() && Admits(base, InsertMatches(matches))
      modifies this
      ensures Valid() && t.pending == old(t.pending) && base == Apply(old(base), InsertMatches(matches))
    {
      hide Lookup, Unique, TableOk, ProjectMatched, Consistent;
      ghost var was := t;
      InsertedUnique(base, matches);
      var inserted := Lookup(matches);
      t := t.(matches := t.matches + matches);
      t := t.(prices := ProjectMatched(t.prices, inserted, t.items, Prices));
      t := t.(history := ProjectMatched(t.history, inserted, t.items, History));
      t := t.(availability := ProjectMatched(t.availability, inserted, t.items, Availability));
      InsertMatchKeeps(base, was, matches, t);
      base := Apply(base, InsertMatches(matches));
    }

    method UpdateMatch(replaced: set<MatchId>, replacements: map<MatchId, Match>, ghost tripped: bool)
      requires Valid() && Admits(base, UpdateMatches(replaced, replacements, tripped))
      modifies this
      ensures Valid() && t.pending == old(t.pending)
      ensures base == Apply(old(base), UpdateMatches(replaced, replacements, tripped))
    {
      hide Lookup, Unique, Ok, Reproject, Affected, Refers;
      ghost var was := t;
      ApplyConsistent(base, UpdateMatches(replaced, replacements, tripped));
      var affected := Affected(map m | m in replaced :: t.matches[m], replacements);
      t := t.(matches := (t.matches - replaced) + replacements);
      var products := Lookup(t.matches);
      t := t.(prices := Reproject(t.prices, affected, products, t.items, Prices));
      t := t.(history := Reproject(t.history, affected, products, t.items, History));
      t := t.(availability := Reproject(t.availability, affected, products, t.items, Availability));
      ghost var after := Apply(base, UpdateMatches(replaced, replacements, tripped));
      UpdateMatchTable(base, replaced, replacements, affected, was.pending, Prices, was.prices, after);
      UpdateMatchTable(base, replaced, replacements, affected, was.pending, History, was.history, after);
      UpdateMatchTable(base, replaced, replacements, affected, was.pending, Availability, was.availability, after);
      base := after;
    }

    /** No column changes yet: one deferred event per deleted match. */
    method DeleteMatch(deleted: set<MatchId>)
      requires Valid()
      modifies this
      ensures Valid() && base == Apply(old(base), DeleteMatches(deleted))
      ensures t == old(t).(matches := t.matches, pending := t.pending) && old(t.pending) <= t.pending
      ensures Items(t.pending)
        == Items(old(t.pending)) + (set m | m in deleted && m in old(t.matches) :: old(t.matches)[m].item)
    {
      hide Lookup, Unique, TableOk, Consistent;
      ghost var was := t;
      var gone := map m | m in deleted && m in t.matches :: t.matches[m];
      var events := Events(gone);
      t := t.(matches := t.matches - deleted, pending := t.pending + events);
      assert Items(t.pending) == Items(was.pending) + Items(events);
      forall m | m in deleted && m in was.matches ensures was.matches[m].item in Items(events) {
        assert gone[m].item == was.matches[m].item;
      }
      assert Items(events) == set m | m in deleted && m in was.matches :: was.matches[m].item;
      DeleteMatchKeeps(base, was, deleted, t);
      base := Apply(base, DeleteMatches(deleted));
    }

    method MoveItem(retailers: map<ItemId, RetailerId>)
      requires Valid() && Admits(base, MoveItems(retailers))
      modifies this
      ensures Valid() && t.pending == old(t.pending) && base == Apply(old(base), MoveItems(retailers))
    {
      hide Lookup, Unique, TableOk, Relocated;
      ApplyConsistent(base, MoveItems(retailers));
      ghost var p := Lookup(t.matches);
      MoveKeeps(p, t.items, Prices, Items(t.pending), base.prices, t.prices, retailers);
      MoveKeeps(p, t.items, History, Items(t.pending), base.history, t.history, retailers);
      MoveKeeps(p, t.items, Availability, Items(t.pending), base.availability, t.availability, retailers);
      t := t.(items := t.items + retailers);
      t := t.(prices := Relocated(t.prices, retailers));
      base := Apply(base, MoveItems(retailers));
    }

    method AddItem(items: map<ItemId, RetailerId>)
      requires Valid() && Admits(base, AddItems(items))
      modifies this
      ensures Valid() && t.pending == old(t.pending) && base == Apply(old(base), AddItems(items))
    {
      hide Lookup, Unique, TableOk;
      ApplyConsistent(base, AddItems(items));
      ghost var p := Lookup(t.matches);
      AddKeeps(p, t.items, Prices, Items(t.pending), base.prices, t.prices, items);
      AddKeeps(p, t.items, History, Items(t.pending), base.history, t.history, items);
      AddKeeps(p, t.items, Availability, Items(t.pending), base.availability, t.availability, items);
      t := t.(items := t.items + items);
      base := Apply(base, AddItems(items));
    }

    /** The cascade removes the item's rows and matches; its deleted matches leave events. */
    method DropItem(gone: set<ItemId>)
      requires Valid()
      modifies this
      ensures Valid() && base == Apply(old(base), DropItems(gone)) && old(t.pending) <= t.pending
    {
      hide Lookup, Unique, TableOk, RowsWithout, Without, Consistent, Surviving;
      ghost var was := t;
      var events := Events(map m | m in t.matches && t.matches[m].item in gone :: t.matches[m]);
      t := Tables(t.items - gone, Surviving(t.matches, gone), RowsWithout(t.prices, gone),
                  RowsWithout(t.history, gone), RowsWithout(t.availability, gone), t.pending + events);
      assert Items(t.pending) == Items(was.pending) + Items(events);
      DropItemKeeps(base, was, gone, t);
      base := Apply(base, DropItems(gone));
    }

    method ForgetProduct(product: ProductId)
      requires Valid() && Admits(base, DropProduct(product))
      modifies this
      ensures Valid() && t.pending == old(t.pending) && base == old(base)
    {
      hide Unique, TableOk, Orphaned, Lookup, Consistent;
      ForgetKeeps(base, t, product, t.(prices := Orphaned(t.prices, product),
        history := Orphaned(t.history, product), availability := Orphaned(t.availability, product)));
      t := t.(prices := Orphaned(t.prices, product), history := Orphaned(t.history, product),
              availability := Orphaned(t.availability, product));
    }

    /** Run the deferred events in the order they were queued. */
    method FireDeferred()
      requires Valid()
      modifies this
      ensures Projects(base, t) && base == old(base)
    {
      hide Lookup, Unique, TableOk, Cleared, View;
      var products := Lookup(t.matches);
      while t.pending != []
        invariant Valid() && base == old(base) && Unique(t.matches) && products == Lookup(t.matches)
        decreases |t.pending|
      {
        var item, left := t.pending[0], t.pending[1..];
        assert Items(t.pending) <= Items(left) + {item};
        ClearKeeps(products, t.items, Prices, Items(t.pending), Items(left), base.prices, t.prices, item);
        ClearKeeps(products, t.items, History, Items(t.pending), Items(left), base.history, t.history, item);
        ClearKeeps(products, t.items, Availability, Items(t.pending), Items(left), base.availability, t.availability,
                   item);
        if item !in products {
          t := t.(prices := Cleared(t.prices, item), history := Cleared(t.history, item),
                  availability := Cleared(t.availability, item));
        }
        t := t.(pending := left);
      }
      ProjectsExactly(base, t);
    }

    /** One statement: refused whole by a constraint, or applied with its triggers. */
    method Execute(s: Statement) returns (ok: bool)
      requires Valid()
      modifies this
      ensures Valid()
      ensures ok <==> Admits(old(base), s)
      ensures base == if ok then Apply(old(base), s) else old(base)
    {
      hide AgreesWith, Admits, Apply;
      AgreesNormalised(base, t);
      ok := Admits(Normalised(t), s);
      if !ok {
        return;
      }
      match s {
        case AddItems(items) => AddItem(items);
        case MoveItems(retailers) => MoveItem(retailers);
        case DropItems(gone) => DropItem(gone);
        case InsertRows(table, rows) => Insert(table, rows);
        case Rekey(table, to) => RekeyRows(table, to);
        case InsertMatches(matches) => InsertMatch(matches);
        case UpdateMatches(replaced, replacements, tripped) => UpdateMatch(replaced, replacements, tripped);
        case DeleteMatches(deleted) => DeleteMatch(deleted);
        case DropProduct(product) => ForgetProduct(product); ForgetIsNeutral(base, product);
      }
    }

    /** One transaction: all statements and then the deferred events, or a rollback. */
    method Transact(statements: seq<Statement>) returns (ok: bool)
      requires Projects(base, t)
      modifies this
      ensures Projects(base, t)
      ensures ok <==> AdmitsAll(old(base), statements)
      ensures base == if ok then ApplyAll(old(base), statements) else old(base)
    {
      hide AgreesWith, Admits, Apply, Projects;
      ProjectsExactly(base, t);
      var saved := t;
      ghost var savedBase := base;
      for k := 0 to |statements|
        invariant Valid()
        invariant AdmitsAll(savedBase, statements[..k]) && base == ApplyAll(savedBase, statements[..k])
      {
        assert statements[..k + 1][..k] == statements[..k];
        ok := Execute(statements[k]);
        if !ok {
          t, base := saved, savedBase;
          AdmitsPrefix(savedBase, statements, k + 1);
          return;
        }
      }
      assert statements[..|statements|] == statements;
      FireDeferred();
      ok := true;
    }

    /** Any history of transactions, committed or rolled back. */
    method RunTransactions(log: seq<seq<Statement>>)
      requires Projects(base, t)
      modifies this
      ensures Projects(base, t) && base == ApplyLog(old(base), log)
    {
      hide Projects, AdmitsAll, ApplyAll;
      for k := 0 to |log|
        invariant Projects(base, t) && base == ApplyLog(old(base), log[..k])
      {
        assert log[..k + 1][..k] == log[..k];
        var _ := Transact(log[k]);
      }
      assert log[..|log|] == log;
    }

    /** The migration's backfills over tables whose new columns are still empty. */
    method InstallColumns(limit: nat)
      requires limit > 0 && Consistent(base) && t.items == base.items && t.matches == base.matches && t.pending == []
      requires Blank(t.prices, base.prices) && Blank(t.history, base.history)
      requires Blank(t.availability, base.availability)
      modifies this`t
      ensures Projects(base, t)
    {
      hide Lookup, Unique, View, Joined;
      var products := Lookup(t.matches);
      var prices := Backfill(t.prices, Prices, products, t.items, limit);
      FilledIsView(base, Prices, prices);
      t := t.(prices := prices);
      var history := Backfill(t.history, History, products, t.items, limit);
      FilledIsView(base, History, history);
      t := t.(history := history);
      var availability := Backfill(t.availability, Availability, products, t.items, limit);
      FilledIsView(base, Availability, availability);
      t := t.(availability := availability);
    }
  }

  ghost predicate Blank(rows: Rows, keys: map<RowId, ItemId>) {
    rows.Keys == keys.Keys && forall id :: id in rows ==> rows[id] == Row(keys[id], None, None)
  }

  lemma ForgetIsNeutral(b: Base, product: ProductId)
    ensures Apply(b, DropProduct(product)) == b
  {
  }

  ghost predicate AdmitsAll(b: Base, statements: seq<Statement>) {
    statements == [] ||
    (var before := statements[..|statements| - 1];
     AdmitsAll(b, before) && Admits(ApplyAll(b, before), statements[|statements| - 1]))
  }

  ghost function ApplyAll(b: Base, statements: seq<Statement>): Base {
    if statements == [] then b else Apply(ApplyAll(b, statements[..|statements| - 1]), statements[|statements| - 1])
  }

  /** What a history of transactions does to the normalised tables alone. */
  ghost function ApplyLog(b: Base, log: seq<seq<Statement>>): Base {
    if log == [] then b
    else
      var before, last := ApplyLog(b, log[..|log| - 1]), log[|log| - 1];
      if AdmitsAll(before, last) then ApplyAll(before, last) else before
  }

  lemma {:induction false} AdmitsPrefix(b: Base, statements: seq<Statement>, k: nat)
    requires k <= |statements| && !AdmitsAll(b, statements[..k])
    ensures !AdmitsAll(b, statements)
  {
    if k < |statements| {
      var before := statements[..|statements| - 1];
      assert before[..k] == statements[..k];
      AdmitsPrefix(b, before, k);
    } else {
      assert statements[..k] == statements;
    }
  }

  /** The backfill's SET for one row: prices join through items, the other two through matches only. */
  function Filled(r: Row, table: Table, products: map<ItemId, ProductId>, items: map<ItemId, RetailerId>): Row {
    if table.Prices? then
      if r.item in items then Row(r.item, Find(products, r.item), Some(items[r.item])) else r
    else if r.item in products then r.(product := Some(products[r.item]))
    else r
  }

  /** Keyset batches of `limit` rows until no row is left after the cursor. */
  method Backfill(rows: Rows, table: Table, products: map<ItemId, ProductId>, items: map<ItemId, RetailerId>,
                  limit: nat)
    returns (out: Rows)
    requires limit > 0
    requires forall id :: id in rows ==> rows[id].product.None? && rows[id].retailer.None? && rows[id].item in items
    ensures out.Keys == rows.Keys
    ensures forall id :: id in rows ==> out[id] == Joined(products, items, table, rows[id].item)
  {
    out := rows;
    var cursor: Option<nat> := None;
    var remaining := Remaining(rows.Keys, cursor);
    while remaining != {}
      invariant remaining == Remaining(rows.Keys, cursor)
      invariant out.Keys == rows.Keys
      invariant forall id :: id in rows && After(cursor, id) ==> out[id] == rows[id]
      invariant forall id :: id in rows && !After(cursor, id) ==>
        out[id] == Joined(products, items, table, rows[id].item)
      decreases |remaining|
    {
      var last := BatchLast(remaining, limit);
      out := map id | id in out ::
        if After(cursor, id) && id <= last then Filled(out[id], table, products, items) else out[id];
      cursor := Some(last);
      ghost var was := remaining;
      remaining := Remaining(rows.Keys, cursor);
      assert last in was && last !in remaining && remaining <= was;
      Shrinks(remaining, was, last);
    }
    forall id | id in rows ensures !After(cursor, id) {
      assert id !in remaining;
    }
  }

  lemma FilledIsView(b: Base, table: Table, rows: Rows)
    requires Unique(b.matches) && rows.Keys == Keys(b, table).Keys
    requires forall id :: id in rows ==> rows[id] == Joined(Lookup(b.matches), b.items, table, Keys(b, table)[id])
    ensures rows == View(b, table)
  {
    hide Lookup, Unique;
  }

  lemma Shrinks(small: set<nat>, big: set<nat>, x: nat)
    requires small <= big && x in big && x !in small
    ensures |small| < |big|
  {
    assert small <= big - {x};
    Subset(small, big - {x});
  }

  lemma Subset(small: set<nat>, big: set<nat>)
    requires small <= big
    ensures |small| <= |big|
  {
    assert big == small + (big - small);
  }

  /** The items of a set of deleted matches, one event each. */
  method Events(gone: map<MatchId, Match>) returns (events: seq<ItemId>)
    ensures |events| == |gone|
    ensures forall i :: i in events <==> exists m :: m in gone && gone[m].item == i
  {
    events := [];
    var left := gone;
    while left != map[]
      invariant |events| + |left| == |gone|
      invariant left.Keys <= gone.Keys && forall m :: m in left ==> left[m] == gone[m]
      invariant forall i :: i in events <==> exists m :: m in gone && m !in left && gone[m].item == i
      decreases |left|
    {
      var m :| m in left;
      ghost var was := left;
      events := events + [left[m].item];
      left := left - {m};
      assert forall n :: n in gone && n !in left <==> (n in gone && n !in was) || n == m;
    }
  }
}
