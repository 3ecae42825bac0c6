/** The denormalised product and retailer columns of current_prices, price_history
    and current_availability, kept equal to a join by triggers and a deferred trigger. */
module Projection {
  import opened Prelude

  type ItemId = nat
  type RowId = nat
  type MatchId = nat
  type ProductId = nat
  type RetailerId = nat

  /** A confirmed match of one retailer item with one canonical product. */
  datatype Match = Match(item: ItemId, product: ProductId)

  /** A row of one of the three tables; only current_prices has a retailer column. */
  datatype Row = Row(item: ItemId, product: Option<ProductId>, retailer: Option<RetailerId>)

  type Rows = map<RowId, Row>

  datatype Table = Prices | History | Availability

  // ----- the normalised tables, and the join the columns stand for

  datatype Base = Base(
    items: map<ItemId, RetailerId>,
    matches: map<MatchId, Match>,
    prices: map<RowId, ItemId>,
    history: map<RowId, ItemId>,
    availability: map<RowId, ItemId>)

  /** At most one match per item. */
  predicate Unique(matches: map<MatchId, Match>) {
    forall m, n :: m in matches && n in matches && m != n ==> matches[m].item != matches[n].item
  }

  function Lookup(matches: map<MatchId, Match>): (products: map<ItemId, ProductId>)
    requires Unique(matches)
    ensures forall m :: m in matches ==> matches[m].item in products && products[matches[m].item] == matches[m].product
    ensures forall i :: i in products ==> exists m :: m in matches && matches[m] == Match(i, products[i])
  {
    map m | m in matches :: matches[m].item := matches[m].product
  }

  function Find<V>(m: map<ItemId, V>, i: ItemId): Option<V> { if i in m then Some(m[i]) else None }

  /** What one row must hold: the join through matches, and through items for prices. */
  function Joined(products: map<ItemId, ProductId>, items: map<ItemId, RetailerId>, t: Table, item: ItemId): Row {
    Row(item, Find(products, item), if t.Prices? then Find(items, item) else None)
  }

  function Keys(b: Base, t: Table): map<RowId, ItemId> {
    match t case Prices => b.prices case History => b.history case Availability => b.availability
  }

  /** The whole table computed afresh from the normalised tables. */
  function View(b: Base, t: Table): Rows
    requires Unique(b.matches)
  {
    map id | id in Keys(b, t) :: Joined(Lookup(b.matches), b.items, t, Keys(b, t)[id])
  }

  /** Foreign keys and the uniqueness constraint. */
  ghost predicate Consistent(b: Base) {
    && Unique(b.matches)
    && (forall m :: m in b.matches ==> b.matches[m].item in b.items)
    && Refers(b.prices, b.items) && Refers(b.history, b.items) && Refers(b.availability, b.items)
  }

  /** The view has exactly the table's rows; each holds its item, the product of the item's
      match if it has one, and in the prices the item's retailer. */
  lemma ViewIsTheJoin(b: Base, t: Table, id: RowId)
    requires Consistent(b)
    ensures id in View(b, t) <==>
      match t case Prices => id in b.prices case History => id in b.history case Availability => id in b.availability
    ensures id in View(b, t) ==>
      var row := View(b, t)[id];
      && row.item == (match t case Prices => b.prices[id] case History => b.history[id]
                              case Availability => b.availability[id])
      && (forall m :: m in b.matches && b.matches[m].item == row.item ==> row.product == Some(b.matches[m].product))
      && (row.product.Some? ==> exists m :: m in b.matches && b.matches[m] == Match(row.item, row.product.value))
      && row.item in b.items && row.retailer == if t.Prices? then Some(b.items[row.item]) else None
  {
    hide Lookup;
    var products := Lookup(b.matches);
    assert id in View(b, t) ==> View(b, t)[id] == Joined(products, b.items, t, Keys(b, t)[id]);
  }

  predicate Refers(keys: map<RowId, ItemId>, items: map<ItemId, RetailerId>) {
    forall id :: id in keys ==> keys[id] in items
  }

  // ----- statements, on the normalised tables alone

  datatype Statement =
    | AddItems(items: map<ItemId, RetailerId>)
    | MoveItems(retailers: map<ItemId, RetailerId>)
    | DropItems(gone: set<ItemId>)
    | InsertRows(table: Table, rows: Rows)
    | Rekey(table: Table, to: map<RowId, ItemId>)
    | InsertMatches(matches: map<MatchId, Match>)
    | UpdateMatches(replaced: set<MatchId>, replacements: map<MatchId, Match>, tripped: bool)
    | DeleteMatches(deleted: set<MatchId>)
    | DropProduct(product: ProductId)

  function ItemsOf(rows: Rows): map<RowId, ItemId> { map id | id in rows :: rows[id].item }

  function WithKeys(b: Base, t: Table, keys: map<RowId, ItemId>): Base {
    match t
    case Prices => b.(prices := keys)
    case History => b.(history := keys)
    case Availability => b.(availability := keys)
  }

  function Without(keys: map<RowId, ItemId>, gone: set<ItemId>): map<RowId, ItemId> {
    map id | id in keys && keys[id] !in gone :: keys[id]
  }

  function Surviving(matches: map<MatchId, Match>, gone: set<ItemId>): map<MatchId, Match> {
    map m | m in matches && matches[m].item !in gone :: matches[m]
  }

  /** Some row takes an item that another updated row has before the update. The unique
      constraint is checked row by row, so such an update may trip over it on the way even
      if its result is unique; a tripped statement says that it did. */
  predicate PassesThrough(b: Base, replaced: set<MatchId>, replacements: map<MatchId, Match>) {
    exists m, n ::
      && m in replacements && n in replaced && n in b.matches && m != n
      && replacements[m].item == b.matches[n].item
  }

  /** Whether the constraints let the statement through. */
  predicate Admits(b: Base, s: Statement) {
    match s
    case AddItems(items) => items.Keys !! b.items.Keys
    case MoveItems(retailers) => retailers.Keys <= b.items.Keys
    case DropItems(gone) => true
    case InsertRows(t, rows) => rows.Keys !! Keys(b, t).Keys && forall id :: id in rows ==> rows[id].item in b.items
    case Rekey(t, to) => to.Keys <= Keys(b, t).Keys && forall id :: id in to ==> to[id] in b.items
    case InsertMatches(matches) =>
      && matches.Keys !! b.matches.Keys && Unique(b.matches + matches)
      && forall m :: m in matches ==> matches[m].item in b.items
    case UpdateMatches(replaced, replacements, tripped) =>
      && !(tripped && PassesThrough(b, replaced, replacements))
      && replaced <= b.matches.Keys && replacements.Keys !! (b.matches.Keys - replaced)
      && Unique((b.matches - replaced) + replacements)
      && forall m :: m in replacements ==> replacements[m].item in b.items
    case DeleteMatches(deleted) => true
    case DropProduct(product) => forall m :: m in b.matches ==> b.matches[m].product != product
  }

  function Apply(b: Base, s: Statement): Base {
    match s
    case AddItems(items) => b.(items := b.items + items)
    case MoveItems(retailers) => b.(items := b.items + retailers)
    case DropItems(gone) =>
      Base(b.items - gone, Surviving(b.matches, gone),
           Without(b.prices, gone), Without(b.history, gone), Without(b.availability, gone))
    case InsertRows(t, rows) => WithKeys(b, t, Keys(b, t) + ItemsOf(rows))
    case Rekey(t, to) => WithKeys(b, t, Keys(b, t) + to)
    case InsertMatches(matches) => b.(matches := b.matches + matches)
    case UpdateMatches(replaced, replacements, _) => b.(matches := (b.matches - replaced) + replacements)
    case DeleteMatches(deleted) => b.(matches := b.matches - deleted)
    case DropProduct(product) => b
  }

  lemma ItemsConsistent(b: Base, more: map<ItemId, RetailerId>)
    requires Consistent(b)
    ensures Consistent(b.(items := b.items + more))
  {
    hide Unique;
  }

  lemma KeysConsistent(b: Base, t: Table, more: map<RowId, ItemId>)
    requires Consistent(b) && Refers(more, b.items)
    ensures Consistent(WithKeys(b, t, Keys(b, t) + more))
  {
    hide Unique;
  }

  lemma MatchesConsistent(b: Base, matches: map<MatchId, Match>)
    requires Consistent(b) && Unique(matches) && forall m :: m in matches ==> matches[m].item in b.items
    ensures Consistent(b.(matches := matches))
  {
    hide Unique, Refers;
  }

  lemma UniqueSubset(matches: map<MatchId, Match>, fewer: map<MatchId, Match>)
    requires Unique(matches) && forall m :: m in fewer ==> m in matches && fewer[m] == matches[m]
    ensures Unique(fewer)
  {
  }

  lemma DropConsistent(b: Base, gone: set<ItemId>)
    requires Consistent(b)
    ensures Consistent(Apply(b, DropItems(gone)))
  {
    UniqueSubset(b.matches, Surviving(b.matches, gone));
    hide Unique;
  }

  lemma ApplyConsistent(b: Base, s: Statement)
    requires Consistent(b) && Admits(b, s)
    ensures Consistent(Apply(b, s))
  {
    hide Unique, Refers, Consistent;
    match s {
      case AddItems(items) => ItemsConsistent(b, items);
      case MoveItems(retailers) => ItemsConsistent(b, retailers);
      case DropItems(gone) => DropConsistent(b, gone);
      case InsertRows(t, rows) => RowsRefer(rows, b.items); KeysConsistent(b, t, ItemsOf(rows));
      case Rekey(t, to) => KeysRefer(to, b.items); KeysConsistent(b, t, to);
      case InsertMatches(matches) => MatchesKnown(b); MatchesConsistent(b, b.matches + matches);
      case UpdateMatches(replaced, replacements, _) =>
        MatchesKnown(b);
        MatchesConsistent(b, (b.matches - replaced) + replacements);
      case DeleteMatches(deleted) =>
        MatchesKnown(b);
        UniqueSubset(b.matches, b.matches - deleted);
        MatchesConsistent(b, b.matches - deleted);
      case DropProduct(product) =>
    }
  }

  lemma MatchesKnown(b: Base)
    requires Consistent(b)
    ensures Unique(b.matches) && forall m :: m in b.matches ==> b.matches[m].item in b.items
  {
    hide Unique;
  }

  lemma KeysRefer(keys: map<RowId, ItemId>, items: map<ItemId, RetailerId>)
    requires forall id :: id in keys ==> keys[id] in items
    ensures Refers(keys, items)
  {
  }

  lemma RowsRefer(rows: Rows, items: map<ItemId, RetailerId>)
    requires forall id :: id in rows ==> rows[id].item in items
    ensures Refers(ItemsOf(rows), items)
  {
  }

  // ----- the triggers, each an update of one table

  /** AFTER INSERT on the table: project the inserted rows. */
  function ProjectInserted(rows: Rows, inserted: set<RowId>, products: map<ItemId, ProductId>,
                           items: map<ItemId, RetailerId>, t: Table): Rows {
    map id | id in rows ::
      if id in inserted then Joined(products, items, t, rows[id].item)
      else rows[id]
  }

  /** BEFORE UPDATE OF retailer_item_id: the new row image, with its columns selected anew. */
  function Rekeyed(rows: Rows, to: map<RowId, ItemId>, products: map<ItemId, ProductId>, items: map<ItemId, RetailerId>,
                   t: Table): Rows {
    map id | id in rows ::
      if id in to then Row(to[id], Find(products, to[id]), if t.Prices? then Find(items, to[id]) else rows[id].retailer)
      else rows[id]
  }

  /** AFTER INSERT on matches: the rows of the newly matched items. */
  function ProjectMatched(rows: Rows, inserted: map<ItemId, ProductId>, items: map<ItemId, RetailerId>, t: Table): Rows
  {
    map id | id in rows ::
      if rows[id].item in inserted then
        Row(rows[id].item, Some(inserted[rows[id].item]),
            if t.Prices? then Find(items, rows[id].item) else rows[id].retailer)
      else rows[id]
  }

  /** Items of the rows that differ between the two transition tables, joined by match id. */
  function Affected(before: map<MatchId, Match>, after: map<MatchId, Match>): set<ItemId> {
    (set m | m in before && !(m in after && after[m] == before[m]) :: before[m].item)
    + (set m | m in after && !(m in before && before[m] == after[m]) :: after[m].item)
  }

  /** AFTER UPDATE on matches: the rows of the affected items, by the current join. */
  function Reproject(rows: Rows, affected: set<ItemId>, products: map<ItemId, ProductId>,
                     items: map<ItemId, RetailerId>, t: Table): Rows {
    map id | id in rows ::
      if rows[id].item in affected then
        Row(rows[id].item, Find(products, rows[id].item),
            if t.Prices? then Find(items, rows[id].item) else rows[id].retailer)
      else rows[id]
  }

  /** The deferred trigger's update: the rows of one item lose their product. */
  function Cleared(rows: Rows, item: ItemId): Rows {
    map id | id in rows :: if rows[id].item == item then rows[id].(product := None) else rows[id]
  }

  /** AFTER UPDATE OF retailer_id on items: prices follow their item. */
  function Relocated(rows: Rows, retailers: map<ItemId, RetailerId>): Rows {
    map id | id in rows ::
      if rows[id].item in retailers then rows[id].(retailer := Some(retailers[rows[id].item])) else rows[id]
  }

  /** ON DELETE SET NULL of the product foreign key. */
  function Orphaned(rows: Rows, product: ProductId): Rows {
    map id | id in rows :: if rows[id].product == Some(product) then rows[id].(product := None) else rows[id]
  }

  /** ON DELETE CASCADE of the item foreign key. */
  function RowsWithout(rows: Rows, gone: set<ItemId>): Rows {
    map id | id in rows && rows[id].item !in gone :: rows[id]
  }

  // ----- agreement of one table with the join

  /** The row is the join's row, except that a row whose item lost its match in this
      transaction may keep its old product until the deferred trigger runs. */
  ghost predicate RowOk(products: map<ItemId, ProductId>, items: map<ItemId, RetailerId>, t: Table,
                        pending: set<ItemId>, r: Row) {
    var j := Joined(products, items, t, r.item);
    r.retailer == j.retailer && (r.product == j.product || (r.item in pending && j.product.None?))
  }

  ghost predicate TableOk(products: map<ItemId, ProductId>, items: map<ItemId, RetailerId>, t: Table,
                          pending: set<ItemId>, keys: map<RowId, ItemId>, rows: Rows) {
    && rows.Keys == keys.Keys
    && forall id :: id in rows ==> rows[id].item == keys[id] && RowOk(products, items, t, pending, rows[id])
  }

  lemma TableItems(products: map<ItemId, ProductId>, items: map<ItemId, RetailerId>, t: Table, pending: set<ItemId>,
                   keys: map<RowId, ItemId>, rows: Rows)
    requires TableOk(products, items, t, pending, keys, rows)
    ensures ItemsOf(rows) == keys
  {
  }

  /** With nothing pending, agreement is equality with the view. */
  lemma NothingPending(b: Base, t: Table, rows: Rows)
    requires Unique(b.matches)
    ensures TableOk(Lookup(b.matches), b.items, t, {}, Keys(b, t), rows) <==> rows == View(b, t)
  {
    hide Lookup, Unique;
    if TableOk(Lookup(b.matches), b.items, t, {}, Keys(b, t), rows) {
      assert forall id :: id in rows ==> rows[id] == View(b, t)[id];
    }
  }

  // ----- how each statement changes the lookup

  /** Some match gives item i the product p. */
  ghost predicate Gives(matches: map<MatchId, Match>, i: ItemId, p: ProductId) {
    exists m :: m in matches && matches[m] == Match(i, p)
  }

  lemma LookupHas(matches: map<MatchId, Match>, i: ItemId, p: ProductId)
    requires Unique(matches)
    ensures Find(Lookup(matches), i) == Some(p) <==> Gives(matches, i, p)
  {
  }

  lemma LookupKept(before: map<MatchId, Match>, after: map<MatchId, Match>, i: ItemId)
    requires Unique(before) && Unique(after)
    requires forall p: ProductId :: Gives(before, i, p) <==> Gives(after, i, p)
    ensures Find(Lookup(before), i) == Find(Lookup(after), i)
  {
    hide Lookup, Unique, Gives;
    forall p: ProductId ensures Find(Lookup(before), i) == Some(p) <==> Find(Lookup(after), i) == Some(p) {
      LookupHas(before, i, p);
      LookupHas(after, i, p);
    }
    var f, g := Find(Lookup(before), i), Find(Lookup(after), i);
    if f.Some? { assert g == Some(f.value); }
  }

  lemma UniqueAdded(before: map<MatchId, Match>, added: map<MatchId, Match>)
    requires before.Keys !! added.Keys && Unique(before + added)
    ensures Unique(added)
  {
    var after := before + added;
    assert forall m :: m in added ==> m in after && after[m] == added[m];
  }

  lemma GivesInserted(before: map<MatchId, Match>, added: map<MatchId, Match>, i: ItemId, p: ProductId)
    requires before.Keys !! added.Keys
    ensures Gives(before + added, i, p) <==> Gives(before, i, p) || Gives(added, i, p)
  {
    var after := before + added;
    if m :| m in before && before[m] == Match(i, p) { assert after[m] == Match(i, p); }
    if m :| m in added && added[m] == Match(i, p) { assert after[m] == Match(i, p); }
  }

  lemma LookupInserted(before: map<MatchId, Match>, added: map<MatchId, Match>, i: ItemId)
    requires Unique(before) && before.Keys !! added.Keys && Unique(before + added)
    ensures Unique(added)
    ensures Find(Lookup(before + added), i)
      == if i in Lookup(added) then Some(Lookup(added)[i]) else Find(Lookup(before), i)
  {
    hide Lookup, Unique, Gives;
    UniqueAdded(before, added);
    if i in Lookup(added) {
      LookupHas(added, i, Lookup(added)[i]);
      GivesInserted(before, added, i, Lookup(added)[i]);
      LookupHas(before + added, i, Lookup(added)[i]);
    } else {
      forall p: ProductId ensures Gives(before, i, p) <==> Gives(before + added, i, p) {
        LookupHas(added, i, p);
        GivesInserted(before, added, i, p);
      }
      LookupKept(before, before + added, i);
    }
  }

  lemma LookupUpdated(before: map<MatchId, Match>, replaced: set<MatchId>, replacements: map<MatchId, Match>, i: ItemId)
    requires Unique(before) && replaced <= before.Keys && replacements.Keys !! (before.Keys - replaced)
    requires Unique((before - replaced) + replacements)
    requires i !in Affected(map m | m in replaced :: before[m], replacements)
    ensures Find(Lookup(before), i) == Find(Lookup((before - replaced) + replacements), i)
  {
    var after := (before - replaced) + replacements;
    var old_ := map m | m in replaced :: before[m];
    forall p: ProductId ensures Gives(before, i, p) <==> Gives(after, i, p) {
      if m :| m in before && before[m] == Match(i, p) {
        if m in replaced { assert old_[m].item !in Affected(old_, replacements); }
        assert m in after && after[m] == Match(i, p);
      }
      if m :| m in after && after[m] == Match(i, p) {
        if m in replacements { assert replacements[m].item !in Affected(old_, replacements); }
        assert m in before && before[m] == Match(i, p);
      }
    }
    LookupKept(before, after, i);
  }

  lemma LookupDeleted(before: map<MatchId, Match>, after: map<MatchId, Match>, i: ItemId)
    requires Unique(before) && after.Keys <= before.Keys && forall m :: m in after ==> after[m] == before[m]
    ensures Unique(after)
    ensures Find(Lookup(after), i) == (
      if exists m :: m in before && m !in after && before[m].item == i then None else Find(Lookup(before), i))
  {
    assert Unique(after);
    if m :| m in before && m !in after && before[m].item == i {
      assert forall n :: n in after ==> after[n].item != i;
    } else {
      forall p: ProductId ensures Gives(before, i, p) <==> Gives(after, i, p) {
        if m :| m in before && before[m] == Match(i, p) { assert m in after && after[m] == Match(i, p); }
        if m :| m in after && after[m] == Match(i, p) { assert before[m] == Match(i, p); }
      }
      LookupKept(before, after, i);
    }
  }

  // ----- how each trigger keeps one table in agreement

  lemma InsertKeeps(products: map<ItemId, ProductId>, items: map<ItemId, RetailerId>, t: Table, pending: set<ItemId>,
                    keys: map<RowId, ItemId>, rows: Rows, added: Rows)
    requires TableOk(products, items, t, pending, keys, rows) && keys.Keys !! added.Keys
    ensures TableOk(products, items, t, pending, keys + ItemsOf(added),
                    ProjectInserted(rows + added, added.Keys, products, items, t))
  {
  }

  lemma RekeyKeeps(products: map<ItemId, ProductId>, items: map<ItemId, RetailerId>, t: Table, pending: set<ItemId>,
                   keys: map<RowId, ItemId>, rows: Rows, to: map<RowId, ItemId>)
    requires TableOk(products, items, t, pending, keys, rows) && to.Keys <= keys.Keys
    ensures TableOk(products, items, t, pending, keys + to, Rekeyed(rows, to, products, items, t))
  {
  }

  lemma MatchKeeps(products: map<ItemId, ProductId>, after: map<ItemId, ProductId>, items: map<ItemId, RetailerId>,
                   t: Table, pending: set<ItemId>, keys: map<RowId, ItemId>, rows: Rows,
                   inserted: map<ItemId, ProductId>)
    requires TableOk(products, items, t, pending, keys, rows)
    requires forall i :: Find(after, i) == if i in inserted then Some(inserted[i]) else Find(products, i)
    ensures TableOk(after, items, t, pending, keys, ProjectMatched(rows, inserted, items, t))
  {
  }

  lemma ReprojectKeeps(products: map<ItemId, ProductId>, after: map<ItemId, ProductId>, items: map<ItemId, RetailerId>,
                       t: Table, pending: set<ItemId>, keys: map<RowId, ItemId>, rows: Rows, affected: set<ItemId>)
    requires TableOk(products, items, t, pending, keys, rows)
    requires forall i :: i !in affected ==> Find(after, i) == Find(products, i)
    ensures TableOk(after, items, t, pending, keys, Reproject(rows, affected, after, items, t))
  {
  }

  lemma DeleteKeeps(products: map<ItemId, ProductId>, after: map<ItemId, ProductId>, items: map<ItemId, RetailerId>,
                    t: Table, pending: set<ItemId>, more: set<ItemId>, keys: map<RowId, ItemId>, rows: Rows)
    requires TableOk(products, items, t, pending, keys, rows) && pending <= more
    requires forall i :: Find(after, i) == Find(products, i) || (i in more && Find(after, i).None?)
    ensures TableOk(after, items, t, more, keys, rows)
  {
  }

  lemma DropKeeps(products: map<ItemId, ProductId>, after: map<ItemId, ProductId>, items: map<ItemId, RetailerId>,
                  t: Table, pending: set<ItemId>, more: set<ItemId>, keys: map<RowId, ItemId>, rows: Rows,
                  gone: set<ItemId>)
    requires TableOk(products, items, t, pending, keys, rows) && pending <= more
    requires forall i :: i !in gone ==> Find(after, i) == Find(products, i)
    ensures TableOk(after, items - gone, t, more, Without(keys, gone), RowsWithout(rows, gone))
  {
  }

  lemma MoveKeeps(products: map<ItemId, ProductId>, items: map<ItemId, RetailerId>, t: Table, pending: set<ItemId>,
                  keys: map<RowId, ItemId>, rows: Rows, retailers: map<ItemId, RetailerId>)
    requires TableOk(products, items, t, pending, keys, rows)
    ensures TableOk(products, items + retailers, t, pending, keys, if t.Prices? then Relocated(rows, retailers) else rows)
  {
  }

  lemma AddKeeps(products: map<ItemId, ProductId>, items: map<ItemId, RetailerId>, t: Table, pending: set<ItemId>,
                 keys: map<RowId, ItemId>, rows: Rows, added: map<ItemId, RetailerId>)
    requires TableOk(products, items, t, pending, keys, rows) && Refers(keys, items) && added.Keys !! items.Keys
    ensures TableOk(products, items + added, t, pending, keys, rows)
  {
  }

  lemma OrphanKeeps(products: map<ItemId, ProductId>, items: map<ItemId, RetailerId>, t: Table, pending: set<ItemId>,
                    keys: map<RowId, ItemId>, rows: Rows, product: ProductId)
    requires TableOk(products, items, t, pending, keys, rows) && forall i :: i in products ==> products[i] != product
    ensures TableOk(products, items, t, pending, keys, Orphaned(rows, product))
  {
  }

  /** The deferred trigger for one deleted match: nothing to do if its item is matched again. */
  lemma ClearKeeps(products: map<ItemId, ProductId>, items: map<ItemId, RetailerId>, t: Table, pending: set<ItemId>,
                   left: set<ItemId>, keys: map<RowId, ItemId>, rows: Rows, item: ItemId)
    requires TableOk(products, items, t, pending, keys, rows) && pending <= left + {item}
    ensures TableOk(products, items, t, left, keys, if item in products then rows else Cleared(rows, item))
  {
  }
}
