/** What a publisher lists, and what it means for a checkpoint and its trail to
    stand somewhere in that listing. */
module Listing {
  import opened Prelude
  import opened ByteLedger
  import opened Repository

  datatype NextCursor = NoNext | Next(value: Option<Cursor>)

  datatype Page = Page(files: seq<RemoteFile>, next: NextCursor, complete: bool)

  /** The visits made by walking `files` of the page at `cursor` from lo up to hi. */
  ghost function Visits(cursor: Option<Cursor>, files: seq<RemoteFile>, lo: nat, hi: nat): seq<Visit>
    requires lo <= hi <= |files|
  {
    seq(hi - lo, i requires 0 <= i < hi - lo => Visit(cursor, lo + i, files[lo + i]))
  }

  lemma VisitsJoin(cursor: Option<Cursor>, files: seq<RemoteFile>, lo: nat, mid: nat, hi: nat)
    requires lo <= mid <= hi <= |files|
    ensures Visits(cursor, files, lo, mid) + Visits(cursor, files, mid, hi) == Visits(cursor, files, lo, hi)
  {
  }

  lemma NoVisits(cursor: Option<Cursor>, files: seq<RemoteFile>, at: nat)
    requires at <= |files|
    ensures Visits(cursor, files, at, at) == []
  {
  }

  lemma VisitMore(was: seq<Visit>, cursor: Option<Cursor>, files: seq<RemoteFile>, lo: nat, hi: nat)
    requires lo <= hi < |files|
    ensures was + Visits(cursor, files, lo, hi) + [Visit(cursor, hi, files[hi])] == was + Visits(cursor, files, lo, hi + 1)
  {
  }

  // ----- a fixed listing

  datatype ListedPage = ListedPage(cursor: Option<Cursor>, files: seq<RemoteFile>, complete: bool)
  type Listing = seq<ListedPage>

  /** Pages linked from the start, no cursor twice, the last one marked complete. */
  ghost predicate Acyclic(l: Listing) {
    && |l| > 0 && l[0].cursor == None && l[|l| - 1].complete
    && (forall i, j :: 0 <= i < j < |l| ==> l[i].cursor != l[j].cursor)
  }

  ghost function Served(l: Listing, i: nat): Page
    requires i < |l|
  {
    Page(l[i].files, if i + 1 < |l| then Next(l[i + 1].cursor) else NoNext, l[i].complete)
  }

  /** `page` is what the listing holds behind `cursor`. */
  ghost predicate Lists(l: Listing, cursor: Option<Cursor>, page: Page) {
    exists i :: 0 <= i < |l| && l[i].cursor == cursor && page == Served(l, i)
  }

  /** Every file of the first i pages, in order. */
  ghost function Flat(l: Listing, i: nat): seq<Visit>
    requires i <= |l|
  {
    if i == 0 then [] else Flat(l, i - 1) + Visits(l[i - 1].cursor, l[i - 1].files, 0, |l[i - 1].files|)
  }

  ghost predicate OnPage(cursor: Option<Cursor>, offset: nat, trail: seq<Visit>, l: Listing, i: nat) {
    && i < |l| && l[i].cursor == cursor && offset <= |l[i].files|
    && trail == Flat(l, i) + Visits(cursor, l[i].files, 0, offset)
  }

  /** The trail is everything listed before (cursor, offset). */
  ghost predicate At(cursor: Option<Cursor>, offset: nat, trail: seq<Visit>, l: Listing) {
    exists i: nat :: OnPage(cursor, offset, trail, l, i)
  }

  /** An open generation stands somewhere in the listing with everything before it
      behind; a closed one has all of it behind. */
  ghost predicate Stands(c: Checkpoint, trail: seq<Visit>, l: Listing) {
    if c.complete then c.cursor == None && c.offset == 0 && trail == Flat(l, |l|)
    else At(c.cursor, c.offset, trail, l)
  }

  lemma StandsAtStart(l: Listing)
    requires Acyclic(l)
    ensures At(None, 0, [], l)
  {
    assert OnPage(None, 0, [], l, 0);
  }

  /** Walking part of the page at the checkpoint keeps it standing. */
  lemma StandsAfterWalk(l: Listing, cursor: Option<Cursor>, page: Page, lo: nat, hi: nat, trail: seq<Visit>)
    requires Acyclic(l) && Lists(l, cursor, page) && At(cursor, lo, trail, l) && lo <= hi <= |page.files|
    ensures At(cursor, hi, trail + Visits(cursor, page.files, lo, hi), l)
  {
    var i: nat :| OnPage(cursor, lo, trail, l, i);
    VisitsJoin(cursor, page.files, 0, lo, hi);
    assert OnPage(cursor, hi, trail + Visits(cursor, page.files, lo, hi), l, i);
  }

  /** Following the continuation cursor keeps it standing, and the last page closes the listing. */
  lemma StandsAfterPage(l: Listing, cursor: Option<Cursor>, page: Page, trail: seq<Visit>)
    requires Acyclic(l) && Lists(l, cursor, page) && At(cursor, |page.files|, trail, l)
    ensures page.next.Next? ==> At(page.next.value, 0, trail, l)
    ensures page.next.NoNext? ==> trail == Flat(l, |l|)
  {
    var i: nat :| OnPage(cursor, |page.files|, trail, l, i);
    assert trail == Flat(l, i + 1);
    if i + 1 < |l| {
      assert Visits(l[i + 1].cursor, l[i + 1].files, 0, 0) == [];
      assert OnPage(l[i + 1].cursor, 0, trail, l, i + 1);
    }
  }

  // ----- what standing means

  lemma {:induction false} FlatPrefix(l: Listing, i: nat, j: nat)
    requires i <= j <= |l|
    ensures Flat(l, i) <= Flat(l, j)
  {
    if i < j { FlatPrefix(l, i, j - 1); }
  }

  lemma PrefixTransitive(a: seq<Visit>, b: seq<Visit>, c: seq<Visit>)
    requires a <= b && b <= c
    ensures a <= c
  {
    assert c == b + c[|b|..];
  }

  lemma PageIsPrefix(cursor: Option<Cursor>, offset: nat, trail: seq<Visit>, l: Listing, i: nat)
    requires OnPage(cursor, offset, trail, l, i)
    ensures i < |l| && trail <= Flat(l, i + 1)
  {
    VisitsJoin(cursor, l[i].files, 0, offset, |l[i].files|);
  }

  /** The trail never skips: it is a prefix of the listing. */
  lemma TrailIsPrefix(c: Checkpoint, trail: seq<Visit>, l: Listing)
    requires Stands(c, trail, l)
    ensures trail <= Flat(l, |l|)
  {
    if !c.complete {
      var i: nat :| OnPage(c.cursor, c.offset, trail, l, i);
      PageIsPrefix(c.cursor, c.offset, trail, l, i);
      FlatPrefix(l, i + 1, |l|);
      PrefixTransitive(trail, Flat(l, i + 1), Flat(l, |l|));
    }
  }

  ghost predicate Distinct(t: seq<Visit>) {
    forall a, b :: 0 <= a < b < |t| ==> (t[a].cursor, t[a].offset) != (t[b].cursor, t[b].offset)
  }

  ghost predicate FromPages(t: seq<Visit>, l: Listing, i: nat)
    requires i <= |l|
  {
    forall a :: 0 <= a < |t| ==> exists p :: 0 <= p < i && t[a].cursor == l[p].cursor
  }

  lemma {:induction false} FlatDistinct(l: Listing, i: nat)
    requires Acyclic(l) && i <= |l|
    ensures Distinct(Flat(l, i)) && FromPages(Flat(l, i), l, i)
  {
    if i > 0 {
      FlatDistinct(l, i - 1);
      var before, page := Flat(l, i - 1), Visits(l[i - 1].cursor, l[i - 1].files, 0, |l[i - 1].files|);
      var all: seq<Visit> := before + page;
      forall a, b | 0 <= a < b < |all|
        ensures (all[a].cursor, all[a].offset) != (all[b].cursor, all[b].offset)
      {
        if a < |before| <= b {
          assert exists p :: 0 <= p < i - 1 && before[a].cursor == l[p].cursor;
        }
      }
      forall a | 0 <= a < |all| ensures exists p :: 0 <= p < i && all[a].cursor == l[p].cursor {
        if a < |before| {
          var p :| 0 <= p < i - 1 && before[a].cursor == l[p].cursor;
        } else {
          assert page[a - |before|].cursor == l[i - 1].cursor;
        }
      }
    }
  }

  /** ... and never repeats: no position is left behind twice in a generation. */
  lemma TrailNeverRepeats(c: Checkpoint, trail: seq<Visit>, l: Listing)
    requires Acyclic(l) && Stands(c, trail, l)
    ensures Distinct(trail)
  {
    FlatDistinct(l, |l|);
    TrailIsPrefix(c, trail, l);
  }

  lemma {:induction false} EmptyPages(l: Listing, i: nat, j: nat)
    requires i <= j <= |l| && forall k :: i <= k < j ==> l[k].files == []
    ensures Flat(l, j) == Flat(l, i)
  {
    if i < j { EmptyPages(l, i, j - 1); }
  }

  /** An open generation has everything listed behind it exactly when it stands past the
      last file of its page and no later page lists anything. */
  lemma OpenButExhausted(c: Checkpoint, trail: seq<Visit>, l: Listing, i: nat)
    requires OnPage(c.cursor, c.offset, trail, l, i)
    ensures trail == Flat(l, |l|) <==> c.offset == |l[i].files| && forall j :: i < j < |l| ==> l[j].files == []
  {
    hide Flat, Visits;
    PageLength(c.cursor, c.offset, trail, l, i);
    FlatPrefix(l, i + 1, |l|);
    PageIsPrefix(c.cursor, c.offset, trail, l, i);
    if trail == Flat(l, |l|) {
      forall j | i < j < |l| ensures l[j].files == [] { EmptyBetween(l, i + 1, j); }
    }
    if c.offset == |l[i].files| && forall j :: i < j < |l| ==> l[j].files == [] {
      EmptyPages(l, i + 1, |l|);
    }
  }

  lemma PageLength(cursor: Option<Cursor>, offset: nat, trail: seq<Visit>, l: Listing, i: nat)
    requires OnPage(cursor, offset, trail, l, i)
    ensures |Flat(l, i + 1)| == |trail| + (|l[i].files| - offset)
  {
  }

  lemma EmptyBetween(l: Listing, i: nat, j: nat)
    requires i <= j < |l| && |Flat(l, i)| == |Flat(l, |l|)|
    ensures l[j].files == []
  {
    FlatPrefix(l, i, j);
    FlatPrefix(l, j + 1, |l|);
    assert |Flat(l, j + 1)| == |Flat(l, j)| + |l[j].files|;
  }

  // ----- walking a listing page by page

  /** A listing the run has no objection to: only its last page may be empty, and every
      later page is behind a usable cursor. */
  ghost predicate Tidy(l: Listing) {
    && Acyclic(l)
    && (forall i :: 0 <= i < |l| - 1 ==> l[i].files != [])
    && (forall i :: 0 < i < |l| ==> l[i].cursor.Some? && 1 <= |l[i].cursor.value| <= 8192)
  }

  lemma OnPageLeft(cursor: Option<Cursor>, offset: nat, trail: seq<Visit>, l: Listing, i: nat)
    requires OnPage(cursor, offset, trail, l, i)
    ensures |trail| + (|l[i].files| - offset) == |Flat(l, i + 1)| <= |Flat(l, |l|)|
    ensures |trail| == |Flat(l, |l|)| ==> trail == Flat(l, |l|)
  {
    FlatPrefix(l, i + 1, |l|);
    PageIsPrefix(cursor, offset, trail, l, i);
    PrefixTransitive(trail, Flat(l, i + 1), Flat(l, |l|));
  }

  lemma OnPageAfterWalk(cursor: Option<Cursor>, lo: nat, hi: nat, trail: seq<Visit>, l: Listing, i: nat)
    requires OnPage(cursor, lo, trail, l, i) && lo <= hi <= |l[i].files|
    ensures OnPage(cursor, hi, trail + Visits(cursor, l[i].files, lo, hi), l, i)
  {
    VisitsJoin(cursor, l[i].files, 0, lo, hi);
  }

  lemma OnNextPage(cursor: Option<Cursor>, trail: seq<Visit>, l: Listing, i: nat)
    requires i < |l| && OnPage(cursor, |l[i].files|, trail, l, i)
    ensures i + 1 < |l| ==> OnPage(l[i + 1].cursor, 0, trail, l, i + 1)
    ensures i + 1 == |l| ==> trail == Flat(l, |l|)
  {
    if i + 1 < |l| { NoVisits(l[i + 1].cursor, l[i + 1].files, 0); }
  }
}
