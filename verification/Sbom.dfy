/** SBOM comparison: documents are canonicalised by sorting every array by its
    elements' printed form, then compared for a first difference. */
module Sbom {
  import opened Prelude
  import opened Json

  // ----- sorting by printed form

  function Insert(x: Json, sorted: seq<Json>): seq<Json> {
    if sorted == [] then [x]
    else if Below(Compact(x), Compact(sorted[0])) then [x] + sorted
    else [sorted[0]] + Insert(x, sorted[1..])
  }

  function SortItems(items: seq<Json>): seq<Json> {
    if items == [] then [] else Insert(items[0], SortItems(items[1..]))
  }

  ghost predicate Ordered(items: seq<Json>) {
    forall i, j :: 0 <= i < j < |items| ==> Below(Compact(items[i]), Compact(items[j]))
  }

  ghost predicate AllAbove(x: Json, items: seq<Json>) { forall v :: v in items ==> Below(Compact(x), Compact(v)) }

  lemma OrderedCons(x: Json, items: seq<Json>)
    requires Ordered(items) && AllAbove(x, items)
    ensures Ordered([x] + items)
  {
    hide Compact, Below;
  }

  lemma OrderedHead(items: seq<Json>)
    requires Ordered(items) && items != []
    ensures Ordered(items[1..]) && AllAbove(items[0], items[1..])
  {
    hide Compact, Below;
  }

  lemma AboveTransitive(x: Json, y: Json, items: seq<Json>)
    requires Below(Compact(x), Compact(y)) && AllAbove(y, items)
    ensures AllAbove(x, items)
  {
    hide Compact, Below;
    forall v | v in items ensures Below(Compact(x), Compact(v)) { BelowTransitive(Compact(x), Compact(y), Compact(v)); }
  }

  lemma {:induction false} InsertContents(x: Json, sorted: seq<Json>)
    ensures multiset(Insert(x, sorted)) == multiset(sorted) + multiset{x}
    ensures forall v :: v in Insert(x, sorted) <==> v == x || v in sorted
  {
    hide Compact, Below;
    if sorted != [] {
      assert sorted == [sorted[0]] + sorted[1..];
      InsertContents(x, sorted[1..]);
    }
  }

  lemma {:induction false} InsertOrdered(x: Json, sorted: seq<Json>)
    requires Ordered(sorted)
    ensures Ordered(Insert(x, sorted))
  {
    hide Compact, Below, Ordered, AllAbove;
    if sorted == [] {
      OneOrdered(x);
    } else {
      OrderedHead(sorted);
      BelowTotal(Compact(x), Compact(sorted[0]));
      assert sorted == [sorted[0]] + sorted[1..];
      if Below(Compact(x), Compact(sorted[0])) {
        AboveTransitive(x, sorted[0], sorted[1..]);
        AboveBoth(x, sorted[0], sorted[1..], sorted);
        OrderedCons(x, sorted);
      } else {
        InsertOrdered(x, sorted[1..]);
        InsertContents(x, sorted[1..]);
        AboveBoth(sorted[0], x, sorted[1..], Insert(x, sorted[1..]));
        OrderedCons(sorted[0], Insert(x, sorted[1..]));
      }
    }
  }

  lemma NoneOrdered(items: seq<Json>)
    requires |items| == 0
    ensures Ordered(items)
  {
  }

  lemma OneOrdered(x: Json)
    ensures Ordered([x])
  {
  }

  lemma AboveBoth(x: Json, y: Json, items: seq<Json>, all: seq<Json>)
    requires Below(Compact(x), Compact(y)) && AllAbove(x, items) && forall v :: v in all <==> v == y || v in items
    ensures AllAbove(x, all)
  {
    hide Compact, Below;
  }

  lemma {:induction false} SortOrdered(items: seq<Json>)
    ensures Ordered(SortItems(items)) && multiset(SortItems(items)) == multiset(items)
  {
    hide Compact, Below, Ordered;
    if items == [] {
      NoneOrdered(items);
    } else {
      SortOrdered(items[1..]);
      InsertOrdered(items[0], SortItems(items[1..]));
      InsertContents(items[0], SortItems(items[1..]));
      assert items == [items[0]] + items[1..];
    }
  }

  lemma HeadIsLeast(a: seq<Json>, x: Json)
    requires Ordered(a) && x in a
    ensures Below(Compact(a[0]), Compact(x))
  {
    hide Compact;
    var i :| 0 <= i < |a| && a[i] == x;
    if i == 0 { BelowTotal(Compact(x), Compact(x)); }
  }

  lemma SameHead(a: seq<Json>, b: seq<Json>)
    requires Ordered(a) && Ordered(b) && multiset(a) == multiset(b) && a != [] && b != []
    ensures a[0] == b[0]
  {
    hide Compact, Below, Ordered;
    assert a[0] in multiset(a) && b[0] in multiset(b);
    HeadIsLeast(a, b[0]);
    HeadIsLeast(b, a[0]);
    BelowTotal(Compact(a[0]), Compact(b[0]));
    CompactInjective(a[0], b[0]);
  }

  lemma TailMultiset(a: seq<Json>)
    requires a != []
    ensures a == [a[0]] + a[1..] && multiset(a[1..]) == multiset(a) - multiset{a[0]}
  {
    assert a == [a[0]] + a[1..];
  }

  /** Because the printed form identifies the value, there is one ordered arrangement only. */
  lemma {:induction false} OrderedUnique(a: seq<Json>, b: seq<Json>)
    requires Ordered(a) && Ordered(b) && multiset(a) == multiset(b)
    ensures a == b
    decreases |a|
  {
    hide Compact, Below, Ordered;
    assert |a| == |multiset(a)| == |multiset(b)| == |b|;
    if a != [] {
      SameHead(a, b);
      TailMultiset(a);
      TailMultiset(b);
      OrderedHead(a);
      OrderedHead(b);
      OrderedUnique(a[1..], b[1..]);
    }
  }

  // ----- the canonical form

  function Canonical(v: Json): Json
    decreases v, 1, 0
  {
    match v
    case JObject(fields) => JObject(map k | k in fields :: Canonical(fields[k]))
    case JArray(items) => JArray(SortItems(CanonicalFrom(v, 0)))
    case _ => v
  }

  function CanonicalFrom(v: Json, i: nat): (r: seq<Json>)
    requires v.JArray? && i <= |v.items|
    ensures |r| == |v.items| - i
    ensures forall j :: 0 <= j < |r| ==> r[j] == Canonical(v.items[i + j])
    decreases v, 0, |v.items| - i
  {
    if i == |v.items| then [] else [Canonical(v.items[i])] + CanonicalFrom(v, i + 1)
  }

  // ----- equality up to reordering arrays at any depth

  ghost predicate Permutation(p: seq<nat>, n: nat) {
    |p| == n && (forall i :: 0 <= i < n ==> p[i] < n) && forall i, j :: 0 <= i < j < n ==> p[i] != p[j]
  }

  ghost predicate Same(a: Json, b: Json)
    decreases a
  {
    match a
    case JArray(items) =>
      && b.JArray? && |items| == |b.items|
      && exists p :: Permutation(p, |items|) && forall i :: 0 <= i < |items| ==> Same(items[i], b.items[p[i]])
    case JObject(fields) =>
      b.JObject? && fields.Keys == b.fields.Keys && forall k :: k in fields ==> Same(fields[k], b.fields[k])
    case _ => a == b
  }

  // ----- permutations and multisets

  function Without<T>(s: seq<T>, j: nat): seq<T>
    requires j < |s|
  {
    s[..j] + s[j + 1..]
  }

  lemma WithoutMultiset<T>(s: seq<T>, j: nat)
    requires j < |s|
    ensures multiset(s) == multiset(Without(s, j)) + multiset{s[j]}
  {
    assert s == s[..j] + [s[j]] + s[j + 1..];
  }

  lemma DropBoth(a: seq<Json>, b: seq<Json>, n: nat, j: nat)
    requires n == |a| - 1 && j < |b| && b[j] == a[n] && multiset(a) == multiset(b)
    ensures multiset(a[..n]) == multiset(Without(b, j))
  {
    assert a == a[..n] + [a[n]];
    WithoutMultiset(b, j);
    assert multiset(a[..n]) == multiset(a) - multiset{a[n]};
    assert multiset(Without(b, j)) == multiset(b) - multiset{b[j]};
  }

  /** Equal bags are related by a permutation of positions. */
  lemma {:induction false} Matched(a: seq<Json>, b: seq<Json>) returns (p: seq<nat>)
    requires multiset(a) == multiset(b)
    ensures |a| == |b| && Permutation(p, |a|) && forall i :: 0 <= i < |a| ==> a[i] == b[p[i]]
    decreases |a|
  {
    assert |a| == |multiset(a)| == |multiset(b)| == |b|;
    if a == [] {
      p := [];
    } else {
      var n := |a| - 1;
      assert a[n] in multiset(b);
      var j: nat :| j < |b| && b[j] == a[n];
      DropBoth(a, b, n, j);
      var q := Matched(a[..n], Without(b, j));
      p := Lifted(q, j) + [j];
      LiftedPermutation(q, n, j);
      assert forall i :: 0 <= i < n ==> b[p[i]] == Without(b, j)[q[i]];
    }
  }

  /** Positions in a sequence, from positions in it without its j-th element. */
  function Lifted(q: seq<nat>, j: nat): seq<nat> {
    seq(|q|, i requires 0 <= i < |q| => if q[i] < j then q[i] else q[i] + 1)
  }

  lemma LiftedPermutation(q: seq<nat>, n: nat, j: nat)
    requires Permutation(q, n) && j <= n
    ensures Permutation(Lifted(q, j) + [j], n + 1)
  {
  }

  /** ... and sequences related by a permutation of positions are equal bags. */
  lemma {:induction false} Shuffled(a: seq<Json>, b: seq<Json>, p: seq<nat>)
    requires |a| == |b| && Permutation(p, |a|) && forall i :: 0 <= i < |a| ==> a[i] == b[p[i]]
    ensures multiset(a) == multiset(b)
    decreases |a|
  {
    if a != [] {
      var n := |a| - 1;
      var j := p[n];
      var q := seq(n, i requires 0 <= i < n => if p[i] < j then p[i] else p[i] - 1);
      assert forall i :: 0 <= i < n ==> p[i] != j;
      assert forall i :: 0 <= i < n ==> Without(b, j)[q[i]] == b[p[i]];
      Shuffled(a[..n], Without(b, j), q);
      WithoutMultiset(b, j);
      assert a == a[..n] + [a[n]];
    }
  }

  // ----- the canonical form decides equality up to reordering

  lemma {:induction false} CanonicalDecides(a: Json, b: Json)
    ensures Canonical(a) == Canonical(b) <==> Same(a, b)
    decreases a
  {
    hide Compact, Below;
    if a.JArray? && b.JArray? {
      ArraysDecide(a, b);
    } else if a.JObject? && b.JObject? {
      forall k | k in a.fields && k in b.fields { CanonicalDecides(a.fields[k], b.fields[k]); }
      var ca, cb := Canonical(a).fields, Canonical(b).fields;
      assert ca.Keys == a.fields.Keys && cb.Keys == b.fields.Keys;
      if Same(a, b) { assert ca == cb; }
      if ca == cb {
        forall k | k in a.fields ensures Same(a.fields[k], b.fields[k]) { assert ca[k] == cb[k]; }
      }
    }
  }

  lemma {:induction false} ArraysDecide(a: Json, b: Json)
    requires a.JArray? && b.JArray?
    ensures Canonical(a) == Canonical(b) <==> Same(a, b)
    decreases a, 0
  {
    hide Canonical, CanonicalFrom, SortItems, Permutation, Same;
    var ca, cb := CanonicalFrom(a, 0), CanonicalFrom(b, 0);
    CanonicalArrays(a, b);
    if Same(a, b) {
      var p := SameArrays(a, b);
      forall i | 0 <= i < |ca| ensures p[i] < |cb| && ca[i] == cb[p[i]] {
        PermutationAt(p, |ca|, i);
        CanonicalDecides(a.items[i], b.items[p[i]]);
      }
      Shuffled(ca, cb, p);
    }
    if Canonical(a) == Canonical(b) {
      var p := Matched(ca, cb);
      forall i | 0 <= i < |a.items| ensures p[i] < |b.items| && Same(a.items[i], b.items[p[i]]) {
        PermutationAt(p, |ca|, i);
        assert ca[i] == cb[p[i]];
        CanonicalDecides(a.items[i], b.items[p[i]]);
      }
      ArraysSame(a, b, p);
    }
  }

  /** Canonical arrays are equal exactly when they hold the same elements equally often. */
  lemma CanonicalArrays(a: Json, b: Json)
    requires a.JArray? && b.JArray?
    ensures Canonical(a) == Canonical(b) <==> multiset(CanonicalFrom(a, 0)) == multiset(CanonicalFrom(b, 0))
    ensures Canonical(a) == Canonical(b) ==> |a.items| == |b.items|
  {
    hide CanonicalFrom, SortItems, Ordered;
    var ca, cb := CanonicalFrom(a, 0), CanonicalFrom(b, 0);
    SortOrdered(ca);
    SortOrdered(cb);
    if multiset(ca) == multiset(cb) {
      OrderedUnique(SortItems(ca), SortItems(cb));
    }
    assert |ca| == |multiset(ca)| && |cb| == |multiset(cb)|;
  }

  lemma SameArrays(a: Json, b: Json) returns (p: seq<nat>)
    requires a.JArray? && b.JArray? && Same(a, b)
    ensures |a.items| == |b.items| && Permutation(p, |a.items|)
    ensures forall i :: 0 <= i < |a.items| ==> p[i] < |b.items| && Same(a.items[i], b.items[p[i]])
  {
    p :| Permutation(p, |a.items|) && forall i :: 0 <= i < |a.items| ==> Same(a.items[i], b.items[p[i]]);
  }

  lemma ArraysSame(a: Json, b: Json, p: seq<nat>)
    requires a.JArray? && b.JArray? && |a.items| == |b.items| && Permutation(p, |a.items|)
    requires forall i :: 0 <= i < |a.items| ==> p[i] < |b.items| && Same(a.items[i], b.items[p[i]])
    ensures Same(a, b)
  {
  }

  lemma PermutationAt(p: seq<nat>, n: nat, i: nat)
    requires Permutation(p, n) && i < n
    ensures i < |p| && p[i] < n
  {
  }

  /** A document is its canonical form, reordered. */
  lemma {:induction false} CanonicalIsSame(v: Json)
    ensures Same(v, Canonical(v))
    decreases v
  {
    hide Compact, Below, SortItems, Ordered;
    match v {
      case JArray(items) =>
        var c := CanonicalFrom(v, 0);
        SortOrdered(c);
        var p := Matched(c, SortItems(c));
        forall i | 0 <= i < |items| ensures Same(items[i], SortItems(c)[p[i]]) {
          assert c[i] == SortItems(c)[p[i]];
          CanonicalIsSame(items[i]);
        }
      case JObject(fields) =>
        forall k | k in fields { CanonicalIsSame(fields[k]); }
      case _ =>
    }
  }

  lemma CanonicalIdempotent(v: Json)
    ensures Canonical(Canonical(v)) == Canonical(v)
  {
    CanonicalIsSame(v);
    CanonicalDecides(v, Canonical(v));
  }

  // ----- the first difference

  datatype Step = Key(name: string) | Index(i: nat)

  function At(v: Json, path: seq<Step>): Option<Json> {
    if path == [] then Some(v)
    else match path[0]
      case Key(name) => if v.JObject? && name in v.fields then At(v.fields[name], path[1..]) else None
      case Index(i) => if v.JArray? && i < |v.items| then At(v.items[i], path[1..]) else None
  }

  /** The location of the first difference in key and index order, if there is one. */
  function FirstDifference(a: Json, b: Json): Option<seq<Step>>
    decreases a, 1, 0
  {
    if a.JObject? && b.JObject? then
      if a.fields.Keys != b.fields.Keys then Some([]) else DifferenceIn(a, b, Sorted(a.fields.Keys))
    else if a.JArray? && b.JArray? then
      if |a.items| != |b.items| then Some([]) else DifferenceFrom(a, b, 0)
    else if a != b then Some([])
    else None
  }

  function DifferenceIn(a: Json, b: Json, keys: seq<string>): Option<seq<Step>>
    requires a.JObject? && b.JObject? && forall k :: k in keys ==> k in a.fields && k in b.fields
    decreases a, 0, |keys|
  {
    if keys == [] then None
    else match FirstDifference(a.fields[keys[0]], b.fields[keys[0]])
      case Some(path) => Some([Key(keys[0])] + path)
      case None => DifferenceIn(a, b, keys[1..])
  }

  function DifferenceFrom(a: Json, b: Json, i: nat): Option<seq<Step>>
    requires a.JArray? && b.JArray? && i <= |a.items| == |b.items|
    decreases a, 0, |a.items| - i
  {
    if i == |a.items| then None
    else match FirstDifference(a.items[i], b.items[i])
      case Some(path) => Some([Index(i)] + path)
      case None => DifferenceFrom(a, b, i + 1)
  }

  /** The location exists in both documents and what they hold there differs. */
  ghost predicate Witnesses(path: seq<Step>, a: Json, b: Json) {
    At(a, path).Some? && At(b, path).Some? && At(a, path) != At(b, path)
  }

  lemma Deeper(step: Step, path: seq<Step>, a: Json, b: Json, x: Json, y: Json)
    requires Witnesses(path, x, y)
    requires match step
      case Key(name) =>
        a.JObject? && b.JObject? && name in a.fields && name in b.fields && x == a.fields[name] && y == b.fields[name]
      case Index(i) => a.JArray? && b.JArray? && i < |a.items| == |b.items| && x == a.items[i] && y == b.items[i]
    ensures Witnesses([step] + path, a, b)
  {
    assert ([step] + path)[1..] == path;
  }

  /** No difference is reported exactly for equal values, and a reported one is real. */
  lemma {:induction false} DifferenceIsReal(a: Json, b: Json)
    ensures FirstDifference(a, b).None? <==> a == b
    ensures FirstDifference(a, b).Some? ==> Witnesses(FirstDifference(a, b).value, a, b)
    decreases a, 1, 0
  {
    if a.JObject? && b.JObject? && a.fields.Keys == b.fields.Keys {
      DifferenceInIsReal(a, b, Sorted(a.fields.Keys));
      if FirstDifference(a, b).None? { assert a.fields == b.fields; }
    } else if a.JArray? && b.JArray? && |a.items| == |b.items| {
      DifferenceFromIsReal(a, b, 0);
      if FirstDifference(a, b).None? { assert a.items == b.items; }
    }
  }

  lemma {:induction false} DifferenceInIsReal(a: Json, b: Json, keys: seq<string>)
    requires a.JObject? && b.JObject? && forall k :: k in keys ==> k in a.fields && k in b.fields
    ensures DifferenceIn(a, b, keys).None? <==> forall k :: k in keys ==> a.fields[k] == b.fields[k]
    ensures DifferenceIn(a, b, keys).Some? ==> Witnesses(DifferenceIn(a, b, keys).value, a, b)
    decreases a, 0, |keys|
  {
    if keys != [] {
      var x, y := a.fields[keys[0]], b.fields[keys[0]];
      DifferenceIsReal(x, y);
      if FirstDifference(x, y).Some? {
        Deeper(Key(keys[0]), FirstDifference(x, y).value, a, b, x, y);
      } else {
        DifferenceInIsReal(a, b, keys[1..]);
        assert forall k :: k in keys <==> k == keys[0] || k in keys[1..];
      }
    }
  }

  lemma {:induction false} DifferenceFromIsReal(a: Json, b: Json, i: nat)
    requires a.JArray? && b.JArray? && i <= |a.items| == |b.items|
    ensures DifferenceFrom(a, b, i).None? <==> forall j :: i <= j < |a.items| ==> a.items[j] == b.items[j]
    ensures DifferenceFrom(a, b, i).Some? ==> Witnesses(DifferenceFrom(a, b, i).value, a, b)
    decreases a, 0, |a.items| - i
  {
    if i < |a.items| {
      var x, y := a.items[i], b.items[i];
      DifferenceIsReal(x, y);
      if FirstDifference(x, y).Some? {
        Deeper(Index(i), FirstDifference(x, y).value, a, b, x, y);
      } else {
        DifferenceFromIsReal(a, b, i + 1);
      }
    }
  }

  predicate StepBefore(x: Step, y: Step) {
    match (x, y)
    case (Key(k), Key(l)) => k != l && Below(k, l)
    case (Index(i), Index(j)) => i < j
    case _ => false
  }

  /** One location comes before another where the two part, in key or in index order. */
  predicate Earlier(q: seq<Step>, p: seq<Step>) {
    q != [] && p != [] && (StepBefore(q[0], p[0]) || (q[0] == p[0] && Earlier(q[1..], p[1..])))
  }

  /** The values differ here and not only further down. */
  predicate Clash(x: Json, y: Json) {
    && x != y && !(x.JObject? && y.JObject? && x.fields.Keys == y.fields.Keys)
    && !(x.JArray? && y.JArray? && |x.items| == |y.items|)
  }

  /** The reported location is the first: the documents clash there, and they agree on every
      location before it. */
  lemma {:induction false} DifferenceIsFirst(a: Json, b: Json, q: seq<Step>)
    requires FirstDifference(a, b).Some?
    ensures var p := FirstDifference(a, b).value;
      && At(a, p).Some? && At(b, p).Some? && Clash(At(a, p).value, At(b, p).value)
      && (Earlier(q, p) ==> At(a, q) == At(b, q))
    decreases a, 1, 0
  {
    if a.JObject? && b.JObject? && a.fields.Keys == b.fields.Keys {
      DifferenceInIsFirst(a, b, Sorted(a.fields.Keys), q);
    } else if a.JArray? && b.JArray? && |a.items| == |b.items| {
      DifferenceFromIsFirst(a, b, 0, q);
    }
  }

  lemma {:induction false} DifferenceInIsFirst(a: Json, b: Json, keys: seq<string>, q: seq<Step>)
    requires a.JObject? && b.JObject? && a.fields.Keys == b.fields.Keys && forall k :: k in keys ==> k in a.fields
    requires forall i, j :: 0 <= i < j < |keys| ==> keys[i] != keys[j] && Below(keys[i], keys[j])
    requires forall k :: k in a.fields && k !in keys ==> a.fields[k] == b.fields[k]
    requires DifferenceIn(a, b, keys).Some?
    ensures var p := DifferenceIn(a, b, keys).value;
      && At(a, p).Some? && At(b, p).Some? && Clash(At(a, p).value, At(b, p).value)
      && (Earlier(q, p) ==> At(a, q) == At(b, q))
    decreases a, 0, |keys|
  {
    var x, y := a.fields[keys[0]], b.fields[keys[0]];
    DifferenceIsReal(x, y);
    if FirstDifference(x, y).Some? {
      var rest := FirstDifference(x, y).value;
      assert ([Key(keys[0])] + rest)[1..] == rest;
      DifferenceIsFirst(x, y, if q == [] then [] else q[1..]);
      if q != [] && q[0].Key? {
        BelowTotal(q[0].name, keys[0]);
        assert q[0].name in keys ==> q[0].name == keys[0] || Below(keys[0], q[0].name);
      }
    } else {
      DifferenceInIsFirst(a, b, keys[1..], q);
    }
  }

  lemma {:induction false} DifferenceFromIsFirst(a: Json, b: Json, i: nat, q: seq<Step>)
    requires a.JArray? && b.JArray? && i <= |a.items| == |b.items| && a.items[..i] == b.items[..i]
    requires DifferenceFrom(a, b, i).Some?
    ensures var p := DifferenceFrom(a, b, i).value;
      && At(a, p).Some? && At(b, p).Some? && Clash(At(a, p).value, At(b, p).value)
      && (Earlier(q, p) ==> At(a, q) == At(b, q))
    decreases a, 0, |a.items| - i
  {
    var x, y := a.items[i], b.items[i];
    DifferenceIsReal(x, y);
    if FirstDifference(x, y).Some? {
      var rest := FirstDifference(x, y).value;
      assert ([Index(i)] + rest)[1..] == rest;
      DifferenceIsFirst(x, y, if q == [] then [] else q[1..]);
      if q != [] && q[0].Index? && q[0].i < i {
        assert a.items[..i][q[0].i] == b.items[..i][q[0].i];
      }
    } else {
      assert a.items[..i + 1] == a.items[..i] + [x] && b.items[..i + 1] == b.items[..i] + [y];
      DifferenceFromIsFirst(a, b, i + 1, q);
    }
  }

  /** The SBOM check passes exactly for documents equal up to reordering arrays. */
  lemma ComparisonIsExact(a: Json, b: Json)
    ensures FirstDifference(Canonical(a), Canonical(b)).None? <==> Same(a, b)
  {
    DifferenceIsReal(Canonical(a), Canonical(b));
    CanonicalDecides(a, b);
  }

  // ----- the one value that is ignored

  const PLATFORM := "makolet:platform"
  const SENTINEL := "<host-dependent-platform>"

  predicate NamesPlatform(item: Json) {
    item.JObject? && "name" in item.fields && item.fields["name"] == JString(PLATFORM)
  }

  function MaskItem(item: Json): Json {
    if NamesPlatform(item) then JObject(item.fields["value" := JString(SENTINEL)]) else item
  }

  /** The validated shape: metadata.component.properties is an array. */
  predicate HasProperties(d: Json) {
    && d.JObject? && "metadata" in d.fields && d.fields["metadata"].JObject?
    && "component" in d.fields["metadata"].fields && d.fields["metadata"].fields["component"].JObject?
    && "properties" in d.fields["metadata"].fields["component"].fields
    && d.fields["metadata"].fields["component"].fields["properties"].JArray?
  }

  function Properties(d: Json): seq<Json>
    requires HasProperties(d)
  {
    d.fields["metadata"].fields["component"].fields["properties"].items
  }

  function WithProperties(d: Json, items: seq<Json>): (r: Json)
    requires HasProperties(d)
    ensures HasProperties(r) && Properties(r) == items
  {
    var metadata := d.fields["metadata"];
    var component := metadata.fields["component"];
    JObject(d.fields["metadata" := JObject(metadata.fields["component" :=
      JObject(component.fields["properties" := JArray(items)])])])
  }

  function Masked(d: Json): Json
    requires HasProperties(d)
  {
    WithProperties(d, seq(|Properties(d)|, i requires 0 <= i < |Properties(d)| => MaskItem(Properties(d)[i])))
  }

  lemma ReplacedTwice(d: Json, items: seq<Json>, again: seq<Json>)
    requires HasProperties(d)
    ensures WithProperties(WithProperties(d, items), again) == WithProperties(d, again)
  {
    var metadata := d.fields["metadata"];
    var component := metadata.fields["component"];
    assert component.fields["properties" := JArray(items)]["properties" := JArray(again)]
        == component.fields["properties" := JArray(again)];
    var inner := JObject(component.fields["properties" := JArray(again)]);
    var first := JObject(component.fields["properties" := JArray(items)]);
    assert metadata.fields["component" := first]["component" := inner] == metadata.fields["component" := inner];
    var outer := JObject(metadata.fields["component" := inner]);
    assert d.fields["metadata" := JObject(metadata.fields["component" := first])]["metadata" := outer]
        == d.fields["metadata" := outer];
  }

  // ----- the comparison ignores that value and nothing else

  /** The item itself, or a platform property with another value. */
  predicate ItemRevalued(item: Json, other: Json) {
    || other == item
    || (&& item.JObject? && "name" in item.fields && item.fields["name"] == JString("makolet:platform")
        && other.JObject? && "value" in other.fields
        && other.fields == item.fields["value" := other.fields["value"]])
  }

  /** The same document but for the values of platform properties. */
  predicate Revalued(d: Json, other: Json) {
    && HasProperties(d) && HasProperties(other) && |Properties(other)| == |Properties(d)|
    && other == WithProperties(d, Properties(other))
    && forall i :: 0 <= i < |Properties(d)| ==> ItemRevalued(Properties(d)[i], Properties(other)[i])
  }

  lemma MaskedItem(item: Json, other: Json)
    requires ItemRevalued(item, other)
    ensures MaskItem(other) == MaskItem(item)
  {
    if other != item {
      assert other.fields["name"] == item.fields["name"];
      assert other.fields["value" := JString(SENTINEL)] == item.fields["value" := JString(SENTINEL)];
    }
  }

  lemma RevaluedMasked(d: Json, other: Json)
    requires Revalued(d, other)
    ensures Masked(other) == Masked(d)
  {
    hide MaskItem, ItemRevalued, WithProperties, Properties, HasProperties;
    forall i | 0 <= i < |Properties(d)| ensures MaskItem(Properties(other)[i]) == MaskItem(Properties(d)[i]) {
      MaskedItem(Properties(d)[i], Properties(other)[i]);
    }
    assert Properties(Masked(other)) == Properties(Masked(d));
    ReplacedTwice(d, Properties(other), Properties(Masked(d)));
  }

  lemma MaskedRevalues(d: Json)
    requires HasProperties(d)
    ensures Revalued(d, Masked(d))
  {
    hide HasProperties, WithProperties, Properties;
    assert forall i :: 0 <= i < |Properties(d)| ==> ItemRevalued(Properties(d)[i], MaskItem(Properties(d)[i]));
  }

  /** Replacing one member by equal values keeps objects equal up to reordering. */
  lemma SameMember(a: Json, b: Json, k: string, x: Json, y: Json)
    requires a.JObject? && b.JObject? && Same(a, b) && Same(x, y)
    ensures Same(JObject(a.fields[k := x]), JObject(b.fields[k := y]))
  {
    var v, w := JObject(a.fields[k := x]), JObject(b.fields[k := y]);
    assert v.fields.Keys == w.fields.Keys;
  }

  lemma MaskItemSame(x: Json, y: Json)
    requires Same(x, y)
    ensures Same(MaskItem(x), MaskItem(y))
  {
    if x.JObject? && y.JObject? {
      assert "name" in x.fields ==> Same(x.fields["name"], y.fields["name"]);
      assert NamesPlatform(x) <==> NamesPlatform(y);
      assert Same(JString(SENTINEL), JString(SENTINEL));
      SameMember(x, y, "value", JString(SENTINEL), JString(SENTINEL));
    }
  }

  lemma PropertiesSame(a: Json, b: Json)
    requires HasProperties(a) && HasProperties(b) && Same(a, b)
    ensures Same(JArray(Properties(a)), JArray(Properties(b)))
    ensures Same(a.fields["metadata"], b.fields["metadata"])
    ensures Same(a.fields["metadata"].fields["component"], b.fields["metadata"].fields["component"])
  {
  }

  lemma WithPropertiesSame(a: Json, b: Json, xs: seq<Json>, ys: seq<Json>)
    requires HasProperties(a) && HasProperties(b) && Same(a, b) && Same(JArray(xs), JArray(ys))
    ensures Same(WithProperties(a, xs), WithProperties(b, ys))
  {
    hide Same;
    PropertiesSame(a, b);
    var m, n := a.fields["metadata"], b.fields["metadata"];
    var c, d := m.fields["component"], n.fields["component"];
    var x, y := JObject(c.fields["properties" := JArray(xs)]), JObject(d.fields["properties" := JArray(ys)]);
    SameMember(c, d, "properties", JArray(xs), JArray(ys));
    SameMember(m, n, "component", x, y);
    SameMember(a, b, "metadata", JObject(m.fields["component" := x]), JObject(n.fields["component" := y]));
  }

  lemma MaskedSame(a: Json, b: Json)
    requires HasProperties(a) && HasProperties(b) && Same(a, b)
    ensures Same(Masked(a), Masked(b))
  {
    hide Same, HasProperties, WithProperties, MaskItem, Permutation;
    PropertiesSame(a, b);
    var va, vb := JArray(Properties(a)), JArray(Properties(b));
    var p := SameArrays(va, vb);
    var xs := seq(|Properties(a)|, i requires 0 <= i < |Properties(a)| => MaskItem(Properties(a)[i]));
    var ys := seq(|Properties(b)|, i requires 0 <= i < |Properties(b)| => MaskItem(Properties(b)[i]));
    forall i | 0 <= i < |xs| ensures i < |p| && p[i] < |ys| && Same(xs[i], ys[p[i]]) {
      PermutationAt(p, |xs|, i);
      MaskItemSame(Properties(a)[i], Properties(b)[p[i]]);
    }
    ArraysSame(JArray(xs), JArray(ys), p);
    WithPropertiesSame(a, b, xs, ys);
  }

  /** The runtime comparison finds no difference exactly when other values for the
      platform properties make the documents equal up to reordering. */
  lemma RuntimeComparisonIsExact(a: Json, b: Json)
    requires HasProperties(a) && HasProperties(b)
    ensures FirstDifference(Canonical(Masked(a)), Canonical(Masked(b))).None? <==>
      exists x, y :: Revalued(a, x) && Revalued(b, y) && Same(x, y)
  {
    hide Same, Revalued, HasProperties, WithProperties, Canonical, FirstDifference, Masked;
    ComparisonIsExact(Masked(a), Masked(b));
    MaskedRevalues(a);
    MaskedRevalues(b);
    if x, y :| Revalued(a, x) && Revalued(b, y) && Same(x, y) {
      RevaluedMasked(a, x);
      RevaluedMasked(b, y);
      RevaluedShape(a, x);
      RevaluedShape(b, y);
      MaskedSame(x, y);
    }
  }

  lemma RevaluedShape(d: Json, other: Json)
    requires Revalued(d, other)
    ensures HasProperties(other)
  {
  }
}
