/** The backup manifest: its exact length is accounted for entry by entry, before
    the indented document is ever printed. */
module Manifest {
  import opened Prelude
  import opened Json

  // ----- UTF-8 length and lines

  function CharBytes(c: char): (n: nat)
    ensures 1 <= n <= 4
  {
    if c as int < 0x80 then 1 else if c as int < 0x800 then 2 else if c as int < 0x1_0000 then 3 else 4
  }

  function Bytes(s: string): nat { if s == [] then 0 else CharBytes(s[0]) + Bytes(s[1..]) }

  function Newlines(s: string): nat { if s == [] then 0 else (if s[0] == '\n' then 1 else 0) + Newlines(s[1..]) }

  lemma {:induction false} Join(a: string, b: string)
    ensures Bytes(a + b) == Bytes(a) + Bytes(b) && Newlines(a + b) == Newlines(a) + Newlines(b)
  {
    if a == [] {
      assert a + b == b;
    } else {
      assert (a + b)[1..] == a[1..] + b;
      Join(a[1..], b);
    }
  }

  /** A text and what the accounting needs to know of it. */
  datatype Size = Size(bytes: nat, newlines: nat)

  function SizeOf(s: string): Size { Size(Bytes(s), Newlines(s)) }

  function Plus(a: Size, b: Size): Size { Size(a.bytes + b.bytes, a.newlines + b.newlines) }

  lemma {:induction false} SizeJoin(a: string, b: string)
    ensures SizeOf(a + b) == Plus(SizeOf(a), SizeOf(b))
  {
    hide Bytes, Newlines;
    Join(a, b);
  }

  // ----- the indented printer

  function Spaces(n: nat): string { if n == 0 then "" else " " + Spaces(n - 1) }

  lemma SpacesSize(n: nat)
    ensures SizeOf(Spaces(n)) == Size(n, 0)
  {
    if n > 0 {
      SpacesSize(n - 1);
      assert (" " + Spaces(n - 1))[1..] == Spaces(n - 1);
    }
  }

  /** A line break and the indentation of depth d. */
  function Break(d: nat): string { "\n" + Spaces(2 * d) }

  lemma BreakSize(d: nat)
    ensures SizeOf(Break(d)) == Size(1 + 2 * d, 1)
  {
    SpacesSize(2 * d);
    assert ("\n" + Spaces(2 * d))[1..] == Spaces(2 * d);
  }

  function Quoted(s: string): string { "\"" + Closed(s) }

  /** json.dumps with sorted keys and an indent of two, for a value at depth d. */
  function Pretty(v: Json, d: nat): string
    decreases v, 2, 0
  {
    match v
    case JString(s) => Quoted(s)
    case JArray(items) => if items == [] then "[]" else "[" + Items(v, 0, d)
    case JObject(fields) => if fields == map[] then "{}" else "{" + Fields(v, Sorted(fields.Keys), d)
    case _ => Compact(v)
  }

  function Items(v: Json, i: nat, d: nat): string
    requires v.JArray? && i < |v.items|
    decreases v, 1, |v.items| - i
  {
    Break(d + 1) + Pretty(v.items[i], d + 1) + (if i + 1 == |v.items| then Break(d) + "]" else "," + Items(v, i + 1, d))
  }

  function Fields(v: Json, keys: seq<string>, d: nat): string
    requires v.JObject? && forall k :: k in keys ==> k in v.fields
    decreases v, 1, |keys|
  {
    if keys == [] then Break(d) + "}"
    else
      Break(d + 1) + Quoted(keys[0]) + ": " + Pretty(v.fields[keys[0]], d + 1)
      + (if |keys| == 1 then Break(d) + "}" else "," + Fields(v, keys[1..], d))
  }

  // ----- printing one level deeper adds two spaces per line break, and nothing else

  /** One level deeper. */
  function Deeper(s: Size): Size { Size(s.bytes + 2 * s.newlines, s.newlines) }

  lemma {:induction false} OneLine(s: string)
    requires forall i :: 0 <= i < |s| ==> s[i] >= ' '
    ensures Newlines(s) == 0
  {
    if s != [] { OneLine(s[1..]); }
  }

  lemma {:induction false} EscapedOneLine(s: string)
    ensures Newlines(Escape(s)) == 0
  {
    if s != [] {
      Join(EscapeChar(s[0]), Escape(s[1..]));
      OneLine(EscapeChar(s[0]));
      EscapedOneLine(s[1..]);
    }
  }

  lemma QuotedOneLine(s: string)
    ensures Newlines(Quoted(s)) == 0
  {
    EscapedOneLine(s);
    Join(Escape(s), "\"");
    Join("\"", Closed(s));
    assert Newlines("\"") == 0;
  }

  lemma ScalarOneLine(v: Json)
    requires v.JNull? || v.JBool? || v.JNumber?
    ensures Newlines(Compact(v)) == 0
  {
    OneLine(Compact(v));
  }

  lemma BreakDeeper(d: nat)
    ensures SizeOf(Break(d + 1)) == Deeper(SizeOf(Break(d)))
  {
    BreakSize(d);
    BreakSize(d + 1);
  }

  lemma {:induction false} PrettyDeeper(v: Json, d: nat)
    ensures SizeOf(Pretty(v, d + 1)) == Deeper(SizeOf(Pretty(v, d)))
    decreases v, 2, 0
  {
    hide Bytes, Newlines, Compact, Quoted, Items, Fields;
    match v {
      case JString(s) => QuotedOneLine(s);
      case JArray(items) =>
        if items == [] { Constant("[]"); } else {
          ItemsDeeper(v, 0, d);
          SizeJoin("[", Items(v, 0, d));
          SizeJoin("[", Items(v, 0, d + 1));
          Constant("[");
        }
      case JObject(fields) =>
        if fields == map[] { Constant("{}"); } else {
          FieldsDeeper(v, Sorted(fields.Keys), d);
          SizeJoin("{", Fields(v, Sorted(fields.Keys), d));
          SizeJoin("{", Fields(v, Sorted(fields.Keys), d + 1));
          Constant("{");
        }
      case _ => ScalarOneLine(v);
    }
  }

  lemma Constant(s: string)
    requires forall i :: 0 <= i < |s| ==> ' ' <= s[i] <= '~'
    ensures SizeOf(s) == Size(|s|, 0)
  {
    if s != [] { Constant(s[1..]); }
  }

  function AfterItem(v: Json, i: nat, d: nat): string
    requires v.JArray? && i < |v.items|
  {
    if i + 1 == |v.items| then Break(d) + "]" else "," + Items(v, i + 1, d)
  }

  lemma ItemsSize(v: Json, i: nat, d: nat)
    requires v.JArray? && i < |v.items|
    ensures SizeOf(Items(v, i, d)) ==
      Plus(Plus(SizeOf(Break(d + 1)), SizeOf(Pretty(v.items[i], d + 1))), SizeOf(AfterItem(v, i, d)))
    ensures SizeOf(AfterItem(v, i, d)) ==
      if i + 1 == |v.items| then Plus(SizeOf(Break(d)), Size(1, 0)) else Plus(Size(1, 0), SizeOf(Items(v, i + 1, d)))
  {
    hide Bytes, Newlines, Pretty, Break;
    SizeJoin(Break(d + 1), Pretty(v.items[i], d + 1));
    SizeJoin(Break(d + 1) + Pretty(v.items[i], d + 1), AfterItem(v, i, d));
    Constant("]");
    Constant(",");
    if i + 1 == |v.items| {
      SizeJoin(Break(d), "]");
    } else {
      SizeJoin(",", Items(v, i + 1, d));
    }
  }

  lemma {:induction false} ItemsDeeper(v: Json, i: nat, d: nat)
    requires v.JArray? && i < |v.items|
    ensures SizeOf(Items(v, i, d + 1)) == Deeper(SizeOf(Items(v, i, d)))
    decreases v, 1, |v.items| - i
  {
    hide SizeOf, Pretty, Break, Items, AfterItem;
    ItemsSize(v, i, d);
    ItemsSize(v, i, d + 1);
    BreakDeeper(d);
    BreakDeeper(d + 1);
    PrettyDeeper(v.items[i], d + 1);
    if i + 1 < |v.items| {
      ItemsDeeper(v, i + 1, d);
    }
  }

  function AfterField(v: Json, keys: seq<string>, d: nat): string
    requires v.JObject? && keys != [] && forall k :: k in keys ==> k in v.fields
  {
    if |keys| == 1 then Break(d) + "}" else "," + Fields(v, keys[1..], d)
  }

  lemma FieldsSize(v: Json, keys: seq<string>, d: nat)
    requires v.JObject? && keys != [] && forall k :: k in keys ==> k in v.fields
    ensures SizeOf(Fields(v, keys, d)) ==
      Plus(Plus(Plus(Plus(SizeOf(Break(d + 1)), SizeOf(Quoted(keys[0]))), Size(2, 0)),
                SizeOf(Pretty(v.fields[keys[0]], d + 1))), SizeOf(AfterField(v, keys, d)))
    ensures SizeOf(AfterField(v, keys, d)) ==
      if |keys| == 1 then Plus(SizeOf(Break(d)), Size(1, 0)) else Plus(Size(1, 0), SizeOf(Fields(v, keys[1..], d)))
  {
    hide Bytes, Newlines, Pretty, Break, Quoted;
    var b, q, t := Break(d + 1), Quoted(keys[0]), Pretty(v.fields[keys[0]], d + 1);
    SizeJoin(b, q);
    SizeJoin(b + q, ": ");
    SizeJoin(b + q + ": ", t);
    SizeJoin(b + q + ": " + t, AfterField(v, keys, d));
    Constant(": ");
    Constant("}");
    Constant(",");
    if |keys| == 1 {
      SizeJoin(Break(d), "}");
    } else {
      SizeJoin(",", Fields(v, keys[1..], d));
    }
  }

  lemma {:induction false} FieldsDeeper(v: Json, keys: seq<string>, d: nat)
    requires v.JObject? && forall k :: k in keys ==> k in v.fields
    ensures SizeOf(Fields(v, keys, d + 1)) == Deeper(SizeOf(Fields(v, keys, d)))
    decreases v, 1, |keys|
  {
    hide Bytes, Newlines, Pretty, Break, AfterField, Quoted;
    BreakDeeper(d);
    if keys == [] {
      SizeJoin(Break(d), "}");
      SizeJoin(Break(d + 1), "}");
      Constant("}");
    } else {
      FieldsSize(v, keys, d);
      FieldsSize(v, keys, d + 1);
      BreakDeeper(d + 1);
      QuotedOneLine(keys[0]);
      PrettyDeeper(v.fields[keys[0]], d + 1);
      if |keys| > 1 {
        FieldsDeeper(v, keys[1..], d);
      }
    }
  }

  // ----- what one more entry adds to the document

  /** An entry's lines, each behind four spaces, as the accounting counts them. */
  function NestedBytes(entry: Json): nat { Bytes(Pretty(entry, 0)) + 4 * (Newlines(Pretty(entry, 0)) + 1) }

  lemma NestedIsExact(entry: Json)
    ensures Bytes(Pretty(entry, 2)) + 4 == NestedBytes(entry)
  {
    hide Bytes, Newlines, Pretty;
    PrettyDeeper(entry, 0);
    PrettyDeeper(entry, 1);
  }

  lemma {:induction false} ItemsAppend(v: Json, w: Json, i: nat, d: nat, e: Json)
    requires v.JArray? && w.JArray? && i < |v.items| && w.items == v.items + [e]
    ensures Bytes(Items(w, i, d)) == Bytes(Items(v, i, d)) + 1 + Bytes(Break(d + 1)) + Bytes(Pretty(e, d + 1))
    decreases |v.items| - i
  {
    hide Bytes, Newlines, Pretty, Break, Items, AfterItem;
    ItemsSize(v, i, d);
    ItemsSize(w, i, d);
    if i + 1 < |v.items| {
      ItemsAppend(v, w, i + 1, d, e);
    } else {
      ItemsSize(w, i + 1, d);
    }
  }

  lemma ArrayAppend(rows: seq<Json>, e: Json, d: nat)
    ensures Bytes(Pretty(JArray(rows + [e]), d)) == Bytes(Pretty(JArray(rows), d))
      + (if rows == [] then Bytes(Break(d + 1)) + Bytes(Pretty(e, d + 1)) + Bytes(Break(d))
         else 1 + Bytes(Break(d + 1)) + Bytes(Pretty(e, d + 1)))
  {
    hide Bytes, Newlines, Break, Items, AfterItem;
    var v, w := JArray(rows), JArray(rows + [e]);
    SizeJoin("[", Items(w, 0, d));
    Constant("[");
    Constant("[]");
    if rows == [] {
      ItemsSize(w, 0, d);
    } else {
      SizeJoin("[", Items(v, 0, d));
      ItemsAppend(v, w, 0, d, e);
    }
  }

  /** Changing one member of an object changes the text by that member's change only. */
  lemma {:induction false} FieldsChange(v: Json, w: Json, k: string, keys: seq<string>, d: nat)
    requires v.JObject? && w.JObject? && k in v.fields && k in w.fields && w.fields == v.fields[k := w.fields[k]]
    requires (forall x :: x in keys ==> x in v.fields) && forall i, j :: 0 <= i < j < |keys| ==> keys[i] != keys[j]
    ensures Bytes(Fields(w, keys, d)) == Bytes(Fields(v, keys, d))
      + (if k in keys then Bytes(Pretty(w.fields[k], d + 1)) - Bytes(Pretty(v.fields[k], d + 1)) else 0)
    decreases |keys|
  {
    hide Bytes, Newlines, Pretty, Break, AfterField, Quoted;
    if keys != [] {
      FieldsSize(v, keys, d);
      FieldsSize(w, keys, d);
      if |keys| > 1 {
        FieldsChange(v, w, k, keys[1..], d);
      }
      assert k in keys <==> k == keys[0] || k in keys[1..];
    }
  }

  // ----- the manifest

  datatype Entry = Entry(key: string, sha256: string, size: nat)

  function Digits(n: nat): (t: string)
    ensures |t| > 0 && forall i :: 0 <= i < |t| ==> '0' <= t[i] <= '9'
  {
    if n < 10 then [('0' as int + n) as char] else Digits(n / 10) + [('0' as int + n % 10) as char]
  }

  function EntryJson(e: Entry): Json {
    JObject(map["key" := JString(e.key), "sha256" := JString(e.sha256), "size" := JNumber(Digits(e.size))])
  }

  function Rows(entries: seq<Entry>): seq<Json> {
    seq(|entries|, i requires 0 <= i < |entries| => EntryJson(entries[i]))
  }

  datatype Header = Header(created: string, bucket: string, prefix: string)

  function Document(h: Header, rows: seq<Json>): Json {
    JObject(map["format" := JString("makolet-raw-archive-backup-v2"), "created_at" := JString(h.created),
                "bucket" := JString(h.bucket), "key_prefix" := JString(h.prefix), "objects" := JArray(rows)])
  }

  function Payload(h: Header, rows: seq<Json>): string { Pretty(Document(h, rows), 0) + "\n" }

  lemma PayloadGrows(h: Header, rows: seq<Json>, e: Json)
    ensures Bytes(Payload(h, rows + [e])) == Bytes(Payload(h, rows)) + NestedBytes(e) + (if rows == [] then 4 else 2)
  {
    hide Bytes, Newlines, Pretty, Break, NestedBytes, Document, Sorted, Payload, Fields, Items;
    var v, w := Document(h, rows), Document(h, rows + [e]);
    DocumentFields(h, rows, e);
    DocumentSize(h, rows);
    DocumentSize(h, rows + [e]);
    FieldsChange(v, w, "objects", Sorted(v.fields.Keys), 0);
    ArrayAppend(rows, e, 1);
    NestedIsExact(e);
    BreakSize(1);
    BreakSize(2);
  }

  lemma DocumentFields(h: Header, rows: seq<Json>, e: Json)
    ensures var v, w := Document(h, rows), Document(h, rows + [e]);
      && v.JObject? && w.JObject? && "objects" in v.fields && v.fields["objects"] == JArray(rows)
      && w.fields == v.fields["objects" := JArray(rows + [e])] && w.fields.Keys == v.fields.Keys
  {
  }

  lemma DocumentSize(h: Header, rows: seq<Json>)
    ensures Document(h, rows).JObject?
    ensures Bytes(Payload(h, rows)) == 2 + Bytes(Fields(Document(h, rows), Sorted(Document(h, rows).fields.Keys), 0))
  {
    hide Fields, Sorted;
    var v := Document(h, rows);
    assert "objects" in v.fields;
    assert Pretty(v, 0) == "{" + Fields(v, Sorted(v.fields.Keys), 0);
    Join(Pretty(v, 0), "\n");
    Join("{", Fields(v, Sorted(v.fields.Keys), 0));
  }

  // ----- reading it back

  /** The text without the spaces and line breaks outside its strings. */
  function Unspaced(t: string): string {
    if t == [] then ""
    else if t[0] in {' ', '\n'} then Unspaced(t[1..])
    else if t[0] == '\"' then "\"" + InString(t[1..])
    else [t[0]] + Unspaced(t[1..])
  }

  /** The same from inside a string on. */
  function InString(t: string): string {
    if t == [] then ""
    else if t[0] == '\"' then "\"" + Unspaced(t[1..])
    else if t[0] == '\\' && |t| > 1 then t[..2] + InString(t[2..])
    else [t[0]] + InString(t[1..])
  }

  lemma CharKept(c: char, x: string)
    requires c != '\"' && c != '\\'
    ensures InString([c] + x) == [c] + InString(x)
  {
    assert ([c] + x)[1..] == x;
  }

  lemma EscapeKept(c: char, x: string)
    ensures InString(EscapeChar(c) + x) == EscapeChar(c) + InString(x)
  {
    hide InString;
    var e := EscapeChar(c);
    if |e| == 1 {
      CharKept(c, x);
    } else if |e| == 2 {
      PairKept(e[1], x);
      assert e == ['\\', e[1]];
    } else {
      var a, b := e[4], e[5];
      assert e == ['\\', 'u'] + (['0'] + (['0'] + ([a] + [b])));
      PairKept('u', ['0'] + (['0'] + ([a] + ([b] + x))));
      CharKept('0', ['0'] + ([a] + ([b] + x)));
      CharKept('0', [a] + ([b] + x));
      CharKept(a, [b] + x);
      CharKept(b, x);
      assert e + x == ['\\', 'u'] + (['0'] + (['0'] + ([a] + ([b] + x))));
    }
  }

  lemma PairKept(c: char, x: string)
    ensures InString(['\\', c] + x) == ['\\', c] + InString(x)
  {
    assert (['\\', c] + x)[..2] == ['\\', c] && (['\\', c] + x)[2..] == x;
  }

  /** A quoted string is kept as it is. */
  lemma {:induction false} ClosedKept(s: string, x: string)
    ensures InString(Closed(s) + x) == Closed(s) + Unspaced(x)
  {
    hide EscapeChar, Closed;
    ClosedStarts(s, x);
    ClosedStarts(s, Unspaced(x));
    if s == [] {
      assert ("\"" + x)[1..] == x;
    } else {
      ClosedKept(s[1..], x);
      EscapeKept(s[0], Closed(s[1..]) + x);
    }
  }

  lemma QuotedKept(s: string, x: string)
    ensures Unspaced(Quoted(s) + x) == Quoted(s) + Unspaced(x)
  {
    hide Closed;
    ClosedKept(s, x);
    assert (Quoted(s) + x)[1..] == Closed(s) + x;
    assert "\"" + (Closed(s) + Unspaced(x)) == Quoted(s) + Unspaced(x);
  }

  lemma {:induction false} SpacesGone(n: nat, x: string)
    ensures Unspaced(Spaces(n) + x) == Unspaced(x)
  {
    if n == 0 {
      assert Spaces(n) + x == x;
    } else {
      SpacesGone(n - 1, x);
      assert (Spaces(n) + x)[1..] == Spaces(n - 1) + x;
    }
  }

  lemma BreakGone(d: nat, x: string)
    ensures Unspaced(Break(d) + x) == Unspaced(x)
  {
    SpacesGone(2 * d, x);
    assert (Break(d) + x)[1..] == Spaces(2 * d) + x;
  }

  lemma {:induction false} PlainKept(t: string, x: string)
    requires forall i :: 0 <= i < |t| ==> t[i] !in {' ', '\n', '\"'}
    ensures Unspaced(t + x) == t + Unspaced(x)
  {
    if t == [] {
      assert t + x == x;
    } else {
      PlainKept(t[1..], x);
      assert (t + x)[1..] == t[1..] + x;
    }
  }

  /** Without its layout the indented text is the compact one. */
  lemma {:induction false} LayoutIsAll(v: Json, d: nat, x: string)
    ensures Unspaced(Pretty(v, d) + x) == Compact(v) + Unspaced(x)
    decreases v, 2, 0
  {
    hide Items, Fields, Elements, Members, Unspaced, Sorted;
    match v {
      case JString(s) => QuotedKept(s, x);
      case JArray(items) =>
        if items == [] {
          PlainKept("[]", x);
          assert Elements(v, 0) == "]" by { NoElements(v); }
        } else {
          ItemsRead(v, 0, d, x);
          PlainKept("[", Items(v, 0, d) + x);
          assert "[" + Items(v, 0, d) + x == "[" + (Items(v, 0, d) + x);
        }
      case JObject(fields) =>
        var keys := Sorted(fields.Keys);
        if fields == map[] {
          PlainKept("{}", x);
          NoMembers(v);
        } else {
          assert keys != [] by { var k :| k in fields; assert k in keys; }
          FieldsRead(v, keys, d, x);
          PlainKept("{", Fields(v, keys, d) + x);
          assert "{" + Fields(v, keys, d) + x == "{" + (Fields(v, keys, d) + x);
        }
      case _ => PlainKept(Compact(v), x);
    }
  }

  lemma NoElements(v: Json)
    requires v.JArray? && v.items == []
    ensures Elements(v, 0) == "]"
  {
  }

  lemma NoMembers(v: Json)
    requires v.JObject? && v.fields == map[]
    ensures Sorted(v.fields.Keys) == [] && Members(v, []) == "}"
  {
  }

  lemma {:induction false} ItemsRead(v: Json, i: nat, d: nat, x: string)
    requires v.JArray? && i < |v.items|
    ensures Unspaced(Items(v, i, d) + x) == Elements(v, i) + Unspaced(x)
    decreases v, 1, |v.items| - i
  {
    hide Unspaced, Pretty, Compact, Break;
    var p, after := Pretty(v.items[i], d + 1), AfterItem(v, i, d);
    assert Items(v, i, d) + x == Break(d + 1) + (p + (after + x));
    BreakGone(d + 1, p + (after + x));
    LayoutIsAll(v.items[i], d + 1, after + x);
    if i + 1 == |v.items| {
      assert after + x == Break(d) + ("]" + x);
      BreakGone(d, "]" + x);
      PlainKept("]", x);
    } else {
      assert after + x == "," + (Items(v, i + 1, d) + x);
      PlainKept(",", Items(v, i + 1, d) + x);
      ItemsRead(v, i + 1, d, x);
    }
  }

  lemma {:induction false} FieldsRead(v: Json, keys: seq<string>, d: nat, x: string)
    requires v.JObject? && keys != [] && forall k :: k in keys ==> k in v.fields
    ensures Unspaced(Fields(v, keys, d) + x) == Members(v, keys) + Unspaced(x)
    decreases v, 1, |keys|
  {
    hide Unspaced, Pretty, Compact, Break, Closed;
    var k, p, after := keys[0], Pretty(v.fields[keys[0]], d + 1), AfterField(v, keys, d);
    var value := p + (after + x);
    assert Fields(v, keys, d) + x == Break(d + 1) + (Quoted(k) + (":" + (Spaces(1) + value)));
    BreakGone(d + 1, Quoted(k) + (":" + (Spaces(1) + value)));
    QuotedKept(k, ":" + (Spaces(1) + value));
    PlainKept(":", Spaces(1) + value);
    SpacesGone(1, value);
    LayoutIsAll(v.fields[k], d + 1, after + x);
    if |keys| == 1 {
      assert after + x == Break(d) + ("}" + x);
      BreakGone(d, "}" + x);
      PlainKept("}", x);
    } else {
      assert after + x == "," + (Fields(v, keys[1..], d) + x);
      PlainKept(",", Fields(v, keys[1..], d) + x);
      FieldsRead(v, keys[1..], d, x);
    }
  }

  // ----- what the document says

  function Number(t: string): nat
    requires forall i :: 0 <= i < |t| ==> '0' <= t[i] <= '9'
  {
    if t == [] then 0 else 10 * Number(t[..|t| - 1]) + (t[|t| - 1] as int - '0' as int)
  }

  lemma {:induction false} DigitsRead(n: nat)
    ensures Number(Digits(n)) == n
  {
    if n >= 10 {
      DigitsRead(n / 10);
      assert Digits(n)[..|Digits(n)| - 1] == Digits(n / 10);
    } else {
      assert Digits(n)[..0] == [];
    }
  }

  /** The value lists this object under these three names. */
  ghost predicate Lists(v: Json, e: Entry) {
    && v.JObject? && v.fields.Keys == {"key", "sha256", "size"}
    && v.fields["key"] == JString(e.key) && v.fields["sha256"] == JString(e.sha256)
    && v.fields["size"].JNumber?
    && var t: string := v.fields["size"].token;
       (forall i :: 0 <= i < |t| ==> '0' <= t[i] <= '9') && Number(t) == e.size
  }

  /** The value names its format, tells when and of which bucket and prefix it was made, and
      lists exactly these objects in this order. */
  ghost predicate Inventory(v: Json, h: Header, entries: seq<Entry>) {
    && v.JObject? && v.fields.Keys == {"format", "created_at", "bucket", "key_prefix", "objects"}
    && v.fields["format"] == JString("makolet-raw-archive-backup-v2")
    && v.fields["created_at"] == JString(h.created)
    && v.fields["bucket"] == JString(h.bucket) && v.fields["key_prefix"] == JString(h.prefix)
    && v.fields["objects"].JArray? && |v.fields["objects"].items| == |entries|
    && forall i :: 0 <= i < |entries| ==> Lists(v.fields["objects"].items[i], entries[i])
  }

  lemma DocumentSays(h: Header, entries: seq<Entry>)
    ensures Inventory(Document(h, Rows(entries)), h, entries)
  {
    hide Digits, Number;
    forall i | 0 <= i < |entries| ensures Lists(EntryJson(entries[i]), entries[i]) {
      DigitsRead(entries[i].size);
    }
  }

  /** Without its layout the text is the compact text of one value only, and that value is
      the inventory. */
  ghost predicate Tells(text: string, h: Header, entries: seq<Entry>) {
    exists v ::
      && Unspaced(text) == Compact(v) && Inventory(v, h, entries)
      && forall w :: Unspaced(text) == Compact(w) ==> w == v
  }

  lemma PayloadTells(h: Header, entries: seq<Entry>)
    ensures Tells(Payload(h, Rows(entries)), h, entries)
  {
    hide Pretty, Compact, Inventory, Document;
    var v := Document(h, Rows(entries));
    LayoutIsAll(v, 0, "\n");
    BreakGone(0, "");
    assert Break(0) + "" == "\n" && Unspaced("") == "" && Compact(v) + "" == Compact(v);
    DocumentSays(h, entries);
    forall w | Compact(v) == Compact(w) ensures w == v { CompactInjective(v, w); }
  }

  // ----- building it within limits

  /** The checksum file: 64 hexadecimal digits, two spaces, the manifest's name, a line break. */
  const CHECKSUM_BYTES := 64 + 2 + |"manifest.json"| + 1
  /** The authentication file: its prefix, 64 hexadecimal digits, a line break. */
  const AUTHENTICATION_BYTES := |"makolet-raw-archive-manifest-hmac-sha256-v1:"| + 64 + 1

  datatype Limits = Limits(objects: nat, objectBytes: nat, manifestBytes: nat, backupBytes: nat)

  datatype Problem =
    | NotOrdered | TooManyObjects | Mismatch | ObjectTooLarge | ManifestTooLarge | BackupTooLarge | Inconsistent

  datatype Result =
    | Built(payload: string, accounted: nat, objectBytes: nat)
    | Rejected(problem: Problem)

  predicate Ascending(entries: seq<Entry>) {
    forall i :: 0 < i < |entries| ==> !Below(entries[i].key, entries[i - 1].key)
  }

  function TotalSize(entries: seq<Entry>): nat {
    if entries == [] then 0 else TotalSize(entries[..|entries| - 1]) + entries[|entries| - 1].size
  }

  /** The inventories are one ordered sequence, and everything fits. The size limits
      are only ever looked at when there is an entry. */
  ghost predicate Acceptable(h: Header, authoritative: seq<Entry>, listed: seq<Entry>, limits: Limits) {
    && authoritative == listed && Ascending(listed) && |listed| <= limits.objects
    && (forall i :: 0 <= i < |listed| ==> listed[i].size <= limits.objectBytes)
    && (listed != [] ==> Fits(h, listed, limits))
  }

  ghost predicate Fits(h: Header, entries: seq<Entry>, limits: Limits) {
    var bytes := Bytes(Payload(h, Rows(entries)));
    && bytes <= limits.manifestBytes
    && TotalSize(entries) + bytes + CHECKSUM_BYTES + AUTHENTICATION_BYTES <= limits.backupBytes
  }

  lemma RowsSnoc(entries: seq<Entry>, i: nat)
    requires i < |entries|
    ensures Rows(entries[..i + 1]) == Rows(entries[..i]) + [EntryJson(entries[i])]
    ensures TotalSize(entries[..i + 1]) == TotalSize(entries[..i]) + entries[i].size
  {
    assert entries[..i + 1][..i] == entries[..i];
  }

  /** A prefix that does not fit is never rescued by more entries. */
  lemma {:induction false} OnlyGrows(h: Header, entries: seq<Entry>, i: nat, limits: Limits)
    requires i <= |entries| && Fits(h, entries, limits)
    ensures Fits(h, entries[..i], limits)
    decreases |entries| - i
  {
    hide Payload, Bytes, EntryJson, NestedBytes;
    if i == |entries| {
      assert entries[..i] == entries;
    } else {
      OnlyGrows(h, entries, i + 1, limits);
      RowsSnoc(entries, i);
      PayloadGrows(h, Rows(entries[..i]), EntryJson(entries[i]));
    }
  }

  /** The first i entries of both inventories were accepted. */
  ghost predicate Accepted(h: Header, authoritative: seq<Entry>, listed: seq<Entry>, limits: Limits, i: nat) {
    && i <= |authoritative| && i <= |listed|
    && Acceptable(h, authoritative[..i], listed[..i], limits)
  }

  /** Whatever is acceptable as a whole is acceptable up to every point. */
  lemma AcceptableUpTo(h: Header, authoritative: seq<Entry>, listed: seq<Entry>, limits: Limits, i: nat)
    requires Acceptable(h, authoritative, listed, limits) && i <= |listed|
    ensures Acceptable(h, authoritative[..i], listed[..i], limits)
  {
    hide Fits, Below;
    if listed != [] {
      OnlyGrows(h, listed, i, limits);
    }
  }

  /** What the entry at i must meet for the accepted prefix to reach past it. */
  ghost predicate Next(h: Header, authoritative: seq<Entry>, listed: seq<Entry>, limits: Limits, i: nat) {
    && i < |authoritative| && i < |listed| && authoritative[i] == listed[i]
    && (i > 0 ==> !Below(listed[i].key, listed[i - 1].key)) && i + 1 <= limits.objects
    && listed[i].size <= limits.objectBytes && Fits(h, listed[..i + 1], limits)
  }

  lemma AcceptedNext(h: Header, authoritative: seq<Entry>, listed: seq<Entry>, limits: Limits, i: nat)
    requires Accepted(h, authoritative, listed, limits, i)
    ensures Accepted(h, authoritative, listed, limits, i + 1) <==> Next(h, authoritative, listed, limits, i)
  {
    hide Fits, Below;
    if i < |authoritative| && i < |listed| {
      assert authoritative[..i + 1] == authoritative[..i] + [authoritative[i]];
      assert listed[..i + 1] == listed[..i] + [listed[i]];
      assert authoritative[..i + 1][i] == authoritative[i] && listed[..i + 1][i] == listed[i];
    }
  }

  lemma AcceptedStart(h: Header, authoritative: seq<Entry>, listed: seq<Entry>, limits: Limits)
    ensures Accepted(h, authoritative, listed, limits, 0)
    ensures Rows(listed[..0]) == [] && TotalSize(listed[..0]) == 0
  {
  }

  /** If the entry at i is refused, so are the inventories. */
  lemma RefusedAt(h: Header, authoritative: seq<Entry>, listed: seq<Entry>, limits: Limits, i: nat)
    requires Accepted(h, authoritative, listed, limits, i) && !Next(h, authoritative, listed, limits, i)
    requires i < |authoritative| || i < |listed|
    ensures !Acceptable(h, authoritative, listed, limits)
  {
    hide Next, Fits, Below;
    AcceptedNext(h, authoritative, listed, limits, i);
    if Acceptable(h, authoritative, listed, limits) {
      AcceptableUpTo(h, authoritative, listed, limits, i + 1);
    }
  }

  method BoundedManifest(h: Header, authoritative: seq<Entry>, listed: seq<Entry>, limits: Limits) returns (r: Result)
    ensures r.Built? <==> Acceptable(h, authoritative, listed, limits)
    ensures r.Built? ==>
      && r.payload == Payload(h, Rows(listed)) && r.accounted == Bytes(r.payload) && r.objectBytes == TotalSize(listed)
    ensures r.Built? ==> Tells(r.payload, h, listed)
    ensures r != Rejected(Inconsistent)
  {
    hide Payload, Bytes, EntryJson, NestedBytes, Below, Newlines, Pretty, Accepted, Acceptable, Rows, TotalSize,
         Tells;
    var rows: seq<Json> := [];
    var accounted := Bytes(Payload(h, rows));
    var objectBytes: nat := 0;
    var i := 0;
    AcceptedStart(h, authoritative, listed, limits);
    while i < |authoritative| || i < |listed|
      invariant i <= |authoritative| && i <= |listed| && Accepted(h, authoritative, listed, limits, i)
      invariant rows == Rows(listed[..i]) && accounted == Bytes(Payload(h, rows))
      invariant objectBytes == TotalSize(listed[..i])
      decreases |listed| - i
    {
      var problem := Examine(authoritative, listed, limits, i);
      if problem.Some? {
        RefusedAt(h, authoritative, listed, limits, i);
        return Rejected(problem.value);
      }
      var entry := authoritative[i];
      RowsSnoc(listed, i);
      PayloadGrows(h, rows, EntryJson(entry));
      accounted := accounted + NestedBytes(EntryJson(entry)) + (if rows == [] then 4 else 2);
      objectBytes := objectBytes + entry.size;
      rows := rows + [EntryJson(entry)];
      if accounted > limits.manifestBytes {
        RefusedAt(h, authoritative, listed, limits, i);
        return Rejected(ManifestTooLarge);
      }
      if objectBytes + accounted + CHECKSUM_BYTES + AUTHENTICATION_BYTES > limits.backupBytes {
        RefusedAt(h, authoritative, listed, limits, i);
        return Rejected(BackupTooLarge);
      }
      AcceptedNext(h, authoritative, listed, limits, i);
      i := i + 1;
    }
    AcceptedAll(h, authoritative, listed, limits);
    PayloadTells(h, listed);
    var payload := Payload(h, rows);
    r := if Bytes(payload) != accounted then Rejected(Inconsistent) else Built(payload, accounted, objectBytes);
  }

  lemma AcceptedAll(h: Header, authoritative: seq<Entry>, listed: seq<Entry>, limits: Limits)
    requires |authoritative| == |listed| && Accepted(h, authoritative, listed, limits, |listed|)
    ensures Acceptable(h, authoritative, listed, limits) && listed[..|listed|] == listed
  {
    hide Fits, Below;
    assert authoritative[..|listed|] == authoritative && listed[..|listed|] == listed;
  }

  /** The checks on the entry at i that do not depend on what came before but the
      previous key: the listing's own come first, then the comparison. */
  function Examine(authoritative: seq<Entry>, listed: seq<Entry>, limits: Limits, i: nat): (p: Option<Problem>)
    requires i < |authoritative| || i < |listed|
    ensures p == None <==>
      && i < |authoritative| && i < |listed| && authoritative[i] == listed[i] && i + 1 <= limits.objects
      && listed[i].size <= limits.objectBytes && (i > 0 ==> !Below(listed[i].key, listed[i - 1].key))
    ensures p != Some(Inconsistent)
  {
    if 0 < i < |listed| && Below(listed[i].key, listed[i - 1].key) then Some(NotOrdered)
    else if i < |listed| && i + 1 > limits.objects then Some(TooManyObjects)
    else if i >= |authoritative| || i >= |listed| || authoritative[i] != listed[i] then Some(Mismatch)
    else if authoritative[i].size > limits.objectBytes then Some(ObjectTooLarge)
    else None
  }
}
