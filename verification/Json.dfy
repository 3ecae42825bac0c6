/** JSON values as Python's json module sees them, the compact printer with
    sorted keys, and the fact that its output can be read in one way only. */
module Json {

  predicate NumberChar(c: char) { '0' <= c <= '9' || c in "+-.eE" }

  /** How Python renders a finite number: equal tokens are equal values of one type. */
  type Token = t: string | |t| > 0 && forall i :: 0 <= i < |t| ==> NumberChar(t[i]) witness "0"

  datatype Json =
    | JNull
    | JBool(b: bool)
    | JNumber(token: Token)
    | JString(s: string)
    | JArray(items: seq<Json>)
    | JObject(fields: map<string, Json>)

  // ----- order of strings by code point

  predicate Below(a: string, b: string) {
    a == [] || (b != [] && (a[0] < b[0] || (a[0] == b[0] && Below(a[1..], b[1..]))))
  }

  lemma {:induction false} BelowTotal(a: string, b: string)
    ensures Below(a, b) || Below(b, a)
    ensures Below(a, b) && Below(b, a) ==> a == b
  {
    if a != [] && b != [] && a[0] == b[0] {
      BelowTotal(a[1..], b[1..]);
      assert a == [a[0]] + a[1..] && b == [b[0]] + b[1..];
    }
  }

  lemma {:induction false} BelowTransitive(a: string, b: string, c: string)
    requires Below(a, b) && Below(b, c)
    ensures Below(a, c)
  {
    if a != [] && a[0] == b[0] == c[0] {
      BelowTransitive(a[1..], b[1..], c[1..]);
    }
  }

  predicate IsLeast(k: string, keys: set<string>) { k in keys && forall x :: x in keys ==> Below(k, x) }

  lemma {:induction false} LeastExists(keys: set<string>)
    requires keys != {}
    ensures exists k :: IsLeast(k, keys)
    decreases |keys|
  {
    var k :| k in keys;
    BelowTotal(k, k);
    if keys == {k} {
      assert IsLeast(k, keys);
    } else {
      var rest := keys - {k};
      LeastExists(rest);
      var r :| IsLeast(r, rest);
      BelowTotal(k, r);
      var least := if Below(k, r) then k else r;
      forall x | x in keys ensures Below(least, x) {
        if x != k && least == k { BelowTransitive(k, r, x); }
      }
      assert IsLeast(least, keys);
    }
  }

  /** The keys in ascending order, each once. */
  function Sorted(keys: set<string>): (ks: seq<string>)
    ensures forall k :: k in ks <==> k in keys
    ensures forall i, j :: 0 <= i < j < |ks| ==> ks[i] != ks[j] && Below(ks[i], ks[j])
    decreases |keys|
  {
    if keys == {} then []
    else
      LeastExists(keys);
      assert forall a, b :: IsLeast(a, keys) && IsLeast(b, keys) ==> a == b by {
        forall a, b | IsLeast(a, keys) && IsLeast(b, keys) ensures a == b { BelowTotal(a, b); }
      }
      var k :| k in keys && IsLeast(k, keys);
      [k] + Sorted(keys - {k})
  }

  // ----- quoting

  function HexDigit(n: nat): char
    requires n < 16
  {
    if n < 10 then ('0' as int + n) as char else ('a' as int + (n - 10)) as char
  }

  /** Control characters, the quote and the backslash are escaped; everything else is kept. */
  function EscapeChar(c: char): (e: string)
    ensures 1 <= |e| && e[0] != '\"'
    ensures forall i :: 0 <= i < |e| ==> e[i] >= ' '
  {
    if c == '\"' then "\\\""
    else if c == '\\' then "\\\\"
    else if c == '\n' then "\\n"
    else if c == '\r' then "\\r"
    else if c == '\t' then "\\t"
    else if c as int == 8 then "\\b"
    else if c as int == 12 then "\\f"
    else if c < ' ' then "\\u00" + [HexDigit(c as int / 16)] + [HexDigit(c as int % 16)]
    else [c]
  }

  function Escape(s: string): string {
    if s == [] then "" else EscapeChar(s[0]) + Escape(s[1..])
  }

  /** Escaped text and its closing quote. */
  function Closed(s: string): string { Escape(s) + "\"" }

  lemma ClosedCons(s: string)
    requires s != []
    ensures Closed(s) == EscapeChar(s[0]) + Closed(s[1..])
  {
    assert EscapeChar(s[0]) + Escape(s[1..]) + "\"" == EscapeChar(s[0]) + (Escape(s[1..]) + "\"");
  }

  /** One character's escape is never the start of another's. */
  lemma EscapesApart(c: char, d: char, x: string, y: string)
    requires EscapeChar(c) + x == EscapeChar(d) + y
    ensures c == d && x == y
  {
    var l, r := EscapeChar(c) + x, EscapeChar(d) + y;
    assert l[0] == EscapeChar(c)[0] && r[0] == EscapeChar(d)[0];
    if |EscapeChar(c)| > 1 && |EscapeChar(d)| > 1 {
      assert l[1] == EscapeChar(c)[1] && r[1] == EscapeChar(d)[1];
      if |EscapeChar(c)| == 6 && |EscapeChar(d)| == 6 {
        assert l[4] == EscapeChar(c)[4] && r[4] == EscapeChar(d)[4];
        assert l[5] == EscapeChar(c)[5] && r[5] == EscapeChar(d)[5];
        assert c as int / 16 == d as int / 16 && c as int % 16 == d as int % 16;
        assert c as int == d as int;
      }
    }
    assert c == d;
    assert x == l[|EscapeChar(c)|..] && y == r[|EscapeChar(d)|..];
  }

  lemma ClosedStarts(s: string, x: string)
    ensures s == [] ==> Closed(s) + x == "\"" + x
    ensures s != [] ==> |Closed(s) + x| > 0 && (Closed(s) + x)[0] != '\"'
    ensures s != [] ==> Closed(s) + x == EscapeChar(s[0]) + (Closed(s[1..]) + x)
  {
    hide EscapeChar;
    if s != [] { ClosedCons(s); }
  }

  lemma {:induction false} ClosedApart(s: string, t: string, x: string, y: string)
    requires Closed(s) + x == Closed(t) + y
    ensures s == t && x == y
    decreases |s|
  {
    hide EscapeChar, Escape, Closed;
    ClosedStarts(s, x);
    ClosedStarts(t, y);
    if s == [] && t == [] {
      assert x == ("\"" + x)[1..] && y == ("\"" + y)[1..];
    } else if s != [] && t != [] {
      EscapesApart(s[0], t[0], Closed(s[1..]) + x, Closed(t[1..]) + y);
      ClosedApart(s[1..], t[1..], x, y);
      assert s == [s[0]] + s[1..] && t == [t[0]] + t[1..];
    }
  }

  // ----- the compact printer

  /** json.dumps with sorted keys and separators "," and ":". */
  function Compact(v: Json): (text: string)
    ensures |text| > 0 && text[0] !in ",]}"
    decreases v, 2, 0
  {
    match v
    case JNull => "null"
    case JBool(b) => if b then "true" else "false"
    case JNumber(token) => token
    case JString(s) => "\"" + Closed(s)
    case JArray(items) => "[" + Elements(v, 0)
    case JObject(fields) => "{" + Members(v, Sorted(fields.Keys))
  }

  /** The elements from index i on, and the closing bracket. */
  function Elements(v: Json, i: nat): string
    requires v.JArray? && i <= |v.items|
    decreases v, 1, |v.items| - i
  {
    if i == |v.items| then "]"
    else Compact(v.items[i]) + (if i + 1 == |v.items| then "]" else "," + Elements(v, i + 1))
  }

  /** The members named by `keys`, in that order, and the closing brace. */
  function Members(v: Json, keys: seq<string>): string
    requires v.JObject? && forall k :: k in keys ==> k in v.fields
    decreases v, 1, |keys|
  {
    if keys == [] then "}"
    else
      "\"" + Closed(keys[0]) + ":" + Compact(v.fields[keys[0]])
      + (if |keys| == 1 then "}" else "," + Members(v, keys[1..]))
  }

  // ----- unique reading

  /** What may follow a value: nothing, or a separator. */
  predicate Delimited(x: string) { x == [] || x[0] in ",]}" }

  /** How many number characters a text starts with. */
  function Munch(text: string): nat {
    if text == [] || !NumberChar(text[0]) then 0 else 1 + Munch(text[1..])
  }

  lemma {:induction false} MunchToken(a: string, x: string)
    requires Delimited(x) && forall i :: 0 <= i < |a| ==> NumberChar(a[i])
    ensures Munch(a + x) == |a|
  {
    if a == [] {
      assert a + x == x;
    } else {
      assert (a + x)[1..] == a[1..] + x;
      MunchToken(a[1..], x);
    }
  }

  lemma TokensApart(a: Token, b: Token, x: string, y: string)
    requires a + x == b + y && Delimited(x) && Delimited(y)
    ensures a == b && x == y
  {
    MunchToken(a, x);
    MunchToken(b, y);
    assert a == (a + x)[..|a|] && b == (b + y)[..|b|];
    assert x == (a + x)[|a|..] && y == (b + y)[|b|..];
  }

  /** Which kind of value a text starts. */
  function Shape(v: Json): nat {
    match v
    case JNull => 0
    case JBool(b) => if b then 1 else 2
    case JNumber(_) => 3
    case JString(_) => 4
    case JArray(_) => 5
    case JObject(_) => 6
  }

  function Lead(c: char): nat {
    if c == 'n' then 0 else if c == 't' then 1 else if c == 'f' then 2
    else if c == '\"' then 4 else if c == '[' then 5 else if c == '{' then 6 else 3
  }

  lemma LeadsApart(v: Json, x: string)
    ensures Lead((Compact(v) + x)[0]) == Shape(v)
  {
    if v.JNumber? { assert NumberChar(v.token[0]); }
  }

  /** Dropping a common head. */
  lemma Behead(c: char, x: string, y: string)
    requires [c] + x == [c] + y
    ensures x == y
  {
    assert x == ([c] + x)[1..] && y == ([c] + y)[1..];
  }

  /** A value's text, followed by a separator or nothing, can be read in one way only. */
  lemma {:induction false} ReadsOnce(v: Json, w: Json, x: string, y: string)
    requires Compact(v) + x == Compact(w) + y && Delimited(x) && Delimited(y)
    ensures v == w && x == y
    decreases v, 2, 0
  {
    hide Elements, Members, Closed, Sorted;
    LeadsApart(v, x);
    LeadsApart(w, y);
    match v {
      case JNull => assert x == (Compact(v) + x)[4..] && y == (Compact(w) + y)[4..];
      case JBool(_) => assert x == (Compact(v) + x)[|Compact(v)|..] && y == (Compact(w) + y)[|Compact(w)|..];
      case JNumber(a) => TokensApart(a, w.token, x, y);
      case JString(s) =>
        assert "\"" + Closed(s) + x == "\"" + (Closed(s) + x) && "\"" + Closed(w.s) + y == "\"" + (Closed(w.s) + y);
        Behead('\"', Closed(s) + x, Closed(w.s) + y);
        ClosedApart(s, w.s, x, y);
      case JArray(items) =>
        assert "[" + Elements(v, 0) + x == "[" + (Elements(v, 0) + x);
        assert "[" + Elements(w, 0) + y == "[" + (Elements(w, 0) + y);
        Behead('[', Elements(v, 0) + x, Elements(w, 0) + y);
        ElementsReadOnce(v, w, 0, 0, x, y);
        assert v.items[0..] == v.items && w.items[0..] == w.items;
      case JObject(fields) =>
        var ks, ls := Sorted(fields.Keys), Sorted(w.fields.Keys);
        assert "{" + Members(v, ks) + x == "{" + (Members(v, ks) + x);
        assert "{" + Members(w, ls) + y == "{" + (Members(w, ls) + y);
        Behead('{', Members(v, ks) + x, Members(w, ls) + y);
        MembersReadOnce(v, w, ks, ls, x, y);
        assert fields.Keys == w.fields.Keys;
        assert fields == w.fields;
    }
  }

  lemma {:induction false} ElementsReadOnce(v: Json, w: Json, i: nat, j: nat, x: string, y: string)
    requires v.JArray? && w.JArray? && i <= |v.items| && j <= |w.items|
    requires Elements(v, i) + x == Elements(w, j) + y
    ensures v.items[i..] == w.items[j..] && x == y
    decreases v, 1, |v.items| - i
  {
    hide Compact;
    ElementsStart(v, i, x);
    ElementsStart(w, j, y);
    if i == |v.items| {
      Behead(']', x, y);
    } else {
      var p, q := AfterElement(v, i) + x, AfterElement(w, j) + y;
      assert Elements(v, i) + x == Compact(v.items[i]) + p && Elements(w, j) + y == Compact(w.items[j]) + q;
      ReadsOnce(v.items[i], w.items[j], p, q);
      assert p[0] == AfterElement(v, i)[0] && q[0] == AfterElement(w, j)[0];
      if i + 1 == |v.items| {
        Behead(']', x, y);
      } else {
        assert p == "," + (Elements(v, i + 1) + x) && q == "," + (Elements(w, j + 1) + y);
        Behead(',', Elements(v, i + 1) + x, Elements(w, j + 1) + y);
        ElementsReadOnce(v, w, i + 1, j + 1, x, y);
      }
      assert v.items[i..] == [v.items[i]] + v.items[i + 1..] && w.items[j..] == [w.items[j]] + w.items[j + 1..];
    }
  }

  function AfterElement(v: Json, i: nat): string
    requires v.JArray? && i < |v.items|
  {
    if i + 1 == |v.items| then "]" else "," + Elements(v, i + 1)
  }

  lemma ElementsStart(v: Json, i: nat, x: string)
    requires v.JArray? && i <= |v.items|
    ensures |Elements(v, i) + x| > 0 && ((Elements(v, i) + x)[0] == ']' <==> i == |v.items|)
  {
    hide Compact;
  }

  function AfterMember(v: Json, keys: seq<string>): string
    requires v.JObject? && keys != [] && forall k :: k in keys ==> k in v.fields
  {
    if |keys| == 1 then "}" else "," + Members(v, keys[1..])
  }

  lemma Reassociate(c: string, t: string, a: string, x: string)
    ensures "\"" + c + ":" + t + a + x == "\"" + (c + (":" + (t + (a + x))))
  {
  }

  lemma MembersStart(v: Json, keys: seq<string>, x: string)
    requires v.JObject? && forall k :: k in keys ==> k in v.fields
    ensures |Members(v, keys) + x| > 0 && ((Members(v, keys) + x)[0] == '}' <==> keys == [])
    ensures keys == [] ==> Members(v, keys) + x == "}" + x
    ensures keys != [] ==>
      Members(v, keys) + x == "\"" + (Closed(keys[0]) + (":" + (Compact(v.fields[keys[0]]) + (AfterMember(v, keys) + x))))
  {
    hide Compact, Closed;
    if keys != [] {
      Reassociate(Closed(keys[0]), Compact(v.fields[keys[0]]), AfterMember(v, keys), x);
    }
  }

  lemma {:induction false} MembersReadOnce(v: Json, w: Json, ks: seq<string>, ls: seq<string>, x: string, y: string)
    requires v.JObject? && w.JObject?
    requires (forall k :: k in ks ==> k in v.fields) && (forall k :: k in ls ==> k in w.fields)
    requires Members(v, ks) + x == Members(w, ls) + y
    ensures ks == ls && x == y && forall k :: k in ks ==> v.fields[k] == w.fields[k]
    decreases v, 1, |ks|
  {
    hide Compact, Closed, Members;
    MembersStart(v, ks, x);
    MembersStart(w, ls, y);
    if ks == [] {
      Behead('}', x, y);
    } else {
      var p, q := AfterMember(v, ks) + x, AfterMember(w, ls) + y;
      MemberReadOnce(v.fields[ks[0]], w.fields[ls[0]], ks[0], ls[0], p, q);
      assert Delimited(p) && Delimited(q);
      ReadsOnce(v.fields[ks[0]], w.fields[ls[0]], p, q);
      assert p[0] == AfterMember(v, ks)[0] && q[0] == AfterMember(w, ls)[0];
      if |ks| == 1 {
        Behead('}', x, y);
        assert ks == [ks[0]] && ls == [ls[0]];
      } else {
        assert p == "," + (Members(v, ks[1..]) + x) && q == "," + (Members(w, ls[1..]) + y);
        Behead(',', Members(v, ks[1..]) + x, Members(w, ls[1..]) + y);
        MembersReadOnce(v, w, ks[1..], ls[1..], x, y);
        assert ks == [ks[0]] + ks[1..] && ls == [ls[0]] + ls[1..];
      }
    }
  }

  lemma MemberReadOnce(a: Json, b: Json, k: string, l: string, p: string, q: string)
    requires "\"" + (Closed(k) + (":" + (Compact(a) + p))) == "\"" + (Closed(l) + (":" + (Compact(b) + q)))
    ensures k == l && Compact(a) + p == Compact(b) + q
  {
    hide Compact, Closed;
    Behead('\"', Closed(k) + (":" + (Compact(a) + p)), Closed(l) + (":" + (Compact(b) + q)));
    ClosedApart(k, l, ":" + (Compact(a) + p), ":" + (Compact(b) + q));
    Behead(':', Compact(a) + p, Compact(b) + q);
  }

  /** The compact text identifies the value. */
  lemma CompactInjective(v: Json, w: Json)
    requires Compact(v) == Compact(w)
    ensures v == w
  {
    assert Compact(v) + [] == Compact(v) && Compact(w) + [] == Compact(w);
    ReadsOnce(v, w, [], []);
  }
}
