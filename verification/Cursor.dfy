/** Public pagination cursors: a position and some state bound to one route and one
    set of filters, and the walk over a history whose window is fixed by its first page. */
module Cursor {
  import opened Prelude
  import opened Json
  import Base64Url

  datatype Result<+T> = Ok(value: T) | Invalid | TooWide

  datatype Scope = Scope(route: string, fingerprint: string)

  datatype Decoded = Decoded(position: Option<string>, state: map<string, string>)

  /** How payloads are written and read, and the digest over the body. */
  datatype Codec = Codec(
    dumps: Json -> seq<Byte>,
    loads: seq<Byte> -> Option<Json>,
    digest: seq<Byte> -> string)

  predicate HexChar(c: char) { '0' <= c <= '9' || 'a' <= c <= 'f' }

  ghost predicate Faithful(codec: Codec) {
    && (forall scope, position, state ::
         var v := Payload(scope, position, state); codec.loads(codec.dumps(v)) == Some(v))
    && (forall b :: Hexadecimal(codec.digest(b)))
  }

  predicate Hexadecimal(d: string) { |d| == 64 && forall i :: 0 <= i < |d| ==> HexChar(d[i]) }

  const MAXIMUM := 512
  const PREFIX := "mq1"

  // ----- writing

  predicate Plain(s: string, most: nat) { 0 < |s| <= most && forall i :: 0 <= i < |s| ==> s[i] >= ' ' }

  predicate LegalState(state: map<string, string>) { forall k :: k in state ==> Plain(state[k], 64) }

  function StateJson(state: map<string, string>): Json { JObject(map k | k in state :: JString(state[k])) }

  function Payload(scope: Scope, position: string, state: map<string, string>): Json {
    JObject(map["f" := JString(scope.fingerprint), "p" := JString(position), "r" := JString(scope.route),
                "s" := StateJson(state), "v" := JNumber("1")])
  }

  function Written(codec: Codec, body: seq<Byte>): string {
    PREFIX + "." + Base64Url.Encode(body) + "." + codec.digest(body)
  }

  /** The cursor for the next page, if there is one. */
  function Bind(codec: Codec, scope: Scope, position: Option<string>, state: map<string, string>): Result<Option<string>>
  {
    if position.None? then Ok(None)
    else if !Plain(position.value, 256) then Invalid
    else
      var cursor := Written(codec, codec.dumps(Payload(scope, position.value, state)));
      if |cursor| > MAXIMUM then Invalid else Ok(Some(cursor))
  }

  /** A cursor can be written exactly when the body takes at most 332 bytes. */
  lemma BindFits(codec: Codec, scope: Scope, position: string, state: map<string, string>)
    requires Faithful(codec)
    ensures Bind(codec, scope, Some(position), state).Ok? <==>
      Plain(position, 256) && |codec.dumps(Payload(scope, position, state))| <= 332
  {
    hide Base64Url.Encode, Payload;
    var body := codec.dumps(Payload(scope, position, state));
    assert Hexadecimal(codec.digest(body));
    assert |Written(codec, body)| == 4 + (4 * |body| + 2) / 3 + 65;
  }

  // ----- reading

  predicate Blank(c: char) {
    var n := c as int;
    || 9 <= n <= 13 || 28 <= n <= 32 || n == 0x85 || n == 0xa0 || n == 0x1680 || 0x2000 <= n <= 0x200a
    || n == 0x2028 || n == 0x2029 || n == 0x202f || n == 0x205f || n == 0x3000
  }

  function Strip(s: string): string {
    if s != [] && Blank(s[0]) then Strip(s[1..])
    else if s != [] && Blank(s[|s| - 1]) then Strip(s[..|s| - 1])
    else s
  }

  /** Where the first dot is, or the length. */
  function Dot(s: string): (i: nat)
    ensures i <= |s| && (i < |s| ==> s[i] == '.') && forall j :: 0 <= j < i ==> s[j] != '.'
  {
    if s == [] || s[0] == '.' then 0 else 1 + Dot(s[1..])
  }

  datatype Parts = Parts(prefix: string, encoded: string, checksum: string)

  /** Exactly three parts between dots. */
  function Split(s: string): Option<Parts> {
    var i := Dot(s);
    if i == |s| then None
    else
      var rest := s[i + 1..];
      var j := Dot(rest);
      if j == |rest| || Dot(rest[j + 1..]) < |rest[j + 1..]| then None
      else Some(Parts(s[..i], rest[..j], rest[j + 1..]))
  }

  predicate Printable(s: string) { 0 < |s| <= MAXIMUM && forall i :: 0 <= i < |s| ==> 32 <= s[i] as int <= 126 }

  /** Python's == with the version number. */
  predicate IsOne(v: Json) { v == JNumber("1") || v == JNumber("1.0") || v == JBool(true) }

  predicate StringsOnly(v: Json) { v.JObject? && forall k :: k in v.fields ==> v.fields[k].JString? }

  function StateOf(v: Json): map<string, string>
    requires StringsOnly(v)
  {
    map k | k in v.fields :: v.fields[k].s
  }

  /** The payload's content, if it is one for this scope. */
  function Content(v: Json, scope: Scope, keys: set<string>): Result<Decoded> {
    if !v.JObject? || v.fields.Keys != {"f", "p", "r", "s", "v"} then Invalid
    else if !IsOne(v.fields["v"]) then Invalid
    else if v.fields["r"] != JString(scope.route) || v.fields["f"] != JString(scope.fingerprint) then Invalid
    else if !v.fields["p"].JString? || !Plain(v.fields["p"].s, 256) then Invalid
    else if !StringsOnly(v.fields["s"]) || v.fields["s"].fields.Keys != keys then Invalid
    else if !LegalState(StateOf(v.fields["s"])) then Invalid
    else Ok(Decoded(Some(v.fields["p"].s), StateOf(v.fields["s"])))
  }

  function Decode(codec: Codec, value: Option<string>, scope: Scope, keys: set<string>): Result<Decoded> {
    if value.None? then Ok(Decoded(None, map[]))
    else
      var cleaned := Strip(value.value);
      if !Printable(cleaned) then Invalid
      else
        match Split(cleaned)
        case None => Invalid
        case Some(parts) =>
          match Base64Url.Decode(parts.encoded)
          case None => Invalid
          case Some(body) =>
            match codec.loads(body)
            case None => Invalid
            case Some(payload) =>
              if parts.prefix != PREFIX || parts.checksum != codec.digest(body) then Invalid
              else Content(payload, scope, keys)
  }

  // ----- reading what was written

  lemma DotAt(a: string, b: string)
    requires forall i :: 0 <= i < |a| ==> a[i] != '.'
    ensures Dot(a + "." + b) == |a| && (a + "." + b)[..|a|] == a && (a + "." + b)[|a| + 1..] == b
  {
    var s := a + "." + b;
    assert s[|a|] == '.';
    forall i | 0 <= i < |a| ensures s[i] != '.' { assert s[i] == a[i]; }
  }

  lemma DotNone(a: string)
    requires forall i :: 0 <= i < |a| ==> a[i] != '.'
    ensures Dot(a) == |a|
  {
  }

  lemma SplitThree(a: string, b: string, c: string)
    requires (forall i :: 0 <= i < |a| ==> a[i] != '.') && (forall i :: 0 <= i < |b| ==> b[i] != '.')
    requires forall i :: 0 <= i < |c| ==> c[i] != '.'
    ensures Split(a + "." + b + "." + c) == Some(Parts(a, b, c))
  {
    hide Dot;
    var rest := b + "." + c;
    assert a + "." + b + "." + c == a + "." + rest;
    DotAt(a, rest);
    DotAt(b, c);
    DotNone(c);
  }

  lemma ContentOfPayload(scope: Scope, position: string, state: map<string, string>, other: Scope, keys: set<string>)
    requires Plain(position, 256)
    ensures Content(Payload(scope, position, state), other, keys) ==
      if other == scope && keys == state.Keys && LegalState(state) then Ok(Decoded(Some(position), state)) else Invalid
  {
    var s := StateJson(state);
    assert StringsOnly(s) && s.fields.Keys == state.Keys && StateOf(s) == state;
    var v := Payload(scope, position, state);
    assert v.fields.Keys == {"f", "p", "r", "s", "v"};
    PayloadFields(scope, position, state);
  }

  lemma PayloadFields(scope: Scope, position: string, state: map<string, string>)
    ensures var v := Payload(scope, position, state);
      && v.JObject? && v.fields.Keys == {"f", "p", "r", "s", "v"}
      && v.fields["f"] == JString(scope.fingerprint) && v.fields["p"] == JString(position)
      && v.fields["r"] == JString(scope.route) && v.fields["s"] == StateJson(state) && v.fields["v"] == JNumber("1")
  {
  }

  lemma WrittenIsClean(codec: Codec, body: seq<Byte>)
    requires Faithful(codec) && |Written(codec, body)| <= MAXIMUM
    ensures Strip(Written(codec, body)) == Written(codec, body) && Printable(Written(codec, body))
    ensures Split(Written(codec, body)) == Some(Parts(PREFIX, Base64Url.Encode(body), codec.digest(body)))
  {
    hide Base64Url.Encode, Split;
    var d := codec.digest(body);
    assert Hexadecimal(d);
    SplitThree(PREFIX, Base64Url.Encode(body), d);
    var w := Written(codec, body);
    assert w[0] == 'm' && w[|w| - 1] == d[63];
  }

  /** A bound cursor is accepted under exactly the scope it was bound to, for exactly the
      state it carries, and then gives back the position and the state. */
  lemma BoundCursor(codec: Codec, scope: Scope, position: string, state: map<string, string>, cursor: string,
                    other: Scope, keys: set<string>)
    requires Faithful(codec) && Bind(codec, scope, Some(position), state) == Ok(Some(cursor))
    ensures Decode(codec, Some(cursor), other, keys) ==
      if other == scope && keys == state.Keys && LegalState(state) then Ok(Decoded(Some(position), state)) else Invalid
  {
    hide Split, Strip, Printable, Content, Base64Url.Encode, Base64Url.Decode, Payload;
    var body := codec.dumps(Payload(scope, position, state));
    WrittenIsClean(codec, body);
    Base64Url.RoundTrip(body);
    ContentOfPayload(scope, position, state, other, keys);
  }

  lemma SplitParts(s: string)
    ensures Split(s).Some? ==> var p := Split(s).value; s == p.prefix + "." + p.encoded + "." + p.checksum
  {
    hide Dot;
    var i := Dot(s);
    if i < |s| {
      var rest := s[i + 1..];
      var j := Dot(rest);
      assert s == s[..i] + "." + rest;
      if j < |rest| { assert rest == rest[..j] + "." + rest[j + 1..]; }
    }
  }

  /** Only a sealed cursor is accepted: the text is the prefix, a body and that body's own
      digest, and the body names this route, these filters, a position and this state. */
  lemma AcceptedIsSealed(codec: Codec, text: string, scope: Scope, keys: set<string>)
    returns (encoded: string, body: seq<Byte>, v: Json)
    requires Decode(codec, Some(text), scope, keys).Ok?
    ensures Strip(text) == "mq1" + "." + encoded + "." + codec.digest(body) && |Strip(text)| <= 512
    ensures Base64Url.Decode(encoded) == Some(body) && codec.loads(body) == Some(v)
    ensures var d := Decode(codec, Some(text), scope, keys).value;
      && v.JObject? && v.fields.Keys == {"f", "p", "r", "s", "v"} && d.position.Some? && d.state.Keys == keys
      && v.fields["r"] == JString(scope.route) && v.fields["f"] == JString(scope.fingerprint)
      && v.fields["p"] == JString(d.position.value) && 1 <= |d.position.value| <= 256
      && v.fields["s"].JObject? && v.fields["s"].fields.Keys == keys
      && forall k :: k in keys ==> v.fields["s"].fields[k] == JString(d.state[k]) && 1 <= |d.state[k]| <= 64
  {
    hide Split, Strip, Base64Url.Decode;
    var parts := Split(Strip(text)).value;
    SplitParts(Strip(text));
    encoded, body := parts.encoded, Base64Url.Decode(parts.encoded).value;
    v := codec.loads(body).value;
  }

  // ----- history windows

  datatype Range = Range(start: int, end: int)

  /** The spans and the earliest representable instant, and how instants are written. */
  datatype Calendar = Calendar(
    defaultSpan: int,
    maximumSpan: int,
    earliest: int,
    latest: int,
    show: int -> string,
    read: string -> Option<int>)

  predicate Representable(cal: Calendar, t: int) { cal.earliest <= t <= cal.latest }

  ghost predicate Exact(cal: Calendar) {
    && cal.defaultSpan > 0 && cal.maximumSpan > 0
    && forall t :: Representable(cal, t) ==> Plain(cal.show(t), 64) && cal.read(cal.show(t)) == Some(t)
  }

  function Checked(cal: Calendar, r: Range): Result<Range> {
    if r.start >= r.end then Invalid else if r.end - r.start > cal.maximumSpan then TooWide else Ok(r)
  }

  /** Both ends or none. */
  function Requested(cal: Calendar, since: Option<int>, until: Option<int>): Result<Option<Range>> {
    if since.Some? != until.Some? then Invalid
    else if since.None? then Ok(None)
    else
      match Checked(cal, Range(since.value, until.value))
      case Ok(r) => Ok(Some(r))
      case Invalid => Invalid
      case TooWide => TooWide
  }

  function Resolved(cal: Calendar, requested: Option<Range>, decoded: Decoded, now: int): Result<Range>
    requires decoded.position.Some? ==> decoded.state.Keys == {"since", "until"}
  {
    if decoded.position.Some? then
      match (cal.read(decoded.state["since"]), cal.read(decoded.state["until"]))
      case (Some(start), Some(end)) => Checked(cal, Range(start, end))
      case _ => Invalid
    else if requested.Some? then Ok(requested.value)
    else
      var start := now - (if cal.defaultSpan <= cal.maximumSpan then cal.defaultSpan else cal.maximumSpan);
      if start < cal.earliest then TooWide else Checked(cal, Range(start, now))
  }

  function RangeState(cal: Calendar, r: Range): map<string, string> {
    map["since" := cal.show(r.start), "until" := cal.show(r.end)]
  }

  datatype Page = Page(range: Range, cursor: Option<string>)

  /** What one page of the walk meets: the clock, and where the repository says to go on. */
  datatype Visit = Visit(now: int, next: Option<string>)

  /** A history request: its other filters and its requested range determine its scope. */
  datatype Query = Query(
    codec: Codec,
    cal: Calendar,
    scope: Option<Range> -> Scope,
    since: Option<int>,
    until: Option<int>)

  function ScopeOf(q: Query): Scope {
    var requested := Requested(q.cal, q.since, q.until);
    q.scope(if requested.Ok? then requested.value else None)
  }

  const WINDOW := {"since", "until"}

  function HistoryPage(q: Query, cursor: Option<string>, visit: Visit): Result<Page> {
    match Requested(q.cal, q.since, q.until)
    case Invalid => Invalid
    case TooWide => TooWide
    case Ok(requested) =>
      match Decode(q.codec, cursor, q.scope(requested), WINDOW)
      case Invalid => Invalid
      case TooWide => TooWide
      case Ok(decoded) =>
        DecodedKeys(q.codec, cursor, q.scope(requested), WINDOW);
        match Resolved(q.cal, requested, decoded, visit.now)
        case Invalid => Invalid
        case TooWide => TooWide
        case Ok(range) =>
          match Bind(q.codec, q.scope(requested), visit.next, RangeState(q.cal, range))
          case Ok(next) => Ok(Page(range, next))
          case _ => Invalid
  }

  lemma DecodedKeys(codec: Codec, value: Option<string>, scope: Scope, keys: set<string>)
    ensures var d := Decode(codec, value, scope, keys);
      d.Ok? && d.value.position.Some? ==> d.value.state.Keys == keys
  {
    hide Split, Strip, Printable, Base64Url.Decode;
  }

  ghost predicate Usable(q: Query) {
    && Faithful(q.codec) && Exact(q.cal)
    && (q.since.Some? ==> Representable(q.cal, q.since.value))
    && (q.until.Some? ==> Representable(q.cal, q.until.value))
  }

  predicate InWindow(cal: Calendar, r: Range) {
    r.start < r.end && r.end - r.start <= cal.maximumSpan && Representable(cal, r.start) && Representable(cal, r.end)
  }

  /** A page reached by a cursor has the window of the page that gave it, whatever the
      clock says, and it is refused only for where the repository sends it next. */
  lemma SameWindow(q: Query, range: Range, position: string, cursor: string, visit: Visit)
    requires Usable(q) && InWindow(q.cal, range) && Requested(q.cal, q.since, q.until).Ok?
    requires Bind(q.codec, ScopeOf(q), Some(position), RangeState(q.cal, range)) == Ok(Some(cursor))
    ensures var page := HistoryPage(q, Some(cursor), visit);
      && (page.Ok? ==> page.value.range == range)
      && (page.Ok? <==> Bind(q.codec, ScopeOf(q), visit.next, RangeState(q.cal, range)).Ok?)
  {
    hide Bind, Decode, Faithful;
    var state := RangeState(q.cal, range);
    assert state.Keys == WINDOW;
    assert LegalState(state);
    BoundCursor(q.codec, ScopeOf(q), position, state, cursor, ScopeOf(q), WINDOW);
  }

  /** The k-th page of a walk that follows each page's cursor. */
  function Walk(q: Query, visits: seq<Visit>, k: nat): Result<Page>
    requires k < |visits|
  {
    if k == 0 then HistoryPage(q, None, visits[0])
    else
      match Walk(q, visits, k - 1)
      case Ok(page) => if page.cursor.None? then Invalid else HistoryPage(q, page.cursor, visits[k])
      case Invalid => Invalid
      case TooWide => TooWide
  }

  /** The window a request asks for: its own two ends, or else the default span up to now, cut
      to the largest one allowed. */
  ghost predicate Asked(q: Query, now: int, r: Range) {
    || (q.since == Some(r.start) && q.until == Some(r.end))
    || (&& q.since.None? && q.until.None? && r.end == now && r.end - r.start <= q.cal.defaultSpan
        && r.end - r.start <= q.cal.maximumSpan && r.end - r.start in {q.cal.defaultSpan, q.cal.maximumSpan})
  }

  /** The first page's window is the one asked for, and the page is refused exactly when that
      window is empty, too wide or too early, or the repository's position cannot be bound. */
  lemma FirstWindow(q: Query, visit: Visit)
    requires Usable(q) && Representable(q.cal, visit.now)
    ensures var page := HistoryPage(q, None, visit);
      && (page.Ok? ==> InWindow(q.cal, page.value.range) && Asked(q, visit.now, page.value.range))
      && (q.since.Some? != q.until.Some? ==> page == Invalid)
      && forall r :: Asked(q, visit.now, r) ==>
        (page.Ok? <==> InWindow(q.cal, r) && Bind(q.codec, ScopeOf(q), visit.next, RangeState(q.cal, r)).Ok?)
  {
    hide Bind;
  }

  lemma PageCursor(q: Query, cursor: Option<string>, visit: Visit)
    ensures var page := HistoryPage(q, cursor, visit);
      page.Ok? ==>
        && Requested(q.cal, q.since, q.until).Ok?
        && Bind(q.codec, ScopeOf(q), visit.next, RangeState(q.cal, page.value.range)) == Ok(page.value.cursor)
        && (page.value.cursor.Some? ==> visit.next.Some?)
  {
    hide Decode, Written, Payload;
  }

  /** Every page of a walk uses the first page's window. */
  lemma {:induction false} WalkKeepsWindow(q: Query, visits: seq<Visit>, k: nat)
    requires Usable(q) && k < |visits| && Representable(q.cal, visits[0].now)
    ensures Walk(q, visits, k).Ok? ==>
      && Walk(q, visits, 0).Ok? && Walk(q, visits, k).value.range == Walk(q, visits, 0).value.range
      && InWindow(q.cal, Walk(q, visits, k).value.range) && Asked(q, visits[0].now, Walk(q, visits, k).value.range)
  {
    hide HistoryPage, Bind, Usable, InWindow, RangeState, Asked;
    if k == 0 {
      FirstWindow(q, visits[0]);
    } else {
      WalkKeepsWindow(q, visits, k - 1);
      var before := Walk(q, visits, k - 1);
      if before.Ok? && before.value.cursor.Some? {
        WalkCursor(q, visits, k - 1);
        SameWindow(q, before.value.range, visits[k - 1].next.value, before.value.cursor.value, visits[k]);
      }
    }
  }

  lemma WalkCursor(q: Query, visits: seq<Visit>, k: nat)
    requires k < |visits| && Walk(q, visits, k).Ok? && Walk(q, visits, k).value.cursor.Some?
    ensures visits[k].next.Some?
    ensures Requested(q.cal, q.since, q.until).Ok?
    ensures var page := Walk(q, visits, k).value;
      Bind(q.codec, ScopeOf(q), visits[k].next, RangeState(q.cal, page.range)) == Ok(page.cursor)
  {
    hide HistoryPage, Bind, RangeState;
    if k == 0 {
      PageCursor(q, None, visits[0]);
    } else {
      PageCursor(q, Walk(q, visits, k - 1).value.cursor, visits[k]);
    }
  }

  // ----- the assumptions can be met

  /** One character as three bytes. */
  function Three(c: char): (b: seq<Byte>)
    ensures |b| == 3
  {
    [c as int / 0x1_0000, c as int / 0x100 % 0x100, c as int % 0x100]
  }

  lemma Reassembled(n: nat)
    ensures n == n / 0x1_0000 * 0x1_0000 + n / 0x100 % 0x100 * 0x100 + n % 0x100
  {
  }

  lemma ThreeInjective(c: char, d: char)
    requires Three(c) == Three(d)
    ensures c == d
  {
    var x, y := Three(c), Three(d);
    assert x[0] == y[0] && x[1] == y[1] && x[2] == y[2];
    Reassembled(c as int);
    Reassembled(d as int);
  }

  function Wide(s: string): seq<Byte> { if s == [] then [] else Three(s[0]) + Wide(s[1..]) }

  lemma {:induction false} WideInjective(s: string, t: string)
    requires Wide(s) == Wide(t)
    ensures s == t
  {
    if s != [] && t != [] {
      hide Three;
      var x, y := Wide(s), Wide(t);
      assert x[..3] == Three(s[0]) && y[..3] == Three(t[0]);
      ThreeInjective(s[0], t[0]);
      assert Wide(s[1..]) == x[3..] == y[3..] == Wide(t[1..]);
      WideInjective(s[1..], t[1..]);
      assert s == [s[0]] + s[1..] && t == [t[0]] + t[1..];
    }
  }

  ghost function ReadBack(b: seq<Byte>): Option<Json> {
    if exists v :: Wide(Compact(v)) == b then
      var v :| Wide(Compact(v)) == b;
      Some(v)
    else None
  }

  /** The compact printer, read back, is a faithful codec. */
  lemma FaithfulExists()
    ensures exists codec :: Faithful(codec)
  {
    hide Compact, Wide;
    var codec := Codec(v => Wide(Compact(v)), b => ReadBack(b), b => seq(64, i => '0'));
    forall v ensures codec.loads(codec.dumps(v)) == Some(v) {
      assert codec.loads(codec.dumps(v)) == ReadBack(Wide(Compact(v)));
      ReadBackIs(v);
    }
    forall b: seq<Byte> ensures Hexadecimal(codec.digest(b)) {
      assert codec.digest(b) == seq(64, i => '0');
    }
    assert Faithful(codec);
  }

  lemma ReadBackIs(v: Json)
    ensures ReadBack(Wide(Compact(v))) == Some(v)
  {
    hide Compact, Wide;
    var b := Wide(Compact(v));
    assert exists w :: Wide(Compact(w)) == b;
    forall w | Wide(Compact(w)) == b ensures w == v {
      WideInjective(Compact(w), Compact(v));
      CompactInjective(w, v);
    }
  }

  /** A calendar of a thousand instants, each written as one character, is exact. */
  lemma ExactExists()
    ensures exists cal :: Exact(cal) && cal.earliest < cal.latest
  {
    var cal := Calendar(10, 100, 0, 1000,
                        t => if 0 <= t <= 1000 then [(t + 32) as char] else "",
                        text => if |text| == 1 then Some(text[0] as int - 32) else None);
    forall t | Representable(cal, t) ensures Plain(cal.show(t), 64) && cal.read(cal.show(t)) == Some(t) {
      assert cal.show(t) == [(t + 32) as char];
    }
    assert Exact(cal);
  }
}
