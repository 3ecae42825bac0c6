/** The FTP control channel: one reply read under limits, compared with the framing of
    section 4.2 of RFC 959, and the byte budget it shares with the data channel. */
module FtpControl {
  import opened Prelude

  // ----- the budget

  datatype Limits = Limits(
    replyBytes: nat,
    replyLines: nat,
    operationBytes: nat,
    operationLines: nat,
    totalBytes: Option<nat>)

  datatype Counts = Counts(control: nat, lines: nat, data: nat, wire: nat)

  datatype Charge =
    | ControlLine(bytes: int, replyBytes: int, replyLines: int)
    | Data(bytes: int)
    | Wire(bytes: int)

  datatype Verdict = Accepted | Exceeded(what: string) | BadValue

  /** What passed the wire, or what the two channels carried where that is more. */
  function Accounted(c: Counts): (n: nat)
    ensures n >= c.wire && n >= c.control + c.data && (n == c.wire || n == c.control + c.data)
  {
    if c.wire >= c.control + c.data then c.wire else c.control + c.data
  }

  predicate Exhausted(limits: Limits, c: Counts) { limits.totalBytes.Some? && Accounted(c) > limits.totalBytes.value }

  predicate Sensible(x: Charge) {
    match x
    case ControlLine(n, replyBytes, replyLines) => 0 <= n <= replyBytes && replyLines > 0
    case Data(n) => n >= 0
    case Wire(n) => n >= 0
  }

  /** What a charge leaves behind; it is counted even when it is refused for a limit. */
  function Charged(c: Counts, x: Charge): Counts {
    if !Sensible(x) then c
    else
      match x
      case ControlLine(n, _, _) => c.(control := c.control + n, lines := c.lines + 1)
      case Data(n) => c.(data := c.data + n)
      case Wire(n) => c.(wire := c.wire + n)
  }

  function ChargedAll(c: Counts, xs: seq<Charge>): Counts {
    if xs == [] then c else Charged(ChargedAll(c, xs[..|xs| - 1]), xs[|xs| - 1])
  }

  /** Nothing ever lowers the account, so an exhausted budget stays exhausted. */
  lemma {:induction false} NeverRecovers(limits: Limits, c: Counts, xs: seq<Charge>)
    ensures Accounted(ChargedAll(c, xs)) >= Accounted(c)
    ensures Exhausted(limits, c) ==> Exhausted(limits, ChargedAll(c, xs))
  {
    if xs != [] { NeverRecovers(limits, c, xs[..|xs| - 1]); }
  }

  class Budget {
    const limits: Limits
    var c: Counts

    constructor (limits: Limits)
      ensures this.limits == limits && c == Counts(0, 0, 0, 0)
    {
      this.limits := limits;
      c := Counts(0, 0, 0, 0);
    }

    method AcceptControlLine(bytes: int, replyBytes: int, replyLines: int) returns (v: Verdict)
      modifies this
      ensures c == Charged(old(c), ControlLine(bytes, replyBytes, replyLines))
      ensures v != BadValue ==>
        bytes >= 0 && c == Counts(old(c).control + bytes, old(c).lines + 1, old(c).data, old(c).wire)
      ensures v == BadValue <==> !Sensible(ControlLine(bytes, replyBytes, replyLines))
      ensures v == Accepted <==>
        && Sensible(ControlLine(bytes, replyBytes, replyLines))
        && replyBytes <= limits.replyBytes && replyLines <= limits.replyLines
        && c.control <= limits.operationBytes && c.lines <= limits.operationLines && !Exhausted(limits, c)
    {
      if bytes < 0 || replyBytes < bytes || replyLines <= 0 {
        return BadValue;
      }
      c := c.(control := c.control + bytes, lines := c.lines + 1);
      v :=
        if replyBytes > limits.replyBytes then Exceeded("reply_bytes")
        else if replyLines > limits.replyLines then Exceeded("reply_lines")
        else if c.control > limits.operationBytes then Exceeded("operation_bytes")
        else if c.lines > limits.operationLines then Exceeded("operation_lines")
        else if Exhausted(limits, c) then Exceeded("total_bytes")
        else Accepted;
    }

    method ConsumeData(bytes: int) returns (v: Verdict)
      modifies this
      ensures c == Charged(old(c), Data(bytes))
      ensures bytes >= 0 ==> c == Counts(old(c).control, old(c).lines, old(c).data + bytes, old(c).wire)
      ensures v == if bytes < 0 then BadValue else if Exhausted(limits, c) then Exceeded("total_bytes") else Accepted
    {
      if bytes < 0 {
        return BadValue;
      }
      c := c.(data := c.data + bytes);
      v := if Exhausted(limits, c) then Exceeded("total_bytes") else Accepted;
    }

    method RecordWire(bytes: int) returns (v: Verdict)
      modifies this
      ensures c == Charged(old(c), Wire(bytes))
      ensures bytes >= 0 ==> c == Counts(old(c).control, old(c).lines, old(c).data, old(c).wire + bytes)
      ensures v == if bytes < 0 then BadValue else if Exhausted(limits, c) then Exceeded("total_bytes") else Accepted
    {
      if bytes < 0 {
        return BadValue;
      }
      c := c.(wire := c.wire + bytes);
      v := if Exhausted(limits, c) then Exceeded("total_bytes") else Accepted;
    }

    /** Any sequence of charges on any channels: none is accepted once the total was exceeded. */
    method ChargeAll(xs: seq<Charge>) returns (vs: seq<Verdict>)
      modifies this
      ensures |vs| == |xs| && c == ChargedAll(old(c), xs)
      ensures forall i, j :: 0 <= i <= j < |xs| && Exhausted(limits, ChargedAll(old(c), xs[..i])) ==> vs[j] != Accepted
    {
      vs := [];
      for k := 0 to |xs|
        invariant |vs| == k && c == ChargedAll(old(c), xs[..k])
        invariant forall i, j :: 0 <= i <= j < k && Exhausted(limits, ChargedAll(old(c), xs[..i])) ==> vs[j] != Accepted
      {
        ghost var before := c;
        var v;
        match xs[k] {
          case ControlLine(n, replyBytes, replyLines) => v := AcceptControlLine(n, replyBytes, replyLines);
          case Data(n) => v := ConsumeData(n);
          case Wire(n) => v := RecordWire(n);
        }
        assert xs[..k + 1][..k] == xs[..k];
        assert Exhausted(limits, before) ==> v != Accepted;
        forall i | 0 <= i <= k && Exhausted(limits, ChargedAll(old(c), xs[..i])) ensures v != Accepted {
          StaysExhausted(limits, old(c), xs, i, k);
        }
        vs := vs + [v];
      }
      assert xs[..|xs|] == xs;
    }
  }

  lemma {:induction false} StaysExhausted(limits: Limits, c: Counts, xs: seq<Charge>, i: nat, k: nat)
    requires i <= k <= |xs| && Exhausted(limits, ChargedAll(c, xs[..i]))
    ensures Exhausted(limits, ChargedAll(c, xs[..k]))
    decreases k
  {
    if i < k {
      StaysExhausted(limits, c, xs, i, k - 1);
      assert xs[..k][..k - 1] == xs[..k - 1];
    }
  }

  // ----- one reply

  /** The line without the one line ending it may have. */
  function Stripped(raw: string): string {
    if |raw| >= 2 && raw[|raw| - 2..] == "\r\n" then raw[..|raw| - 2]
    else if raw != [] && (raw[|raw| - 1] == '\r' || raw[|raw| - 1] == '\n') then raw[..|raw| - 1]
    else raw
  }

  /** One line ending is taken off, and only one. */
  lemma StrippedOnce(line: string)
    ensures Stripped(line + "\r\n") == line && Stripped(line + "\r") == line
    ensures line == [] || line[|line| - 1] != '\r' ==> Stripped(line + "\n") == line
    ensures line == [] || line[|line| - 1] !in {'\r', '\n'} ==> Stripped(line) == line
  {
    hide Stripped;
    StrippedBoth(line);
    StrippedOne(line, '\r');
    if line == [] || line[|line| - 1] != '\r' { StrippedOne(line, '\n'); }
    if line == [] || line[|line| - 1] !in {'\r', '\n'} { StrippedNone(line); }
  }

  lemma StrippedBoth(line: string)
    ensures Stripped(line + "\r\n") == line
  {
    var raw := line + "\r\n";
    assert raw[|raw| - 2..] == "\r\n" && raw[..|raw| - 2] == line;
  }

  lemma StrippedOne(line: string, c: char)
    requires c == '\r' || (c == '\n' && (line == [] || line[|line| - 1] != '\r'))
    ensures Stripped(line + [c]) == line
  {
    var raw := line + [c];
    assert raw[..|raw| - 1] == line;
    if |raw| >= 2 {
      var ending := raw[|raw| - 2..];
      assert ending[0] == line[|line| - 1] && ending[1] == c;
    }
  }

  lemma StrippedNone(line: string)
    requires line == [] || line[|line| - 1] !in {'\r', '\n'}
    ensures Stripped(line) == line
  {
    if |line| >= 2 {
      var ending := line[|line| - 2..];
      assert ending[1] == line[|line| - 1];
    }
  }

  function Code(line: string): string { if |line| <= 3 then line else line[..3] }

  predicate Hyphenated(line: string) { |line| > 3 && line[3] == '-' }

  /** Whether the reader takes the reply that starts with the first line to end at the line k. */
  predicate EndsAt(lines: seq<string>, k: nat)
    requires k < |lines|
  {
    if k == 0 then !Hyphenated(lines[0])
    else Hyphenated(lines[0]) && Code(lines[k]) == Code(lines[0]) && !Hyphenated(lines[k])
  }

  /** What the reader takes for one whole reply. */
  predicate IsReply(lines: seq<string>) {
    && lines != [] && EndsAt(lines, |lines| - 1)
    && forall j :: 0 <= j < |lines| - 1 ==> !EndsAt(lines, j)
  }

  /** No stream starts with two replies of different lengths. */
  lemma OneReply(lines: seq<string>, m: nat, n: nat)
    requires m < n <= |lines| && IsReply(lines[..m])
    ensures !IsReply(lines[..n])
  {
    assert EndsAt(lines[..n], m - 1) == EndsAt(lines[..m], m - 1);
  }

  // ----- replies as section 4.2 of RFC 959 frames them

  predicate Digit(c: char) { '0' <= c <= '9' }

  /** A line that begins with a three-digit code and then the given character. */
  predicate Begins(line: string, after: char) {
    |line| > 3 && Digit(line[0]) && Digit(line[1]) && Digit(line[2]) && line[3] == after
  }

  /** The last line of a reply with this code: the code and a space. */
  predicate Concludes(line: string, code: string) { Begins(line, ' ') && line[..3] == code }

  /** One line with its code and a space; or a first line with its code and a hyphen, up to
      the first line that has the same code and a space. */
  predicate StandardReply(lines: seq<string>) {
    || (|lines| == 1 && Begins(lines[0], ' '))
    || (&& |lines| > 1 && Begins(lines[0], '-') && Concludes(lines[|lines| - 1], lines[0][..3])
        && forall j :: 0 < j < |lines| - 1 ==> !Concludes(lines[j], lines[0][..3]))
  }

  /** A line that carries the code, but neither a space nor a hyphen after it. */
  predicate Stray(line: string, code: string) {
    |line| >= 3 && line[..3] == code && (|line| == 3 || (line[3] != ' ' && line[3] != '-'))
  }

  predicate NoStray(lines: seq<string>) {
    forall j :: 0 < j < |lines| - 1 ==> !Stray(lines[j], Code(lines[0]))
  }

  lemma OneStandardReply(lines: seq<string>, m: nat, n: nat)
    requires m < n <= |lines| && StandardReply(lines[..m])
    ensures !StandardReply(lines[..n])
  {
    assert lines[..n][0] == lines[..m][0] && lines[..n][m - 1] == lines[..m][m - 1];
  }

  /** The reader takes a standard reply whole exactly when no line inside it strays. */
  lemma StandardTaken(lines: seq<string>)
    requires StandardReply(lines)
    ensures IsReply(lines) <==> NoStray(lines)
  {
    if |lines| > 1 {
      forall j | 0 < j < |lines| - 1 ensures EndsAt(lines, j) <==> Stray(lines[j], Code(lines[0])) {
        assert !Concludes(lines[j], lines[0][..3]);
      }
    }
  }

  /** What the reader takes is a standard reply exactly when its first line begins with a
      code and a space or a hyphen and its last line has a space there. */
  lemma TakenStandard(lines: seq<string>)
    requires IsReply(lines)
    ensures StandardReply(lines) <==>
      (Begins(lines[0], ' ') || Begins(lines[0], '-')) && Begins(lines[|lines| - 1], ' ')
  {
    if |lines| > 1 {
      assert Hyphenated(lines[0]) && Code(lines[|lines| - 1]) == Code(lines[0]);
      forall j | 0 < j < |lines| - 1 ensures !Concludes(lines[j], lines[0][..3]) {
        assert !EndsAt(lines, j);
      }
    }
  }

  /** The two do differ: a line inside the reply ends it early, and a line without a code
      passes for a reply. */
  lemma FramingsDiffer()
    ensures var lines := ["220-a", "2205 b", "220 c"];
      StandardReply(lines) && !IsReply(lines) && IsReply(lines[..2]) && !StandardReply(lines[..2])
    ensures IsReply(["hello"]) && !StandardReply(["hello"])
  {
    var lines := ["220-a", "2205 b", "220 c"];
    assert lines[..2] == ["220-a", "2205 b"];
    assert lines[0][..3] == "220" && lines[1][..3] == "220" && lines[2][..3] == "220";
    assert !Hyphenated(lines[1]) && EndsAt(lines, 1);
    assert !Begins(lines[1], ' ');
  }

  /** A text cut at its line breaks. */
  function Lines(text: string): (lines: seq<string>)
    ensures lines != []
  {
    if text == [] then [""]
    else
      var rest := Lines(text[1..]);
      if text[0] == '\n' then [""] + rest else [[text[0]] + rest[0]] + rest[1..]
  }

  lemma {:induction false} LinesOfOne(line: string)
    requires '\n' !in line
    ensures Lines(line) == [line]
  {
    if line != [] {
      LinesOfOne(line[1..]);
      assert [line[0]] + line[1..] == line;
    }
  }

  lemma {:induction false} LinesJoin(text: string, line: string)
    requires '\n' !in line
    ensures Lines(text + "\n" + line) == Lines(text) + [line]
  {
    if text == [] {
      assert text + "\n" + line == "\n" + line && ("\n" + line)[1..] == line;
      LinesOfOne(line);
    } else {
      LinesJoin(text[1..], line);
      assert (text + "\n" + line)[1..] == text[1..] + "\n" + line;
    }
  }

  /** The text of a reply is its lines with a break between two of them. */
  lemma {:induction false} JoinedSplits(lines: seq<string>)
    requires lines != [] && forall i :: 0 <= i < |lines| ==> '\n' !in lines[i]
    ensures Lines(Joined(lines)) == lines
  {
    if |lines| == 1 {
      LinesOfOne(lines[0]);
    } else {
      var n := |lines| - 1;
      JoinedSplits(lines[..n]);
      LinesJoin(Joined(lines[..n]), lines[n]);
      assert lines == lines[..n] + [lines[n]];
    }
  }

  function Joined(lines: seq<string>): string {
    if lines == [] then "" else if |lines| == 1 then lines[0] else Joined(lines[..|lines| - 1]) + "\n" + lines[|lines| - 1]
  }

  datatype Client = Client(maxLine: nat, size: string -> nat)

  /** The carriage return a text layer may have removed is charged all the same. */
  function LineCharge(client: Client, raw: string): nat {
    client.size(raw) + (if raw != [] && raw[|raw| - 1] == '\n' && !(|raw| >= 2 && raw[|raw| - 2] == '\r') then 1 else 0)
  }

  /** A line is charged what it was on the wire, where every line ends in CR LF. */
  lemma LineOnWire(client: Client, line: string)
    requires client.size(line + "\r\n") == client.size(line + "\n") + 1
    requires line == [] || line[|line| - 1] != '\r'
    ensures LineCharge(client, line + "\n") == LineCharge(client, line + "\r\n") == client.size(line + "\r\n")
    ensures (line == [] || line[|line| - 1] != '\n') ==> LineCharge(client, line) == client.size(line)
  {
    var bare, whole := line + "\n", line + "\r\n";
    assert bare[|bare| - 1] == '\n' && whole[|whole| - 1] == '\n' && whole[|whole| - 2] == '\r';
    assert |bare| >= 2 ==> bare[|bare| - 2] == line[|line| - 1];
  }

  function ReplyCharge(client: Client, raws: seq<string>): nat {
    if raws == [] then 0 else ReplyCharge(client, raws[..|raws| - 1]) + LineCharge(client, raws[|raws| - 1])
  }

  function StrippedAll(raws: seq<string>): seq<string> { seq(|raws|, i requires 0 <= i < |raws| => Stripped(raws[i])) }

  /** Everything read so far fits every limit. */
  ghost predicate Fits(client: Client, limits: Limits, before: Counts, raws: seq<string>) {
    var bytes := ReplyCharge(client, raws);
    && bytes <= limits.replyBytes && |raws| <= limits.replyLines
    && before.control + bytes <= limits.operationBytes && before.lines + |raws| <= limits.operationLines
    && !Exhausted(limits, before.(control := before.control + bytes, lines := before.lines + |raws|))
    && forall i :: 0 <= i < |raws| ==> |raws[i]| <= client.maxLine
  }

  lemma {:induction false} FitsShorter(client: Client, limits: Limits, before: Counts, raws: seq<string>, k: nat)
    requires k <= |raws| && Fits(client, limits, before, raws)
    ensures Fits(client, limits, before, raws[..k])
    decreases |raws| - k
  {
    if k == |raws| {
      assert raws[..k] == raws;
    } else {
      FitsShorter(client, limits, before, raws, k + 1);
      assert raws[..k + 1][..k] == raws[..k];
    }
  }

  datatype Outcome = Reply(text: string) | Failed

  /** The whole reply the stream starts with, if it fits. */
  ghost predicate Readable(client: Client, limits: Limits, before: Counts, stream: seq<string>, n: nat) {
    && n <= |stream| && IsReply(StrippedAll(stream[..n])) && Fits(client, limits, before, stream[..n])
  }

  /** Reads lines until the reply ends, a limit is crossed or the stream does. */
  method GetMultiline(client: Client, stream: seq<string>, budget: Budget) returns (r: Outcome, taken: nat)
    modifies budget
    ensures taken <= |stream| && taken <= budget.limits.replyLines + 1
    ensures budget.c == old(budget.c).(control := old(budget.c).control + ReplyCharge(client, stream[..taken]),
                                       lines := old(budget.c).lines + taken)
    ensures r.Reply? ==>
      Readable(client, budget.limits, old(budget.c), stream, taken) && r.text == Joined(StrippedAll(stream[..taken]))
    ensures r.Failed? ==> forall n: nat :: !Readable(client, budget.limits, old(budget.c), stream, n)
    // A standard reply is returned exactly when it fits and no line inside it strays.
    ensures forall n: nat :: n <= |stream| && StandardReply(StrippedAll(stream[..n])) ==>
      (r.Reply? && taken == n <==>
        NoStray(StrippedAll(stream[..n])) && Fits(client, budget.limits, old(budget.c), stream[..n]))
  {
    hide IsReply, StandardReply, NoStray, Fits, StrippedAll, Joined, ReplyCharge;
    r, taken := ReadReply(client, stream, budget);
    forall n: nat | n <= |stream| && StandardReply(StrippedAll(stream[..n]))
      ensures r.Reply? && taken == n <==>
        NoStray(StrippedAll(stream[..n])) && Fits(client, budget.limits, old(budget.c), stream[..n])
    {
      StandardTaken(StrippedAll(stream[..n]));
      assert Readable(client, budget.limits, old(budget.c), stream, n) <==>
        IsReply(StrippedAll(stream[..n])) && Fits(client, budget.limits, old(budget.c), stream[..n]);
      if r.Reply? && taken < n && IsReply(StrippedAll(stream[..n])) { OneReplyOf(stream, taken, n); }
      if r.Reply? && n < taken && IsReply(StrippedAll(stream[..n])) { OneReplyOf(stream, n, taken); }
    }
  }

  lemma OneReplyOf(stream: seq<string>, m: nat, n: nat)
    requires m < n <= |stream| && IsReply(StrippedAll(stream[..m]))
    ensures !IsReply(StrippedAll(stream[..n]))
  {
    var lines := StrippedAll(stream[..n]);
    assert lines[..m] == StrippedAll(stream[..m]) && lines[..n] == lines;
    OneReply(lines, m, n);
  }

  /** The reading loop. */
  method ReadReply(client: Client, stream: seq<string>, budget: Budget) returns (r: Outcome, taken: nat)
    modifies budget
    ensures taken <= |stream| && taken <= budget.limits.replyLines + 1
    ensures budget.c == old(budget.c).(control := old(budget.c).control + ReplyCharge(client, stream[..taken]),
                                       lines := old(budget.c).lines + taken)
    ensures r.Reply? ==>
      && Readable(client, budget.limits, old(budget.c), stream, taken)
      && r.text == Joined(StrippedAll(stream[..taken]))
    ensures r.Failed? ==> forall n: nat :: !Readable(client, budget.limits, old(budget.c), stream, n)
  {
    hide Joined, EndsAt, Stripped, LineCharge;
    ghost var before := budget.c;
    var lines: seq<string> := [];
    var bytes := 0;
    taken := 0;
    assert stream[..0] == [];
    while taken < |stream|
      invariant taken <= |stream| && taken <= budget.limits.replyLines
      invariant lines == StrippedAll(stream[..taken]) && bytes == ReplyCharge(client, stream[..taken])
      invariant budget.c == before.(control := before.control + bytes, lines := before.lines + taken)
      invariant Fits(client, budget.limits, before, stream[..taken]) || taken == 0
      invariant forall j :: 0 <= j < taken ==> !EndsAt(lines, j)
    {
      var raw := stream[taken];
      assert stream[..taken + 1][..taken] == stream[..taken];
      bytes := bytes + LineCharge(client, raw);
      taken := taken + 1;
      var v := budget.AcceptControlLine(LineCharge(client, raw), bytes, taken);
      if v != Accepted || |raw| > client.maxLine {
        NotReadable(client, budget.limits, before, stream, taken, lines);
        return Failed, taken;
      }
      lines := lines + [Stripped(raw)];
      assert lines == StrippedAll(stream[..taken]);
      EndsSame(lines, taken);
      if EndsAt(lines, taken - 1) {
        return Reply(Joined(lines)), taken;
      }
    }
    NeverEnds(client, budget.limits, before, stream, lines);
    return Failed, taken;
  }

  /** Whether a reply ends at a line depends only on the lines up to it. */
  lemma EndsSame(lines: seq<string>, n: nat)
    requires 0 < n <= |lines|
    ensures forall j :: 0 <= j < n - 1 ==> EndsAt(lines[..n - 1], j) == EndsAt(lines, j)
  {
  }

  /** The lines before the last did not end the reply, and with the last it does not fit. */
  lemma NotReadable(client: Client, limits: Limits, before: Counts, stream: seq<string>, n: nat, lines: seq<string>)
    requires 0 < n <= |stream| && !Fits(client, limits, before, stream[..n])
    requires lines == StrippedAll(stream[..n - 1]) && forall j :: 0 <= j < n - 1 ==> !EndsAt(lines, j)
    ensures forall m: nat :: !Readable(client, limits, before, stream, m)
  {
    hide Fits;
    forall m: nat ensures !Readable(client, limits, before, stream, m) {
      if n <= m <= |stream| {
        assert stream[..m][..n] == stream[..n];
        if Fits(client, limits, before, stream[..m]) {
          FitsShorter(client, limits, before, stream[..m], n);
        }
      } else if 0 < m < n {
        EndsEarlier(stream, m, lines);
      }
    }
  }

  lemma EndsEarlier(stream: seq<string>, m: nat, lines: seq<string>)
    requires 0 < m <= |lines| <= |stream| && lines == StrippedAll(stream[..|lines|])
    ensures EndsAt(StrippedAll(stream[..m]), m - 1) == EndsAt(lines, m - 1)
  {
    assert StrippedAll(stream[..m]) == lines[..m];
  }

  lemma NeverEnds(client: Client, limits: Limits, before: Counts, stream: seq<string>, lines: seq<string>)
    requires lines == StrippedAll(stream) && forall j :: 0 <= j < |stream| ==> !EndsAt(lines, j)
    ensures forall m: nat :: !Readable(client, limits, before, stream, m)
  {
    hide Fits;
    assert stream[..|stream|] == stream;
    forall m: nat ensures !Readable(client, limits, before, stream, m) {
      if 0 < m <= |stream| { EndsEarlier(stream, m, lines); }
    }
  }
}
