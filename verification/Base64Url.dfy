/** The URL-safe base64 of section 5 of RFC 4648, written without padding and read
    back as Python's strict decoder does after the padding is restored. */
module Base64Url {
  import opened Prelude

  function Symbol(n: nat): (c: char)
    requires n < 64
    ensures Value(c) == Some(n) && c != '='
    ensures ' ' < c <= 'z' && c != '.'
  {
    if n < 26 then ('A' as int + n) as char
    else if n < 52 then ('a' as int + (n - 26)) as char
    else if n < 62 then ('0' as int + (n - 52)) as char
    else if n == 62 then '-' else '_'
  }

  /** The decoder replaces the two alternative characters and so takes the standard ones too. */
  function Value(c: char): (v: Option<nat>)
    ensures v.Some? ==> v.value < 64
  {
    if 'A' <= c <= 'Z' then Some(c as int - 'A' as int)
    else if 'a' <= c <= 'z' then Some(c as int - 'a' as int + 26)
    else if '0' <= c <= '9' then Some(c as int - '0' as int + 52)
    else if c == '-' || c == '+' then Some(62)
    else if c == '_' || c == '/' then Some(63)
    else None
  }

  predicate Coded(t: string) { forall i :: 0 <= i < |t| ==> Value(t[i]).Some? }

  // The two six-bit values that straddle bytes.

  function Second(b0: Byte, b1: Byte): (n: nat)
    ensures n < 64
  {
    b0 % 4 * 16 + b1 / 16
  }

  function Third(b1: Byte, b2: Byte): (n: nat)
    ensures n < 64
  {
    b1 % 16 * 4 + b2 / 64
  }

  function Encode(b: seq<Byte>): (t: string)
    ensures Coded(t) && forall i :: 0 <= i < |t| ==> ' ' < t[i] <= 'z' && t[i] != '.' && t[i] != '='
    ensures |t| == (4 * |b| + 2) / 3
  {
    if |b| == 0 then ""
    else if |b| == 1 then [Symbol(b[0] / 4), Symbol(Second(b[0], 0))]
    else if |b| == 2 then [Symbol(b[0] / 4), Symbol(Second(b[0], b[1])), Symbol(Third(b[1], 0))]
    else
      [Symbol(b[0] / 4), Symbol(Second(b[0], b[1])), Symbol(Third(b[1], b[2])), Symbol(b[2] % 64)]
      + Encode(b[3..])
  }

  /** A test vector of section 10 of RFC 4648, the digits, and the two alternative characters. */
  lemma EncodesVectors()
    ensures Encode([0x66, 0x6f, 0x6f]) == "Zm9v" && Encode([0xd3, 0x5d, 0xb7]) == "0123" && Encode([0xfb, 0xff]) == "-_8"
  {
    assert Encode([]) == "";
    Group(0x66, 0x6f, 0x6f);
    Group(0xd3, 0x5d, 0xb7);
  }

  lemma Group(b0: Byte, b1: Byte, b2: Byte)
    ensures Encode([b0, b1, b2]) == [Symbol(b0 / 4), Symbol(Second(b0, b1)), Symbol(Third(b1, b2)), Symbol(b2 % 64)]
  {
    assert [b0, b1, b2][3..] == [];
  }

  /** The text spells the bits of the bytes, most significant first, six to a character; bits
      that are missing at the end are zero. */
  lemma EncodesBits(b: seq<Byte>)
    ensures |b| == 1 ==> V(Encode(b)[0]) * 64 + V(Encode(b)[1]) == b[0] as int * 16
    ensures |b| == 2 ==>
      (V(Encode(b)[0]) * 64 + V(Encode(b)[1])) * 64 + V(Encode(b)[2]) == (b[0] as int * 256 + b[1] as int) * 4
    ensures |b| >= 3 ==>
      && |Encode(b)| >= 4 && Encode(b)[4..] == Encode(b[3..])
      && ((V(Encode(b)[0]) * 64 + V(Encode(b)[1])) * 64 + V(Encode(b)[2])) * 64 + V(Encode(b)[3])
         == (b[0] as int * 256 + b[1] as int) * 256 + b[2] as int
  {
    if |b| == 1 {
      Straddle(b[0], 0, 0);
    } else if |b| == 2 {
      Straddle(b[0], b[1], 0);
    } else if |b| >= 3 {
      Straddle(b[0], b[1], b[2]);
    }
  }

  lemma Straddle(b0: Byte, b1: Byte, b2: Byte)
    ensures var x, y, z := b0 as int, b1 as int, b2 as int;
      && ((x / 4 * 64 + Second(b0, b1)) * 64 + Third(b1, b2)) * 64 + z % 64 == (x * 256 + y) * 256 + z
      && (x / 4 * 64 + Second(b0, b1)) * 64 + Third(b1, 0) == (x * 256 + y) * 4
      && x / 4 * 64 + Second(b0, 0) == x * 16
  {
  }

  // Three bytes from four six-bit values.

  function High(v0: nat, v1: nat): Byte
    requires v0 < 64 && v1 < 64
  {
    v0 * 4 + v1 / 16
  }

  function Middle(v1: nat, v2: nat): Byte
    requires v1 < 64 && v2 < 64
  {
    v1 % 16 * 16 + v2 / 4
  }

  function Low(v2: nat, v3: nat): Byte
    requires v2 < 64 && v3 < 64
  {
    v2 % 4 * 64 + v3
  }

  function V(c: char): (n: nat)
    requires Value(c).Some?
    ensures n < 64
  {
    Value(c).value
  }

  /** The bytes of a text of code characters; bits left over at the end are dropped. */
  function Bytes(t: string): (b: seq<Byte>)
    requires Coded(t) && |t| % 4 != 1
  {
    if |t| == 0 then []
    else if |t| == 2 then [High(V(t[0]), V(t[1]))]
    else if |t| == 3 then [High(V(t[0]), V(t[1])), Middle(V(t[1]), V(t[2]))]
    else [High(V(t[0]), V(t[1])), Middle(V(t[1]), V(t[2])), Low(V(t[2]), V(t[3]))] + Bytes(t[4..])
  }

  /** How many padding characters a text ends with. */
  function Padding(t: string): (n: nat)
    ensures n <= |t|
  {
    if t == [] || t[|t| - 1] != '=' then 0 else 1 + Padding(t[..|t| - 1])
  }

  function Restored(t: string): (p: string)
    ensures |p| % 4 == 0
  {
    if |t| % 4 == 0 then t else if |t| % 4 == 1 then t + "===" else if |t| % 4 == 2 then t + "==" else t + "="
  }

  function Decode(t: string): Option<seq<Byte>> {
    var padded := Restored(t);
    var core := padded[..|padded| - Padding(padded)];
    if Padding(padded) > 2 || !Coded(core) then None else Some(Bytes(core))
  }

  lemma PaddingOf(t: string, n: nat)
    requires n <= 3 && (forall i :: 0 <= i < |t| ==> t[i] != '=')
    ensures var p := t + "==="[..n]; Padding(p) == n && p[..|p| - n] == t
  {
    var p := t + "==="[..n];
    if n > 0 {
      PaddingOf(t, n - 1);
      assert p[..|p| - 1] == t + "==="[..n - 1];
    }
  }

  lemma RestoredPadding(t: string)
    requires Coded(t)
    ensures var p := Restored(t);
      Padding(p) == (if |t| % 4 == 0 then 0 else 4 - |t| % 4) && p[..|p| - Padding(p)] == t
  {
    hide Padding;
    PaddingOf(t, if |t| % 4 == 0 then 0 else 4 - |t| % 4);
    assert t + "" == t;
    assert "==="[..0] == "" && "==="[..1] == "=" && "==="[..2] == "==" && "==="[..3] == "===";
  }

  /** Unpadded code of a possible length is decoded as it stands. */
  lemma DecodeCoded(t: string)
    requires Coded(t)
    ensures Decode(t) == if |t| % 4 == 1 then None else Some(Bytes(t))
  {
    hide Bytes, Padding, Restored, Value, Coded;
    RestoredPadding(t);
  }

  lemma CodedTail(t: string)
    requires Coded(t) && |t| >= 4
    ensures Coded(t[4..]) && |t[4..]| % 4 == |t| % 4
  {
    hide Value;
  }

  lemma BytesLong(t: string)
    requires Coded(t) && |t| % 4 != 1 && |t| >= 4
    ensures Coded(t[4..]) && |t[4..]| % 4 != 1
    ensures Bytes(t) == [High(V(t[0]), V(t[1])), Middle(V(t[1]), V(t[2])), Low(V(t[2]), V(t[3]))] + Bytes(t[4..])
  {
    hide Value, V, High, Middle, Low;
    CodedTail(t);
  }

  /** What the decoder makes of one encoded group. */
  lemma Ungrouped(b0: Byte, b1: Byte, b2: Byte)
    ensures High(b0 / 4, Second(b0, b1)) == b0
    ensures Middle(Second(b0, b1), Third(b1, b2)) == b1
    ensures Low(Third(b1, b2), b2 % 64) == b2
  {
  }

  lemma EncodeGroup(b0: Byte, b1: Byte, b2: Byte, rest: seq<Byte>)
    ensures Encode([b0, b1, b2] + rest)
      == [Symbol(b0 / 4), Symbol(Second(b0, b1)), Symbol(Third(b1, b2)), Symbol(b2 % 64)] + Encode(rest)
  {
    hide Symbol, Second, Third;
    assert ([b0, b1, b2] + rest)[3..] == rest;
  }

  lemma BytesOfShort(b: seq<Byte>)
    requires |b| < 3
    ensures |Encode(b)| % 4 != 1 && Bytes(Encode(b)) == b
  {
    hide Symbol, Second, Third, High, Middle, Low;
    if |b| == 1 {
      Ungrouped(b[0], 0, 0);
    } else if |b| == 2 {
      Ungrouped(b[0], b[1], 0);
    }
  }

  lemma {:induction false} BytesOfEncode(b: seq<Byte>)
    ensures |Encode(b)| % 4 != 1 && Bytes(Encode(b)) == b
  {
    hide Encode, Bytes, Symbol, Second, Third, High, Middle, Low;
    if |b| < 3 {
      BytesOfShort(b);
    } else {
      BytesOfEncode(b[3..]);
      Ungrouped(b[0], b[1], b[2]);
      assert b == [b[0], b[1], b[2]] + b[3..];
      EncodeGroup(b[0], b[1], b[2], b[3..]);
      var t := Encode(b);
      assert t[4..] == Encode(b[3..]);
      BytesLong(t);
    }
  }

  /** Reading back what was written. */
  lemma RoundTrip(b: seq<Byte>)
    ensures Decode(Encode(b)) == Some(b)
  {
    hide Encode, Bytes, Decode;
    BytesOfEncode(b);
    DecodeCoded(Encode(b));
  }

  /** Written as the encoder would: its own alphabet, and no stray bits at the end. */
  predicate Canonical(t: string)
    requires Coded(t)
  {
    && (forall i :: 0 <= i < |t| ==> t[i] != '+' && t[i] != '/')
    && (|t| % 4 == 2 ==> V(t[|t| - 1]) % 16 == 0)
    && (|t| % 4 == 3 ==> V(t[|t| - 1]) % 4 == 0)
  }

  lemma SymbolOfValue(c: char)
    requires Value(c).Some?
    ensures Symbol(V(c)) == c <==> c != '+' && c != '/'
  {
  }

  /** What the encoder makes of one decoded group. */
  lemma Regrouped(v0: nat, v1: nat, v2: nat, v3: nat)
    requires v0 < 64 && v1 < 64 && v2 < 64 && v3 < 64
    ensures var b0, b1, b2 := High(v0, v1), Middle(v1, v2), Low(v2, v3);
      && b0 / 4 == v0 && Second(b0, b1) == v1 && Third(b1, b2) == v2 && b2 % 64 == v3
      && Second(b0, 0) == Cut(v1, 16) && Third(b1, 0) == Cut(v2, 4)
  {
  }

  lemma EncodeLong(t: string)
    requires Coded(t) && |t| % 4 != 1 && |t| >= 4
    ensures Coded(t[4..]) && |t[4..]| % 4 != 1
    ensures Encode(Bytes(t))
      == [Symbol(V(t[0])), Symbol(V(t[1])), Symbol(V(t[2])), Symbol(V(t[3]))] + Encode(Bytes(t[4..]))
  {
    hide Symbol, Value, Encode, Bytes, V, High, Middle, Low, Second, Third;
    var v0, v1, v2, v3 := V(t[0]), V(t[1]), V(t[2]), V(t[3]);
    Regrouped(v0, v1, v2, v3);
    BytesLong(t);
    EncodeGroup(High(v0, v1), Middle(v1, v2), Low(v2, v3), Bytes(t[4..]));
  }

  lemma EncodeTwo(b0: Byte, b1: Byte)
    ensures Encode([b0]) == [Symbol(b0 / 4), Symbol(Second(b0, 0))]
    ensures Encode([b0, b1]) == [Symbol(b0 / 4), Symbol(Second(b0, b1)), Symbol(Third(b1, 0))]
  {
    hide Symbol, Second, Third;
  }

  lemma BytesShort(t: string)
    requires Coded(t) && (|t| == 2 || |t| == 3)
    ensures Bytes(t) == if |t| == 2 then [High(V(t[0]), V(t[1]))] else [High(V(t[0]), V(t[1])), Middle(V(t[1]), V(t[2]))]
  {
    hide Value, V, High, Middle, Low;
  }

  /** A six-bit value without the bits below n. */
  function Cut(v: nat, n: nat): (w: nat)
    requires v < 64 && n > 0
    ensures w < 64 && (w == v <==> v % n == 0)
  {
    v - v % n
  }

  lemma ReencodeTwo(v0: nat, v1: nat)
    requires v0 < 64 && v1 < 64
    ensures Encode([High(v0, v1)]) == [Symbol(v0), Symbol(Cut(v1, 16))]
  {
    hide Symbol, High, Middle, Low, Second, Third, Encode, Cut;
    Regrouped(v0, v1, 0, 0);
    EncodeTwo(High(v0, v1), 0);
  }

  lemma ReencodeThree(v0: nat, v1: nat, v2: nat)
    requires v0 < 64 && v1 < 64 && v2 < 64
    ensures Encode([High(v0, v1), Middle(v1, v2)]) == [Symbol(v0), Symbol(v1), Symbol(Cut(v2, 4))]
  {
    hide Symbol, High, Middle, Low, Second, Third, Encode, Cut;
    Regrouped(v0, v1, v2, 0);
    EncodeTwo(High(v0, v1), Middle(v1, v2));
  }

  lemma EncodeShort(t: string)
    requires Coded(t) && (|t| == 2 || |t| == 3)
    ensures Encode(Bytes(t)) ==
      if |t| == 2 then [Symbol(V(t[0])), Symbol(Cut(V(t[1]), 16))]
      else [Symbol(V(t[0])), Symbol(V(t[1])), Symbol(Cut(V(t[2]), 4))]
  {
    hide Symbol, Value, V, High, Middle, Low, Second, Third, Encode, Bytes, Cut;
    BytesShort(t);
    if |t| == 2 {
      ReencodeTwo(V(t[0]), V(t[1]));
    } else {
      ReencodeThree(V(t[0]), V(t[1]), V(t[2]));
    }
  }

  lemma CanonicalShort(t: string)
    requires Coded(t) && (|t| == 2 || |t| == 3)
    ensures Encode(Bytes(t)) == t <==> Canonical(t)
  {
    hide Symbol, Value, Encode, Bytes, V, Cut;
    EncodeShort(t);
    forall i | 0 <= i < |t| ensures Symbol(V(t[i])) == t[i] <==> t[i] != '+' && t[i] != '/' { SymbolOfValue(t[i]); }
    if |t| == 2 {
      Misread(t[1], Cut(V(t[1]), 16));
    } else {
      Misread(t[2], Cut(V(t[2]), 4));
    }
  }

  /** A character is its value's symbol or that of none. */
  lemma Misread(c: char, n: nat)
    requires Value(c).Some? && n < 64
    ensures Symbol(n) == c ==> n == V(c)
  {
  }

  lemma {:induction false} CanonicalCode(t: string)
    requires Coded(t) && |t| % 4 != 1
    ensures Encode(Bytes(t)) == t <==> Canonical(t)
  {
    hide Symbol, Value, V, Encode, Bytes, Canonical;
    if |t| >= 4 {
      forall i | 0 <= i < 4 ensures Symbol(V(t[i])) == t[i] <==> t[i] != '+' && t[i] != '/' { SymbolOfValue(t[i]); }
      CanonicalCode(t[4..]);
      EncodeLong(t);
      SplitAtFour(t, [Symbol(V(t[0])), Symbol(V(t[1])), Symbol(V(t[2])), Symbol(V(t[3]))], Encode(Bytes(t[4..])));
      CanonicalTail(t);
    } else if |t| > 0 {
      CanonicalShort(t);
    } else {
      CanonicalEmpty(t);
    }
  }

  lemma CanonicalEmpty(t: string)
    requires |t| == 0
    ensures Encode(Bytes(t)) == t && Canonical(t)
  {
  }

  lemma SplitAtFour(t: string, head: string, tail: string)
    requires |t| >= 4 && |head| == 4
    ensures head + tail == t <==> tail == t[4..] && forall i :: 0 <= i < 4 ==> head[i] == t[i]
  {
    assert (head + tail)[..4] == head && (head + tail)[4..] == tail;
    assert t == t[..4] + t[4..];
  }

  lemma CanonicalTail(t: string)
    requires Coded(t) && |t| >= 4
    ensures Canonical(t) <==> Canonical(t[4..]) && forall i :: 0 <= i < 4 ==> t[i] != '+' && t[i] != '/'
  {
    hide Value;
    assert forall i :: 4 <= i < |t| ==> t[i] == t[4..][i - 4];
    assert |t| > 4 ==> t[|t| - 1] == t[4..][|t| - 5];
  }

  /** Several texts decode to the same bytes; exactly one of them is unpadded and canonical. */
  lemma CanonicalIsTheCode(t: string)
    requires Decode(t).Some?
    ensures Encode(Decode(t).value) == t <==> Coded(t) && Canonical(t)
  {
    hide Encode, Bytes, Decode, Canonical;
    if Coded(t) {
      DecodeCoded(t);
      CanonicalCode(t);
    }
  }

  lemma DecodePair(c: char, d: char)
    requires Value(c).Some? && Value(d).Some?
    ensures Decode([c, d]) == Decode([c, d, '=', '=']) == Some([High(V(c), V(d))])
  {
    hide Value, High, Bytes, Padding, V;
    var t := [c, d];
    assert Coded(t);
    DecodeCoded(t);
    BytesShort(t);
    RestoredPadding(t);
    assert Restored(t) == [c, d, '=', '='] == Restored([c, d, '=', '=']);
  }

  /** Decoding is therefore not injective: padding, a stray bit and the standard alphabet go unnoticed. */
  lemma DecodesAlike()
    ensures Decode("QQ") == Decode("QR") == Decode("QQ==") == Some([65])
    ensures Decode("-A") == Decode("+A") == Some([248])
  {
    hide Decode;
    DecodePair('Q', 'Q');
    DecodePair('Q', 'R');
    DecodePair('-', 'A');
    DecodePair('+', 'A');
  }
}
