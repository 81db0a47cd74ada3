/**
 * `polymorphicEncode` and the decoder function the engine writes into its
 * output. The encoder base64-encodes the input and writes every base64
 * character as `\` followed by the decimal value of its code plus a random
 * seed in [5, 24], with no padding to a fixed width. The emitted decoder walks
 * the text in steps of four, reads the three characters after each step start
 * and subtracts the seed. The two agree exactly when every numeral but the
 * last has three digits.
 */
module Payload {
  import opened Wrappers
  import opened JsText
  import Base64
  import opened RandomSource

  /** The result of `polymorphicEncode`: `{ data, seed }`. */
  datatype Encoded = Encoded(data: string, seed: int)

  /** One escape: `\` and the numeral, as the template literal writes it. */
  function Field(n: nat): (r: string)
    ensures |r| == 1 + |NatToDecimal(n)| && r[0] == '\\' && r[1..] == NatToDecimal(n)
  {
    "\\" + NatToDecimal(n)
  }

  predicate IsEscapeText(s: string) {
    forall i :: 0 <= i < |s| ==> s[i] == '\\' || IsDigit(s[i])
  }

  function CountBackslashes(s: string): nat {
    if s == [] then 0 else (if s[0] == '\\' then 1 else 0) + CountBackslashes(s[1..])
  }

  lemma {:induction false} CountBackslashesAppend(a: string, b: string)
    ensures CountBackslashes(a + b) == CountBackslashes(a) + CountBackslashes(b)
  {
    if a == [] {
      assert a + b == b;
    } else {
      assert (a + b)[1..] == a[1..] + b;
      CountBackslashesAppend(a[1..], b);
    }
  }

  lemma {:induction false} NoBackslashInDigits(s: string)
    requires AllDigits(s)
    ensures CountBackslashes(s) == 0
  {
    if s != [] {
      NoBackslashInDigits(s[1..]);
    }
  }

  /** The escapes of a sequence of numerals, joined without separator: only
      backslashes and digits, one backslash per numeral, and at least three
      characters per numeral of two or more digits. */
  function Fields(ns: seq<nat>): (r: string)
    ensures IsEscapeText(r)
    ensures CountBackslashes(r) == |ns|
    ensures (forall i :: 0 <= i < |ns| ==> ns[i] >= 10) ==> |r| >= 3 * |ns|
    ensures ns != [] ==> r[0] == '\\'
  {
    if ns == [] then []
    else
      var head, tail := Field(ns[0]), Fields(ns[1..]);
      assert CountBackslashes(head) == 1 by {
        NoBackslashInDigits(NatToDecimal(ns[0]));
        assert head == "\\" + NatToDecimal(ns[0]);
        CountBackslashesAppend("\\", NatToDecimal(ns[0]));
      }
      CountBackslashesAppend(head, tail);
      head + tail
  }

  /** The shifted codes `c.charCodeAt(0) + seed` of a string. */
  function Shifted(b: string, seed: nat): (ns: seq<nat>)
    ensures |ns| == |b|
    ensures forall i :: 0 <= i < |b| ==> ns[i] == b[i] as int + seed
  {
    seq(|b|, i requires 0 <= i < |b| => b[i] as int + seed)
  }

  /** The payload text for a base64 string and a seed: escape text with one
      backslash per base64 character. */
  function Escapes(b: string, seed: nat): (r: string)
    ensures IsEscapeText(r) && CountBackslashes(r) == |b|
    ensures b != [] ==> r[0] == '\\'
  {
    Fields(Shifted(b, seed))
  }

  /** `polymorphicEncode(str)`: one draw for the seed, then `btoa`. `btoa`
      throws on code units above 0xFF; callers must not pass such input. */
  function PolymorphicEncode(str: string, rs: Stream, at: nat): (r: Gen<Encoded>)
    requires IsLatin1(str)
    ensures 5 <= r.value.seed <= 24
    ensures r.value.data == Escapes(Base64.Encode(str), r.value.seed)
    ensures r.next == at + 1
  {
    var seed := Scale(rs(at), 20) + 5;
    Gen(Encoded(Escapes(Base64.Encode(str), seed), seed), at + 1)
  }

  /** What the payload looks like: only backslashes and digits, one backslash
      per base64 character, every numeral between 48 and 146 (two or three
      digits), and at least four characters per input character. */
  lemma EncodedShape(str: string, rs: Stream, at: nat)
    requires IsLatin1(str)
    ensures var e, b := PolymorphicEncode(str, rs, at).value, Base64.Encode(str);
      && IsEscapeText(e.data)
      && CountBackslashes(e.data) == |b|
      && (forall i :: 0 <= i < |b| ==> 48 <= Shifted(b, e.seed)[i] <= 146)
      && |e.data| >= 3 * |b| >= 4 * |str|
  {
    Base64.EncodeCodes(str);
  }

  // ---------------------------------------------------------------------------
  // The emitted decoder
  // ---------------------------------------------------------------------------

  /** Lua's `tonumber` on the text the decoder slices out of a payload. Such a
      slice holds only backslashes and digits: a run of digits is read as a
      decimal number, and anything else (an empty slice, a backslash) is `nil`. */
  function ToNumber(s: string): (r: Option<nat>)
    ensures r.Some? <==> |s| > 0 && AllDigits(s)
  {
    if |s| > 0 && AllDigits(s) then Some(ParseDecimal(s)) else None
  }

  /** The decoder the engine emits, as a function of its arguments `s` and `k`:
      from every fourth position it takes the (at most) three characters after
      that position, reads them as a number, subtracts `k` and appends the
      character with that code; the slice stops at the end of the string.
      `None` stands for the Lua runtime error raised by arithmetic on `nil` or
      by `string.char` outside [0, 255]. */
  function LuaDecode(s: string, k: int): (r: Option<string>)
    ensures r.Some? ==> |r.value| == (|s| + 3) / 4
    decreases |s|
  {
    if s == [] then Some([])
    else
      var stop := if |s| < 4 then |s| else 4;
      match ToNumber(s[1..stop])
      case None => None
      case Some(v) =>
        if 0 <= v - k < 256 then Prepend((v - k) as char, LuaDecode(s[stop..], k)) else None
  }

  /** `d = d .. string.char(c)` ahead of the rest of the decoding, which may fail. */
  function Prepend(c: char, rest: Option<string>): (r: Option<string>)
    ensures r.Some? <==> rest.Some?
    ensures r.Some? ==> r.value == [c] + rest.value
  {
    match rest
    case None => None
    case Some(d) => Some([c] + d)
  }

  /** The decoding succeeds with `[c] + u` exactly when the rest decodes to `u`. */
  lemma PrependSome(c: char, rest: Option<string>, u: string)
    ensures Prepend(c, rest) == Some([c] + u) <==> rest == Some(u)
  {
    if rest.Some? && [c] + rest.value == [c] + u {
      assert rest.value == ([c] + rest.value)[1..];
    }
  }

  /** The characters a list of numerals stands for once `k` is subtracted. */
  function Unshift(ns: seq<nat>, k: int): (r: string)
    requires forall i :: 0 <= i < |ns| ==> 0 <= ns[i] - k < 256
    ensures |r| == |ns|
    ensures forall i :: 0 <= i < |ns| ==> r[i] as int == ns[i] - k
  {
    if ns == [] then [] else [(ns[0] - k) as char] + Unshift(ns[1..], k)
  }

  /** Subtracting the seed undoes adding it. */
  lemma UnshiftShifted(b: string, seed: nat)
    requires forall i :: 0 <= i < |b| ==> b[i] as int < 256
    ensures Unshift(Shifted(b, seed), seed) == b
  {
  }

  /** Every numeral before the last has three digits. */
  predicate AlignedBeforeLast(ns: seq<nat>) {
    forall i :: 0 <= i < |ns| - 1 ==> 100 <= ns[i]
  }

  /** One aligned step of the decoder over a three-digit numeral. */
  lemma DecodeStep(n: nat, tail: string, k: int)
    requires 100 <= n <= 999 && 0 <= n - k < 256
    ensures LuaDecode(Field(n) + tail, k) == Prepend((n - k) as char, LuaDecode(tail, k))
  {
    var s := Field(n) + tail;
    ParseNatToDecimal(n);
    assert s[1..4] == NatToDecimal(n);
    assert s[4..] == tail;
  }

  /** A two-digit numeral with another field after it: the slice ends in `\`. */
  lemma DecodeShortInner(n: nat, tail: string, k: int)
    requires 10 <= n < 100 && tail != [] && tail[0] == '\\'
    ensures LuaDecode(Field(n) + tail, k) == None
  {
    var s := Field(n) + tail;
    assert s[1..4] == NatToDecimal(n) + ['\\'];
    assert !IsDigit(s[1..4][2]);
  }

  /** A two-digit numeral at the end: the slice is cut short by `s:sub`. */
  lemma DecodeShortLast(n: nat, k: int)
    requires 10 <= n < 100 && 0 <= n - k < 256
    ensures LuaDecode(Field(n), k) == Some([(n - k) as char])
  {
    var s := Field(n);
    ParseNatToDecimal(n);
    assert |s| == 3;
    assert s[1..3] == NatToDecimal(n);
    assert ToNumber(s[1..3]) == Some(n);
    assert LuaDecode(s[3..], k) == Some([]);
    assert [(n - k) as char] + [] == [(n - k) as char];
  }

  /** The decoder reads back a list of two- and three-digit numerals exactly
      when every numeral except the last has three digits: a two-digit numeral
      followed by another field makes the slice `dd\`, which `tonumber`
      rejects, while a two-digit last numeral is cut short by the end of the
      string and still read correctly. */
  lemma {:induction false} DecodeFields(ns: seq<nat>, k: int)
    requires forall i :: 0 <= i < |ns| ==> 10 <= ns[i] <= 999 && 0 <= ns[i] - k < 256
    ensures LuaDecode(Fields(ns), k) == Some(Unshift(ns, k)) <==> AlignedBeforeLast(ns)
    decreases |ns|, 1
  {
    if ns != [] {
      var n, tail := ns[0], Fields(ns[1..]);
      assert Fields(ns) == Field(n) + tail;
      if n >= 100 {
        DecodeAligned(ns, k);
      } else if |ns| == 1 {
        assert Field(n) + tail == Field(n);
        DecodeShortLast(n, k);
      } else {
        DecodeShortInner(n, tail, k);
      }
    }
  }

  /** A leading three-digit numeral: decoding goes on with the rest. */
  lemma {:induction false} DecodeAligned(ns: seq<nat>, k: int)
    requires ns != [] && ns[0] >= 100
    requires forall i :: 0 <= i < |ns| ==> 10 <= ns[i] <= 999 && 0 <= ns[i] - k < 256
    ensures LuaDecode(Fields(ns), k) == Some(Unshift(ns, k)) <==> AlignedBeforeLast(ns)
    decreases |ns|, 0
  {
    var n, rest := ns[0], ns[1..];
    var tail := Fields(rest);
    assert Fields(ns) == Field(n) + tail;
    DecodeFields(rest, k);
    AlignedCons(ns);
    DecodeStep(n, tail, k);
    PrependSome((n - k) as char, LuaDecode(tail, k), Unshift(rest, k));
  }

  lemma AlignedCons(ns: seq<nat>)
    requires ns != [] && ns[0] >= 100
    ensures AlignedBeforeLast(ns) <==> AlignedBeforeLast(ns[1..])
  {
  }

  /** The round trip of the payload through the emitted decoder: applied to the
      payload and its seed, the decoder returns the base64 text of the input
      exactly when `code + seed` has three digits for every base64 character
      but the last. */
  lemma RoundTripIff(str: string, rs: Stream, at: nat)
    requires IsLatin1(str)
    ensures var e, b := PolymorphicEncode(str, rs, at).value, Base64.Encode(str);
      LuaDecode(e.data, e.seed) == Some(b) <==> AlignedBeforeLast(Shifted(b, e.seed))
  {
    var e, b := PolymorphicEncode(str, rs, at).value, Base64.Encode(str);
    DecodeFields(Shifted(b, e.seed), e.seed);
    UnshiftShifted(b, e.seed);
  }

  /** The condition the decoder's fixed stride was designed for: when every
      shifted code has exactly three digits, the round trip holds. */
  lemma RoundTripThreeDigits(str: string, rs: Stream, at: nat)
    requires IsLatin1(str)
    requires var e, b := PolymorphicEncode(str, rs, at).value, Base64.Encode(str);
      forall i :: 0 <= i < |b| ==> 100 <= b[i] as int + e.seed <= 999
    ensures var e := PolymorphicEncode(str, rs, at).value;
      LuaDecode(e.data, e.seed) == Some(Base64.Encode(str))
  {
    RoundTripIff(str, rs, at);
  }

  lemma EncodeA()
    ensures Base64.Encode("a") == "YQ=="
  {
  }

  /** Misalignment: `btoa("a")` is `YQ==`; with seed 5 the payload is
      `\94\86\66\66`, whose first slice `94\` is not a number. */
  lemma MisalignedPayload()
    ensures Shifted(Base64.Encode("a"), 5) == [94, 86, 66, 66]
    ensures LuaDecode(Escapes(Base64.Encode("a"), 5), 5) == None
  {
    EncodeA();
    var ns := Shifted("YQ==", 5);
    assert ns[0] == 94 && |ns| == 4;
    var tail := Fields(ns[1..]);
    assert Fields(ns) == Field(94) + tail;
    DecodeShortInner(94, tail, 5);
  }

  lemma SecondSymbolOfP()
    ensures ('p' as int % 4) * 16 + 'r' as int / 16 == 7
  {
  }

  /** Every chunk that starts with `pr`, `print('hi')` among them, has `H`
      (code 72) as the second character of its base64 text, and 72 + 24 < 100:
      whatever the seed, the emitted decoder cannot read its payload back. */
  lemma PrintNeverDecodes(str: string, rs: Stream, at: nat)
    requires IsLatin1(str) && |str| >= 3 && str[0] == 'p' && str[1] == 'r'
    ensures var e := PolymorphicEncode(str, rs, at).value;
      LuaDecode(e.data, e.seed) != Some(Base64.Encode(str))
  {
    var e, b := PolymorphicEncode(str, rs, at).value, Base64.Encode(str);
    Base64.SecondSymbol(str);
    SecondSymbolOfP();
    assert b[1] == Base64.Symbol(7) == 'H';
    assert b[1] as int + e.seed < 100;
    RoundTripIff(str, rs, at);
  }

  lemma ZzBase64()
    ensures Base64.Encode("zz") == "eno="
  {
    var z := 'z' as int;
    assert z / 4 == 30 && (z % 4) * 16 + z / 16 == 39 && (z % 16) * 4 == 40;
    assert Base64.Symbol(30) == 'e' && Base64.Symbol(39) == 'n' && Base64.Symbol(40) == 'o';
  }

  /** A two-digit last numeral is harmless: `btoa("zz")` is `eno=`, and with
      seed 24 the pad character becomes 85, yet the decoder reads everything
      back because `s:sub` stops at the end of the string. */
  lemma ShortLastNumeral()
    ensures Base64.Encode("zz") == "eno="
    ensures '=' as int + 24 < 100
    ensures LuaDecode(Escapes("eno=", 24), 24) == Some("eno=")
  {
    ZzBase64();
    DecodeEno();
  }

  lemma DecodeEno()
    ensures LuaDecode(Escapes("eno=", 24), 24) == Some("eno=")
  {
    var ns := Shifted("eno=", 24);
    assert ns == [125, 134, 135, 85];
    DecodeFields(ns, 24);
    UnshiftShifted("eno=", 24);
  }

  // ---------------------------------------------------------------------------
  // Fixed-width encoding
  // ---------------------------------------------------------------------------

  /** A numeral written with leading zeros to at least three digits. */
  function Pad3(s: string): (r: string)
    requires AllDigits(s)
    ensures AllDigits(r) && |r| >= 3 && ParseDecimal(r) == ParseDecimal(s)
    ensures |s| <= 3 ==> |r| == 3
    decreases 3 - |s|
  {
    if |s| >= 3 then s
    else
      ParseLeadingZero(s);
      Pad3("0" + s)
  }

  /** One escape with its numeral zero-padded to three digits. */
  function PaddedField(n: nat): (r: string)
    ensures |r| >= 4 && r[0] == '\\'
  {
    "\\" + Pad3(NatToDecimal(n))
  }

  function PaddedFields(ns: seq<nat>): (r: string)
    ensures |r| >= 4 * |ns|
    ensures ns != [] ==> r[0] == '\\'
  {
    if ns == [] then [] else PaddedField(ns[0]) + PaddedFields(ns[1..])
  }

  /** The encoder with every numeral zero-padded to three digits, which is what
      the decoder's fixed stride of four expects. */
  function PaddedEncode(str: string, rs: Stream, at: nat): (r: Gen<Encoded>)
    requires IsLatin1(str)
    ensures 5 <= r.value.seed <= 24 && r.next == at + 1
    ensures r.value.seed == PolymorphicEncode(str, rs, at).value.seed
    ensures r.value.data == PaddedFields(Shifted(Base64.Encode(str), r.value.seed))
  {
    var seed := Scale(rs(at), 20) + 5;
    Gen(Encoded(PaddedFields(Shifted(Base64.Encode(str), seed)), seed), at + 1)
  }

  /** One padded escape: the slice is exactly its three digits. */
  lemma DecodePaddedStep(n: nat, tail: string, k: int)
    requires n <= 999 && 0 <= n - k < 256
    ensures LuaDecode(PaddedField(n) + tail, k) == Prepend((n - k) as char, LuaDecode(tail, k))
  {
    var s := PaddedField(n) + tail;
    var digits := Pad3(NatToDecimal(n));
    ParseNatToDecimal(n);
    assert s == "\\" + digits + tail;
    assert s[1..4] == digits;
    assert s[4..] == tail;
  }

  lemma {:induction false} DecodePaddedFields(ns: seq<nat>, k: int)
    requires forall i :: 0 <= i < |ns| ==> ns[i] <= 999 && 0 <= ns[i] - k < 256
    ensures LuaDecode(PaddedFields(ns), k) == Some(Unshift(ns, k))
  {
    if ns != [] {
      var n, tail := ns[0], PaddedFields(ns[1..]);
      DecodePaddedStep(n, tail, k);
      DecodePaddedFields(ns[1..], k);
    }
  }

  /** With fixed-width numerals the emitted decoder inverts the encoder for
      every input and every seed. */
  lemma PaddedRoundTrip(str: string, rs: Stream, at: nat)
    requires IsLatin1(str)
    ensures var e := PaddedEncode(str, rs, at).value;
      LuaDecode(e.data, e.seed) == Some(Base64.Encode(str))
  {
    var e, b := PaddedEncode(str, rs, at).value, Base64.Encode(str);
    DecodePaddedFields(Shifted(b, e.seed), e.seed);
    UnshiftShifted(b, e.seed);
  }

}
