/**
 * `btoa`: the base64 encoding of section 4 of RFC 4648 applied to a string of
 * Latin-1 code units, with `=` padding. The decoder is the reference inverse
 * the round trip is proved against.
 */
module Base64 {
  import opened Wrappers
  import opened JsText

  /** The character for a 6-bit value: A-Z, a-z, 0-9, '+', '/'. */
  function Symbol(i: int): (c: char)
    requires 0 <= i < 64
    ensures IsSymbol(c) && SymbolIndex(c) == i
  {
    if i < 26 then ('A' as int + i) as char
    else if i < 52 then ('a' as int + i - 26) as char
    else if i < 62 then ('0' as int + i - 52) as char
    else if i == 62 then '+'
    else '/'
  }

  predicate IsSymbol(c: char) {
    'A' <= c <= 'Z' || 'a' <= c <= 'z' || '0' <= c <= '9' || c == '+' || c == '/'
  }

  function SymbolIndex(c: char): (i: int)
    requires IsSymbol(c)
    ensures 0 <= i < 64
  {
    if 'A' <= c <= 'Z' then c as int - 'A' as int
    else if 'a' <= c <= 'z' then c as int - 'a' as int + 26
    else if '0' <= c <= '9' then c as int - '0' as int + 52
    else if c == '+' then 62
    else 63
  }

  /** A character `btoa` can emit: an alphabet symbol or the pad character. */
  predicate IsBase64Char(c: char) {
    IsSymbol(c) || c == '='
  }

  /** The four characters for three octets. */
  function Quantum3(a: int, b: int, c: int): string
    requires 0 <= a < 256 && 0 <= b < 256 && 0 <= c < 256
  {
    [Symbol(a / 4), Symbol((a % 4) * 16 + b / 16), Symbol((b % 16) * 4 + c / 64), Symbol(c % 64)]
  }

  /** `btoa(s)`. */
  function Encode(s: string): (r: string)
    requires IsLatin1(s)
    ensures |r| == 4 * ((|s| + 2) / 3)
    ensures forall i :: 0 <= i < |r| ==> IsBase64Char(r[i])
  {
    if |s| == 0 then []
    else if |s| == 1 then
      [Symbol(s[0] as int / 4), Symbol((s[0] as int % 4) * 16), '=', '=']
    else if |s| == 2 then
      [Symbol(s[0] as int / 4), Symbol((s[0] as int % 4) * 16 + s[1] as int / 16),
       Symbol((s[1] as int % 16) * 4), '=']
    else
      Quantum3(s[0] as int, s[1] as int, s[2] as int) + Encode(s[3..])
  }

  /** Every character `btoa` emits has a code between 43 (`+`) and 122 (`z`). */
  lemma EncodeCodes(s: string)
    requires IsLatin1(s)
    ensures forall i :: 0 <= i < |Encode(s)| ==> 43 <= Encode(s)[i] as int <= 122
  {
    var r := Encode(s);
    forall i | 0 <= i < |r|
      ensures 43 <= r[i] as int <= 122
    {
      assert IsBase64Char(r[i]);
    }
  }

  /** The reference decoder (`atob` restricted to padded input). */
  function Decode(t: string): (r: Option<string>)
    decreases |t|
  {
    if |t| == 0 then Some([])
    else if |t| < 4 || !IsSymbol(t[0]) || !IsSymbol(t[1]) then None
    else
      var i0, i1 := SymbolIndex(t[0]), SymbolIndex(t[1]);
      var a := (i0 * 4 + i1 / 16) as char;
      if |t| == 4 && t[2] == '=' && t[3] == '=' then Some([a])
      else if !IsSymbol(t[2]) then None
      else
        var i2 := SymbolIndex(t[2]);
        var b := ((i1 % 16) * 16 + i2 / 4) as char;
        if |t| == 4 && t[3] == '=' then Some([a, b])
        else if !IsSymbol(t[3]) then None
        else
          match Decode(t[4..])
          case None => None
          case Some(rest) => Some(Octets(i0, i1, i2, SymbolIndex(t[3])) + rest)
  }

  /** The three octets whose bits four symbol indices carry, six bits each. */
  function Octets(i0: int, i1: int, i2: int, i3: int): string
    requires 0 <= i0 < 64 && 0 <= i1 < 64 && 0 <= i2 < 64 && 0 <= i3 < 64
  {
    [(i0 * 4 + i1 / 16) as char, ((i1 % 16) * 16 + i2 / 4) as char, ((i2 % 4) * 64 + i3) as char]
  }

  /** Regrouping three octets into four indices and back gives the octets. */
  lemma OctetsOfQuantum(x: char, y: char, z: char)
    requires x as int < 256 && y as int < 256 && z as int < 256
    ensures Octets(x as int / 4, (x as int % 4) * 16 + y as int / 16,
                   (y as int % 16) * 4 + z as int / 64, z as int % 64) == [x, y, z]
  {
    Regroup(x as int, y as int, z as int);
  }

  /** The bit regrouping of one quantum is undone by the decoder's arithmetic. */
  lemma Regroup(x: int, y: int, z: int)
    requires 0 <= x < 256 && 0 <= y < 256 && 0 <= z < 256
    ensures (x / 4) * 4 + ((x % 4) * 16 + y / 16) / 16 == x
    ensures (((x % 4) * 16 + y / 16) % 16) * 16 + ((y % 16) * 4 + z / 64) / 4 == y
    ensures (((y % 16) * 4 + z / 64) % 4) * 64 + z % 64 == z
  {
  }

  lemma DecodeQuantum1(x: char)
    requires x as int < 256
    ensures Decode([Symbol(x as int / 4), Symbol((x as int % 4) * 16), '=', '=']) == Some([x])
  {
    Regroup(x as int, 0, 0);
  }

  lemma DecodeQuantum2(x: char, y: char)
    requires x as int < 256 && y as int < 256
    ensures Decode([Symbol(x as int / 4), Symbol((x as int % 4) * 16 + y as int / 16),
                    Symbol((y as int % 16) * 4), '=']) == Some([x, y])
  {
    Regroup(x as int, y as int, 0);
  }

  lemma DecodeQuantum3(x: char, y: char, z: char, rest: string)
    requires x as int < 256 && y as int < 256 && z as int < 256
    ensures Decode(Quantum3(x as int, y as int, z as int) + rest) ==
      match Decode(rest)
      case None => None
      case Some(d) => Some([x, y, z] + d)
  {
    var a, b, c := x as int, y as int, z as int;
    var i0, i1, i2, i3 := a / 4, (a % 4) * 16 + b / 16, (b % 16) * 4 + c / 64, c % 64;
    OctetsOfQuantum(x, y, z);
    var t := Quantum3(a, b, c) + rest;
    assert t[0] == Symbol(i0) && t[1] == Symbol(i1) && t[2] == Symbol(i2) && t[3] == Symbol(i3);
    assert t[4..] == rest;
  }

  lemma EncodeQuantum3(s: string)
    requires IsLatin1(s) && |s| >= 3
    ensures Encode(s) == Quantum3(s[0] as int, s[1] as int, s[2] as int) + Encode(s[3..])
  {
  }

  /** The second character of a long enough encoding. */
  lemma SecondSymbol(s: string)
    requires IsLatin1(s) && |s| >= 3
    ensures Encode(s)[1] == Symbol((s[0] as int % 4) * 16 + s[1] as int / 16)
  {
    EncodeQuantum3(s);
  }

  lemma SplitQuantum(s: string)
    requires |s| >= 3
    ensures s == [s[0], s[1], s[2]] + s[3..]
  {
  }

  /** Decoding what `btoa` produced gives back the original string. */
  lemma {:induction false} DecodeEncode(s: string)
    requires IsLatin1(s)
    ensures Decode(Encode(s)) == Some(s)
  {
    if |s| == 1 {
      var x := s[0];
      assert Encode(s) == [Symbol(x as int / 4), Symbol((x as int % 4) * 16), '=', '='];
      DecodeQuantum1(x);
      assert [x] == s;
    } else if |s| == 2 {
      var x, y := s[0], s[1];
      assert Encode(s) == [Symbol(x as int / 4), Symbol((x as int % 4) * 16 + y as int / 16),
                           Symbol((y as int % 16) * 4), '='];
      DecodeQuantum2(x, y);
      assert [x, y] == s;
    } else if |s| >= 3 {
      EncodeQuantum3(s);
      DecodeQuantum3(s[0], s[1], s[2], Encode(s[3..]));
      DecodeEncode(s[3..]);
      SplitQuantum(s);
    }
  }

}
