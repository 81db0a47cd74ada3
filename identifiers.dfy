/**
 * `generateHex` and `getVar`: random lower-case hexadecimal strings and the
 * `_0x`-prefixed local names built from them.
 */
module Identifiers {
  import opened RandomSource

  predicate IsHexChar(c: char) {
    '0' <= c <= '9' || 'a' <= c <= 'f'
  }

  predicate IsHex(s: string) {
    forall i :: 0 <= i < |s| ==> IsHexChar(s[i])
  }

  /** `d.toString(16)` for a digit value below 16. */
  function HexChar(d: int): (c: char)
    requires 0 <= d < 16
    ensures IsHexChar(c)
  {
    if d < 10 then ('0' as int + d) as char else ('a' as int + d - 10) as char
  }

  function HexValue(c: char): int
    requires IsHexChar(c)
  {
    if c <= '9' then c as int - '0' as int else c as int - 'a' as int + 10
  }

  /** `generateHex(len)`: one draw per character, in order; each character is
      the hexadecimal digit of `floor(16 * draw)`, so the text can be read back
      into the draws that produced it. */
  function GenerateHex(len: nat, rs: Stream, at: nat): (r: Gen<string>)
    ensures |r.value| == len && r.next == at + len
    ensures IsHex(r.value)
    ensures forall i :: 0 <= i < len ==> HexValue(r.value[i]) == Scale(rs(at + i), 16)
  {
    var digits := seq(len, i requires 0 <= i < len => HexChar(Scale(rs(at + i), 16)));
    assert forall i :: 0 <= i < len ==> digits[i] == HexChar(Scale(rs(at + i), 16));
    Gen(digits, at + len)
  }

  /** A name `getVar` produces: `_0x` and eight lower-case hexadecimal digits. */
  predicate IsVarName(s: string) {
    |s| == 11 && s[..3] == "_0x" && IsHex(s[3..])
  }

  /** `getVar()`: eight draws. */
  function GetVar(rs: Stream, at: nat): (r: Gen<string>)
    ensures IsVarName(r.value) && r.next == at + 8
  {
    var h := GenerateHex(8, rs, at);
    Gen("_0x" + h.value, h.next)
  }

  /** The eight digits of a name read back as the eight draws behind them. */
  lemma GetVarDigits(rs: Stream, at: nat)
    ensures var v := GetVar(rs, at).value;
      forall i :: 3 <= i < 11 ==> HexValue(v[i]) == Scale(rs(at + i - 3), 16)
  {
    var h := GenerateHex(8, rs, at);
    assert GetVar(rs, at).value == "_0x" + h.value;
  }

  /** `n` calls of `getVar()` in a row. */
  function GetVars(n: nat, rs: Stream, at: nat): (r: Gen<seq<string>>)
    ensures |r.value| == n && r.next == at + 8 * n
    ensures forall i :: 0 <= i < n ==> IsVarName(r.value[i])
    decreases n
  {
    if n == 0 then Gen([], at)
    else
      var first := GetVar(rs, at);
      var rest := GetVars(n - 1, rs, first.next);
      Gen([first.value] + rest.value, rest.next)
  }

  /** A Lua name: a letter or `_`, then letters, digits and `_`. */
  predicate IsLuaName(s: string) {
    |s| > 0 && ('a' <= s[0] <= 'z' || 'A' <= s[0] <= 'Z' || s[0] == '_')
    && forall i :: 0 < i < |s| ==>
      'a' <= s[i] <= 'z' || 'A' <= s[i] <= 'Z' || '0' <= s[i] <= '9' || s[i] == '_'
  }

  /** Every generated name is usable as a Lua local. */
  lemma VarNameIsLuaName(s: string)
    requires IsVarName(s)
    ensures IsLuaName(s)
  {
    forall i | 3 <= i < |s|
      ensures IsHexChar(s[i])
    {
      assert s[i] == s[3..][i - 3];
    }
  }

}
