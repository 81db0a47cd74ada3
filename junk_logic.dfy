/**
 * `generateJunkLogic(intensity)`: one dead statement chosen among five fixed
 * templates. All five templates are filled in, in order, before one is picked,
 * so every call consumes the same 79 draws whatever template is chosen.
 */
module JunkLogic {
  import opened JsText
  import opened RandomSource
  import opened Identifiers

  /** The five templates with the values interpolated into them. */
  datatype Junk =
    | CountingLoop(v: string, bound: int)
    | ClosureTable(table: string, bound: int)
    | DeadBranch(v: string)
    | ByteArith(v: string, hex: string, addend: int)
    | TupleSwap(a: string, b: string, x: string, y: string,
                c: string, d: string, e: string, f: string)

  /** Position of the template in the source's `templates` array. */
  function TemplateIndex(j: Junk): (i: int)
    ensures 0 <= i < TemplateCount
  {
    match j
    case CountingLoop(_, _) => 0
    case ClosureTable(_, _) => 1
    case DeadBranch(_) => 2
    case ByteArith(_, _, _) => 3
    case TupleSwap(_, _, _, _, _, _, _, _) => 4
  }

  const TemplateCount := 5

  /** Draws consumed by one call: two names (16), the loop bound (1), a name
      (8), two hex digits and the addend (3), two names, two numbers and four
      names (50), then the pick (1). */
  const JunkDraws := 79

  /** The length `Array.from` uses for an integer length: a negative one is zero. */
  function Max0(n: int): nat {
    if n < 0 then 0 else n
  }

  function Min(a: int, b: int): int {
    if a < b then a else b
  }

  /** The range of `Math.floor(Math.random() * n)`. */
  predicate ScaledFrom(r: int, n: int) {
    if n > 0 then 0 <= r < n else n <= r <= 0
  }

  /** What the source guarantees of each interpolated value. */
  predicate WellFormed(j: Junk, intensity: int) {
    && (j.CountingLoop? ==> IsVarName(j.v) && ScaledFrom(j.bound, 50 * intensity))
    && (j.ClosureTable? ==> IsVarName(j.table) && j.bound == Min(intensity, 10) && j.bound <= 10)
    && (j.DeadBranch? ==> IsVarName(j.v))
    && (j.ByteArith? ==> IsVarName(j.v) && |j.hex| == 2 && IsHex(j.hex) && ScaledFrom(j.addend, intensity))
    && (j.TupleSwap? ==>
          IsVarName(j.a) && IsVarName(j.b) && IsVarName(j.c) && IsVarName(j.d)
          && IsVarName(j.e) && IsVarName(j.f) && IsNumberText(j.x) && IsNumberText(j.y))
  }

  /** The statement text of a template instance. Every template ends with `;`. */
  function Render(j: Junk): (r: string)
    ensures |r| > 0 && r[|r| - 1] == ';'
  {
    match j
    case CountingLoop(v, bound) =>
      "local " + v + "=0;for i=1," + IntToString(bound) + " do " + v + "=" + v
      + "+i if " + v + "<0 then break end end;"
    case ClosureTable(t, bound) =>
      "local " + t + "={};for i=1," + IntToString(bound) + " do " + t
      + "[i]=function() return i*2 end end;"
    case DeadBranch(v) =>
      "if (" + "function(a) return a*a end)(2) == 5 then local " + v + "=\"unreachable\" end;"
    case ByteArith(v, hex, addend) =>
      "local " + v + " = string.byte(\"" + hex + "\", 1); " + v + " = " + v + " + "
      + IntToString(addend) + ";"
    case TupleSwap(a, b, x, y, c, d, e, f) =>
      "local " + a + ", " + b + " = " + x + ", " + y + "; " + c + ", " + d + " = " + e + ", " + f + ";"
  }

  /** Every template contains a space, so text made of templates that is not
      stripped is not whitespace-free. */
  lemma RenderHasSpace(j: Junk)
    ensures !NoSpace(Render(j))
  {
    var r := Render(j);
    var k := if j.DeadBranch? then 2 else 5;
    assert r[k] == ' ';
    assert IsJsSpace(r[k]);
  }

  /** The last template: six names and two printed numbers (50 draws). */
  function TupleSwapTemplate(rs: Stream, at: nat): (r: Gen<Junk>)
    ensures r.value.TupleSwap? && WellFormed(r.value, 0)
    ensures r.next == at + 50
  {
    var left := GetVars(2, rs, at);
    var x, y := PrintedDraw(rs, left.next), PrintedDraw(rs, left.next + 1);
    var right := GetVars(4, rs, left.next + 2);
    var n, m := left.value, right.value;
    Gen(TupleSwap(n[0], n[1], x, y, m[0], m[1], m[2], m[3]), right.next)
  }

  /** Template 0 around its name and loop-bound draw. */
  function LoopTemplate(v: string, intensity: int, u: Uniform): (j: Junk)
    requires IsVarName(v)
    ensures j.CountingLoop? && WellFormed(j, intensity)
  {
    CountingLoop(v, Scale(u, 50 * intensity))
  }

  /** Template 3 around its name, two hex digits and the addend draw. */
  function ArithTemplate(v: string, intensity: int, rs: Stream, at: nat): (j: Junk)
    requires IsVarName(v)
    ensures j.ByteArith? && WellFormed(j, intensity)
  {
    var hex := GenerateHex(2, rs, at);
    ByteArith(v, hex.value, Scale(rs(hex.next), intensity))
  }

  /** The five templates in source order, each filled in well-formed. */
  predicate FilledIn(t0: Junk, t1: Junk, t2: Junk, t3: Junk, t4: Junk, intensity: int) {
    && t0.CountingLoop? && t1.ClosureTable? && t2.DeadBranch? && t3.ByteArith? && t4.TupleSwap?
    && WellFormed(t0, intensity) && WellFormed(t1, intensity) && WellFormed(t2, intensity)
    && WellFormed(t3, intensity) && WellFormed(t4, intensity)
  }

  /** `templates[Math.floor(Math.random() * templates.length)]` over the
      five filled-in templates, in source order. */
  function Pick(t0: Junk, t1: Junk, t2: Junk, t3: Junk, t4: Junk, intensity: int, u: Uniform): (r: Junk)
    requires FilledIn(t0, t1, t2, t3, t4, intensity)
    ensures WellFormed(r, intensity) && TemplateIndex(r) == Scale(u, TemplateCount)
    ensures r == [t0, t1, t2, t3, t4][Scale(u, TemplateCount)]
  {
    var templates := [t0, t1, t2, t3, t4];
    templates[Scale(u, |templates|)]
  }

  /** `generateJunkLogic(intensity)`: fill in the templates, then pick one. */
  function GenerateJunkLogic(intensity: int, rs: Stream, at: nat): (r: Gen<Junk>)
    ensures WellFormed(r.value, intensity)
    ensures r.next == at + JunkDraws
  {
    var junkVar := GetVar(rs, at).value;
    var junkTable := GetVar(rs, at + 8).value;
    var loop := LoopTemplate(junkVar, intensity, rs(at + 16));
    var table := ClosureTable(junkTable, Min(intensity, 10));
    var dead := DeadBranch(GetVar(rs, at + 17).value);
    var arith := ArithTemplate(junkVar, intensity, rs, at + 25);
    var swap := TupleSwapTemplate(rs, at + 28).value;
    Gen(Pick(loop, table, dead, arith, swap, intensity, rs(at + 78)), at + 79)
  }

  /** The template is the one the last draw selects. */
  lemma ChosenTemplate(intensity: int, rs: Stream, at: nat)
    ensures TemplateIndex(GenerateJunkLogic(intensity, rs, at).value) == Scale(rs(at + JunkDraws - 1), TemplateCount)
  {
  }

  lemma WellFormedCons(j: Junk, js: seq<Junk>, intensity: int)
    requires WellFormed(j, intensity)
    requires forall i :: 0 <= i < |js| ==> WellFormed(js[i], intensity)
    ensures forall i :: 0 <= i < |[j] + js| ==> WellFormed(([j] + js)[i], intensity)
  {
  }

  /** `Array.from({ length: n }, () => generateJunkLogic(intensity))`: a
      negative length counts as zero; the statements are generated in order. */
  function JunkList(n: int, intensity: int, rs: Stream, at: nat): (r: Gen<seq<Junk>>)
    ensures |r.value| == Max0(n)
    ensures forall i :: 0 <= i < |r.value| ==> WellFormed(r.value[i], intensity)
    ensures r.next == at + JunkDraws * |r.value|
    decreases n
  {
    if n <= 0 then Gen([], at)
    else
      var first := GenerateJunkLogic(intensity, rs, at);
      var rest := JunkList(n - 1, intensity, rs, first.next);
      WellFormedCons(first.value, rest.value, intensity);
      Gen([first.value] + rest.value, rest.next)
  }

  /** `.join('')` of the rendered statements: empty only for no statements,
      at least one character per statement, and ending with the last
      statement's `;`. */
  function Join(js: seq<Junk>): (r: string)
    ensures |r| >= |js|
    ensures js != [] ==> r[|r| - 1] == ';'
  {
    if js == [] then []
    else
      var head, rest := Render(js[0]), Join(js[1..]);
      EndsLikeLast(head, rest, ';');
      head + rest
  }

  /** Text ending in `c`, then text that is empty or ends in `c`. */
  lemma EndsLikeLast(head: string, rest: string, c: char)
    requires |head| > 0 && head[|head| - 1] == c
    requires rest != [] ==> rest[|rest| - 1] == c
    ensures (head + rest)[|head + rest| - 1] == c
  {
  }

  /** A non-empty block of joined statements is never whitespace-free. */
  lemma JoinHasSpace(js: seq<Junk>)
    requires js != []
    ensures !NoSpace(Join(js))
  {
    var head := Render(js[0]);
    RenderHasSpace(js[0]);
    var i :| 0 <= i < |head| && IsJsSpace(head[i]);
    assert Join(js)[i] == head[i];
  }

}
