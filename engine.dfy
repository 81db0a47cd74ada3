/**
 * `obfuscate(input, name, counter, level)`: the sentinel for blank input;
 * otherwise a build header, a block of junk statements, the whitespace-free
 * loader body and a shorter block of junk statements. The body is a fixed
 * template filled with five fresh names, the encoded payload and its seed,
 * decoy values and junk statements, then stripped of all whitespace.
 */
module Engine {
  import opened Wrappers
  import opened JsText
  import opened RandomSource
  import opened Identifiers
  import opened Payload
  import opened JunkLogic
  import opened Template
  import Base64

  /** What blank input produces instead of a build. */
  const Sentinel := "-- ERR_EMPTY_BUFFER"

  const HeaderPrefix := "-- [XF_OBFUSCATION_BUILD_"

  /** The first line of every build: the counter and the level. */
  function Header(counter: int, level: int): (r: string)
    ensures |r| > |HeaderPrefix| && r[..|HeaderPrefix|] == HeaderPrefix
  {
    HeaderPrefix + IntToString(counter) + "_L" + IntToString(level) + "]\n"
  }

  /** The rendering of an integer holds only digits and possibly a leading
      minus sign, so neither `_` nor `]` occurs in it. */
  lemma IntMarks(n: int)
    ensures '_' !in IntToString(n) && ']' !in IntToString(n)
  {
    var r := IntToString(n);
    forall i | 0 <= i < |r|
      ensures r[i] != '_' && r[i] != ']'
    {
      if n < 0 && i > 0 {
        assert r[i] == r[1..][i - 1];
      }
    }
  }

  /** Two texts split at their first occurrence of a mark split alike. */
  lemma SplitAtMark(a1: string, r1: string, a2: string, r2: string, m: char)
    requires m !in a1 && m !in a2
    requires a1 + [m] + r1 == a2 + [m] + r2
    ensures a1 == a2 && r1 == r2
  {
    var s := a1 + [m] + r1;
    assert s == a2 + [m] + r2;
    assert forall i :: 0 <= i < |a1| ==> s[i] == a1[i] != m;
    assert forall i :: 0 <= i < |a2| ==> s[i] == a2[i] != m;
    assert s[|a1|] == m && s[|a2|] == m;
    assert |a1| == |a2|;
    assert a1 == s[..|a1|] == a2;
    assert r1 == s[|a1| + 1..] == r2;
  }

  /** The header as the prefix, the counter, `_` and the rest. */
  lemma HeaderParts(counter: int, level: int)
    ensures Header(counter, level)
      == HeaderPrefix + (IntToString(counter) + ['_'] + (['L'] + (IntToString(level) + [']'] + "\n")))
  {
  }

  /** Distinct builds get distinct headers: the header determines both the
      counter and the level. */
  lemma HeaderInjective(c1: int, l1: int, c2: int, l2: int)
    requires Header(c1, l1) == Header(c2, l2)
    ensures c1 == c2 && l1 == l2
  {
    HeaderParts(c1, l1);
    HeaderParts(c2, l2);
    var a1, a2 := IntToString(c1), IntToString(c2);
    var b1, b2 := IntToString(l1), IntToString(l2);
    var t1 := a1 + ['_'] + (['L'] + (b1 + [']'] + "\n"));
    var t2 := a2 + ['_'] + (['L'] + (b2 + [']'] + "\n"));
    assert t1 == Header(c1, l1)[|HeaderPrefix|..];
    assert t2 == Header(c2, l2)[|HeaderPrefix|..];
    IntMarks(c1);
    IntMarks(c2);
    SplitAtMark(a1, ['L'] + (b1 + [']'] + "\n"), a2, ['L'] + (b2 + [']'] + "\n"), '_');
    IntToStringInjective(c1, c2);
    assert b1 + [']'] + "\n" == (['L'] + (b1 + [']'] + "\n"))[1..];
    assert b2 + [']'] + "\n" == (['L'] + (b2 + [']'] + "\n"))[1..];
    IntMarks(l1);
    IntMarks(l2);
    SplitAtMark(b1, "\n", b2, "\n", ']');
    IntToStringInjective(l1, l2);
  }

  // ---------------------------------------------------------------------------
  // How many junk statements go where
  // ---------------------------------------------------------------------------

  /** `Math.floor(level * 1.5)`. */
  function JunkCount(level: int): (j: int)
    ensures 2 * j <= 3 * level < 2 * j + 2
  {
    (3 * level) / 2
  }

  /** `Math.ceil(junkCount / 2)`: statements inside the body, before the decoder. */
  function BodyJunkCount(level: int): (n: int)
    ensures JunkCount(level) <= 2 * n < JunkCount(level) + 2
  {
    (JunkCount(level) + 1) / 2
  }

  /** `Math.floor(junkCount / 2)`: statements before the body. */
  function PrefixCount(level: int): (n: int)
    ensures 2 * n <= JunkCount(level) < 2 * n + 2
  {
    JunkCount(level) / 2
  }

  /** `Math.floor(junkCount / 4)`: statements after the body. */
  function SuffixCount(level: int): (n: int)
    ensures 4 * n <= JunkCount(level) < 4 * n + 4
  {
    JunkCount(level) / 4
  }

  /** The statements inside the body and those before it are `junkCount` in
      all, at every level. */
  lemma JunkSplit(level: int)
    ensures Max0(BodyJunkCount(level)) + Max0(PrefixCount(level)) == Max0(JunkCount(level))
  {
  }

  /** The block after the body is never longer than the block before it. */
  lemma SuffixShorter(level: int)
    ensures Max0(SuffixCount(level)) <= Max0(PrefixCount(level))
  {
  }

  /** A higher level never means fewer junk statements anywhere. */
  lemma CountsMonotone(low: int, high: int)
    requires low <= high
    ensures JunkCount(low) <= JunkCount(high)
    ensures BodyJunkCount(low) <= BodyJunkCount(high)
    ensures PrefixCount(low) <= PrefixCount(high)
    ensures SuffixCount(low) <= SuffixCount(high)
  {
  }

  // ---------------------------------------------------------------------------
  // The values drawn for one build
  // ---------------------------------------------------------------------------

  /** The decoy declaration above level 3: two names and two hex strings. */
  datatype Swap = NoSwap | Swap(first: string, second: string, firstHex: string, secondHex: string)

  /** The values the loader body is built from, in the names the source gives
      them: the declarations drawn before the template and the template's own
      draws. */
  datatype Build = Build(
    env: string, state: string, vmTable: string, decoder: string, stack: string,
    payload: Encoded,
    swap: Swap,
    fill: Filling,
    level: int)

  /** `swapLogic`: four names and hex digits above level 3, nothing otherwise. */
  function SwapDraws(level: int, rs: Stream, at: nat): (r: Gen<Swap>)
    ensures r.value.Swap? <==> level > 3
    ensures r.value.Swap? ==>
      IsVarName(r.value.first) && IsVarName(r.value.second)
      && |r.value.firstHex| == 4 && IsHex(r.value.firstHex)
      && |r.value.secondHex| == 4 && IsHex(r.value.secondHex)
    ensures r.next == at + (if level > 3 then 24 else 0)
  {
    if level > 3 then
      var first := GetVar(rs, at);
      var second := GetVar(rs, first.next);
      var firstHex := GenerateHex(4, rs, second.next);
      var secondHex := GenerateHex(4, rs, firstHex.next);
      Gen(Swap(first.value, second.value, firstHex.value, secondHex.value), secondHex.next)
    else
      Gen(NoSwap, at)
  }

  function SwapText(s: Swap): (r: string)
    ensures r == [] <==> s.NoSwap?
  {
    match s
    case NoSwap => ""
    case Swap(first, second, firstHex, secondHex) =>
      "local " + first + ", " + second + " = \"" + firstHex + "\", \"" + secondHex + "\";"
  }

  /** The statement in the state-1 branch: a junk statement above level 7. */
  function ExtraDraws(level: int, rs: Stream, at: nat): (r: Gen<Option<Junk>>)
    ensures r.value.Some? <==> level > 7
    ensures r.value.Some? ==> WellFormed(r.value.value, level)
  {
    if level > 7 then
      var j := GenerateJunkLogic(level, rs, at);
      Gen(Some(j.value), j.next)
    else
      Gen(None, at)
  }

  /** The state-1 branch's statement: empty exactly when there is no junk. */
  function ExtraText(e: Option<Junk>): (r: string)
    ensures r == [] <==> e.None?
    ensures e.Some? ==> r[|r| - 1] == ';'
  {
    match e
    case None => ""
    case Some(j) => Render(j)
  }

  /** The draws made before the template: five names, the payload seed and
      the decoy declaration. */
  datatype Declarations = Declarations(names: seq<string>, payload: Encoded, swap: Swap)

  function Declare(input: string, level: int, rs: Stream, at: nat): (r: Gen<Declarations>)
    requires IsLatin1(input)
    ensures |r.value.names| == 5 && forall i :: 0 <= i < 5 ==> IsVarName(r.value.names[i])
    ensures r.value.payload == PolymorphicEncode(input, rs, at + 40).value
    ensures r.value.swap.Swap? <==> level > 3
  {
    var names := GetVars(5, rs, at);
    var enc := PolymorphicEncode(input, rs, names.next);
    var swap := SwapDraws(level, rs, enc.next);
    Gen(Declarations(names.value, enc.value, swap.value), swap.next)
  }

  /** The draws the template makes itself, left to right. */
  datatype Filling = Filling(stackNumber: string, stackHex: string, bodyJunk: seq<Junk>,
                             initialState: int, branchJunk: Junk, extraJunk: Option<Junk>)

  function Fill(level: int, rs: Stream, at: nat): (r: Gen<Filling>)
    ensures |r.value.bodyJunk| == Max0(BodyJunkCount(level))
    ensures 10 * level <= r.value.initialState < 10 * level + 500
    ensures WellFormed(r.value.branchJunk, level)
    ensures r.value.extraJunk.Some? <==> level > 7
  {
    var stackNumber := PrintedDraw(rs, at);
    var stackHex := GenerateHex(4, rs, at + 1);
    var body := JunkList(BodyJunkCount(level), level, rs, stackHex.next);
    var initialState := Scale(rs(body.next), 500) + level * 10;
    var branch := GenerateJunkLogic(level, rs, body.next + 1);
    var extra := ExtraDraws(level, rs, branch.next);
    Gen(Filling(stackNumber, stackHex.value, body.value, initialState, branch.value, extra.value),
        extra.next)
  }

  /** The draws behind the loader body, in the order JavaScript evaluates
      them: the declarations, then the template's own substitutions. */
  function Assemble(input: string, level: int, rs: Stream, at: nat): (r: Gen<Build>)
    requires IsLatin1(input)
    ensures var b := r.value;
      && IsVarName(b.env) && IsVarName(b.state) && IsVarName(b.vmTable)
      && IsVarName(b.decoder) && IsVarName(b.stack)
    ensures r.value.payload == PolymorphicEncode(input, rs, at + 40).value
    ensures r.value.level == level
    ensures r.value.swap == Declare(input, level, rs, at).value.swap
    ensures r.value.fill == Fill(level, rs, Declare(input, level, rs, at).next).value
  {
    var d := Declare(input, level, rs, at);
    var f := Fill(level, rs, d.next);
    var n := d.value.names;
    Gen(Build(n[0], n[1], n[2], n[3], n[4], d.value.payload, d.value.swap, f.value, level), f.next)
  }

  /** The level gates: the decoy declaration appears above level 3, the
      extra junk statement above level 7, and the initial state lies in
      [10 level, 10 level + 499]. */
  lemma AssembleGates(input: string, level: int, rs: Stream, at: nat)
    requires IsLatin1(input)
    ensures var b := Assemble(input, level, rs, at).value;
      && (b.swap.Swap? <==> level > 3)
      && (b.fill.extraJunk.Some? <==> level > 7)
      && 10 * level <= b.fill.initialState < 10 * level + 500
      && WellFormed(b.fill.branchJunk, level)
  {
    var b := Assemble(input, level, rs, at).value;
    var d := Declare(input, level, rs, at);
    var f := Fill(level, rs, d.next).value;
    assert b.swap == d.value.swap;
    assert b.fill == f;
  }

  /** What `obfuscate` returns for non-blank input, before it is joined: the
      header, the statements before the body, the body's values and the
      statements after it. */
  datatype Output = Output(header: string, prefix: seq<Junk>, build: Build, suffix: seq<Junk>)

  /** The body's draws, then `junkPrefix`, then `junkSuffix`. */
  function Generate(input: string, counter: int, level: int, rs: Stream, at: nat): (r: Output)
    requires IsLatin1(input)
    ensures r.header == Header(counter, level)
    ensures r.build == Assemble(input, level, rs, at).value
    ensures forall i :: 0 <= i < |r.prefix| ==> WellFormed(r.prefix[i], level)
    ensures forall i :: 0 <= i < |r.suffix| ==> WellFormed(r.suffix[i], level)
    ensures var prefix := JunkList(PrefixCount(level), level, rs, Assemble(input, level, rs, at).next);
      && r.prefix == prefix.value
      && r.suffix == JunkList(SuffixCount(level), level, rs, prefix.next).value
  {
    var b := Assemble(input, level, rs, at);
    var prefix := JunkList(PrefixCount(level), level, rs, b.next);
    var suffix := JunkList(SuffixCount(level), level, rs, prefix.next);
    Output(Header(counter, level), prefix.value, b.value, suffix.value)
  }

  /** The three junk blocks hold `ceil(j/2)`, `floor(j/2)` and `floor(j/4)`
      statements for `j = floor(1.5 level)`. */
  lemma GenerateCounts(input: string, counter: int, level: int, rs: Stream, at: nat)
    requires IsLatin1(input)
    ensures var o := Generate(input, counter, level, rs, at);
      && |o.build.fill.bodyJunk| == Max0(BodyJunkCount(level))
      && |o.prefix| == Max0(PrefixCount(level))
      && |o.suffix| == Max0(SuffixCount(level))
  {
    var d := Declare(input, level, rs, at);
    assert Assemble(input, level, rs, at).value.fill == Fill(level, rs, d.next).value;
  }

  // ---------------------------------------------------------------------------
  // The template and the body
  // ---------------------------------------------------------------------------

  /** `loadstring`, spelled with Lua decimal escapes. */
  const LoadstringEscape := "\\108\\111\\97\\100\\115\\116\\114\\105\\110\\103"

  /** The template literal, section by section, with every substitution in
      place: the prologue, the decoder, the declarations before the loop and
      the loop's branches; 34 lines in all, one per template line. */
  function Sections(b: Build): (r: seq<seq<Line>>)
    ensures |r| == 9
    ensures |r[0]| + |r[1]| + |r[2]| + |r[3]| + |r[4]| + |r[5]| + |r[6]| + |r[7]| + |r[8]| == 34
  {
    [Prologue(b), DecoderLines(b), Setup(b), LoopHead(b), JunkBranch(b), StoreBranch(b),
     ExitBranch(b), RunBranch(b), LoopEnd(b)]
  }

  function Lines(b: Build): seq<Line> {
    Flatten(Sections(b))
  }

  /** A branch of the dispatch loop: it opens with `keyword state op value then`
      and its last line sets the state to `next`. */
  predicate Transition(ls: seq<Line>, keyword: string, state: string, op: string, value: string, next: string) {
    && |ls| >= 2
    && ls[0].words == [keyword, state, op, value, "then"]
    && ls[|ls| - 1].words == [state, "=", next + ";"]
  }

  /** The environment handle is bound to `getfenv()`, and the junk block of
      the body closes the prologue, ahead of the decoder. */
  function Prologue(b: Build): (r: seq<Line>)
    ensures |r| == 5 && r[0].words == []
    ensures r[1].words == ["local", b.env + "=getfenv();"]
    ensures r[4].words == [Join(b.fill.bodyJunk)]
  {
    [ Line(0, []),
      Line(0, ["local", b.env + "=getfenv();"]),
      Line(0, ["local", b.vmTable + "={};"]),
      Line(0, ["local", b.stack, "=", "{" + b.fill.stackNumber + ",", "\"" + b.fill.stackHex + "\",", "true};"]),
      Line(0, [Join(b.fill.bodyJunk)]) ]
  }

  /** The decoder takes the payload and the seed, steps through the payload
      four characters at a time, reads the three after each step start as a
      number and subtracts the seed: the shape `Payload.LuaDecode` models. */
  function DecoderLines(b: Build): (r: seq<Line>)
    ensures |r| == 8
    ensures r[0].words == ["local", "function", b.decoder + "(s,", "k)"]
    ensures r[2].words == ["for", "i=1,#s,4", "do"]
    ensures r[3].words == ["local", "c=tonumber(s:sub(i+1,i+3))-k;"]
    ensures r[4].words == ["d=d..string.char(c);"]
  {
    [ Line(0, ["local", "function", b.decoder + "(s,", "k)"]),
      Line(2, ["local", "d=\"\";"]),
      Line(2, ["for", "i=1,#s,4", "do"]),
      Line(4, ["local", "c=tonumber(s:sub(i+1,i+3))-k;"]),
      Line(4, ["d=d..string.char(c);"]),
      Line(2, ["end"]),
      Line(2, ["return", "d;"]),
      Line(0, ["end;"]) ]
  }

  /** The decoy declaration, then the state variable set to its initial value. */
  function Setup(b: Build): (r: seq<Line>)
    ensures |r| == 2 && r[0].words == [SwapText(b.swap)]
    ensures r[1].words == ["local", b.state, "=", IntToString(b.fill.initialState) + ";"]
  {
    [ Line(0, [SwapText(b.swap)]),
      Line(0, ["local", b.state, "=", IntToString(b.fill.initialState) + ";"]) ]
  }

  /** The loop runs until the state is -1. */
  function LoopHead(b: Build): (r: seq<Line>)
    ensures |r| == 1 && r[0].words == ["while", b.state, "~=", "-1", "do"]
  {
    [ Line(0, ["while", b.state, "~=", "-1", "do"]) ]
  }

  /** Above `100 + 5 level`: a junk statement, then state 0. */
  function JunkBranch(b: Build): (r: seq<Line>)
    ensures |r| == 3 && Transition(r, "if", b.state, ">", IntToString(100 + b.level * 5), "0")
    ensures r[1].words == [Render(b.fill.branchJunk)]
  {
    [ Line(2, ["if", b.state, ">", IntToString(100 + b.level * 5), "then"]),
      Line(4, [Render(b.fill.branchJunk)]),
      Line(4, [b.state, "=", "0" + ";"]) ]
  }

  /** State 0: the payload is stored, then state 2. */
  function StoreBranch(b: Build): (r: seq<Line>)
    ensures |r| == 3 && Transition(r, "elseif", b.state, "==", "0", "2")
    ensures r[1].words == [b.vmTable + "[\"ptr\"]", "=", "\"" + b.payload.data + "\";"]
  {
    [ Line(2, ["elseif", b.state, "==", "0", "then"]),
      Line(4, [b.vmTable + "[\"ptr\"]", "=", "\"" + b.payload.data + "\";"]),
      Line(4, [b.state, "=", "2" + ";"]) ]
  }

  /** State 1: the extra junk statement, if any, then state -1. */
  function ExitBranch(b: Build): (r: seq<Line>)
    ensures |r| == 3 && Transition(r, "elseif", b.state, "==", "1", "-1")
    ensures r[1].words == [ExtraText(b.fill.extraJunk)]
  {
    [ Line(2, ["elseif", b.state, "==", "1", "then"]),
      Line(4, [ExtraText(b.fill.extraJunk)]),
      Line(4, [b.state, "=", "-1" + ";"]) ]
  }

  /** State 2: the stored payload is decoded with the seed and run through
      the environment's `loadstring`, then state 1. */
  function RunBranch(b: Build): (r: seq<Line>)
    ensures |r| == 5 && Transition(r, "elseif", b.state, "==", "2", "1")
    ensures r[1].words == ["local", "_res", "=", b.decoder + "(" + b.vmTable + "[\"ptr\"],", IntToString(b.payload.seed) + ");"]
    ensures r[2].words == ["local", "_exec", "=", b.env + "[\"" + LoadstringEscape + "\"];"]
    ensures r[3].words == ["_exec(_res)();"]
  {
    [ Line(2, ["elseif", b.state, "==", "2", "then"]),
      Line(4, ["local", "_res", "=", b.decoder + "(" + b.vmTable + "[\"ptr\"],", IntToString(b.payload.seed) + ");"]),
      Line(4, ["local", "_exec", "=", b.env + "[\"" + LoadstringEscape + "\"];"]),
      Line(4, ["_exec(_res)();"]),
      Line(4, [b.state, "=", "1" + ";"]) ]
  }

  /** Any other state: state -1; then the branches and the loop close. */
  function LoopEnd(b: Build): (r: seq<Line>)
    ensures |r| == 4 && r[0].words == ["else"] && r[1].words == [b.state, "=", "-1;"]
    ensures r[2].words == ["end"] && r[3].words == ["end"]
  {
    [ Line(2, ["else"]),
      Line(4, [b.state, "=", "-1;"]),
      Line(2, ["end"]),
      Line(0, ["end"]) ]
  }

  /** The template text with all whitespace removed, then trimmed: no
      whitespace is left, and nothing but whitespace was removed. */
  function Body(b: Build): (r: string)
    ensures NoSpace(r)
    ensures |r| <= |Text(Lines(b))|
  {
    Trim(Strip(Text(Lines(b))))
  }

  /** The body is the template's words run together: no whitespace at all,
      and in particular no line break. */
  lemma BodyCompact(b: Build)
    ensures Body(b) == CompactLines(Lines(b))
    ensures NoSpace(Body(b))
  {
    StripText(Lines(b));
    TrimIdentity(Strip(Text(Lines(b))));
  }

  lemma SectionsInOrder(b: Build)
    ensures |Sections(b)| == 9
    ensures Sections(b)[1] == DecoderLines(b) && Sections(b)[2] == Setup(b)
    ensures Sections(b)[4] == JunkBranch(b) && Sections(b)[5] == StoreBranch(b)
    ensures Sections(b)[7] == RunBranch(b)
  {
  }

  lemma BodyHasLine(b: Build, k: nat, i: nat)
    requires k < |Sections(b)| && i < |Sections(b)[k]|
    ensures Infix(Compact(Sections(b)[k][i].words), Body(b))
  {
    BodyCompact(b);
    FlattenHas(Sections(b), k, i);
  }

  // ---------------------------------------------------------------------------
  // What the body says
  // ---------------------------------------------------------------------------

  lemma VarNameNoSpace(s: string)
    requires IsVarName(s)
    ensures NoSpace(s)
  {
    forall i | 0 <= i < |s|
      ensures !IsJsSpace(s[i])
    {
      if i < 3 {
        assert s[i] == s[..3][i];
      } else {
        assert s[i] == s[3..][i - 3];
      }
    }
  }

  lemma IntNoSpace(n: int)
    ensures NoSpace(IntToString(n))
  {
    var r := IntToString(n);
    forall i | 0 <= i < |r|
      ensures !IsJsSpace(r[i])
    {
      if n < 0 && i > 0 {
        assert r[i] == r[1..][i - 1];
      }
    }
  }

  /** The names and the payload a build is filled with, as `obfuscate` makes
      them: generated names and escape text. */
  predicate Filled(b: Build) {
    && IsVarName(b.env) && IsVarName(b.state) && IsVarName(b.vmTable)
    && IsVarName(b.decoder) && IsVarName(b.stack)
    && IsEscapeText(b.payload.data)
  }

  lemma DecoderLiterals()
    ensures NoSpace("local") && NoSpace("function") && NoSpace("(s,") && NoSpace("k)")
  {
  }

  lemma DecoderWords(b: Build)
    requires Filled(b)
    ensures Compact(DecoderLines(b)[0].words) == "local" + "function" + (b.decoder + "(s,") + "k)"
  {
    DecoderLiterals();
    VarNameNoSpace(b.decoder);
    NoSpaceAppend(b.decoder, "(s,");
    Compact4("local", "function", b.decoder + "(s,", "k)");
  }

  /** The decoder is declared under its generated name. The strip fuses the
      keywords `local function` and the parameters `s, k`. */
  lemma BodyDeclaresDecoder(b: Build)
    requires Filled(b)
    ensures Infix("local" + "function" + (b.decoder + "(s,") + "k)", Body(b))
  {
    DecoderWords(b);
    SectionsInOrder(b);
    assert Sections(b)[1][0] == DecoderLines(b)[0];
    BodyHasLine(b, 1, 0);
  }

  lemma InitialStateLiterals()
    ensures NoSpace("local") && NoSpace("=") && NoSpace(";")
  {
  }

  lemma InitialStateWords(b: Build)
    requires Filled(b)
    ensures Compact(Setup(b)[1].words) == "local" + b.state + "=" + (IntToString(b.fill.initialState) + ";")
  {
    InitialStateLiterals();
    VarNameNoSpace(b.state);
    IntNoSpace(b.fill.initialState);
    NoSpaceAppend(IntToString(b.fill.initialState), ";");
    Compact4("local", b.state, "=", IntToString(b.fill.initialState) + ";");
  }

  /** The state variable starts at the drawn initial state. */
  lemma BodySetsInitialState(b: Build)
    requires Filled(b)
    ensures Infix("local" + b.state + "=" + (IntToString(b.fill.initialState) + ";"), Body(b))
  {
    InitialStateWords(b);
    SectionsInOrder(b);
    assert Sections(b)[2][1] == Setup(b)[1];
    BodyHasLine(b, 2, 1);
  }

  lemma ThresholdLiterals()
    ensures NoSpace("if") && NoSpace(">") && NoSpace("then")
  {
  }

  lemma ThresholdWords(b: Build)
    requires Filled(b)
    ensures Compact(JunkBranch(b)[0].words) == "if" + b.state + ">" + IntToString(100 + b.level * 5) + "then"
  {
    ThresholdLiterals();
    VarNameNoSpace(b.state);
    IntNoSpace(100 + b.level * 5);
    Compact5("if", b.state, ">", IntToString(100 + b.level * 5), "then");
  }

  /** The first branch of the loop tests the state against `100 + 5 level`. */
  lemma BodyThreshold(b: Build)
    requires Filled(b)
    ensures Infix("if" + b.state + ">" + IntToString(100 + b.level * 5) + "then", Body(b))
  {
    ThresholdWords(b);
    SectionsInOrder(b);
    assert Sections(b)[4][0] == JunkBranch(b)[0];
    BodyHasLine(b, 4, 0);
  }

  lemma StoreLiterals()
    ensures NoSpace("[\"ptr\"]") && NoSpace("=") && NoSpace("\"") && NoSpace("\";")
  {
  }

  lemma StoreWords(b: Build)
    requires Filled(b)
    ensures Compact(StoreBranch(b)[1].words) == b.vmTable + "[\"ptr\"]" + "=" + ("\"" + b.payload.data + "\";")
  {
    StoreLiterals();
    VarNameNoSpace(b.vmTable);
    NoSpaceAppend(b.vmTable, "[\"ptr\"]");
    assert NoSpace(b.payload.data);
    NoSpaceAppend("\"", b.payload.data);
    NoSpaceAppend("\"" + b.payload.data, "\";");
    Compact3(b.vmTable + "[\"ptr\"]", "=", "\"" + b.payload.data + "\";");
  }

  /** State 0 stores the payload, quoted, in the `ptr` entry of the table. */
  lemma BodyStoresPayload(b: Build)
    requires Filled(b)
    ensures Infix(b.vmTable + "[\"ptr\"]" + "=" + ("\"" + b.payload.data + "\";"), Body(b))
  {
    StoreWords(b);
    SectionsInOrder(b);
    assert Sections(b)[5][1] == StoreBranch(b)[1];
    BodyHasLine(b, 5, 1);
  }

  lemma CallLiterals()
    ensures NoSpace("local") && NoSpace("_res") && NoSpace("=") && NoSpace("(") && NoSpace("[\"ptr\"],") && NoSpace(");")
  {
  }

  lemma CallWords(b: Build)
    requires Filled(b)
    ensures Compact(RunBranch(b)[1].words)
      == "local" + "_res" + "=" + (b.decoder + "(" + b.vmTable + "[\"ptr\"],") + (IntToString(b.payload.seed) + ");")
  {
    CallLiterals();
    VarNameNoSpace(b.decoder);
    VarNameNoSpace(b.vmTable);
    NoSpaceAppend(b.decoder, "(");
    NoSpaceAppend(b.decoder + "(", b.vmTable);
    NoSpaceAppend(b.decoder + "(" + b.vmTable, "[\"ptr\"],");
    IntNoSpace(b.payload.seed);
    NoSpaceAppend(IntToString(b.payload.seed), ");");
    Compact5("local", "_res", "=", b.decoder + "(" + b.vmTable + "[\"ptr\"],", IntToString(b.payload.seed) + ");");
  }

  /** State 2 calls the decoder on the stored payload with the seed. */
  lemma BodyCallsDecoder(b: Build)
    requires Filled(b)
    ensures Infix("local" + "_res" + "=" + (b.decoder + "(" + b.vmTable + "[\"ptr\"],")
                  + (IntToString(b.payload.seed) + ");"), Body(b))
  {
    CallWords(b);
    SectionsInOrder(b);
    assert Sections(b)[7][1] == RunBranch(b)[1];
    BodyHasLine(b, 7, 1);
  }

  /** `${header}${junkPrefix}${obfuscated}${junkSuffix}`: the header first,
      the suffix block last, and nothing added or lost between the parts. */
  function OutputText(header: string, prefix: string, body: string, suffix: string): (r: string)
    ensures |r| == |header| + |prefix| + |body| + |suffix|
    ensures r[..|header|] == header
    ensures r[|r| - |suffix|..] == suffix
  {
    var r := header + (prefix + body + suffix);
    assert r[|r| - |suffix|..] == (prefix + body + suffix)[|prefix + body|..];
    r
  }

  /** `obfuscate(input, name, counter, level)`. `name` is not used. */
  function Obfuscate(input: string, name: string, counter: int, level: int, rs: Stream, at: nat): (r: string)
    requires AllSpace(input) || IsLatin1(input)
    ensures r == Sentinel <==> AllSpace(input)
  {
    TrimEmptyIff(input);
    if Trim(input) == [] then Sentinel
    else
      var o := Generate(input, counter, level, rs, at);
      HeaderNotSentinel(counter, level, Join(o.prefix) + Body(o.build) + Join(o.suffix));
      OutputText(o.header, Join(o.prefix), Body(o.build), Join(o.suffix))
  }

  /** Every build `obfuscate` assembles has generated names and escape text
      for a payload. */
  lemma AssembleFilled(input: string, level: int, rs: Stream, at: nat)
    requires IsLatin1(input)
    ensures Filled(Assemble(input, level, rs, at).value)
  {
    EncodedShape(input, rs, at + 40);
  }

  /** For non-blank input the result is the header, the junk prefix, the
      body and the junk suffix, in that order; the name plays no part. */
  lemma ObfuscateLayout(input: string, name: string, counter: int, level: int, rs: Stream, at: nat)
    requires IsLatin1(input) && !AllSpace(input)
    ensures var o := Generate(input, counter, level, rs, at);
      Obfuscate(input, name, counter, level, rs, at)
        == Header(counter, level) + (Join(o.prefix) + Body(o.build) + Join(o.suffix))
  {
    TrimEmptyIff(input);
  }

  /** The header opens every build. */
  lemma ObfuscateHeader(input: string, name: string, counter: int, level: int, rs: Stream, at: nat)
    requires IsLatin1(input) && !AllSpace(input)
    ensures var r, h := Obfuscate(input, name, counter, level, rs, at), Header(counter, level);
      |h| <= |r| && r[..|h|] == h
  {
    ObfuscateLayout(input, name, counter, level, rs, at);
  }

  /** `name` is never read: builds differing only in it are identical. */
  lemma ObfuscateIgnoresName(input: string, name1: string, name2: string, counter: int, level: int, rs: Stream, at: nat)
    requires AllSpace(input) || IsLatin1(input)
    ensures Obfuscate(input, name1, counter, level, rs, at) == Obfuscate(input, name2, counter, level, rs, at)
  {
  }

  lemma InfixMiddle(h: string, p: string, s: string, q: string)
    ensures Infix(s, h + (p + s + q))
  {
    assert (h + p) + s + q == h + (p + s + q);
  }

  /** The body appears whole in the result. */
  lemma ObfuscateHasBody(input: string, name: string, counter: int, level: int, rs: Stream, at: nat)
    requires IsLatin1(input) && !AllSpace(input)
    ensures Infix(Body(Assemble(input, level, rs, at).value), Obfuscate(input, name, counter, level, rs, at))
  {
    var o := Generate(input, counter, level, rs, at);
    ObfuscateLayout(input, name, counter, level, rs, at);
    InfixMiddle(Header(counter, level), Join(o.prefix), Body(o.build), Join(o.suffix));
  }

  /** The result stores the encoded input in the table and hands it, with its
      seed, to the decoder. */
  lemma ObfuscateCarriesPayload(input: string, name: string, counter: int, level: int, rs: Stream, at: nat)
    requires IsLatin1(input) && !AllSpace(input)
    ensures var r, b := Obfuscate(input, name, counter, level, rs, at), Assemble(input, level, rs, at).value;
      && b.payload == PolymorphicEncode(input, rs, at + 40).value
      && Infix(b.vmTable + "[\"ptr\"]" + "=" + ("\"" + b.payload.data + "\";"), r)
      && Infix("local" + "_res" + "=" + (b.decoder + "(" + b.vmTable + "[\"ptr\"],")
               + (IntToString(b.payload.seed) + ");"), r)
  {
    var r, b := Obfuscate(input, name, counter, level, rs, at), Assemble(input, level, rs, at).value;
    AssembleFilled(input, level, rs, at);
    ObfuscateHasBody(input, name, counter, level, rs, at);
    BodyStoresPayload(b);
    BodyCallsDecoder(b);
    InfixTrans(b.vmTable + "[\"ptr\"]" + "=" + ("\"" + b.payload.data + "\";"), Body(b), r);
    InfixTrans("local" + "_res" + "=" + (b.decoder + "(" + b.vmTable + "[\"ptr\"],")
               + (IntToString(b.payload.seed) + ");"), Body(b), r);
  }

  lemma InfixLength(s: string, t: string)
    requires Infix(s, t)
    ensures |s| <= |t|
  {
    var a, c :| a + s + c == t;
  }

  /** Every input character costs at least four output characters: the
      payload alone writes four characters per base64 character. */
  lemma ObfuscateLonger(input: string, name: string, counter: int, level: int, rs: Stream, at: nat)
    requires IsLatin1(input) && !AllSpace(input)
    ensures |Obfuscate(input, name, counter, level, rs, at)| > 4 * |input|
  {
    var r, b := Obfuscate(input, name, counter, level, rs, at), Assemble(input, level, rs, at).value;
    ObfuscateCarriesPayload(input, name, counter, level, rs, at);
    EncodedShape(input, rs, at + 40);
    InfixLength(b.vmTable + "[\"ptr\"]" + "=" + ("\"" + b.payload.data + "\";"), r);
  }

  /** No build can be mistaken for the sentinel: they differ at index 3. */
  lemma HeaderNotSentinel(counter: int, level: int, rest: string)
    ensures Header(counter, level) + rest != Sentinel
  {
    var h := Header(counter, level);
    assert h[..|HeaderPrefix|] == HeaderPrefix;
    assert (h + rest)[3] == h[3] == HeaderPrefix[3] == '[';
  }

}
