/**
 * The text the engine assembles with a multi-line template literal, held as a
 * list of lines, each an indentation and the words on it separated by single
 * spaces. Removing every whitespace character from the whole text
 * (`replace(/\s+/g, '')`) leaves the words of every line run together, which
 * is what the lemmas below establish without looking inside any word.
 */
module Template {
  import opened JsText

  /** One line of template text: `indent` spaces, the words, a line feed. */
  datatype Line = Line(indent: nat, words: seq<string>)

  /** `s` occurs somewhere inside `t`. */
  ghost predicate Infix(s: string, t: string) {
    exists a, c :: a + s + c == t
  }

  function Spaces(n: nat): (r: string)
    ensures |r| == n && AllSpace(r)
  {
    seq(n, _ => ' ')
  }

  /** The words with one space between neighbours. */
  function Spaced(ws: seq<string>): string {
    if |ws| == 0 then [] else if |ws| == 1 then ws[0] else ws[0] + " " + Spaced(ws[1..])
  }

  function RenderLine(l: Line): string {
    Spaces(l.indent) + Spaced(l.words) + "\n"
  }

  /** The template text: every line, each ending with a line feed. */
  function Text(ls: seq<Line>): string {
    if ls == [] then [] else RenderLine(ls[0]) + Text(ls[1..])
  }

  /** The words of a line with their own whitespace removed, run together. */
  function Compact(ws: seq<string>): (r: string)
    ensures NoSpace(r)
  {
    if ws == [] then [] else Strip(ws[0]) + Compact(ws[1..])
  }

  /** Sections of lines, one after the other. */
  function Flatten(ss: seq<seq<Line>>): seq<Line> {
    if ss == [] then [] else ss[0] + Flatten(ss[1..])
  }

  /** The compacted lines, run together. */
  function CompactLines(ls: seq<Line>): (r: string)
    ensures NoSpace(r)
  {
    if ls == [] then [] else Compact(ls[0].words) + CompactLines(ls[1..])
  }

  lemma {:induction false} StripAllSpace(w: string)
    requires AllSpace(w)
    ensures Strip(w) == []
  {
    if w != [] {
      StripAllSpace(w[1..]);
    }
  }

  /** Removing whitespace from spaced words removes the separators and the
      whitespace inside each word, and nothing else. */
  lemma {:induction false} StripSpaced(ws: seq<string>)
    ensures Strip(Spaced(ws)) == Compact(ws)
    decreases |ws|
  {
    if |ws| == 1 {
      assert Compact(ws[1..]) == [];
    } else if |ws| >= 2 {
      var rest := Spaced(ws[1..]);
      StripAppend(ws[0] + " ", rest);
      StripAppend(ws[0], " ");
      StripAllSpace(" ");
      StripSpaced(ws[1..]);
    }
  }

  lemma StripLine(l: Line)
    ensures Strip(RenderLine(l)) == Compact(l.words)
  {
    StripAppend(Spaces(l.indent) + Spaced(l.words), "\n");
    StripAppend(Spaces(l.indent), Spaced(l.words));
    StripAllSpace(Spaces(l.indent));
    StripAllSpace("\n");
    StripSpaced(l.words);
  }

  /** The whitespace strip of the whole template is its lines compacted. */
  lemma {:induction false} StripText(ls: seq<Line>)
    ensures Strip(Text(ls)) == CompactLines(ls)
  {
    if ls != [] {
      StripAppend(RenderLine(ls[0]), Text(ls[1..]));
      StripLine(ls[0]);
      StripText(ls[1..]);
    }
  }

  /** Every compacted line occurs in the compacted template. */
  lemma {:induction false} CompactLinesHas(ls: seq<Line>, k: nat)
    requires k < |ls|
    ensures Infix(Compact(ls[k].words), CompactLines(ls))
  {
    var head, rest := Compact(ls[0].words), CompactLines(ls[1..]);
    assert CompactLines(ls) == head + rest;
    if k == 0 {
      InfixHead(head, rest);
    } else {
      CompactLinesHas(ls[1..], k - 1);
      InfixExtend(Compact(ls[k].words), rest, head);
    }
  }

  lemma {:induction false} CompactLinesAppend(x: seq<Line>, y: seq<Line>)
    ensures CompactLines(x + y) == CompactLines(x) + CompactLines(y)
  {
    if x != [] {
      assert (x + y)[1..] == x[1..] + y;
      CompactLinesAppend(x[1..], y);
    } else {
      assert x + y == y;
    }
  }

  /** Every compacted line of every section occurs in the compacted text of
      all the sections. */
  lemma {:induction false} FlattenHas(ss: seq<seq<Line>>, k: nat, i: nat)
    requires k < |ss| && i < |ss[k]|
    ensures Infix(Compact(ss[k][i].words), CompactLines(Flatten(ss)))
  {
    var head, rest := CompactLines(ss[0]), CompactLines(Flatten(ss[1..]));
    CompactLinesAppend(ss[0], Flatten(ss[1..]));
    if k == 0 {
      CompactLinesHas(ss[0], i);
      InfixAppend(Compact(ss[0][i].words), head, rest);
    } else {
      FlattenHas(ss[1..], k - 1, i);
      InfixExtend(Compact(ss[k][i].words), rest, head);
    }
  }

  lemma InfixAppend(s: string, t: string, u: string)
    requires Infix(s, t)
    ensures Infix(s, t + u)
  {
    var a, c :| a + s + c == t;
    assert a + s + (c + u) == t + u;
  }

  lemma InfixHead(s: string, t: string)
    ensures Infix(s, s + t)
  {
    assert [] + s + t == s + t;
  }

  lemma InfixExtend(s: string, t: string, h: string)
    requires Infix(s, t)
    ensures Infix(s, h + t)
  {
    var a, c :| a + s + c == t;
    assert (h + a) + s + c == h + t;
  }

  /** Occurrence is transitive. */
  lemma InfixTrans(s: string, t: string, u: string)
    requires Infix(s, t) && Infix(t, u)
    ensures Infix(s, u)
  {
    var a, c :| a + s + c == t;
    var a', c' :| a' + t + c' == u;
    assert (a' + a) + s + (c + c') == u;
  }

  /** Words without whitespace are kept whole and joined without separator. */
  lemma Compact3(a: string, b: string, c: string)
    requires NoSpace(a) && NoSpace(b) && NoSpace(c)
    ensures Compact([a, b, c]) == a + b + c
  {
    StripIdentity(a);
    StripIdentity(b);
    StripIdentity(c);
    assert [a, b, c][1..] == [b, c];
    assert [b, c][1..] == [c];
    assert Compact([c]) == c;
    assert Compact([b, c]) == b + c;
  }

  lemma Compact4(a: string, b: string, c: string, d: string)
    requires NoSpace(a) && NoSpace(b) && NoSpace(c) && NoSpace(d)
    ensures Compact([a, b, c, d]) == a + b + c + d
  {
    StripIdentity(a);
    Compact3(b, c, d);
    assert [a, b, c, d][1..] == [b, c, d];
  }

  lemma Compact5(a: string, b: string, c: string, d: string, e: string)
    requires NoSpace(a) && NoSpace(b) && NoSpace(c) && NoSpace(d) && NoSpace(e)
    ensures Compact([a, b, c, d, e]) == a + b + c + d + e
  {
    StripIdentity(a);
    Compact4(b, c, d, e);
    assert [a, b, c, d, e][1..] == [b, c, d, e];
  }

  lemma NoSpaceAppend(a: string, b: string)
    requires NoSpace(a) && NoSpace(b)
    ensures NoSpace(a + b)
  {
  }

}
