/** What a Go source text says, as far as the stripper of scripts/verify-provenance.py can tell, and
    when stripping its comments keeps that. */
module GoReading {
  import opened Common
  import opened GoComments

  // ---------- the reading of a text ----------

  /** What stands in front of a character: nothing, a gap inside a line, or the end of a line. */
  datatype Sep = Joint | Gap | Line

  function Wider(a: Sep, b: Sep): Sep { if a == Line || b == Line then Line else if a == Gap then Gap else b }

  /** A character of the text and what separates it from the one before. `inner` characters belong
      to a literal, where spaces and line ends are characters too. */
  datatype Glyph = Glyph(sep: Sep, c: char, inner: bool)

  function Inner(s: string): seq<Glyph> { seq(|s|, i requires 0 <= i < |s| => Glyph(Joint, s[i], true)) }

  predicate IsLiteral(st: Lex) { st == Str || st == Rune || st == RawStr }

  /** A round of the lexer: the state it starts in and what it writes. */
  datatype Round = Round(st: Lex, written: string)

  function Rounds(st: Lex, s: string): seq<Round>
    decreases |s|
  {
    if s == "" then [] else [Round(st, Written(st, s))] + Rounds(After(st, s), s[Width(st, s)..])
  }

  /** The separator behind a round: a comment separates like a space, or like a line end if it holds
      one. */
  function SepAfter(sep: Sep, rd: Round): Sep {
    if rd.written == "" then if rd.st == Code then Wider(sep, Gap) else sep
    else if IsLiteral(rd.st) || !IsSpace(rd.written[0]) then Joint
    else if IsBreak(rd.written[0]) then Line
    else Wider(sep, Gap)
  }

  /** The characters a round contributes. */
  function Seen(sep: Sep, rd: Round): seq<Glyph> {
    if rd.written == "" then []
    else if IsLiteral(rd.st) then Inner(rd.written)
    else if IsSpace(rd.written[0]) then []
    else [Glyph(sep, rd.written[0], false)]
  }

  function Read(sep: Sep, rs: seq<Round>): seq<Glyph>
    decreases |rs|
  {
    if rs == [] then [] else Seen(sep, rs[0]) + Read(SepAfter(sep, rs[0]), rs[1..])
  }

  /** What a source text says: its characters outside comments, its literals whole, and between two
      characters whether they touch, stand apart or stand on different lines. */
  function Meaning(text: string): seq<Glyph> { Read(Line, Rounds(Code, text)) }

  // ---------- where a literal is open ----------

  /** The lexical state between two characters of a text without comments. */
  datatype Pos = Pos(st: Lex, escaped: bool)

  predicate Inside(p: Pos) { p.st == Str || p.st == Rune || p.st == RawStr }

  function Move(p: Pos, c: char): Pos {
    if p.escaped then Pos(p.st, false)
    else if Escapes(p.st, c) then Pos(p.st, true)
    else if p.st == Code then Pos(AfterCode(c), false)
    else if Closes(p.st, c) then Pos(Code, false)
    else p
  }

  const START := Pos(Code, false)

  function MoveAll(p: Pos, s: string): Pos
    decreases |s|
  {
    if s == "" then p else MoveAll(Move(p, s[0]), s[1..])
  }

  lemma {:induction false} MoveAppend(p: Pos, a: string, b: string)
    ensures MoveAll(p, a + b) == MoveAll(MoveAll(p, a), b)
    decreases |a|
  {
    if a == "" {
      assert a + b == b;
    } else {
      assert (a + b)[1..] == a[1..] + b;
      MoveAppend(Move(p, a[0]), a[1..], b);
    }
  }

  /** The positions a text without comments passes. */
  predicate Plain(p: Pos) { (p.st == Code && !p.escaped) || Inside(p) }

  lemma {:induction false} MovePlain(p: Pos, s: string)
    requires Plain(p)
    ensures Plain(MoveAll(p, s))
    decreases |s|
  {
    if s != "" {
      MovePlain(Move(p, s[0]), s[1..]);
    }
  }

  lemma {:induction false} StripShrinks(st: Lex, s: string)
    requires Strip(st, s).Some?
    ensures |Strip(st, s).value| <= |s|
    decreases |s|
  {
    if s != "" {
      StripStep(st, s);
      StripShrinks(After(st, s), s[Width(st, s)..]);
      assert |Written(st, s)| <= Width(st, s);
    }
  }

  /** On a text that stripping leaves alone the positions are the states of the lexer: at its end
      it is back in code. */
  lemma {:induction false} PositionsFollowLexer(st: Lex, o: string)
    requires st != LineComment && st != BlockComment && Strip(st, o) == Some(o)
    ensures MoveAll(Pos(st, false), o) == START
    decreases |o|
  {
    if o != "" {
      var w := Width(st, o);
      StripStep(st, o);
      var rest := Strip(After(st, o), o[w..]).value;
      StripShrinks(After(st, o), o[w..]);
      assert |Written(st, o) + rest| == |o|;
      assert Written(st, o) == o[..w] && rest == o[w..] by {
        assert o[..w] == (Written(st, o) + rest)[..w] && o[w..] == (Written(st, o) + rest)[w..];
      }
      PositionsFollowLexer(After(st, o), o[w..]);
      if w == 2 {
        assert o[1..][1..] == o[2..];
      }
    }
  }

  /** The lexer agrees that the positions are right on every stripped text. */
  lemma StrippedPositions(content: string)
    requires Strip(Code, content).Some?
    ensures MoveAll(START, Strip(Code, content).value) == START
  {
    StripIdempotent(content);
    PositionsFollowLexer(Code, Strip(Code, content).value);
  }

  // ---------- the reading of a text without comments ----------

  function GlyphSep(p: Pos, sep: Sep, c: char): Sep {
    if p.st == Code && IsSpace(c) then if IsBreak(c) then Line else Wider(sep, Gap) else Joint
  }

  function GlyphOf(p: Pos, sep: Sep, c: char): seq<Glyph> {
    if p.st != Code then [Glyph(Joint, c, true)] else if IsSpace(c) then [] else [Glyph(sep, c, false)]
  }

  /** The reading, one character after the other. */
  function Glyphs(p: Pos, sep: Sep, s: string): seq<Glyph>
    decreases |s|
  {
    if s == "" then [] else GlyphOf(p, sep, s[0]) + Glyphs(Move(p, s[0]), GlyphSep(p, sep, s[0]), s[1..])
  }

  function SepAll(p: Pos, sep: Sep, s: string): Sep
    decreases |s|
  {
    if s == "" then sep else SepAll(Move(p, s[0]), GlyphSep(p, sep, s[0]), s[1..])
  }

  lemma {:induction false} GlyphsAppend(p: Pos, sep: Sep, a: string, b: string)
    ensures Glyphs(p, sep, a + b) == Glyphs(p, sep, a) + Glyphs(MoveAll(p, a), SepAll(p, sep, a), b)
    decreases |a|
  {
    if a == "" {
      assert a + b == b;
    } else {
      var q, t := Move(p, a[0]), GlyphSep(p, sep, a[0]);
      assert (a + b)[1..] == a[1..] + b;
      GlyphsAppend(q, t, a[1..], b);
      Assoc(GlyphOf(p, sep, a[0]), Glyphs(q, t, a[1..]), Glyphs(MoveAll(p, a), SepAll(p, sep, a), b));
    }
  }

  // ---------- removing a comment can join what it separated ----------

  /** The round writes a character other than a space in code. */
  predicate IsGlyph(rd: Round) { rd.written != "" && (IsLiteral(rd.st) || !IsSpace(rd.written[0])) }

  /** Only comments, and no line end in them, stand between a character and one of the code. */
  predicate GluedAt(rs: seq<Round>, i: nat, j: nat) {
    && i + 1 < j < |rs| && IsGlyph(rs[i]) && IsGlyph(rs[j]) && !IsLiteral(rs[j].st)
    && forall k :: i < k < j ==> rs[k].written == ""
  }

  ghost predicate Glued(content: string) { exists i, j :: GluedAt(Rounds(Code, content), i, j) }

  /** The separator behind a round when comments leave nothing. */
  function BareAfter(so: Sep, rd: Round): Sep { if rd.written == "" then so else SepAfter(so, rd) }

  /** The reading of what the rounds write. */
  function BareRead(so: Sep, rs: seq<Round>): seq<Glyph>
    decreases |rs|
  {
    if rs == [] then [] else Seen(so, rs[0]) + BareRead(BareAfter(so, rs[0]), rs[1..])
  }

  /** Where the two readings differ, something is glued. The last round before n that wrote
      anything is i. */
  lemma {:induction false} Found(rs: seq<Round>, n: nat, i: nat, sep: Sep, so: Sep)
    requires n <= |rs|
    requires so == Joint ==> i < n && IsGlyph(rs[i]) && forall k :: i < k < n ==> rs[k].written == ""
    requires sep == so || (so == Joint && sep == Gap && i + 1 < n)
    ensures Read(sep, rs[n..]) == BareRead(so, rs[n..]) || exists i, j :: GluedAt(rs, i, j)
    decreases |rs| - n
  {
    if n < |rs| {
      var rd := rs[n];
      assert rs[n..][0] == rd && rs[n..][1..] == rs[n + 1..];
      if sep != so && IsGlyph(rd) && !IsLiteral(rd.st) {
        assert GluedAt(rs, i, n);
      } else {
        Found(rs, n + 1, if rd.written == "" then i else n, SepAfter(sep, rd), BareAfter(so, rd));
      }
    }
  }

  function SepEnd(sep: Sep, rs: seq<Round>): Sep
    decreases |rs|
  {
    if rs == [] then sep else SepEnd(SepAfter(sep, rs[0]), rs[1..])
  }

  function BareEnd(so: Sep, rs: seq<Round>): Sep
    decreases |rs|
  {
    if rs == [] then so else BareEnd(BareAfter(so, rs[0]), rs[1..])
  }

  lemma {:induction false} ReadAppend(sep: Sep, a: seq<Round>, b: seq<Round>)
    ensures Read(sep, a + b) == Read(sep, a) + Read(SepEnd(sep, a), b)
    decreases |a|
  {
    if a == [] {
      assert a + b == b;
    } else {
      assert (a + b)[1..] == a[1..] + b;
      ReadAppend(SepAfter(sep, a[0]), a[1..], b);
    }
  }

  lemma {:induction false} BareAppend(so: Sep, a: seq<Round>, b: seq<Round>)
    ensures BareRead(so, a + b) == BareRead(so, a) + BareRead(BareEnd(so, a), b)
    decreases |a|
  {
    if a == [] {
      assert a + b == b;
    } else {
      assert (a + b)[1..] == a[1..] + b;
      BareAppend(BareAfter(so, a[0]), a[1..], b);
    }
  }

  lemma {:induction false} SameLength(sep: Sep, so: Sep, rs: seq<Round>)
    ensures |Read(sep, rs)| == |BareRead(so, rs)|
    decreases |rs|
  {
    if rs != [] {
      SameLength(SepAfter(sep, rs[0]), BareAfter(so, rs[0]), rs[1..]);
    }
  }

  /** Rounds that write nothing leave their gap, or nothing. */
  lemma {:induction false} Silent(sep: Sep, so: Sep, rs: seq<Round>)
    requires forall k :: 0 <= k < |rs| ==> rs[k].written == ""
    ensures BareEnd(so, rs) == so
    ensures sep != Joint || (rs != [] && rs[0].st == Code) ==> SepEnd(sep, rs) != Joint
    decreases |rs|
  {
    if rs != [] {
      Silent(SepAfter(sep, rs[0]), so, rs[1..]);
    }
  }

  lemma {:induction false} BareLast(so: Sep, a: seq<Round>, rd: Round)
    requires IsGlyph(rd)
    ensures BareEnd(so, a + [rd]) == Joint
    decreases |a|
  {
    if a == [] {
      assert a + [rd] == [rd] && [rd][1..] == [];
    } else {
      assert (a + [rd])[1..] == a[1..] + [rd];
      BareLast(BareAfter(so, a[0]), a[1..], rd);
    }
  }

  /** Behind a character, a round that writes nothing opens a comment. */
  lemma {:induction false} AfterGlyph(st: Lex, s: string, i: nat)
    requires i + 1 < |Rounds(st, s)| && IsGlyph(Rounds(st, s)[i]) && Rounds(st, s)[i + 1].written == ""
    ensures Rounds(st, s)[i + 1].st == Code
    decreases i
  {
    if i > 0 {
      AfterGlyph(After(st, s), s[Width(st, s)..], i - 1);
    }
  }

  /** Where something is glued, what is written reads differently. */
  lemma GluedDiffers(rs: seq<Round>, i: nat, j: nat)
    requires GluedAt(rs, i, j) && rs[i + 1].st == Code
    ensures Read(Line, rs) != BareRead(Line, rs)
  {
    var a, b, c := rs[..i + 1], rs[i + 1..j], rs[j..];
    assert a == rs[..i] + [rs[i]] && rs == a + (b + c);
    BareLast(Line, rs[..i], rs[i]);
    var sep := SepEnd(Line, a);
    ReadAppend(Line, a, b + c);
    ReadAppend(sep, b, c);
    BareAppend(Line, a, b + c);
    BareAppend(Joint, b, c);
    SameLength(Line, Line, a);
    SameLength(sep, Joint, b);
    Silent(sep, Joint, b);
    var m := |Read(Line, a)| + |Read(sep, b)|;
    assert Read(Line, rs)[m] == Read(SepEnd(sep, b), c)[0] && BareRead(Line, rs)[m] == BareRead(Joint, c)[0];
  }

  // ---------- the rounds and what they write ----------

  lemma OneGlyph(p: Pos, so: Sep, c: char, rest: string)
    ensures Glyphs(p, so, [c] + rest) == GlyphOf(p, so, c) + Glyphs(Move(p, c), GlyphSep(p, so, c), rest)
  {
    assert ([c] + rest)[1..] == rest;
  }

  lemma EscapedPair(st: Lex, so: Sep, a: char, b: char, rest: string)
    requires Escapes(st, a)
    ensures Glyphs(Pos(st, false), so, [a, b] + rest) == Inner([a, b]) + Glyphs(Pos(st, false), Joint, rest)
  {
    var o := [a, b] + rest;
    assert o[1..] == [b] + rest && o[1..][1..] == rest;
    assert Inner([a, b]) == [Glyph(Joint, a, true)] + [Glyph(Joint, b, true)];
  }

  lemma EscapeComplete(st: Lex, s: string)
    requires s != "" && Strip(st, s).Some? && Escapes(st, s[0])
    ensures |s| >= 2
  {}

  lemma OneRound(st: Lex, so: Sep, s: string)
    requires s != "" && (Escapes(st, s[0]) ==> |s| >= 2) && Written(st, s) != "" && Width(st, s) == 1
    ensures var p, rd := Pos(Reread(st), false), Round(st, Written(st, s));
      && Written(st, s) == [s[0]] && GlyphOf(p, so, s[0]) == Seen(so, rd) && GlyphSep(p, so, s[0]) == SepAfter(so, rd)
      && Move(p, s[0]) == Pos(Reread(After(st, s)), false)
  {
    assert s[..1] == [s[0]] && Inner([s[0]]) == [Glyph(Joint, s[0], true)];
  }

  lemma PairRound(st: Lex, s: string)
    requires s != "" && Written(st, s) != "" && Width(st, s) == 2
    ensures Escapes(st, s[0]) && After(st, s) == st && Written(st, s) == [s[0], s[1]]
  {
    assert s[..2] == [s[0], s[1]];
  }

  lemma SilentRound(st: Lex, s: string)
    requires s != "" && Written(st, s) == ""
    ensures Reread(st) == Reread(After(st, s)) == Code
  {}

  /** A round, read in what it writes. */
  lemma GlyphStep(st: Lex, so: Sep, s: string, rest: string)
    requires s != "" && (Escapes(st, s[0]) ==> |s| >= 2)
    ensures var rd := Round(st, Written(st, s));
      Glyphs(Pos(Reread(st), false), so, rd.written + rest)
      == Seen(so, rd) + Glyphs(Pos(Reread(After(st, s)), false), BareAfter(so, rd), rest)
  {
    if Written(st, s) == "" {
      SilentRound(st, s);
      assert "" + rest == rest;
    } else if Width(st, s) == 1 {
      OneRound(st, so, s);
      OneGlyph(Pos(Reread(st), false), so, s[0], rest);
    } else {
      PairRound(st, s);
      EscapedPair(st, so, s[0], s[1], rest);
    }
  }

  lemma {:induction false} StrippedRead(st: Lex, so: Sep, s: string)
    requires Strip(st, s).Some?
    ensures Glyphs(Pos(Reread(st), false), so, Strip(st, s).value) == BareRead(so, Rounds(st, s))
    decreases |s|
  {
    if s != "" {
      var next, t := After(st, s), s[Width(st, s)..];
      StripStep(st, s);
      if Escapes(st, s[0]) {
        EscapeComplete(st, s);
      }
      StrippedRead(next, BareAfter(so, Round(st, Written(st, s))), t);
      GlyphStep(st, so, s, Strip(next, t).value);
    }
  }

  /** Stripping keeps the reading of a text if and only if no comment separates alone. */
  lemma StripExact(content: string)
    requires Strip(Code, content).Some?
    ensures Glyphs(START, Line, Strip(Code, content).value) == Meaning(content) <==> !Glued(content)
  {
    var rs := Rounds(Code, content);
    StrippedRead(Code, Line, content);
    assert rs[0..] == rs;
    Found(rs, 0, 0, Line, Line);
    if Glued(content) {
      var i, j :| GluedAt(rs, i, j);
      AfterGlyph(Code, content, i);
      GluedDiffers(rs, i, j);
    }
  }
}
