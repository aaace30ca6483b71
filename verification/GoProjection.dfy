/** When comments_only_projection of scripts/verify-provenance.py keeps what a source text says. */
module GoProjection {
  import opened Common
  import opened GoComments
  import opened GoReading

  // ---------- the first line of a text ----------

  function LineLen(s: string): (n: nat)
    ensures n <= |s| && (forall i :: 0 <= i < n ==> !IsBreak(s[i])) && (n < |s| ==> IsBreak(s[n]))
  {
    if s == "" || IsBreak(s[0]) then 0 else 1 + LineLen(s[1..])
  }

  predicate IsEnd(t: string) { t == "\n" || t == "\r" || t == "\r\n" }

  /** A carriage return and the newline behind it are one line end. */
  predicate EndsBefore(t: string, rest: string) { t == "\r" ==> rest == "" || rest[0] != '\n' }

  /** The line end in front of s. */
  function EndLen(s: string): nat {
    if s == "" || !IsBreak(s[0]) then 0 else if |s| >= 2 && s[0] == '\r' && s[1] == '\n' then 2 else 1
  }

  function First(s: string): string { s[..LineLen(s)] }

  function End(s: string): string { var n := LineLen(s); s[n..n + EndLen(s[n..])] }

  function Rest(s: string): string { var n := LineLen(s); s[n + EndLen(s[n..])..] }

  lemma Parts(s: string)
    ensures s == First(s) + (End(s) + Rest(s)) && |First(s)| + |End(s)| + |Rest(s)| == |s|
    ensures IsEnd(End(s)) || (End(s) == "" && Rest(s) == "" && First(s) == s)
    ensures s != "" ==> |Rest(s)| < |s|
    ensures Clean(First(s)) && EndsBefore(End(s), Rest(s))
  {
    var t := s[LineLen(s)..];
    assert t != "" ==> t[0] == s[LineLen(s)];
    if EndLen(t) == 1 {
      assert t[..1] == [t[0]];
    } else if EndLen(t) == 2 {
      assert t[..2] == [t[0], t[1]];
    }
  }

  predicate Clean(line: string) { forall i :: 0 <= i < |line| ==> !IsBreak(line[i]) }

  lemma EndFirst(t: string, w: string)
    requires IsEnd(t) && EndsBefore(t, w)
    ensures Lines(t + w) == [""] + Lines(w)
  {
    var s := t + w;
    if |t| == 2 {
      assert s[0] == '\r' && s[1] == '\n' && s[2..] == w;
      LinesCrLf(s);
    } else {
      assert s[0] == t[0] && s[1..] == w && (|s| >= 2 ==> s[1] == w[0]);
      LinesBreak(s);
    }
  }

  lemma LineGrows(c: char, h: string, s: string, rest: seq<string>)
    requires s != "" && !IsBreak(c) && Lines(s) == [h] + rest
    ensures Lines([c] + s) == [[c] + h] + rest
  {
    assert ([c] + s)[1..] == s && ([h] + rest)[1..] == rest;
  }

  lemma {:induction false} FirstLine(h: string, t: string, w: string)
    requires Clean(h) && IsEnd(t) && EndsBefore(t, w)
    ensures Lines(h + (t + w)) == [h] + Lines(w)
    decreases |h|
  {
    var s := t + w;
    if h == "" {
      assert h + s == s;
      EndFirst(t, w);
    } else {
      assert !IsBreak(h[0]) && forall i :: 0 <= i < |h[1..]| ==> h[1..][i] == h[i + 1];
      FirstLine(h[1..], t, w);
      LineGrows(h[0], h[1..], h[1..] + s, Lines(w));
      assert [h[0]] + (h[1..] + s) == h + s && [h[0]] + h[1..] == h;
    }
  }

  lemma {:induction false} OnlyLine(h: string)
    requires Clean(h) && h != ""
    ensures Lines(h) == [h]
    decreases |h|
  {
    assert !IsBreak(h[0]) && forall i :: 0 <= i < |h[1..]| ==> h[1..][i] == h[i + 1];
    assert [h[0]] + h[1..] == h;
    if |h| == 1 {
      assert h[1..] == "" && h == [h[0]];
    } else {
      OnlyLine(h[1..]);
      LineGrows(h[0], h[1..], h[1..], []);
    }
  }

  lemma LinesFirst(s: string)
    requires s != ""
    ensures Lines(s) == [First(s)] + Lines(Rest(s))
  {
    Parts(s);
    if End(s) == "" {
      OnlyLine(s);
    } else {
      FirstLine(First(s), End(s), Rest(s));
    }
  }

  // ---------- a line and its end, read ----------

  /** What is pending where a line starts. */
  function Fresh(p: Pos): Sep { if Inside(p) then Joint else Line }

  /** At a line start no escape is open. */
  predicate AtStart(p: Pos) { Plain(p) && !p.escaped }

  function Ends(q: Pos, t: string): seq<Glyph> { if Inside(q) then Inner(t) else [] }

  lemma BreakRead(q: Pos, sep: Sep, c: char, rest: string)
    requires Plain(q) && IsBreak(c)
    ensures Glyphs(q, sep, [c] + rest) == Ends(q, [c]) + Glyphs(Pos(q.st, false), Fresh(q), rest)
    ensures Move(q, c) == Pos(q.st, false)
  {
    OneGlyph(q, sep, c, rest);
    assert Inner([c]) == [Glyph(Joint, c, true)];
  }

  lemma EndRead(q: Pos, sep: Sep, t: string, rest: string)
    requires Plain(q) && IsEnd(t)
    ensures Glyphs(q, sep, t + rest) == Ends(q, t) + Glyphs(Pos(q.st, false), Fresh(q), rest)
    ensures MoveAll(q, t) == Pos(q.st, false)
  {
    if |t| == 1 {
      BreakRead(q, sep, t[0], rest);
      assert t == [t[0]] && t[1..] == "";
    } else {
      BreakRead(q, sep, '\r', "\n" + rest);
      BreakRead(Pos(q.st, false), Fresh(q), '\n', rest);
      assert t + rest == ['\r'] + ("\n" + rest) && "\n" + rest == ['\n'] + rest;
      assert Inner(t) == Inner(['\r']) + Inner(['\n']);
      assert t[1..] == ['\n'] && t[1..][1..] == "";
    }
  }

  /** A line, its end and the rest are read one after the other. */
  lemma LineRead(p: Pos, line: string, t: string, rest: string)
    requires AtStart(p) && IsEnd(t)
    ensures var q := MoveAll(p, line);
      && Plain(q) && AtStart(Pos(q.st, false)) && MoveAll(p, line + (t + rest)) == MoveAll(Pos(q.st, false), rest)
      && Glyphs(p, Fresh(p), line + (t + rest))
         == Glyphs(p, Fresh(p), line) + (Ends(q, t) + Glyphs(Pos(q.st, false), Fresh(Pos(q.st, false)), rest))
  {
    var q := MoveAll(p, line);
    MovePlain(p, line);
    GlyphsAppend(p, Fresh(p), line, t + rest);
    EndRead(q, SepAll(p, Fresh(p), line), t, rest);
    MoveAppend(p, line, t + rest);
    MoveAppend(q, t, rest);
  }

  lemma {:induction false} BlankRead(p: Pos, line: string)
    requires AtStart(p) && IsBlank(line)
    ensures MoveAll(p, line) == p
    ensures !Inside(p) ==> Glyphs(p, Line, line) == []
    decreases |line|
  {
    if line != "" {
      assert IsSpace(line[0]) && forall i :: 0 <= i < |line[1..]| ==> line[1..][i] == line[i + 1];
      BlankRead(p, line[1..]);
    }
  }

  // ---------- what the projection changes inside literals ----------

  /** A line that starts inside a literal is blank. */
  predicate BlankInLiteral(p: Pos, s: string)
    decreases |s|
  {
    Parts(s);
    s != "" && ((Inside(p) && IsBlank(First(s))) || BlankInLiteral(MoveAll(p, First(s) + End(s)), Rest(s)))
  }

  /** A line ends in a carriage return, or in one and a newline, inside a literal. */
  predicate CarriageInLiteral(p: Pos, s: string)
    decreases |s|
  {
    Parts(s);
    s != "" && ((Inside(MoveAll(p, First(s))) && '\r' in End(s))
                || CarriageInLiteral(MoveAll(p, First(s) + End(s)), Rest(s)))
  }

  /** Every line with a newline behind it. */
  function Terminated(lines: seq<string>): string {
    if lines == [] then "" else lines[0] + ("\n" + Terminated(lines[1..]))
  }

  lemma {:induction false} JoinedTerminated(lines: seq<string>)
    requires lines != []
    ensures Joined(lines) + "\n" == Terminated(lines)
  {
    if |lines| > 1 {
      JoinedTerminated(lines[1..]);
      Assoc(lines[0] + "\n", Joined(lines[1..]), "\n");
      Assoc(lines[0], "\n", Terminated(lines[1..]));
    }
  }

  /** The lines that stay, each with a newline. */
  function Staying(s: string): string { Terminated(NonBlank(Lines(s))) }

  lemma StayingFirst(s: string)
    requires s != ""
    ensures Staying(s) == if IsBlank(First(s)) then Staying(Rest(s)) else First(s) + ("\n" + Staying(Rest(s)))
  {
    LinesFirst(s);
    var lines := Lines(s);
    assert lines[0] == First(s) && lines[1..] == Lines(Rest(s));
    var stay := NonBlank(lines[1..]);
    assert IsBlank(lines[0]) ==> NonBlank(lines) == stay;
    assert !IsBlank(lines[0]) ==> ([lines[0]] + stay)[1..] == stay;
  }

  /** The first line of a text, read: it is blank and in code, blank in a literal, or neither. */
  lemma FirstRead(p: Pos, s: string)
    requires AtStart(p) && s != ""
    ensures var q := MoveAll(p, First(s)); var next := Pos(q.st, false);
      && Plain(q) && AtStart(next) && (End(s) != "" ==> MoveAll(p, First(s) + End(s)) == next)
      && (End(s) != "" ==> MoveAll(p, s) == MoveAll(next, Rest(s)))
      && (!Inside(MoveAll(p, s)) ==>
            Glyphs(p, Fresh(p), s)
            == Glyphs(p, Fresh(p), First(s)) + (Ends(q, End(s)) + Glyphs(next, Fresh(next), Rest(s))))
      && (IsBlank(First(s)) ==> q == p && (!Inside(p) ==> Glyphs(p, Line, First(s)) == []))
  {
    Parts(s);
    var q := MoveAll(p, First(s));
    MovePlain(p, First(s));
    if End(s) != "" {
      LineRead(p, First(s), End(s), Rest(s));
      EndRead(q, Line, End(s), Rest(s));
      MoveAppend(p, First(s), End(s));
    }
    if IsBlank(First(s)) {
      BlankRead(p, First(s));
    }
  }

  lemma CarriageLater(p: Pos, s: string)
    requires AtStart(p) && s != "" && !CarriageInLiteral(p, s)
    ensures Inside(MoveAll(p, First(s))) && End(s) != "" ==> End(s) == "\n"
    ensures End(s) != "" ==> !CarriageInLiteral(Pos(MoveAll(p, First(s)).st, false), Rest(s))
  {
    Parts(s);
    FirstRead(p, s);
  }

  lemma BlankNow(p: Pos, s: string)
    requires AtStart(p) && s != "" && !BlankInLiteral(p, s)
    ensures !(Inside(p) && IsBlank(First(s)))
    ensures End(s) != "" ==> !BlankInLiteral(Pos(MoveAll(p, First(s)).st, false), Rest(s))
  {
    Parts(s);
    FirstRead(p, s);
  }

  /** Without blank lines and carriage returns inside literals the projection reads alike. */
  lemma {:induction false} Keeps(p: Pos, s: string)
    requires AtStart(p) && !Inside(MoveAll(p, s)) && !BlankInLiteral(p, s) && !CarriageInLiteral(p, s)
    ensures Glyphs(p, Fresh(p), Staying(s)) == Glyphs(p, Fresh(p), s)
    decreases |s|
  {
    if s != "" {
      Parts(s);
      StayingFirst(s);
      FirstRead(p, s);
      var q := MoveAll(p, First(s));
      var next := Pos(q.st, false);
      CarriageLater(p, s);
      BlankNow(p, s);
      if End(s) != "" {
        Keeps(next, Rest(s));
      }
      if !IsBlank(First(s)) {
        LineRead(p, First(s), "\n", Staying(Rest(s)));
      }
    }
  }

  ghost predicate HasCarriage(gs: seq<Glyph>) { exists g :: g in gs && g.c == '\r' }

  lemma {:induction false} CarriageRead(p: Pos, s: string)
    requires AtStart(p) && !Inside(MoveAll(p, s)) && CarriageInLiteral(p, s)
    ensures HasCarriage(Glyphs(p, Fresh(p), s))
    decreases |s|
  {
    Parts(s);
    FirstRead(p, s);
    var q := MoveAll(p, First(s));
    var next := Pos(q.st, false);
    if Inside(q) && '\r' in End(s) {
      var i :| 0 <= i < |End(s)| && End(s)[i] == '\r';
      assert Ends(q, End(s))[i].c == '\r';
      assert Ends(q, End(s))[i] in Glyphs(p, Fresh(p), s);
    } else {
      CarriageRead(next, Rest(s));
      var g :| g in Glyphs(next, Fresh(next), Rest(s)) && g.c == '\r';
      assert g in Glyphs(p, Fresh(p), s);
    }
  }

  lemma {:induction false} GlyphsFrom(p: Pos, sep: Sep, s: string)
    ensures forall g :: g in Glyphs(p, sep, s) ==> g.c in s
    decreases |s|
  {
    if s != "" {
      GlyphsFrom(Move(p, s[0]), GlyphSep(p, sep, s[0]), s[1..]);
      forall g | g in Glyphs(p, sep, s) ensures g.c in s {
        assert g in GlyphOf(p, sep, s[0]) || g.c in s[1..];
      }
    }
  }

  lemma {:induction false} StayingHasNone(s: string)
    ensures '\r' !in Staying(s)
    decreases |s|
  {
    if s != "" {
      Parts(s);
      StayingFirst(s);
      StayingHasNone(Rest(s));
      assert '\r' !in First(s) by {
        assert forall i :: 0 <= i < |First(s)| ==> !IsBreak(First(s)[i]);
      }
    }
  }

  /** The newlines inside literals. */
  function InnerLines(gs: seq<Glyph>): nat {
    if gs == [] then 0 else (if gs[0].inner && gs[0].c == '\n' then 1 else 0) + InnerLines(gs[1..])
  }

  lemma {:induction false} InnerLinesAppend(a: seq<Glyph>, b: seq<Glyph>)
    ensures InnerLines(a + b) == InnerLines(a) + InnerLines(b)
  {
    if a == [] {
      assert a + b == b;
    } else {
      assert (a + b)[1..] == a[1..] + b;
      InnerLinesAppend(a[1..], b);
    }
  }

  lemma InnerLinesThree(a: seq<Glyph>, b: seq<Glyph>, c: seq<Glyph>)
    ensures InnerLines(a + (b + c)) == InnerLines(a) + InnerLines(b) + InnerLines(c)
  {
    InnerLinesAppend(a, b + c);
    InnerLinesAppend(b, c);
  }

  lemma EndCounts(q: Pos)
    ensures InnerLines(Ends(q, "\n")) == if Inside(q) then 1 else 0
  {
    assert Inner("\n") == [Glyph(Joint, '\n', true)];
    assert [Glyph(Joint, '\n', true)][1..] == [];
  }

  lemma BlankLater(p: Pos, s: string)
    requires AtStart(p) && BlankInLiteral(p, s) && !(Inside(p) && IsBlank(First(s)))
    ensures End(s) != "" && BlankInLiteral(Pos(MoveAll(p, First(s)).st, false), Rest(s))
  {
    Parts(s);
    FirstRead(p, s);
    assert BlankInLiteral(MoveAll(p, First(s) + End(s)), Rest(s));
  }

  /** A blank line inside a literal takes its newline with it. */
  lemma {:induction false} Loses(p: Pos, s: string)
    requires AtStart(p) && !Inside(MoveAll(p, s)) && !CarriageInLiteral(p, s)
    ensures InnerLines(Glyphs(p, Fresh(p), Staying(s))) <= InnerLines(Glyphs(p, Fresh(p), s))
    ensures BlankInLiteral(p, s) ==> InnerLines(Glyphs(p, Fresh(p), Staying(s))) < InnerLines(Glyphs(p, Fresh(p), s))
    decreases |s|
  {
    if s != "" {
      Parts(s);
      StayingFirst(s);
      FirstRead(p, s);
      var q := MoveAll(p, First(s));
      var next := Pos(q.st, false);
      var line := Glyphs(p, Fresh(p), First(s));
      CarriageLater(p, s);
      if End(s) != "" {
        Loses(next, Rest(s));
      }
      InnerLinesThree(line, Ends(q, End(s)), Glyphs(next, Fresh(next), Rest(s)));
      EndCounts(q);
      if BlankInLiteral(p, s) && !(Inside(p) && IsBlank(First(s))) {
        BlankLater(p, s);
      }
      if IsBlank(First(s)) {
        assert next == p && (Inside(p) ==> End(s) == "\n");
        assert !Inside(p) ==> Ends(q, End(s)) == [] && line == [];
      } else {
        LineRead(p, First(s), "\n", Staying(Rest(s)));
        InnerLinesThree(line, Ends(q, "\n"), Glyphs(next, Fresh(next), Staying(Rest(s))));
      }
    }
  }

  /** The projection ends where the text ends. */
  lemma {:induction false} StayingEnds(p: Pos, s: string)
    requires AtStart(p)
    ensures MoveAll(p, Staying(s)) == Pos(MoveAll(p, s).st, false)
    decreases |s|
  {
    if s != "" {
      Parts(s);
      StayingFirst(s);
      FirstRead(p, s);
      var q := MoveAll(p, First(s));
      if End(s) != "" {
        StayingEnds(Pos(q.st, false), Rest(s));
      }
      if !IsBlank(First(s)) {
        LineRead(p, First(s), "\n", Staying(Rest(s)));
      }
    }
  }

  // ---------- the projection has no comments ----------

  /** No comment opens outside the literals. */
  predicate NoComment(p: Pos, s: string)
    decreases |s|
  {
    s == "" || (!(p.st == Code && Opens(s)) && NoComment(Move(p, s[0]), s[1..]))
  }

  lemma {:induction false} NoCommentAppend(p: Pos, a: string, b: string)
    requires b == "" || IsBreak(b[0])
    ensures NoComment(p, a + b) <==> NoComment(p, a) && NoComment(MoveAll(p, a), b)
    decreases |a|
  {
    if a == "" {
      assert a + b == b;
    } else {
      assert (a + b)[0] == a[0] && (a + b)[1..] == a[1..] + b;
      assert |a + b| >= 2 ==> (a + b)[1] == if |a| >= 2 then a[1] else b[0];
      NoCommentAppend(Move(p, a[0]), a[1..], b);
    }
  }

  lemma NoCommentEnd(q: Pos, t: string, rest: string)
    requires Plain(q) && IsEnd(t)
    ensures NoComment(q, t + rest) <==> NoComment(Pos(q.st, false), rest)
  {
    var s := t + rest;
    EndRead(q, Line, t, rest);
    if |t| == 1 {
      assert s[0] == t[0] && s[1..] == rest;
    } else {
      assert s[0] == '\r' && s[1..][0] == '\n' && s[1..][1..] == rest;
    }
  }

  lemma {:induction false} StayingPlain(p: Pos, s: string)
    requires AtStart(p) && NoComment(p, s)
    ensures NoComment(p, Staying(s))
    decreases |s|
  {
    if s != "" {
      Parts(s);
      StayingFirst(s);
      FirstRead(p, s);
      var q := MoveAll(p, First(s));
      NoCommentAppend(p, First(s), End(s) + Rest(s));
      if End(s) != "" {
        NoCommentEnd(q, End(s), Rest(s));
        StayingPlain(Pos(q.st, false), Rest(s));
      }
      if !IsBlank(First(s)) {
        NoCommentAppend(p, First(s), "\n" + Staying(Rest(s)));
        NoCommentEnd(q, "\n", Staying(Rest(s)));
      }
    }
  }

  lemma {:induction false} StrippedPlain(st: Lex, o: string)
    requires st != LineComment && st != BlockComment && Strip(st, o) == Some(o)
    ensures NoComment(Pos(st, false), o)
    decreases |o|
  {
    if o != "" {
      var w := Width(st, o);
      StripStep(st, o);
      var rest := Strip(After(st, o), o[w..]).value;
      StripShrinks(After(st, o), o[w..]);
      assert |Written(st, o) + rest| == |o|;
      assert Written(st, o) == o[..w] && rest == o[w..] by {
        assert o[..w] == (Written(st, o) + rest)[..w] && o[w..] == (Written(st, o) + rest)[w..];
      }
      StrippedPlain(After(st, o), o[w..]);
      if w == 2 {
        assert o[1..][1..] == o[2..];
      }
    }
  }

  lemma PlainRound(st: Lex, s: string)
    requires s != "" && st != LineComment && st != BlockComment && !(st == Code && Opens(s))
    ensures Written(st, s) == s[..Width(st, s)] && After(st, s) != LineComment && After(st, s) != BlockComment
  {
    assert s[..1] == [s[0]];
  }

  /** The positions behind a round of a text without comments. */
  lemma PlainStep(st: Lex, s: string)
    requires s != "" && st != LineComment && st != BlockComment && NoComment(Pos(st, false), s)
    requires Escapes(st, s[0]) ==> |s| >= 2
    ensures NoComment(Pos(After(st, s), false), s[Width(st, s)..])
  {
    if Width(st, s) == 2 {
      assert s[1..][1..] == s[2..] && NoComment(Pos(st, true), s[1..]);
    }
  }

  /** On a text without comments the two ways of reading are one. */
  lemma {:induction false} PlainRead(st: Lex, sep: Sep, s: string)
    requires st != LineComment && st != BlockComment && NoComment(Pos(st, false), s)
    ensures Read(sep, Rounds(st, s)) == Glyphs(Pos(st, false), sep, s)
    decreases |s|
  {
    if s != "" {
      var n, rd := Width(st, s), Round(st, Written(st, s));
      PlainRound(st, s);
      if Escapes(st, s[0]) && |s| == 1 {
        assert s == [s[0]] && s[1..] == "" && Inner(s) == [Glyph(Joint, s[0], true)];
        assert Rounds(st, s) == [rd];
      } else {
        PlainStep(st, s);
        PlainRead(After(st, s), SepAfter(sep, rd), s[n..]);
        GlyphStep(st, sep, s, s[n..]);
        assert s == s[..n] + s[n..];
      }
    }
  }

  // ---------- the projection ----------

  /** The projection itself, read as a source text. */
  lemma ProjectionRead(o: string)
    requires Strip(Code, o) == Some(o)
    ensures Meaning(Joined(NonBlank(Lines(o)))) == Glyphs(START, Line, Staying(o))
  {
    var lines := NonBlank(Lines(o));
    var text := Joined(lines);
    PositionsFollowLexer(Code, o);
    StrippedPlain(Code, o);
    StayingPlain(START, o);
    StayingEnds(START, o);
    if lines != [] {
      JoinedTerminated(lines);
      assert text + "\n" == text + ("\n" + "");
      LineRead(START, text, "\n", "");
      NoCommentAppend(START, text, "\n");
      PlainRead(Code, Line, text);
    }
  }

  /** Separators aside, stripping keeps every character. */
  lemma {:induction false} SameInner(sep: Sep, so: Sep, rs: seq<Round>)
    ensures InnerLines(Read(sep, rs)) == InnerLines(BareRead(so, rs))
    ensures HasCarriage(BareRead(so, rs)) ==> HasCarriage(Read(sep, rs))
    decreases |rs|
  {
    if rs != [] {
      var to, bare := SepAfter(sep, rs[0]), BareAfter(so, rs[0]);
      SameInner(to, bare, rs[1..]);
      InnerLinesAppend(Seen(sep, rs[0]), Read(to, rs[1..]));
      InnerLinesAppend(Seen(so, rs[0]), BareRead(bare, rs[1..]));
      if HasCarriage(BareRead(so, rs)) {
        var g :| g in BareRead(so, rs) && g.c == '\r';
        if g in Seen(so, rs[0]) {
          assert g in Read(sep, rs);
        } else {
          assert g in BareRead(bare, rs[1..]);
          var h :| h in Read(to, rs[1..]) && h.c == '\r';
          assert h in Read(sep, rs);
        }
      }
    }
  }

  /** What the projection must not meet: a blank line or a carriage return at a line end inside a
      literal, and two characters of code with nothing but comments in between. */
  ghost predicate Safe(content: string)
    requires Strip(Code, content).Some?
  {
    var o := Strip(Code, content).value;
    !BlankInLiteral(START, o) && !CarriageInLiteral(START, o) && !Glued(content)
  }

  /** Only what stands inside literals can get lost with the blank lines, and the loss shows in the
      characters themselves. */
  lemma BlankLinesExact(o: string, all: seq<Glyph>)
    requires MoveAll(START, o) == START
    requires InnerLines(all) == InnerLines(Glyphs(START, Line, o))
    requires HasCarriage(Glyphs(START, Line, o)) ==> HasCarriage(all)
    ensures BlankInLiteral(START, o) || CarriageInLiteral(START, o) ==> Glyphs(START, Line, Staying(o)) != all
    ensures !BlankInLiteral(START, o) && !CarriageInLiteral(START, o) ==>
      Glyphs(START, Line, Staying(o)) == Glyphs(START, Line, o)
  {
    if CarriageInLiteral(START, o) {
      CarriageRead(START, o);
      StayingHasNone(o);
      GlyphsFrom(START, Line, Staying(o));
    } else if BlankInLiteral(START, o) {
      Loses(START, o);
    } else {
      Keeps(START, o);
    }
  }

  /** The projection says what the text says if and only if the text is safe. */
  lemma ProjectionExact(content: string)
    requires Strip(Code, content).Some?
    ensures Meaning(Projected(content).value) == Meaning(content) <==> Safe(content)
  {
    var o := Strip(Code, content).value;
    StripIdempotent(content);
    StrippedPositions(content);
    ProjectionRead(o);
    StripExact(content);
    StrippedRead(Code, Line, content);
    SameInner(Line, Line, Rounds(Code, content));
    BlankLinesExact(o, Meaning(content));
  }

  /** Files that differ by comments only: two safe texts with the same projection say the same. */
  lemma SameProjection(a: string, b: string)
    requires Strip(Code, a).Some? && Strip(Code, b).Some? && Safe(a) && Safe(b)
    requires Projected(a) == Projected(b)
    ensures Meaning(a) == Meaning(b)
  {
    ProjectionExact(a);
    ProjectionExact(b);
  }

  // ---------- texts the projection confuses ----------

  /** A piece that ends between tokens does not end in half a token. */
  lemma WholeToken(st: Lex, a: string)
    requires |a| == 1 && Lexed(st, a).Some?
    ensures !(st == Code && a[0] == '/') && !(st == BlockComment && a[0] == '*') && !Escapes(st, a[0])
  {
    assert a == [a[0]];
  }

  lemma SameWidth(st: Lex, a: string, b: string)
    requires a != "" && Lexed(st, a).Some?
    ensures Width(st, a + b) == Width(st, a) && (st == Code ==> Opens(a + b) == Opens(a))
    ensures (a + b)[0] == a[0] && (|a| >= 2 ==> (a + b)[1] == a[1])
  {
    if |a| == 1 {
      WholeToken(st, a);
      assert |a + b| >= 2 ==> (a + b)[..2] == [(a + b)[0], (a + b)[1]];
    } else {
      assert (a + b)[..2] == a[..2];
    }
  }

  /** A round looks at its own characters only. */
  lemma SameRound(st: Lex, a: string, s: string)
    requires a != "" && s != "" && Width(st, s) == Width(st, a) && (st == Code ==> Opens(s) == Opens(a))
    requires s[0] == a[0] && s[..Width(st, a)] == a[..Width(st, a)] && (|a| >= 2 && |s| >= 2 ==> s[1] == a[1])
    ensures After(st, s) == After(st, a) && Written(st, s) == Written(st, a)
  {}

  lemma LexedStep(st: Lex, a: string)
    requires a != "" && Lexed(st, a).Some?
    ensures Lexed(st, a) == Cons(Written(st, a), Lexed(After(st, a), a[Width(st, a)..]))
  {
    var r := Lexed(After(st, a), a[Width(st, a)..]);
    assert r.Some? ==> "" + r.value.0 == r.value.0;
    assert a[..1] == [a[0]] && (|a| >= 2 ==> a[..2] == [a[0], a[1]]);
  }

  lemma FirstRound(st: Lex, a: string, b: string)
    requires a != "" && Lexed(st, a).Some?
    ensures Rounds(st, a + b) == [Round(st, Written(st, a))] + Rounds(After(st, a), a[Width(st, a)..] + b)
  {
    SameWidth(st, a, b);
    assert (a + b)[..Width(st, a)] == a[..Width(st, a)] && (a + b)[Width(st, a)..] == a[Width(st, a)..] + b;
    SameRound(st, a, a + b);
  }

  lemma {:induction false} RoundsAppend(st: Lex, a: string, b: string)
    requires Lexed(st, a).Some?
    ensures Rounds(st, a + b) == Rounds(st, a) + Rounds(Lexed(st, a).value.1, b)
    decreases |a|
  {
    if a == "" {
      assert a + b == b;
    } else {
      var rest := a[Width(st, a)..];
      FirstRound(st, a, b);
      LexedStep(st, a);
      RoundsAppend(After(st, a), rest, b);
      Assoc([Round(st, Written(st, a))], Rounds(After(st, a), rest), Rounds(Lexed(st, a).value.1, b));
    }
  }

  lemma TextAppend(st: Lex, sep: Sep, a: string, b: string)
    requires Lexed(st, a).Some?
    ensures Read(sep, Rounds(st, a + b))
      == Read(sep, Rounds(st, a)) + Read(SepEnd(sep, Rounds(st, a)), Rounds(Lexed(st, a).value.1, b))
  {
    RoundsAppend(st, a, b);
    ReadAppend(sep, Rounds(st, a), Rounds(Lexed(st, a).value.1, b));
  }

  /** A comment without a line end separates like a space. */
  lemma BlockCommentRead(sep: Sep, body: string, b: string)
    requires IsBlockBody(body) && Breaks(body) == ""
    ensures Read(sep, Rounds(Code, "/*" + (body + ("*/" + b)))) == Read(Wider(sep, Gap), Rounds(Code, b))
  {
    var rest, to := "*/" + b, Wider(sep, Gap);
    var s := "/*" + (body + rest);
    assert s[2..] == body + rest && rest[2..] == b;
    BlockCommentLexed(body);
    TextAppend(BlockComment, to, body, rest);
    BodyRead(to, body);
    assert Rounds(Code, s) == [Round(Code, "")] + Rounds(BlockComment, body + rest);
    assert Rounds(BlockComment, rest) == [Round(BlockComment, "")] + Rounds(Code, b);
  }

  /** A character of a comment's body is a round that writes nothing. */
  lemma BodyRound(body: string)
    requires body != "" && IsBlockBody(body) && Breaks(body) == ""
    ensures Rounds(BlockComment, body) == [Round(BlockComment, "")] + Rounds(BlockComment, body[1..])
    ensures Breaks(body[1..]) == ""
  {
    assert |body| >= 2 ==> !(body[0] == '*' && body[0 + 1] == '/');
    assert !IsBreak(body[0]);
  }

  lemma BodyRest(body: string)
    requires body != "" && IsBlockBody(body)
    ensures IsBlockBody(body[1..])
  {
    assert forall i :: 0 <= i < |body[1..]| ==> body[1..][i] == body[i + 1];
  }

  lemma SilentFirst(sep: Sep, rs: seq<Round>)
    ensures var all := [Round(BlockComment, "")] + rs; Read(sep, all) == Read(sep, rs) && SepEnd(sep, all) == SepEnd(sep, rs)
  {
    assert ([Round(BlockComment, "")] + rs)[1..] == rs;
  }

  lemma {:induction false} BodyRead(sep: Sep, body: string)
    requires IsBlockBody(body) && Breaks(body) == ""
    ensures Read(sep, Rounds(BlockComment, body)) == [] && SepEnd(sep, Rounds(BlockComment, body)) == sep
    decreases |body|
  {
    if body != "" {
      BodyRest(body);
      BodyRound(body);
      BodyRead(sep, body[1..]);
      SilentFirst(sep, Rounds(BlockComment, body[1..]));
    }
  }

  /** Code stands at the end of a, with no space, line end or comment behind it. */
  predicate EndsInCode(a: string) { SepEnd(Line, Rounds(Code, a)) == Joint }

  predicate StartsInCode(b: string) { b != "" && !IsSpace(b[0]) && !Opens(b) }

  /** Taking out a comment without a line end is never noticed, and it changes what the text says if
      and only if the comment is all that separates two characters of code. */
  lemma CommentGlues(a: string, body: string, b: string)
    requires Lexed(Code, a).Some? && Lexed(Code, a).value.1 == Code && IsBlockBody(body) && Breaks(body) == ""
    ensures Projected(a + ("/*" + (body + ("*/" + b)))) == Projected(a + b)
    ensures Meaning(a + ("/*" + (body + ("*/" + b)))) == Meaning(a + b) <==> !(EndsInCode(a) && StartsInCode(b))
  {
    BlockCommentGoes(a, body, b);
    StripAppend(Code, a, b);
    assert Lexed(Code, a).value.0 + "" == Lexed(Code, a).value.0;
    var comment, sep := "/*" + (body + ("*/" + b)), SepEnd(Line, Rounds(Code, a));
    TextAppend(Code, Line, a, comment);
    TextAppend(Code, Line, a, b);
    BlockCommentRead(sep, body, b);
    SepReads(sep, b);
    SamePrefix(Meaning(a), Read(Wider(sep, Gap), Rounds(Code, b)), Read(sep, Rounds(Code, b)));
  }

  lemma SepReads(sep: Sep, b: string)
    ensures Read(Wider(sep, Gap), Rounds(Code, b)) == Read(sep, Rounds(Code, b)) <==> !(sep == Joint && StartsInCode(b))
  {
    var rs := Rounds(Code, b);
    if StartsInCode(b) {
      assert Read(Gap, rs)[0].sep == Gap && Read(Joint, rs)[0].sep == Joint;
    }
  }

  lemma SamePrefix<T>(a: seq<T>, x: seq<T>, y: seq<T>)
    ensures a + x == a + y <==> x == y
  {
    assert x == (a + x)[|a|..] && y == (a + y)[|a|..];
  }

  /** Characters that are neither spaces nor quotes nor slashes. */
  predicate IsWord(s: string) {
    s != "" && forall i :: 0 <= i < |s| ==> !IsSpace(s[i]) && s[i] != '/' && AfterCode(s[i]) == Code
  }

  lemma {:induction false} WordLexed(sep: Sep, a: string)
    requires IsWord(a)
    ensures Lexed(Code, a) == Some((a, Code)) && SepEnd(sep, Rounds(Code, a)) == Joint
    decreases |a|
  {
    assert !IsSpace(a[0]) && a[0] != '/' && a == [a[0]] + a[1..];
    assert Rounds(Code, a) == [Round(Code, [a[0]])] + Rounds(Code, a[1..]);
    if |a| == 1 {
      assert a[1..] == "";
    } else {
      assert forall i :: 0 <= i < |a[1..]| ==> a[1..][i] == a[i + 1];
      WordLexed(Joint, a[1..]);
    }
  }

  /** Two words are not told apart from the word they make together. */
  lemma WordsGlued(a: string, b: string)
    requires IsWord(a) && IsWord(b)
    ensures Projected(a + ("/**/" + b)) == Projected(a + b) && Meaning(a + ("/**/" + b)) != Meaning(a + b)
  {
    WordLexed(Line, a);
    assert "/**/" + b == "/*" + ("" + ("*/" + b));
    assert !IsSpace(b[0]) && b[0] != '/';
    CommentGlues(a, "", b);
  }

  /** A call behind the keyword return and the call of another function. */
  lemma ReturnGlued() returns (keyword: string, call: string)
    ensures keyword == "return" && call == "f()"
    ensures Projected(keyword + ("/**/" + call)) == Projected(keyword + call)
    ensures Meaning(keyword + ("/**/" + call)) != Meaning(keyword + call)
  {
    keyword, call := "return", "f()";
    WordsGlued(keyword, call);
  }

  lemma {:induction false} RawRead(sep: Sep, body: string)
    requires !HasBackquote(body)
    ensures Read(sep, Rounds(RawStr, body + "`")) == Inner(body + "`")
    decreases |body|
  {
    var s := body + "`";
    assert s[..1] == [s[0]] && Inner(s) == Inner([s[0]]) + Inner(s[1..]);
    if body == "" {
      assert s[1..] == "";
    } else {
      assert body[0] != '`' && forall i :: 0 <= i < |body[1..]| ==> body[1..][i] == body[i + 1];
      assert s[1..] == body[1..] + "`";
      RawRead(Joint, body[1..]);
      assert Rounds(RawStr, s) == [Round(RawStr, [s[0]])] + Rounds(RawStr, s[1..]);
    }
  }

  lemma RawMeaning(body: string)
    requires !HasBackquote(body)
    ensures Meaning("`" + (body + "`")) == [Glyph(Line, '`', false)] + Inner(body + "`")
  {
    var s := "`" + (body + "`");
    assert s[0] == '`' && s[1..] == body + "`";
    RawRead(Joint, body);
    assert Rounds(Code, s) == [Round(Code, "`")] + Rounds(RawStr, s[1..]);
  }

  lemma RawDiffers(x: string, y: string)
    requires !HasBackquote(x) && !HasBackquote(y) && x != y
    ensures Meaning("`" + (x + "`")) != Meaning("`" + (y + "`"))
  {
    RawMeaning(x);
    RawMeaning(y);
    var i, j := Inner(x + "`"), Inner(y + "`");
    assert Meaning("`" + (x + "`"))[1..] == i && Meaning("`" + (y + "`"))[1..] == j;
    assert |x| != |y| || exists k :: 0 <= k < |x| && x[k] != y[k];
    if |x| == |y| {
      var k :| 0 <= k < |x| && x[k] != y[k];
      assert i[k].c == x[k] && j[k].c == y[k];
    }
  }

  /** A line of a raw string may end in a carriage return or in a newline, or in two newlines: the
      literals differ, and the projections do not. */
  lemma LiteralsConfused(x: string, y: string)
    requires !HasBackquote(x) && !HasBackquote(y) && !HasBreak(x) && (y == "" || y[0] != '\n')
    ensures Projected("`" + (x + "\r" + y + "`")) == Projected("`" + (x + "\n" + y + "`"))
      == Projected("`" + (x + "\n\n" + y + "`"))
    ensures Meaning("`" + (x + "\r" + y + "`")) != Meaning("`" + (x + "\n" + y + "`"))
    ensures Meaning("`" + (x + "\n" + y + "`")) != Meaning("`" + (x + "\n\n" + y + "`"))
  {
    RawStringBlankLineHidden(x, y);
    var r, n, nn := x + "\r" + y, x + "\n" + y, x + "\n\n" + y;
    RawDiffers(r, n) by {
      assert r[|x|] != n[|x|];
    }
    RawDiffers(n, nn) by {
      assert |n| != |nn|;
    }
    RawStringKept(r);
    RawStringKept(n);
    RawFirst(x, "\r", y);
    RawFirst(x, "\n", y);
  }

  lemma RawFirst(x: string, t: string, y: string)
    requires !HasBreak(x) && IsEnd(t) && (y == "" || y[0] != '\n')
    ensures Lines("`" + (x + t + y + "`")) == ["`" + x] + Lines(y + "`")
  {
    var h, w := "`" + x, y + "`";
    assert "`" + (x + t + y + "`") == h + (t + w);
    assert Clean(h) by {
      assert forall i :: 0 < i < |h| ==> h[i] == x[i - 1];
    }
    FirstLine(h, t, w);
  }
}
