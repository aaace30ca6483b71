/** The comment stripper of scripts/verify-provenance.py, which compares a file with its
    upstream modulo comments and blank lines. */
module GoComments {
  import opened Common

  datatype Lex = Code | LineComment | BlockComment | Str | Rune | RawStr

  /** Where a run may end without "unterminated Go lexical state". */
  predicate MayEnd(st: Lex) { st == Code || st == LineComment }

  predicate IsBreak(c: char) { c == '\n' || c == '\r' }

  /** The state after a character has been copied in code. */
  function AfterCode(c: char): Lex {
    if c == '"' then Str else if c == '\'' then Rune else if c == '`' then RawStr else Code
  }

  /** A comment starts here. */
  predicate Opens(s: string) { |s| >= 2 && s[0] == '/' && (s[1] == '/' || s[1] == '*') }

  predicate Closes(st: Lex, c: char) {
    (st == Str && c == '"') || (st == Rune && c == '\'') || (st == RawStr && c == '`')
  }

  predicate Escapes(st: Lex, c: char) { (st == Str || st == Rune) && c == '\\' }

  /** What the stripper writes from state st on; None when the input ends inside a literal or
      a block comment. */
  function Strip(st: Lex, s: string): Option<string>
    decreases |s|
  {
    if s == "" then if MayEnd(st) then Some("") else None
    else
      match st
      case Code =>
        if Opens(s) then Strip(if s[1] == '/' then LineComment else BlockComment, s[2..])
        else Prepend([s[0]], Strip(AfterCode(s[0]), s[1..]))
      case LineComment =>
        if IsBreak(s[0]) then Prepend([s[0]], Strip(Code, s[1..])) else Strip(LineComment, s[1..])
      case BlockComment =>
        if |s| >= 2 && s[0] == '*' && s[1] == '/' then Strip(Code, s[2..])
        else Prepend(if IsBreak(s[0]) then [s[0]] else "", Strip(BlockComment, s[1..]))
      case _ =>
        if Escapes(st, s[0]) then
          if |s| >= 2 then Prepend(s[..2], Strip(st, s[2..])) else Prepend([s[0]], Strip(st, s[1..]))
        else Prepend([s[0]], Strip(if Closes(st, s[0]) then Code else st, s[1..]))
  }

  function Prepend(a: string, r: Option<string>): Option<string> {
    if r.Some? then Some(a + r.value) else None
  }

  lemma PrependTwice(a: string, b: string, r: Option<string>)
    ensures Prepend(a, Prepend(b, r)) == Prepend(a + b, r) && Prepend("", r) == r && a + "" == a
  {
    assert r.Some? ==> a + (b + r.value) == a + b + r.value && "" + r.value == r.value;
  }

  /** The loop body: what is written, the next state and the next index. */
  method Advance(content: string, index: nat, state: Lex) returns (written: string, next: Lex, at: nat)
    requires index < |content|
    ensures index < at <= |content|
    ensures Strip(state, content[index..]) == Prepend(written, Strip(next, content[at..]))
  {
    var current := content[index];
    var following := if index + 1 < |content| then Some(content[index + 1]) else None;
    ghost var s := content[index..];
    assert s[0] == current && s[1..] == content[index + 1..];
    assert following.Some? ==> s[1] == following.value && s[2..] == content[index + 2..] && s[..2] == [current, s[1]];
    written, next, at := "", state, index + 1;
    if state == Code {
      if current == '/' && following == Some('/') {
        PrependTwice("", "", Strip(LineComment, s[2..]));
        return "", LineComment, index + 2;
      }
      if current == '/' && following == Some('*') {
        PrependTwice("", "", Strip(BlockComment, s[2..]));
        return "", BlockComment, index + 2;
      }
      written := [current];
      if current == '"' {
        next := Str;
      } else if current == '\'' {
        next := Rune;
      } else if current == '`' {
        next := RawStr;
      }
    } else if state == LineComment {
      PrependTwice("", "", Strip(LineComment, s[1..]));
      if current == '\n' || current == '\r' {
        written, next := [current], Code;
      }
    } else if state == BlockComment {
      if current == '\n' || current == '\r' {
        written := [current];
      }
      if current == '*' && following == Some('/') {
        PrependTwice("", "", Strip(Code, s[2..]));
        next, at := Code, index + 2;
      }
    } else if (state == Str || state == Rune) && current == '\\' {
      written := [current];
      if following.Some? {
        written, at := written + [following.value], index + 2;
        assert written == s[..2];
      }
    } else {
      written := [current];
      if (state == Str && current == '"') || (state == Rune && current == '\'') || (state == RawStr && current == '`') {
        next := Code;
      }
    }
  }

  /** without_go_comments: one pass with an index, a lexical state and an output buffer. */
  method WithoutGoComments(content: string) returns (r: Option<string>)
    ensures r == Strip(Code, content)
  {
    var output, index, state := "", 0, Code;
    assert content[0..] == content;
    PrependTwice("", "", Strip(Code, content));
    while index < |content|
      invariant 0 <= index <= |content|
      invariant Strip(Code, content) == Prepend(output, Strip(state, content[index..]))
      decreases |content| - index
    {
      var written, next, at := Advance(content, index, state);
      PrependTwice(output, written, Strip(next, content[at..]));
      output, state, index := output + written, next, at;
    }
    PrependTwice(output, "", None);
    if state == Str || state == Rune || state == RawStr || state == BlockComment {
      return None;
    }
    return Some(output);
  }

  // ---------- properties ----------

  /** The state in which the output has to be read again. */
  function Reread(st: Lex): Lex { if st == LineComment || st == BlockComment then Code else st }

  lemma FirstWritten(s: string)
    requires Strip(Code, s).Some? && s != "" && s[0] != '/'
    ensures Strip(Code, s).value != "" && Strip(Code, s).value[0] == s[0]
  {}

  /** In code a slash that is written is followed in the output by whatever follows it in the
      input, so it never comes to stand before a slash or a star. */
  lemma SlashKeepsNeighbour(s: string)
    requires Strip(Code, s).Some? && s != "" && s[0] == '/' && !Opens(s)
    ensures var o := Strip(Code, s).value;
      o != "" && o[0] == '/' && !Opens(o) && (|s| == 1 <==> |o| == 1) && (|s| >= 2 ==> o[1] == s[1])
  {
    if |s| >= 2 {
      FirstWritten(s[1..]);
    }
  }

  /** Stripping the output again, from the matching state, changes nothing. */
  lemma {:induction false} StripFixed(st: Lex, s: string)
    requires Strip(st, s).Some?
    ensures Strip(Reread(st), Strip(st, s).value) == Strip(st, s)
    decreases |s|
  {
    if s != "" {
      var o := Strip(st, s).value;
      if st == Code && Opens(s) {
        StripFixed(if s[1] == '/' then LineComment else BlockComment, s[2..]);
      } else if st == BlockComment && |s| >= 2 && s[0] == '*' && s[1] == '/' {
        StripFixed(Code, s[2..]);
      } else if Escapes(st, s[0]) && |s| >= 2 {
        StripFixed(st, s[2..]);
        assert o[..2] == s[..2] && o[2..] == Strip(st, s[2..]).value;
      } else {
        var next := match st
          case Code => AfterCode(s[0])
          case LineComment => if IsBreak(s[0]) then Code else LineComment
          case BlockComment => BlockComment
          case _ => if Closes(st, s[0]) then Code else st;
        StripFixed(next, s[1..]);
        var rest := Strip(next, s[1..]).value;
        assert o == rest || (o == [s[0]] + rest && o[1..] == rest);
        if st == Code && s[0] == '/' && s[1..] != "" {
          FirstWritten(s[1..]);
        }
      }
    }
  }

  /** without_go_comments is idempotent. */
  lemma StripIdempotent(s: string)
    requires Strip(Code, s).Some?
    ensures Strip(Code, Strip(Code, s).value) == Strip(Code, s)
  {
    StripFixed(Code, s);
  }

  /** a is s with some characters left out. */
  predicate Subsequence(a: string, s: string) {
    if a == "" then true
    else if s == "" then false
    else if a[0] == s[0] then Subsequence(a[1..], s[1..])
    else Subsequence(a, s[1..])
  }

  lemma {:induction false} SubsequenceSkip(a: string, s: string)
    requires s != "" && Subsequence(a, s[1..])
    ensures Subsequence(a, s)
    decreases |s|, 0
  {
    if a != "" && a[0] == s[0] {
      SubsequenceTail(a, s[1..]);
    }
  }

  lemma {:induction false} SubsequenceTail(a: string, t: string)
    requires a != "" && Subsequence(a, t)
    ensures Subsequence(a[1..], t)
    decreases |t|, 1
  {
    if a[0] == t[0] {
      SubsequenceSkip(a[1..], t);
    } else {
      SubsequenceTail(a, t[1..]);
      SubsequenceSkip(a[1..], t);
    }
  }

  /** Only comments go: the output is the input with characters left out. */
  lemma {:induction false} StripSubsequence(st: Lex, s: string)
    requires Strip(st, s).Some?
    ensures Subsequence(Strip(st, s).value, s)
    decreases |s|
  {
    if s != "" {
      var o := Strip(st, s).value;
      if st == Code && Opens(s) {
        StripSubsequence(if s[1] == '/' then LineComment else BlockComment, s[2..]);
        SubsequenceSkip(o, s[1..]);
        SubsequenceSkip(o, s);
      } else if st == BlockComment && |s| >= 2 && s[0] == '*' && s[1] == '/' {
        StripSubsequence(Code, s[2..]);
        SubsequenceSkip(o, s[1..]);
        SubsequenceSkip(o, s);
      } else if Escapes(st, s[0]) && |s| >= 2 {
        StripSubsequence(st, s[2..]);
        assert o[1..][1..] == Strip(st, s[2..]).value;
        assert s[1..][1..] == s[2..];
      } else {
        var next := match st
          case Code => AfterCode(s[0])
          case LineComment => if IsBreak(s[0]) then Code else LineComment
          case BlockComment => BlockComment
          case _ => if Closes(st, s[0]) then Code else st;
        StripSubsequence(next, s[1..]);
        var rest := Strip(next, s[1..]).value;
        if o == rest {
          SubsequenceSkip(o, s);
        } else {
          assert o[1..] == rest;
        }
      }
    }
  }

  /** The line breaks of a text, in order. */
  function Breaks(s: string): string {
    if s == "" then "" else (if IsBreak(s[0]) then [s[0]] else "") + Breaks(s[1..])
  }

  lemma {:induction false} BreaksAppend(a: string, b: string)
    ensures Breaks(a + b) == Breaks(a) + Breaks(b)
  {
    if a == "" {
      assert a + b == b;
    } else {
      var head := if IsBreak(a[0]) then [a[0]] else "";
      assert (a + b)[0] == a[0] && (a + b)[1..] == a[1..] + b;
      BreaksAppend(a[1..], b);
      Assoc(head, Breaks(a[1..]), Breaks(b));
    }
  }

  /** How many characters one round takes, what it writes and the state it leaves. */
  function Width(st: Lex, s: string): nat
    requires s != ""
  {
    if |s| >= 2 && ((st == Code && Opens(s)) || (st == BlockComment && s[0] == '*' && s[1] == '/') || Escapes(st, s[0])) then 2 else 1
  }

  function Written(st: Lex, s: string): string
    requires s != ""
  {
    if st == Code then if Opens(s) then "" else [s[0]]
    else if st == LineComment || st == BlockComment then
      if Width(st, s) == 1 && IsBreak(s[0]) then [s[0]] else ""
    else s[..Width(st, s)]
  }

  function After(st: Lex, s: string): Lex
    requires s != ""
  {
    if st == Code then
      if Opens(s) then if s[1] == '/' then LineComment else BlockComment else AfterCode(s[0])
    else if st == LineComment then if IsBreak(s[0]) then Code else LineComment
    else if st == BlockComment then if Width(st, s) == 2 then Code else BlockComment
    else if !Escapes(st, s[0]) && Closes(st, s[0]) then Code
    else st
  }

  lemma StripStep(st: Lex, s: string)
    requires s != ""
    ensures Width(st, s) <= |s|
    ensures Strip(st, s) == Prepend(Written(st, s), Strip(After(st, s), s[Width(st, s)..]))
  {
    PrependTwice("", "", Strip(After(st, s), s[Width(st, s)..]));
    assert s[..1] == [s[0]];
    assert |s| >= 2 ==> s[..2] == [s[0], s[1]];
  }

  lemma WrittenBreaks(st: Lex, s: string)
    requires s != ""
    ensures Breaks(Written(st, s)) == Breaks(s[..Width(st, s)])
  {
    assert s[..1] == [s[0]] && [s[0]][1..] == "";
    if Width(st, s) == 2 {
      assert s[..2] == [s[0]] + [s[1]] && s[..2][1..] == [s[1]] && [s[1]][1..] == "";
    }
  }

  /** No line break is lost, not even inside a comment, so line numbers stay put. */
  lemma {:induction false} StripKeepsBreaks(st: Lex, s: string)
    requires Strip(st, s).Some?
    ensures Breaks(Strip(st, s).value) == Breaks(s)
    decreases |s|
  {
    if s != "" {
      var w := Width(st, s);
      StripStep(st, s);
      StripKeepsBreaks(After(st, s), s[w..]);
      WrittenBreaks(st, s);
      BreaksAppend(Written(st, s), Strip(After(st, s), s[w..]).value);
      BreaksAppend(s[..w], s[w..]);
      assert s == s[..w] + s[w..];
    }
  }

  // ---------- comments go, everything else stays ----------

  /** What is written for a piece of text that ends between tokens, and the state it ends in;
      None when its last character could still join with the next one. */
  function Lexed(st: Lex, a: string): Option<(string, Lex)>
    decreases |a|
  {
    if a == "" then Some(("", st))
    else
      match st
      case Code =>
        if Opens(a) then Lexed(if a[1] == '/' then LineComment else BlockComment, a[2..])
        else if a == "/" then None
        else Cons([a[0]], Lexed(AfterCode(a[0]), a[1..]))
      case LineComment =>
        if IsBreak(a[0]) then Cons([a[0]], Lexed(Code, a[1..])) else Lexed(LineComment, a[1..])
      case BlockComment =>
        if |a| >= 2 && a[0] == '*' && a[1] == '/' then Lexed(Code, a[2..])
        else if a == "*" then None
        else Cons(if IsBreak(a[0]) then [a[0]] else "", Lexed(BlockComment, a[1..]))
      case _ =>
        if Escapes(st, a[0]) then
          if |a| >= 2 then Cons(a[..2], Lexed(st, a[2..])) else None
        else Cons([a[0]], Lexed(if Closes(st, a[0]) then Code else st, a[1..]))
  }

  function Cons(w: string, r: Option<(string, Lex)>): Option<(string, Lex)> {
    if r.Some? then Some((w + r.value.0, r.value.1)) else None
  }

  /** Stripping is compositional at token boundaries. */
  lemma {:induction false} StripAppend(st: Lex, a: string, b: string)
    requires Lexed(st, a).Some?
    ensures Strip(st, a + b) == Prepend(Lexed(st, a).value.0, Strip(Lexed(st, a).value.1, b))
    decreases |a|
  {
    PrependTwice("", "", Strip(st, b));
    if a == "" {
      assert a + b == b;
    } else {
      var rest := Strip(Lexed(st, a).value.1, b);
      assert (a + b)[1..] == a[1..] + b;
      assert |a| >= 2 ==> (a + b)[2..] == a[2..] + b && (a + b)[..2] == a[..2] && (a + b)[1] == a[1];
      if st == Code && Opens(a) {
        StripAppend(if a[1] == '/' then LineComment else BlockComment, a[2..], b);
      } else if st == BlockComment && |a| >= 2 && a[0] == '*' && a[1] == '/' {
        StripAppend(Code, a[2..], b);
      } else if Escapes(st, a[0]) {
        StripAppend(st, a[2..], b);
        PrependTwice(a[..2], Lexed(st, a[2..]).value.0, rest);
      } else {
        var next := match st
          case Code => AfterCode(a[0])
          case LineComment => if IsBreak(a[0]) then Code else LineComment
          case BlockComment => BlockComment
          case _ => if Closes(st, a[0]) then Code else st;
        StripAppend(next, a[1..], b);
        PrependTwice([a[0]], Lexed(next, a[1..]).value.0, rest);
        PrependTwice("", Lexed(next, a[1..]).value.0, rest);
        if st == Code && a[0] == '/' {
          assert (a + b)[1] == a[1];
        }
      }
    }
  }

  predicate HasBreak(s: string) { exists i :: 0 <= i < |s| && IsBreak(s[i]) }

  lemma {:induction false} LineCommentLexed(body: string)
    requires !HasBreak(body)
    ensures Lexed(LineComment, body) == Some(("", LineComment))
  {
    if body != "" {
      assert !IsBreak(body[0]) && forall i :: 0 <= i < |body[1..]| ==> body[1..][i] == body[i + 1];
      LineCommentLexed(body[1..]);
    }
  }

  /** No closing pair inside, and no star at the end that could complete one. */
  predicate IsBlockBody(body: string) {
    && (forall i :: 0 <= i < |body| - 1 ==> !(body[i] == '*' && body[i + 1] == '/'))
    && (body != "" ==> body[|body| - 1] != '*')
  }

  lemma {:induction false} BlockCommentLexed(body: string)
    requires IsBlockBody(body)
    ensures Lexed(BlockComment, body) == Some((Breaks(body), BlockComment))
  {
    if body != "" {
      assert |body| >= 2 ==> !(body[0] == '*' && body[0 + 1] == '/');
      assert forall i :: 0 <= i < |body[1..]| ==> body[1..][i] == body[i + 1];
      BlockCommentLexed(body[1..]);
    }
  }

  /** A line comment after code goes, up to its line break; a carriage return is one too. */
  lemma LineCommentGoes(a: string, body: string, c: char, b: string)
    requires Lexed(Code, a).Some? && Lexed(Code, a).value.1 == Code && !HasBreak(body) && IsBreak(c)
    ensures Strip(Code, a + ("//" + (body + ([c] + b)))) == Strip(Code, a + ([c] + b))
  {
    var rest := [c] + b;
    LineCommentLexed(body);
    StripAppend(LineComment, body, rest);
    StripAppend(Code, a, rest);
    var comment := "//" + (body + rest);
    StripAppend(Code, a, comment);
    assert comment[2..] == body + rest && rest[1..] == b;
    PrependTwice("", "", Strip(LineComment, rest));
  }

  /** A block comment leaves only its line breaks. */
  lemma BlockCommentGoes(a: string, body: string, b: string)
    requires Lexed(Code, a).Some? && Lexed(Code, a).value.1 == Code && IsBlockBody(body)
    ensures Strip(Code, a + ("/*" + (body + ("*/" + b)))) == Prepend(Lexed(Code, a).value.0 + Breaks(body), Strip(Code, b))
  {
    var rest := "*/" + b;
    BlockCommentLexed(body);
    StripAppend(BlockComment, body, rest);
    var comment := "/*" + (body + rest);
    StripAppend(Code, a, comment);
    assert comment[2..] == body + rest && rest[2..] == b;
    PrependTwice(Lexed(Code, a).value.0, Breaks(body), Strip(Code, b));
  }

  // ---------- comments_only_projection ----------

  /** bytes.splitlines: "\n", "\r" and "\r\n" end a line. */
  function Lines(s: string): seq<string>
    decreases |s|
  {
    if s == "" then []
    else if s[0] == '\n' then [""] + Lines(s[1..])
    else if s[0] == '\r' then [""] + Lines(if |s| >= 2 && s[1] == '\n' then s[2..] else s[1..])
    else
      var rest := Lines(s[1..]);
      if rest == [] then [[s[0]]] else [[s[0]] + rest[0]] + rest[1..]
  }

  predicate IsSpace(c: char) { c == ' ' || c == '\t' || c == '\n' || c == '\r' || c as int == 11 || c as int == 12 }

  predicate IsBlank(line: string) { forall i :: 0 <= i < |line| ==> IsSpace(line[i]) }

  function NonBlank(lines: seq<string>): seq<string> {
    if lines == [] then []
    else (if IsBlank(lines[0]) then [] else [lines[0]]) + NonBlank(lines[1..])
  }

  function Joined(lines: seq<string>): string {
    if lines == [] then "" else if |lines| == 1 then lines[0] else lines[0] + "\n" + Joined(lines[1..])
  }

  /** comments_only_projection */
  function Projected(content: string): Option<string> {
    match Strip(Code, content)
    case None => None
    case Some(o) => Some(Joined(NonBlank(Lines(o))))
  }

  lemma LinesCrLf(s: string)
    requires |s| >= 2 && s[0] == '\r' && s[1] == '\n'
    ensures Lines(s) == [""] + Lines(s[2..])
  {}

  lemma LinesBreak(s: string)
    requires s != "" && IsBreak(s[0]) && !(|s| >= 2 && s[0] == '\r' && s[1] == '\n')
    ensures Lines(s) == [""] + Lines(s[1..])
  {}

  lemma LinesOther(s: string)
    requires |s| >= 2 && !IsBreak(s[0])
    ensures Lines(s[1..]) != [] && Lines(s) == [[s[0]] + Lines(s[1..])[0]] + Lines(s[1..])[1..]
  {}

  lemma FirstGrows(c: char, a: seq<string>, b: seq<string>)
    requires a != []
    ensures [[c] + (a + b)[0]] + (a + b)[1..] == ([[c] + a[0]] + a[1..]) + b
  {
    assert (a + b)[1..] == a[1..] + b;
  }

  lemma Assoc<T>(a: seq<T>, b: seq<T>, c: seq<T>)
    ensures (a + b) + c == a + (b + c)
  {}

  lemma CrLfAppend(a: string, b: string)
    requires |a| >= 2 && a[0] == '\r' && a[1] == '\n' && Lines(a[2..] + b) == Lines(a[2..]) + Lines(b)
    ensures Lines(a + b) == Lines(a) + Lines(b)
  {
    LinesCrLf(a);
    LinesCrLf(a + b);
    assert (a + b)[2..] == a[2..] + b;
    Assoc([""], Lines(a[2..]), Lines(b));
  }

  lemma BreakAppend(a: string, b: string)
    requires a != "" && IsBreak(a[0]) && !(a[0] == '\r' && |a + b| >= 2 && (a + b)[1] == '\n')
    requires Lines(a[1..] + b) == Lines(a[1..]) + Lines(b)
    ensures Lines(a + b) == Lines(a) + Lines(b)
  {
    var s := a + b;
    assert s[0] == a[0] && s[1..] == a[1..] + b;
    assert |a| >= 2 ==> s[1] == a[1];
    LinesBreak(a);
    LinesBreak(s);
    Assoc([""], Lines(a[1..]), Lines(b));
  }

  lemma OtherAppend(a: string, b: string)
    requires |a| >= 2 && !IsBreak(a[0]) && Lines(a[1..] + b) == Lines(a[1..]) + Lines(b)
    ensures Lines(a + b) == Lines(a) + Lines(b)
  {
    LinesOther(a);
    LinesOther(a + b);
    assert (a + b)[1..] == a[1..] + b;
    FirstGrows(a[0], Lines(a[1..]), Lines(b));
  }

  lemma {:induction false} LinesAppend(a: string, b: string)
    requires a == "" || a[|a| - 1] == '\n'
    ensures Lines(a + b) == Lines(a) + Lines(b)
    decreases |a|
  {
    if a == "" {
      assert a + b == b;
    } else if |a| >= 2 && a[0] == '\r' && a[1] == '\n' {
      LinesAppend(a[2..], b);
      CrLfAppend(a, b);
    } else if IsBreak(a[0]) {
      LinesAppend(a[1..], b);
      BreakAppend(a, b);
    } else {
      LinesAppend(a[1..], b);
      OtherAppend(a, b);
    }
  }

  lemma {:induction false} NonBlankAppend(a: seq<string>, b: seq<string>)
    ensures NonBlank(a + b) == NonBlank(a) + NonBlank(b)
  {
    if a == [] {
      assert a + b == b;
    } else {
      assert (a + b)[1..] == a[1..] + b;
      NonBlankAppend(a[1..], b);
    }
  }

  /** Adding a comment on a line of its own does not change the projection, so a file that
      differs from its upstream by such comments is accepted. */
  lemma CommentLineInvisible(a: string, body: string, b: string)
    requires Lexed(Code, a).Some? && Lexed(Code, a).value.1 == Code && !HasBreak(body)
    requires var o := Lexed(Code, a).value.0; o == "" || o[|o| - 1] == '\n'
    ensures Projected(a + ("//" + (body + ("\n" + b)))) == Projected(a + b)
  {
    var o := Lexed(Code, a).value.0;
    LineCommentGoes(a, body, '\n', b);
    assert "\n" + b == ['\n'] + b;
    StripAppend(Code, a, "\n" + b);
    StripAppend(Code, a, b);
    assert ("\n" + b)[1..] == b;
    if Strip(Code, b).Some? {
      var z := Strip(Code, b).value;
      LinesAppend(o, "\n" + z);
      LinesAppend(o, z);
      assert ("\n" + z)[1..] == z;
      NonBlankAppend(Lines(o), [""] + Lines(z));
      NonBlankAppend(Lines(o), Lines(z));
      assert ([""] + Lines(z))[1..] == Lines(z);
      assert IsBlank("") && NonBlank([""] + Lines(z)) == NonBlank(Lines(z));
      assert Strip(Code, "\n" + b) == Some("\n" + z);
      assert Lines("\n" + z) == [""] + Lines(z);
    }
  }

  predicate HasBackquote(s: string) { exists i :: 0 <= i < |s| && s[i] == '`' }

  lemma {:induction false} RawLexed(body: string)
    requires !HasBackquote(body)
    ensures Lexed(RawStr, body) == Some((body, RawStr))
  {
    if body != "" {
      assert body[0] != '`' && forall i :: 0 <= i < |body[1..]| ==> body[1..][i] == body[i + 1];
      RawLexed(body[1..]);
      assert body == [body[0]] + body[1..];
    }
  }

  lemma RawTail(body: string)
    requires !HasBackquote(body)
    ensures Strip(RawStr, body + "`") == Some(body + "`")
  {
    RawLexed(body);
    StripAppend(RawStr, body, "`");
    var q := "`";
    assert q[1..] == "" && [q[0]] + "" == q;
    assert Strip(RawStr, q) == Prepend([q[0]], Strip(Code, q[1..]));
  }

  /** A raw string literal is copied as it stands. */
  lemma RawStringKept(body: string)
    requires !HasBackquote(body)
    ensures Strip(Code, "`" + (body + "`")) == Some("`" + (body + "`"))
  {
    var s := "`" + (body + "`");
    RawTail(body);
    assert s[0] == '`' && s[1..] == body + "`";
    assert s == [s[0]] + s[1..];
  }

  /** A blank line inside a raw string literal is dropped too. */
  lemma RawStringBlankLineHidden(x: string, y: string)
    requires !HasBackquote(x) && !HasBackquote(y)
    ensures Projected("`" + (x + "\n\n" + y + "`")) == Projected("`" + (x + "\n" + y + "`"))
  {
    var h, w := "`" + x + "\n", y + "`";
    RawStringKept(x + "\n\n" + y);
    RawStringKept(x + "\n" + y);
    assert "`" + (x + "\n\n" + y + "`") == h + ("\n" + w);
    assert "`" + (x + "\n" + y + "`") == h + w;
    LinesAppend(h, "\n" + w);
    LinesAppend(h, w);
    assert ("\n" + w)[1..] == w;
    NonBlankAppend(Lines(h), [""] + Lines(w));
    NonBlankAppend(Lines(h), Lines(w));
    assert ([""] + Lines(w))[1..] == Lines(w);
    assert IsBlank("") && NonBlank([""] + Lines(w)) == NonBlank(Lines(w));
  }

  /** The closing character of an interpreted string or a rune literal. */
  function Quote(st: Lex): char { if st == Rune then '\'' else '"' }

  /** What may stand between the quotes: escapes take the next character with them. */
  predicate LiteralBody(quote: char, s: string) {
    if s == "" then true
    else if s[0] == '\\' then |s| >= 2 && LiteralBody(quote, s[2..])
    else s[0] != quote && LiteralBody(quote, s[1..])
  }

  lemma LiteralStep(st: Lex, s: string, n: nat)
    requires (st == Str || st == Rune) && s != "" && s[0] != Quote(st)
    requires if s[0] == '\\' then n == 2 <= |s| else n == 1
    ensures Strip(st, s) == Prepend(s[..n], Strip(st, s[n..]))
  {
    StripStep(st, s);
  }

  lemma LiteralEnd(st: Lex, rest: string)
    requires st == Str || st == Rune
    ensures Strip(st, [Quote(st)] + rest) == Prepend([Quote(st)], Strip(Code, rest))
  {
    var s := [Quote(st)] + rest;
    assert s[1..] == rest && s[0] == Quote(st);
  }

  lemma Regroup(body: string, n: nat, q: string, rest: string)
    requires n <= |body|
    ensures body + (q + rest) == body[..n] + (body[n..] + (q + rest))
    ensures body[..n] + (body[n..] + q) == body + q
  {
    assert body == body[..n] + body[n..];
  }

  lemma {:induction false} LiteralTail(st: Lex, body: string, rest: string)
    requires (st == Str || st == Rune) && LiteralBody(Quote(st), body)
    ensures Strip(st, body + ([Quote(st)] + rest)) == Prepend(body + [Quote(st)], Strip(Code, rest))
    decreases |body|
  {
    var q := [Quote(st)];
    var s := body + (q + rest);
    if body == "" {
      LiteralEnd(st, rest);
      assert s == q + rest && "" + q == q;
    } else {
      var n := if body[0] == '\\' then 2 else 1;
      LiteralTail(st, body[n..], rest);
      PrependTwice(body[..n], body[n..] + q, Strip(Code, rest));
      Regroup(body, n, q, rest);
      assert s[0] == body[0] && s[..n] == body[..n] && s[n..] == body[n..] + (q + rest);
      LiteralStep(st, s, n);
    }
  }

  /** A string or rune literal is copied as it stands, with comment markers and escaped quotes
      inside, and stripping goes on behind it in code. */
  lemma LiteralKept(st: Lex, body: string, rest: string)
    requires (st == Str || st == Rune) && LiteralBody(Quote(st), body)
    ensures Strip(Code, [Quote(st)] + (body + ([Quote(st)] + rest)))
      == Prepend([Quote(st)] + (body + [Quote(st)]), Strip(Code, rest))
  {
    var q := [Quote(st)];
    var s := q + (body + (q + rest));
    LiteralTail(st, body, rest);
    assert s[0] == Quote(st) && s[1..] == body + (q + rest);
    PrependTwice(q, body + q, Strip(Code, rest));
  }
}
