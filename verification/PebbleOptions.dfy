/** The tokeniser for the pebble field of a store specification, engine/pkg/base/store_spec.go:
    whitespace delimits lines, except inside [ ]. Texts are sequences of runes. */
module PebbleOptions {
  import opened Common
  import opened Text

  /** unicode.IsSpace on the runes of one byte. */
  predicate IsNarrow(c: char) {
    c == ' ' || c == '\t' || c == '\n' || c == '\r' || c == '\U{0B}' || c == '\U{0C}'
  }

  /** unicode.IsSpace on the runes of two and three bytes. The first of these bytes, read as a rune
      of its own, is never a space. */
  predicate IsWide(c: char) {
    || c == '\U{85}' || c == '\U{A0}' || c == '\U{1680}' || '\U{2000}' <= c <= '\U{200A}'
    || c == '\U{2028}' || c == '\U{2029}' || c == '\U{202F}' || c == '\U{205F}' || c == '\U{3000}'
  }

  /** unicode.IsSpace */
  predicate IsSpace(c: char) { IsNarrow(c) || IsWide(c) }

  function TrimLeft(s: string): (r: string)
    ensures |r| <= |s| && (r == "" || !IsSpace(r[0]))
  {
    if s != "" && IsSpace(s[0]) then TrimLeft(s[1..]) else s
  }

  function TrimRight(s: string): (r: string)
    ensures |r| <= |s| && (r == "" || !IsSpace(r[|r| - 1]))
  {
    if s != "" && IsSpace(s[|s| - 1]) then TrimRight(s[..|s| - 1]) else s
  }

  /** Trimming on the left keeps the last character, and trimming on the right the first. */
  lemma {:induction false} TrimLeftEnds(s: string)
    ensures TrimLeft(s) != "" ==> TrimLeft(s)[|TrimLeft(s)| - 1] == s[|s| - 1]
    ensures forall c :: c in TrimLeft(s) ==> c in s
  {
    if s != "" && IsSpace(s[0]) {
      TrimLeftEnds(s[1..]);
    }
  }

  lemma {:induction false} TrimRightStarts(s: string)
    ensures TrimRight(s) != "" ==> TrimRight(s)[0] == s[0]
    ensures forall c :: c in TrimRight(s) ==> c in s
  {
    if s != "" && IsSpace(s[|s| - 1]) {
      TrimRightStarts(s[..|s| - 1]);
    }
  }

  /** strings.TrimSpace */
  function Trim(s: string): string { TrimRight(TrimLeft(s)) }

  predicate EndsInk(s: string) { s == "" || !IsSpace(s[|s| - 1]) }

  function Prepend(a: string, r: Option<string>): Option<string> {
    if r.Some? then Some(a + r.value) else None
  }

  /** The meaning of the loop, character by character; None when it never ends. */
  function Squeeze(inside: bool, s: string): Option<string>
    decreases |s|
  {
    if s == "" then if inside then None else Some("")
    else if inside then Prepend([s[0]], Squeeze(s[0] != ']', s[1..]))
    else if IsWide(s[0]) then None
    else if IsNarrow(s[0]) then Prepend("\n", Squeeze(false, TrimLeft(s[1..])))
    else Prepend([s[0]], Squeeze(s[0] == '[', s[1..]))
  }

  lemma PrependTwice(a: string, b: string, r: Option<string>)
    ensures Prepend(a, Prepend(b, r)) == Prepend(a + b, r) && Prepend("", r) == r
  {
    assert r.Some? ==> a + (b + r.value) == a + b + r.value && "" + r.value == r.value;
  }

  /** No opening bracket and no whitespace. */
  predicate Plain(p: string) { forall c :: c in p ==> c != '[' && !IsSpace(c) }

  lemma {:induction false} SqueezePlain(p: string, s: string)
    requires Plain(p)
    ensures Squeeze(false, p + s) == Prepend(p, Squeeze(false, s))
  {
    if p == "" {
      assert p + s == s;
      PrependTwice("", "", Squeeze(false, s));
    } else {
      assert p[0] in p && forall c :: c in p[1..] ==> c in p;
      assert (p + s)[1..] == p[1..] + s && [p[0]] + p[1..] == p;
      SqueezePlain(p[1..], s);
      PrependTwice([p[0]], p[1..], Squeeze(false, s));
    }
  }

  lemma {:induction false} SqueezeClosed(p: string, s: string)
    requires ']' !in p
    ensures Squeeze(true, p + "]" + s) == Prepend(p + "]", Squeeze(false, s))
  {
    if p == "" {
      assert (p + "]" + s)[1..] == s && p + "]" == "]";
    } else {
      assert (p + "]" + s)[1..] == p[1..] + "]" + s && [p[0]] + (p[1..] + "]") == p + "]";
      SqueezeClosed(p[1..], s);
      PrependTwice([p[0]], p[1..] + "]", Squeeze(false, s));
    }
  }

  lemma {:induction false} SqueezeOpen(s: string)
    requires ']' !in s
    ensures Squeeze(true, s) == None
  {
    if s != "" {
      SqueezeOpen(s[1..]);
    }
  }

  lemma TrimInk(s: string)
    requires EndsInk(s)
    ensures Trim(s) == TrimLeft(s) && EndsInk(TrimLeft(s))
  {}

  /** strings.IndexFunc for an opening bracket or whitespace. */
  method IndexBreak(value: string) returns (i: int)
    ensures i == -1 ==> Plain(value)
    ensures i != -1 ==> 0 <= i < |value| && (value[i] == '[' || IsSpace(value[i]))
    ensures i != -1 ==> Plain(value[..i])
  {
    i := 0;
    while i < |value|
      invariant 0 <= i <= |value|
      invariant Plain(value[..i])
    {
      if value[i] == '[' || IsSpace(value[i]) {
        return;
      }
      assert value[..i + 1] == value[..i] + [value[i]];
      i := i + 1;
    }
    assert value[..|value|] == value;
    return -1;
  }

  lemma Bracketed(p: string, tail: string)
    requires Plain(p)
    requires ']' in tail && tail[0] == '['
    ensures var n := IndexOf(tail, ']') + 1;
      Squeeze(false, p + tail) == Prepend(p + tail[..n], Squeeze(false, tail[n..]))
  {
    var n := IndexOf(tail, ']') + 1;
    var body, after := tail[1..n - 1], tail[n..];
    assert tail[1..] == body + "]" + after;
    assert forall c :: c in body ==> c in tail[..n - 1];
    SqueezeClosed(body, after);
    PrependTwice("[", body + "]", Squeeze(false, after));
    assert "[" + (body + "]") == tail[..n];
    SqueezePlain(p, tail);
    PrependTwice(p, tail[..n], Squeeze(false, after));
  }

  lemma Slices(s: string, i: nat, n: nat)
    requires i + n <= |s|
    ensures s[..i] + s[i..] == s && s[..i] + s[i..][..n] == s[..i + n] && s[i..][n..] == s[i + n..]
  {}

  /** The bracket case with the index arithmetic of the source: a bracket that is never closed
      gives j == i - 1, that is n == 0, which writes what stands before it and keeps the bracket. */
  lemma BracketCase(value: string, i: nat, n: nat)
    requires i < |value| && value[i] == '[' && n == IndexOf(value[i..], ']') + 1
    requires Plain(value[..i])
    ensures i + n <= |value|
    ensures Squeeze(false, value) == Prepend(value[..i + n], Squeeze(false, value[i + n..]))
  {
    Slices(value, i, n);
    BracketSplit(value[..i], value[i..], n);
  }

  lemma BracketSplit(p: string, tail: string, n: nat)
    requires Plain(p)
    requires tail != "" && tail[0] == '[' && n == IndexOf(tail, ']') + 1
    ensures Squeeze(false, p + tail) == Prepend(p + tail[..n], Squeeze(false, tail[n..]))
  {
    if ']' in tail {
      Bracketed(p, tail);
    } else {
      SqueezePlain(p, tail);
      assert p + tail[..0] == p && tail[0..] == tail;
    }
  }

  lemma BracketStuck(value: string, i: nat)
    requires i < |value| && value[i] == '['
    requires Plain(value[..i])
    ensures i + IndexOf(value[i..], ']') == -1 <==> value[0] == '[' && ']' !in value
  {
    assert i > 0 ==> value[0] in value[..i];
    assert value[0..] == value;
  }

  /** The first opening bracket or whitespace is whitespace of several bytes: no case applies. */
  predicate FirstIsWide(value: string) {
    exists i :: 0 <= i < |value| && IsWide(value[i]) && Plain(value[..i])
  }

  lemma WideCase(value: string, i: nat)
    requires i < |value| && IsWide(value[i])
    requires Plain(value[..i])
    ensures Squeeze(false, value) == None && FirstIsWide(value)
  {
    assert value == value[..i] + value[i..];
    SqueezePlain(value[..i], value[i..]);
  }

  /** A text has one first break. */
  lemma NotWide(value: string, i: nat)
    requires i < |value| && (value[i] == '[' || IsNarrow(value[i]))
    requires Plain(value[..i])
    ensures !FirstIsWide(value)
  {
    forall k | 0 <= k < |value| ensures !(IsWide(value[k]) && Plain(value[..k])) {
      assert k < i ==> value[k] in value[..i];
      assert i < k ==> value[i] in value[..k];
    }
  }

  lemma PlainGoes(value: string)
    requires value != "" && Plain(value)
    ensures Squeeze(false, value) == Prepend(value, Squeeze(false, "")) && !Stuck(value)
  {
    SqueezePlain(value, "");
    assert value + "" == value && value[0] in value;
  }

  /** The loop body changes nothing. */
  predicate Stuck(value: string)
    requires value != ""
  {
    (value[0] == '[' && ']' !in value) || FirstIsWide(value)
  }

  /** The whitespace case. */
  lemma SpaceCase(value: string, i: nat)
    requires i < |value| && IsNarrow(value[i]) && EndsInk(value)
    requires Plain(value[..i])
    ensures Squeeze(false, value) == Prepend(value[..i] + "\n", Squeeze(false, Trim(value[i + 1..])))
    ensures EndsInk(Trim(value[i + 1..])) && |Trim(value[i + 1..])| < |value|
  {
    var tail := value[i..];
    assert value == value[..i] + tail && tail[1..] == value[i + 1..];
    SqueezePlain(value[..i], tail);
    TrimInk(value[i + 1..]);
    PrependTwice(value[..i], "\n", Squeeze(false, TrimLeft(value[i + 1..])));
  }

  lemma StuckOpen(value: string)
    ensures value != "" && value[0] == '[' && ']' !in value ==> Squeeze(false, value) == None
  {
    if value != "" && ']' !in value {
      SqueezeOpen(value[1..]);
    }
  }

  /** The loop body: what goes to the buffer and what is left. It makes no progress exactly when
      what is left starts with a bracket that is never closed or breaks first at wide whitespace. */
  method Step(value: string) returns (written: string, rest: string)
    requires value != "" && EndsInk(value)
    ensures Squeeze(false, value) == Prepend(written, Squeeze(false, rest))
    ensures EndsInk(rest)
    ensures if Stuck(value) then rest == value && written == "" else |rest| < |value|
    ensures Stuck(value) ==> Squeeze(false, value) == None
  {
    var i := IndexBreak(value);
    if i == -1 {
      PlainGoes(value);
      return value, "";
    }
    if IsWide(value[i]) {
      WideCase(value, i);
      PrependTwice("", "", Squeeze(false, value));
      return "", value;
    }
    NotWide(value, i);
    if value[i] == '[' {
      var j := i + IndexOf(value[i..], ']');
      BracketCase(value, i, j + 1 - i);
      BracketStuck(value, i);
      StuckOpen(value);
      return value[..j + 1], value[j + 1..];
    }
    SpaceCase(value, i);
    assert i > 0 ==> value[0] in value[..i];
    return value[..i] + "\n", Trim(value[i + 1..]);
  }

  /** An opening bracket stands behind the last closing one. */
  predicate Unclosed(s: string) {
    exists i :: 0 <= i < |s| && s[i] == '[' && ']' !in s[i..]
  }

  /** Whether position i lies between brackets. */
  predicate InsideAt(inside: bool, s: string, i: nat)
    requires i <= |s|
    decreases i
  {
    if i == 0 then inside else InsideAt(Next(inside, s[0]), s[1..], i - 1)
  }

  predicate Next(inside: bool, c: char) { if inside then c != ']' else c == '[' }

  /** Outside the brackets, whitespace starts with a wide rune; spaced says that whitespace stands
      before s. */
  predicate WideRun(inside: bool, spaced: bool, s: string) {
    exists i :: 0 <= i < |s| && WideStart(inside, spaced, s, i)
  }

  predicate WideStart(inside: bool, spaced: bool, s: string, i: nat)
    requires i < |s|
  {
    IsWide(s[i]) && !InsideAt(inside, s, i) && !(if i == 0 then spaced else IsSpace(s[i - 1]))
  }

  /** The loop; None stands for the run that never ends, which is recognised by a round that
      changes nothing. */
  method Normalise(text: string) returns (r: Option<string>)
    ensures r == Squeeze(false, Trim(text))
    ensures r.None? <==> Unclosed(Trim(text)) || WideRun(false, false, Trim(text))
  {
    var value, buf := Trim(text), "";
    PrependTwice("", "", Squeeze(false, value));
    NeverEnds(value);
    while |value| > 0
      invariant EndsInk(value) && Squeeze(false, Trim(text)) == Prepend(buf, Squeeze(false, value))
      decreases |value|
    {
      var written, rest := Step(value);
      if rest == value {
        return None;
      }
      PrependTwice(buf, written, Squeeze(false, rest));
      buf, value := buf + written, rest;
    }
    assert buf + "" == buf;
    return Some(buf);
  }

  lemma UnclosedStep(s: string)
    requires s != ""
    ensures Unclosed(s) <==> (s[0] == '[' && ']' !in s) || Unclosed(s[1..])
  {
    assert s[0..] == s;
    if Unclosed(s[1..]) {
      var i :| 0 <= i < |s[1..]| && s[1..][i] == '[' && ']' !in s[1..][i..];
      assert s[i + 1..] == s[1..][i..];
    }
    if Unclosed(s) {
      var i :| 0 <= i < |s| && s[i] == '[' && ']' !in s[i..];
      assert i > 0 ==> s[1..][i - 1] == '[' && s[1..][i - 1..] == s[i..];
    }
  }

  lemma {:induction false} UnclosedTrim(s: string)
    ensures Unclosed(s) <==> Unclosed(TrimLeft(s))
  {
    if s != "" && IsSpace(s[0]) {
      UnclosedStep(s);
      UnclosedTrim(s[1..]);
    }
  }

  lemma WideStep(inside: bool, spaced: bool, s: string)
    requires s != ""
    ensures WideRun(inside, spaced, s)
      <==> (!inside && !spaced && IsWide(s[0])) || WideRun(Next(inside, s[0]), IsSpace(s[0]), s[1..])
  {
    var next, t := Next(inside, s[0]), s[1..];
    forall i: nat | i < |t| ensures WideStart(inside, spaced, s, i + 1) == WideStart(next, IsSpace(s[0]), t, i) {
      assert s[i + 1] == t[i] && (i > 0 ==> s[i] == t[i - 1]);
    }
    if WideRun(next, IsSpace(s[0]), t) {
      var i: nat :| i < |t| && WideStart(next, IsSpace(s[0]), t, i);
      assert WideStart(inside, spaced, s, i + 1);
    }
    if WideRun(inside, spaced, s) {
      var i: nat :| i < |s| && WideStart(inside, spaced, s, i);
      assert i > 0 ==> WideStart(next, IsSpace(s[0]), t, i - 1);
    } else {
      assert !WideStart(inside, spaced, s, 0);
    }
  }

  /** Between brackets the character before does not matter. */
  lemma WideInside(spaced: bool, s: string)
    ensures WideRun(true, spaced, s) <==> WideRun(true, false, s)
  {
    if s != "" {
      WideStep(true, spaced, s);
      WideStep(true, false, s);
    }
  }

  /** After a space, leading whitespace of any width is skipped. */
  lemma {:induction false} WideTrim(s: string)
    ensures WideRun(false, true, s) <==> WideRun(false, false, TrimLeft(s))
  {
    if s != "" {
      WideStep(false, true, s);
      if IsSpace(s[0]) {
        WideTrim(s[1..]);
      } else {
        WideStep(false, false, s);
      }
    }
  }

  /** The tokeniser hangs exactly on an opening bracket behind the last closing one and on
      whitespace outside the brackets that starts with a wide rune. */
  lemma {:induction false} HangsOn(inside: bool, s: string)
    ensures Squeeze(inside, s).None? <==> Unclosed(s) || (inside && ']' !in s) || WideRun(inside, false, s)
    decreases |s|
  {
    if s != "" {
      UnclosedStep(s);
      WideStep(inside, false, s);
      assert s == [s[0]] + s[1..];
      if inside {
        WideInside(IsSpace(s[0]), s[1..]);
        HangsOn(s[0] != ']', s[1..]);
      } else if IsSpace(s[0]) {
        UnclosedTrim(s[1..]);
        WideTrim(s[1..]);
        HangsOn(false, TrimLeft(s[1..]));
      } else {
        HangsOn(s[0] == '[', s[1..]);
      }
    }
  }

  /** One wide space between two words is enough; behind an ASCII space it is harmless. */
  lemma WideSpaceHangs(a: char, b: char, c: char)
    requires IsWide(c) && !IsSpace(a) && !IsSpace(b) && a != '[' && b != '['
    ensures Squeeze(false, Trim([a, c, b])) == None
    ensures Squeeze(false, Trim([a, ' ', c, b])) == Some([a, '\n', b])
  {
    var x, y := [a, c, b], [a, ' ', c, b];
    assert Trim(x) == x && Trim(y) == y;
    assert x[1..] == [c, b] && y[1..] == [' ', c, b] && y[1..][1..] == [c, b] && [c, b][1..] == [b] && [b][1..] == "";
    assert TrimLeft([c, b]) == [b];
    assert [b] + "" == [b] && Squeeze(false, "") == Some("") && Squeeze(false, [b]) == Some([b]);
    var z := [' ', c, b];
    assert z[1..] == [c, b] && Squeeze(false, z) == Some("\n" + [b]);
    assert [a] + ("\n" + [b]) == [a, '\n', b];
  }

  lemma NeverEnds(s: string)
    ensures Squeeze(false, s).None? <==> Unclosed(s) || WideRun(false, false, s)
  {
    HangsOn(false, s);
  }

  // ---------- printing and reading again ----------

  /** StoreSpec.String writes every newline as a space. */
  function Spaced(s: string): (r: string)
    ensures |r| == |s|
    ensures forall i :: 0 <= i < |s| ==> r[i] == if s[i] == '\n' then ' ' else s[i]
  {
    seq(|s|, i requires 0 <= i < |s| => if s[i] == '\n' then ' ' else s[i])
  }

  /** What the tokeniser produces: outside brackets single newlines between other characters. */
  predicate Tidy(inside: bool, s: string)
    decreases |s|
  {
    if s == "" then !inside
    else if inside then Tidy(s[0] != ']', s[1..])
    else if IsSpace(s[0]) then s[0] == '\n' && s[1..] != "" && !IsSpace(s[1]) && Tidy(false, s[1..])
    else Tidy(s[0] == '[', s[1..])
  }

  /** No newline stands between brackets. */
  predicate UnbrokenBrackets(inside: bool, s: string)
    decreases |s|
  {
    if s == "" then true
    else if inside then s[0] != '\n' && UnbrokenBrackets(s[0] != ']', s[1..])
    else UnbrokenBrackets(s[0] == '[', s[1..])
  }

  /** s with the newlines between brackets as spaces. */
  function Unbroken(inside: bool, s: string): (r: string)
    ensures |r| == |s|
    decreases |s|
  {
    if s == "" then ""
    else if inside then [if s[0] == '\n' then ' ' else s[0]] + Unbroken(s[0] != ']', s[1..])
    else [s[0]] + Unbroken(s[0] == '[', s[1..])
  }

  lemma {:induction false} UnbrokenFixed(inside: bool, s: string)
    ensures Unbroken(inside, s) == s <==> UnbrokenBrackets(inside, s)
    decreases |s|
  {
    if s != "" {
      var next := if inside then s[0] != ']' else s[0] == '[';
      UnbrokenFixed(next, s[1..]);
      var r := Unbroken(inside, s);
      assert r[1..] == Unbroken(next, s[1..]);
      assert s == [s[0]] + s[1..] && r == [r[0]] + r[1..];
    }
  }

  /** What one round of Squeeze leaves to read. */
  function Rest(inside: bool, s: string): (r: string)
    requires s != ""
    ensures |r| < |s|
  {
    if !inside && IsSpace(s[0]) then TrimLeft(s[1..]) else s[1..]
  }

  lemma SqueezeRest(inside: bool, s: string)
    requires s != "" && Squeeze(inside, s).Some?
    ensures var next := if inside then s[0] != ']' else s[0] == '[';
      && Squeeze(next, Rest(inside, s)).Some?
      && Squeeze(inside, s).value
         == [if !inside && IsSpace(s[0]) then '\n' else s[0]] + Squeeze(next, Rest(inside, s)).value
      && (EndsInk(s) ==> EndsInk(Rest(inside, s)) && (!inside && IsSpace(s[0]) ==> Rest(inside, s) != ""))
  {
    if EndsInk(s) && !inside && IsSpace(s[0]) {
      TrimKeepsEnd(s[1..]);
      TrimLeftEnds(s[1..]);
    }
  }

  /** A trimmed text keeps its last character and gets no new ones but newlines. */
  lemma {:induction false} SqueezeKeeps(inside: bool, s: string)
    requires Squeeze(inside, s).Some? && EndsInk(s)
    ensures var o := Squeeze(inside, s).value;
      EndsInk(o) && (o == "" <==> s == "") && forall c :: c in o ==> c in s || c == '\n'
    decreases |s|
  {
    if s != "" {
      SqueezeRest(inside, s);
      SqueezeKeeps(if inside then s[0] != ']' else s[0] == '[', Rest(inside, s));
      TrimLeftEnds(s[1..]);
      assert s[0] in s && forall c :: c in s[1..] ==> c in s;
    }
  }

  /** The output is tidy and a text that starts with ink keeps its first character. */
  lemma {:induction false} SqueezeTidy(inside: bool, s: string)
    requires Squeeze(inside, s).Some? && EndsInk(s)
    ensures var o := Squeeze(inside, s).value;
      && Tidy(inside, o)
      && (s != "" && (inside || !IsSpace(s[0])) ==> o != "" && o[0] == s[0])
    decreases |s|
  {
    if s != "" {
      var next := if inside then s[0] != ']' else s[0] == '[';
      SqueezeRest(inside, s);
      SqueezeTidy(next, Rest(inside, s));
      var o := Squeeze(inside, s).value;
      assert o[1..] == Squeeze(next, Rest(inside, s)).value;
    }
  }

  lemma {:induction false} TrimKeepsEnd(s: string)
    requires s != "" ==> !IsSpace(s[|s| - 1])
    ensures s != "" ==> TrimLeft(s) != ""
  {
    if s != "" && IsSpace(s[0]) {
      TrimKeepsEnd(s[1..]);
    }
  }

  /** Reading the printed form of a tidy text gives it back, up to newlines between brackets. */
  lemma {:induction false} SqueezeSpaced(inside: bool, s: string)
    requires Tidy(inside, s)
    ensures Squeeze(inside, Spaced(s)) == Some(Unbroken(inside, s))
    decreases |s|
  {
    if s != "" {
      var p := Spaced(s);
      var next := if inside then s[0] != ']' else s[0] == '[';
      SqueezeSpaced(next, s[1..]);
      assert p[1..] == Spaced(s[1..]);
    }
  }

  /** The form of every accepted text. */
  predicate TidyText(s: string) {
    Tidy(false, s) && EndsInk(s) && (s != "" ==> !IsSpace(s[0]))
  }

  lemma AcceptedTidy(text: string)
    requires Squeeze(false, Trim(text)).Some?
    ensures TidyText(Squeeze(false, Trim(text)).value)
  {
    TrimStarts(text);
    SqueezeTidy(false, Trim(text));
    SqueezeKeeps(false, Trim(text));
  }

  /** Printing a tidy text and reading it again gives it back exactly when no newline stands
      between brackets. */
  lemma PrintedAgain(o: string)
    requires TidyText(o)
    ensures Squeeze(false, Trim(Spaced(o))) == Some(Unbroken(false, o))
    ensures Squeeze(false, Trim(Spaced(o))) == Some(o) <==> UnbrokenBrackets(false, o)
  {
    SqueezeSpaced(false, o);
    UnbrokenFixed(false, o);
    assert Trim(Spaced(o)) == Spaced(o);
  }

  lemma TrimStarts(text: string)
    ensures Trim(text) == "" || !IsSpace(Trim(text)[0])
    ensures forall c :: c in Trim(text) ==> c in text
  {
    TrimLeftEnds(text);
    TrimRightStarts(TrimLeft(text));
  }
}
