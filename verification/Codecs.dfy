/** Two byte codecs of engine/pkg/cli: convertFromUTF8 of decode.go, which undoes a UTF-8
    encoding of raw bytes, and the COPY escaping and upload loop of nodelocal.go. */
module Codecs {
  import opened Common
  import opened Blobs

  // ---------- UTF-8 (section 3 of RFC 3629) ----------

  /** The encoding of a code point up to U+00FF. */
  function EncodeByte(b: Byte): Bytes {
    if b < 0x80 then [b] else [0xC0 + b / 64, 0x80 + b % 64]
  }

  /** Each byte taken as a code point and encoded. */
  function Encode(bs: Bytes): Bytes {
    if bs == [] then [] else EncodeByte(bs[0]) + Encode(bs[1..])
  }

  const RUNE_ERROR: int := 0xFFFD

  predicate InRange(b: int, lo: int, hi: int) { lo <= b <= hi }

  /** The permitted second bytes of three- and four-byte sequences. */
  function SecondLow(b0: int): int { if b0 == 0xE0 then 0xA0 else if b0 == 0xF0 then 0x90 else 0x80 }

  function SecondHigh(b0: int): int { if b0 == 0xED then 0x9F else if b0 == 0xF4 then 0x8F else 0xBF }

  /** utf8.DecodeRune: the first rune and its width; an ill-formed prefix gives the error rune
      with width 1. */
  function DecodeRune(s: Bytes): (int, nat) {
    if s == [] then (RUNE_ERROR, 0)
    else
      var b0: int := s[0];
      var b1: int := if |s| >= 2 then s[1] else 0;
      var b2: int := if |s| >= 3 then s[2] else 0;
      var b3: int := if |s| >= 4 then s[3] else 0;
      if b0 < 0x80 then (b0, 1)
      else if InRange(b0, 0xC2, 0xDF) && InRange(b1, 0x80, 0xBF) then
        ((b0 - 0xC0) * 64 + (b1 - 0x80), 2)
      else if InRange(b0, 0xE0, 0xEF) && InRange(b1, SecondLow(b0), SecondHigh(b0)) && InRange(b2, 0x80, 0xBF) then
        ((b0 - 0xE0) * 4096 + (b1 - 0x80) * 64 + (b2 - 0x80), 3)
      else if InRange(b0, 0xF0, 0xF4) && InRange(b1, SecondLow(b0), SecondHigh(b0))
              && InRange(b2, 0x80, 0xBF) && InRange(b3, 0x80, 0xBF) then
        ((b0 - 0xF0) * 262144 + (b1 - 0x80) * 4096 + (b2 - 0x80) * 64 + (b3 - 0x80), 4)
      else (RUNE_ERROR, 1)
  }

  /** A rune of at most U+00FF is decoded exactly where its encoding stands. */
  lemma DecodeRuneExact(s: Bytes)
    requires s != []
    ensures var (got, n) := DecodeRune(s);
            && 1 <= n <= |s|
            && (got <= 0xFF && n <= 2 ==> 0 <= got && s[..n] == EncodeByte(got))
    ensures forall b: Byte :: EncodeByte(b) <= s ==> DecodeRune(s) == (b, |EncodeByte(b)|)
  {
    var (got, n) := DecodeRune(s);
    if got <= 0xFF && n <= 2 {
      if n == 2 {
        assert got / 64 == s[0] - 0xC0 && got % 64 == s[1] - 0x80;
      }
      assert s[..n] == EncodeByte(got);
    }
    forall b: Byte | EncodeByte(b) <= s ensures DecodeRune(s) == (b, |EncodeByte(b)|) {
      assert forall i :: 0 <= i < |EncodeByte(b)| ==> s[i] == EncodeByte(b)[i];
    }
  }

  /** What convertFromUTF8 makes of the bytes: None at the first rune that is no byte. */
  function Decoded(s: Bytes): Option<Bytes>
    decreases |s|
  {
    if s == [] then Some([])
    else
      DecodeRuneExact(s);
      var (got, n) := DecodeRune(s);
      if got > 0xFF || n > 2 then None
      else
        var rest := Decoded(s[n..]);
        if rest.None? then None else Some([got] + rest.value)
  }

  method ConvertFromUTF8(bytes: Bytes) returns (r: Option<Bytes>)
    ensures r == Decoded(bytes)
  {
    var rest, out: Bytes := bytes, [];
    assert forall tail: Bytes :: out + tail == tail;
    while |rest| > 0
      invariant Decoded(bytes) == if Decoded(rest).None? then None else Some(out + Decoded(rest).value)
      decreases |rest|
    {
      DecodeRuneExact(rest);
      var (got, n) := DecodeRune(rest);
      if got > 0xFF || n > 2 {
        return None;
      }
      ghost var before := out;
      out := out + [got];
      assert forall tail: Bytes :: before + ([got] + tail) == out + tail;
      rest := rest[n..];
    }
    assert out + [] == out;
    r := Some(out);
  }

  /** Every byte string is recovered from its encoding. */
  lemma {:induction false} DecodedInvertsEncode(bs: Bytes)
    ensures Decoded(Encode(bs)) == Some(bs)
  {
    if bs != [] {
      var s := Encode(bs);
      DecodeRuneExact(s);
      assert EncodeByte(bs[0]) <= s;
      assert s[|EncodeByte(bs[0])|..] == Encode(bs[1..]);
      DecodedInvertsEncode(bs[1..]);
      assert bs == [bs[0]] + bs[1..];
    }
  }

  lemma EncodeCons(b: Byte, bs: Bytes)
    ensures Encode([b] + bs) == EncodeByte(b) + Encode(bs)
  {
    assert ([b] + bs)[1..] == bs;
  }

  lemma SplitAt(s: Bytes, n: nat, head: Bytes, tail: Bytes)
    requires n <= |s| && s[..n] == head && s[n..] == tail
    ensures head + tail == s
  {}

  /** Success means the input was such an encoding, of exactly the result. */
  lemma {:induction false} EncodeInvertsDecoded(s: Bytes)
    requires Decoded(s).Some?
    ensures Encode(Decoded(s).value) == s
    decreases |s|
  {
    if s != [] {
      DecodeRuneExact(s);
      var (got, n) := DecodeRune(s);
      EncodeInvertsDecoded(s[n..]);
      EncodeCons(got, Decoded(s[n..]).value);
      SplitAt(s, n, EncodeByte(got), s[n..]);
    }
  }

  /** Both directions together: success exactly on encodings. */
  lemma DecodedIffEncoded(s: Bytes)
    ensures Decoded(s).Some? <==> exists bs: Bytes :: Encode(bs) == s
  {
    if Decoded(s).Some? {
      EncodeInvertsDecoded(s);
    }
    forall bs: Bytes | Encode(bs) == s ensures Decoded(s).Some? {
      DecodedInvertsEncode(bs);
    }
  }

  // ---------- COPY text escaping ----------

  const BACKSLASH: Byte := 92
  const NEWLINE: Byte := 10
  const RETURN: Byte := 13
  const TAB: Byte := 9

  predicate NeedsEscape(c: Byte) { c == BACKSLASH || c == NEWLINE || c == RETURN || c == TAB }

  /** The letter behind the backslash. */
  function EscapeLetter(c: Byte): Byte
    requires NeedsEscape(c)
  {
    if c == BACKSLASH then BACKSLASH else if c == NEWLINE then 110 else if c == RETURN then 114 else 116
  }

  function EscapeByte(c: Byte): Bytes { if NeedsEscape(c) then [BACKSLASH, EscapeLetter(c)] else [c] }

  function Escape(text: Bytes): Bytes {
    if text == [] then [] else EscapeByte(text[0]) + Escape(text[1..])
  }

  lemma {:induction false} EscapeAppend(a: Bytes, b: Bytes)
    ensures Escape(a + b) == Escape(a) + Escape(b)
  {
    if a == [] {
      assert a + b == b;
    } else {
      assert (a + b)[1..] == a[1..] + b;
      EscapeAppend(a[1..], b);
    }
  }

  lemma {:induction false} NothingToEscape(text: Bytes)
    requires forall i :: 0 <= i < |text| ==> !NeedsEscape(text[i])
    ensures Escape(text) == text
  {
    if text != [] {
      NothingToEscape(text[1..]);
      assert text == [text[0]] + text[1..];
    }
  }

  lemma EscapeNext(text: Bytes, i: nat)
    requires i < |text|
    ensures Escape(text[..i + 1]) == Escape(text[..i]) + EscapeByte(text[i])
  {
    assert text[..i + 1] == text[..i] + [text[i]] && [text[i]][1..] == [];
    EscapeAppend(text[..i], [text[i]]);
  }

  /** appendEscapedText: look for the first byte to escape, copy up to it, then go byte by
      byte; without such a byte copy everything. */
  method AppendEscapedText(buf: Bytes, text: Bytes) returns (result: Bytes)
    ensures result == buf + Escape(text)
  {
    var startPos := 0;
    while startPos < |text| && !NeedsEscape(text[startPos])
      invariant 0 <= startPos <= |text|
      invariant forall i :: 0 <= i < startPos ==> !NeedsEscape(text[i])
    {
      startPos := startPos + 1;
    }
    NothingToEscape(text[..startPos]);
    result := buf + text[..startPos];
    if startPos == |text| {
      assert text[..startPos] == text;
      return;
    }
    for i := startPos to |text|
      invariant result == buf + Escape(text[..i])
    {
      var c := text[i];
      EscapeNext(text, i);
      if c == BACKSLASH {
        result := result + [BACKSLASH, BACKSLASH];
      } else if c == NEWLINE {
        result := result + [BACKSLASH, 110];
      } else if c == RETURN {
        result := result + [BACKSLASH, 114];
      } else if c == TAB {
        result := result + [BACKSLASH, 116];
      } else {
        result := result + [c];
      }
    }
    assert text[..|text|] == text;
  }

  /** No field or line separator of the COPY format appears in escaped text. */
  lemma {:induction false} EscapedHasNoSeparator(text: Bytes)
    ensures forall i :: 0 <= i < |Escape(text)| ==> Escape(text)[i] !in {NEWLINE, RETURN, TAB}
  {
    if text != [] {
      EscapedHasNoSeparator(text[1..]);
    }
  }

  /** The reader's side of the escaping; None on a dangling or unknown escape. */
  function Unescape(s: Bytes): Option<Bytes> {
    if s == [] then Some([])
    else if s[0] == BACKSLASH then
      if |s| < 2 then None
      else
        var rest := Unescape(s[2..]);
        if rest.None? then None
        else if s[1] == BACKSLASH then Some([BACKSLASH] + rest.value)
        else if s[1] == 110 then Some([NEWLINE] + rest.value)
        else if s[1] == 114 then Some([RETURN] + rest.value)
        else if s[1] == 116 then Some([TAB] + rest.value)
        else None
    else
      var rest := Unescape(s[1..]);
      if rest.None? then None else Some([s[0]] + rest.value)
  }

  lemma {:induction false} UnescapeInvertsEscape(text: Bytes)
    ensures Unescape(Escape(text)) == Some(text)
  {
    if text != [] {
      var s := Escape(text);
      assert s[|EscapeByte(text[0])|..] == Escape(text[1..]);
      UnescapeInvertsEscape(text[1..]);
      assert text == [text[0]] + text[1..];
    }
  }

  function Data(answers: seq<ReadResult>): Bytes {
    if answers == [] then [] else Data(answers[..|answers| - 1]) + answers[|answers| - 1].data
  }

  /** The read loop of uploadFile: however the reader cuts the file, what is sent unescapes to
      the bytes that were read. */
  method Upload(answers: seq<ReadResult>) returns (send: Option<Bytes>, n: nat)
    ensures n <= |answers|
    ensures send.Some? ==> send.value == Escape(Data(answers[..n])) && Unescape(send.value) == Some(Data(answers[..n]))
    ensures send.Some? ==> n == |answers| || answers[n] == ReadResult([], EndOfFile)
    ensures send.None? ==> n < |answers| && answers[n] == ReadResult([], Failed)
  {
    var buffer: Bytes := [];
    n := 0;
    while n < |answers|
      invariant 0 <= n <= |answers| && buffer == Escape(Data(answers[..n]))
    {
      var r := answers[n];
      assert answers[..n + 1][..n] == answers[..n];
      if |r.data| > 0 {
        EscapeAppend(Data(answers[..n]), r.data);
        buffer := AppendEscapedText(buffer, r.data);
      } else if r.end == EndOfFile {
        break;
      } else if r.end == Failed {
        return None, n;
      }
      assert r.data == [] ==> Data(answers[..n]) + r.data == Data(answers[..n]);
      n := n + 1;
    }
    UnescapeInvertsEscape(Data(answers[..n]));
    send := Some(buffer);
  }
}
