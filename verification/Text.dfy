/** strings.Split, strings.Join and friends on sequences of characters. */
module Text {
  import Sorting

  /** strings.IndexRune: the first position, or -1. */
  function IndexOf(s: string, c: char): (i: int)
    ensures i == -1 <==> c !in s
    ensures i != -1 ==> 0 <= i < |s| && s[i] == c && c !in s[..i]
  {
    if s == "" then -1
    else if s[0] == c then 0
    else
      var i := IndexOf(s[1..], c);
      if i == -1 then -1 else
      assert s[..i + 1] == [s[0]] + s[1..][..i];
      i + 1
  }

  /** strings.Split on one separator. */
  function Split(s: string, c: char): (parts: seq<string>)
    ensures parts != []
    decreases |s|
  {
    var i := IndexOf(s, c);
    if i == -1 then [s] else [s[..i]] + Split(s[i + 1..], c)
  }

  function Join(parts: seq<string>, c: char): string {
    if parts == [] then ""
    else if |parts| == 1 then parts[0]
    else parts[0] + [c] + Join(parts[1..], c)
  }

  lemma IndexAfter(p: string, c: char, rest: string)
    requires c !in p
    ensures IndexOf(p + [c] + rest, c) == |p|
    ensures (p + [c] + rest)[..|p|] == p && (p + [c] + rest)[|p| + 1..] == rest
  {
    var s := p + [c] + rest;
    assert s[|p|] == c;
    var i := IndexOf(s, c);
    assert c in s;
    assert forall k :: 0 <= k < i ==> s[k] in s[..i];
    assert forall k :: 0 <= k < |p| ==> s[k] == p[k];
  }

  /** Splitting undoes joining when no part holds the separator. */
  lemma {:induction false} SplitJoin(parts: seq<string>, c: char)
    requires parts != [] && forall p :: p in parts ==> c !in p
    ensures Split(Join(parts, c), c) == parts
    decreases |parts|
  {
    assert parts[0] in parts;
    if |parts| > 1 {
      IndexAfter(parts[0], c, Join(parts[1..], c));
      SplitJoin(parts[1..], c);
    } else {
      assert parts == [parts[0]];
    }
  }

  /** Joining undoes splitting, and the parts hold only characters of the text, never the
      separator. */
  lemma {:induction false} JoinSplit(s: string, c: char)
    ensures Join(Split(s, c), c) == s
    ensures forall p, x :: p in Split(s, c) && x in p ==> x != c && x in s
    decreases |s|
  {
    var i := IndexOf(s, c);
    if i != -1 {
      var rest := s[i + 1..];
      JoinSplit(rest, c);
      assert Split(s, c) == [s[..i]] + Split(rest, c);
      assert s == s[..i] + [c] + rest;
      assert Split(s, c)[1..] == Split(rest, c);
    }
  }

  /** Every part is followed by the separator. */
  function Terminated(parts: seq<string>, c: char): string {
    if parts == [] then "" else parts[0] + [c] + Terminated(parts[1..], c)
  }

  /** Writing a separator behind every part and cutting the last one off is joining. */
  lemma {:induction false} CutIsJoin(parts: seq<string>, c: char)
    requires parts != []
    ensures Terminated(parts, c) == Join(parts, c) + [c]
    decreases |parts|
  {
    if |parts| > 1 {
      CutIsJoin(parts[1..], c);
    } else {
      assert Terminated(parts[1..], c) == "";
    }
  }

  lemma {:induction false} TerminatedAppend(a: seq<string>, b: seq<string>, c: char)
    ensures Terminated(a + b, c) == Terminated(a, c) + Terminated(b, c)
    decreases |a|
  {
    if a == [] {
      assert a + b == b;
    } else {
      assert (a + b)[1..] == a[1..] + b;
      TerminatedAppend(a[1..], b, c);
    }
  }

  // ---------- the order of strings ----------

  /** Lexicographic order, as sort.Strings and Python compare strings. */
  predicate Leq(a: string, b: string) {
    a == "" || (b != "" && (a[0] < b[0] || (a[0] == b[0] && Leq(a[1..], b[1..]))))
  }

  lemma {:induction false} LeqOrders(a: string, b: string, c: string)
    ensures Leq(a, a) && (Leq(a, b) || Leq(b, a))
    ensures Leq(a, b) && Leq(b, c) ==> Leq(a, c)
    ensures Leq(a, b) && Leq(b, a) ==> a == b
    decreases |a|
  {
    if a != "" {
      assert a == [a[0]] + a[1..];
      assert b != "" ==> b == [b[0]] + b[1..];
      LeqOrders(a[1..], if b == "" then "" else b[1..], if c == "" then "" else c[1..]);
    }
  }

  lemma LeqIsOrder()
    ensures Sorting.TotalPreorder(Leq) && Sorting.Antisymmetric(Leq) && Sorting.Reflexive(Leq)
  {
    forall a, b, c
      ensures Leq(a, a) && (Leq(a, b) || Leq(b, a))
      ensures Leq(a, b) && Leq(b, c) ==> Leq(a, c)
      ensures Leq(a, b) && Leq(b, a) ==> a == b
    {
      LeqOrders(a, b, c);
    }
  }
}
