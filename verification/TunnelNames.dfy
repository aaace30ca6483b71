/** Names: how a tunnel name is built from a prefix, how a run prefix is built from a run id
    and an attempt, and why names of different runs or attempts never match each other.
    From scripts/cloudflare_ephemeral_tunnels.py and scripts/cloudflare_cleanup_recovery.py. */
module TunnelNames {
  import opened Common

  function NodeName(prefix: string, index: nat, suffix: string): string {
    prefix + "-" + Decimal(index) + "-" + suffix
  }

  function TokenName(index: nat): string { "node-" + Decimal(index) + ".token" }

  predicate IsNameChar(c: char) { IsDigit(c) || 'a' <= c <= 'z' || c == '-' }

  predicate AllNameChars(s: string) { forall i :: 0 <= i < |s| ==> IsNameChar(s[i]) }

  /** re.fullmatch(r"[a-z0-9-]+", prefix) with at most 40 characters. */
  predicate IsPrefix(prefix: string) { 1 <= |prefix| <= 40 && AllNameChars(prefix) }

  /** re.fullmatch(r"[a-z0-9-]{1,63}", name) */
  predicate IsName(name: string) { 1 <= |name| <= 63 && AllNameChars(name) }

  predicate IsHexChar(c: char) { IsDigit(c) || 'a' <= c <= 'f' }

  /** secrets.token_hex(4): eight hexadecimal digits. */
  predicate IsHexSuffix(s: string) { |s| == 8 && forall i :: 0 <= i < |s| ==> IsHexChar(s[i]) }

  // ---------- run prefixes ----------

  /** [1-9][0-9]* */
  predicate IsPositive(s: string) { s != "" && AllDigits(s) && s[0] != '0' }

  /** positive_integer: the value of a positive decimal numeral, or an error. */
  function PositiveInteger(text: string): (r: Option<nat>)
    ensures r.Some? <==> IsPositive(text)
  {
    if IsPositive(text) then Some(FromDecimal(text)) else None
  }

  const RUN_HEAD: string := "r1db-ci-"

  /** f"r1db-ci-{run_id}-{attempt}" */
  function RunPrefix(runId: nat, attempt: nat): string { RUN_HEAD + Decimal(runId) + "-" + Decimal(attempt) }

  /** RUN_PREFIX.fullmatch: r"r1db-ci-[1-9][0-9]*-[1-9][0-9]*" */
  predicate IsRunPrefix(p: string) {
    StartsWith(p, RUN_HEAD) && exists i :: |RUN_HEAD| <= i < |p| && RunSplitsAt(p, i)
  }

  predicate RunSplitsAt(p: string, i: int)
    requires |RUN_HEAD| <= i < |p|
  {
    p[i] == '-' && IsPositive(p[|RUN_HEAD|..i]) && IsPositive(p[i + 1..])
  }

  lemma RunParts(p: string) returns (run: string, attempt: string)
    requires IsRunPrefix(p)
    ensures IsPositive(run) && IsPositive(attempt) && p == RUN_HEAD + run + "-" + attempt
  {
    var i :| |RUN_HEAD| <= i < |p| && RunSplitsAt(p, i);
    run, attempt := p[|RUN_HEAD|..i], p[i + 1..];
    assert p == p[..|RUN_HEAD|] + run + [p[i]] + attempt;
  }

  predicate StartsWith(s: string, p: string) { |p| <= |s| && s[..|p|] == p }

  /** The compiled pattern "{prefix}-(?P<index>[1-3])-[0-9a-f]{8}", full match. */
  predicate NodeMatch(prefix: string, name: string) {
    && |name| == |prefix| + 11
    && name[..|prefix|] == prefix
    && name[|prefix|] == '-' && '1' <= name[|prefix| + 1] <= '3' && name[|prefix| + 2] == '-'
    && IsHexSuffix(name[|prefix| + 3..])
  }

  function NodeIndex(prefix: string, name: string): (k: int)
    requires NodeMatch(prefix, name)
    ensures 1 <= k <= 3
  {
    name[|prefix| + 1] as int - '0' as int
  }

  lemma NodeNameMatches(prefix: string, index: nat, suffix: string)
    requires 1 <= index <= 3 && IsHexSuffix(suffix)
    ensures NodeMatch(prefix, NodeName(prefix, index, suffix))
    ensures NodeIndex(prefix, NodeName(prefix, index, suffix)) == index
    ensures StartsWith(NodeName(prefix, index, suffix), prefix + "-")
  {
    var name := NodeName(prefix, index, suffix);
    assert |Decimal(index)| == 1;
    assert name[..|prefix|] == prefix;
    assert name[|prefix| + 3..] == suffix;
    assert name[..|prefix| + 1] == prefix + "-";
  }

  lemma MatchStarts(prefix: string, name: string)
    requires NodeMatch(prefix, name)
    ensures StartsWith(name, prefix + "-")
  {
    assert name[..|prefix| + 1] == prefix + "-";
  }

  /** A name in the namespace of a run, taken apart. */
  lemma NameParts(p: string, name: string) returns (run: string, attempt: string, rest: string)
    requires IsRunPrefix(p) && StartsWith(name, p + "-")
    ensures AllDigits(run) && AllDigits(attempt) && p == RUN_HEAD + run + "-" + attempt
    ensures |RUN_HEAD| <= |name| && name[|RUN_HEAD|..] == run + "-" + (attempt + "-" + rest)
  {
    run, attempt := RunParts(p);
    rest := name[|p| + 1..];
    assert name == p + "-" + rest;
    assert name == RUN_HEAD + (run + "-" + (attempt + "-" + rest));
  }

  /** A name in the namespace of one run prefix is not in the namespace of another: the
      prefix query of p2 does not even return names that belong to p1. */
  lemma RunNamespacesDisjoint(p1: string, p2: string, name: string)
    requires IsRunPrefix(p1) && IsRunPrefix(p2)
    requires StartsWith(name, p1 + "-") && StartsWith(name, p2 + "-")
    ensures p1 == p2
  {
    var run1, attempt1, rest1 := NameParts(p1, name);
    var run2, attempt2, rest2 := NameParts(p2, name);
    DigitsThenDash(run1, run2, attempt1 + "-" + rest1, attempt2 + "-" + rest2);
    DigitsThenDash(attempt1, attempt2, rest1, rest2);
  }

  /** Every (run, attempt) gives a run prefix, and different pairs give different ones. */
  lemma RunPrefixInjective(run1: nat, attempt1: nat, run2: nat, attempt2: nat)
    requires run1 > 0 && attempt1 > 0 && run2 > 0 && attempt2 > 0
    ensures IsRunPrefix(RunPrefix(run1, attempt1))
    ensures RunPrefix(run1, attempt1) == RunPrefix(run2, attempt2) ==> run1 == run2 && attempt1 == attempt2
  {
    var p, q := RunPrefix(run1, attempt1), RunPrefix(run2, attempt2);
    var i := |RUN_HEAD| + |Decimal(run1)|;
    assert p[..|RUN_HEAD|] == RUN_HEAD && p[|RUN_HEAD|..i] == Decimal(run1) && p[i + 1..] == Decimal(attempt1);
    assert RunSplitsAt(p, i);
    if p == q {
      assert p[|RUN_HEAD|..] == Decimal(run1) + "-" + Decimal(attempt1);
      assert q[|RUN_HEAD|..] == Decimal(run2) + "-" + Decimal(attempt2);
      DigitsThenDash(Decimal(run1), Decimal(run2), Decimal(attempt1), Decimal(attempt2));
      DecimalRoundTrip(run1);
      DecimalRoundTrip(run2);
      DecimalRoundTrip(attempt1);
      DecimalRoundTrip(attempt2);
    }
  }

  /** What the recovery workflow reads back from the numerals it was given. */
  lemma PositiveIntegerRoundTrip(n: nat)
    requires n > 0
    ensures PositiveInteger(Decimal(n)) == Some(n)
  {
    DecimalRoundTrip(n);
  }

  /** Names of different nodes under one prefix differ. */
  lemma NodeNamesDiffer(prefix: string, i: nat, j: nat, s: string, t: string)
    requires NodeName(prefix, i, s) == NodeName(prefix, j, t)
    ensures i == j && s == t
  {
    var a, b := NodeName(prefix, i, s), NodeName(prefix, j, t);
    assert a[|prefix| + 1..] == Decimal(i) + "-" + s;
    assert b[|prefix| + 1..] == Decimal(j) + "-" + t;
    DigitsThenDash(Decimal(i), Decimal(j), s, t);
    DecimalRoundTrip(i);
    DecimalRoundTrip(j);
  }

  lemma NodeNameIsName(prefix: string, index: nat, suffix: string)
    requires IsPrefix(prefix) && AllNameChars(suffix) && |NodeName(prefix, index, suffix)| <= 63
    ensures IsName(NodeName(prefix, index, suffix))
  {}
}
