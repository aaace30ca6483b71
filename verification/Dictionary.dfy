/** Dictionaries from a key to the positions of the elements that carry it, as a program keeps them
    beside a list that it only appends to and edits in place. */
module Dictionary {
  import Sorting

  type Positions = map<string, seq<nat>>

  /** d.get(key, []) */
  function Get(d: Positions, key: string): seq<nat> { if key in d then d[key] else [] }

  /** d[key].append(i) on a defaultdict */
  function Append(d: Positions, key: string, i: nat): Positions { d[key := Get(d, key) + [i]] }

  lemma AppendGet(d: Positions, key: string, i: nat, other: string)
    ensures Get(Append(d, key, i), other) == Get(d, other) + if other == key then [i] else []
  {}

  function Repeat(i: nat, n: nat): (r: seq<nat>)
    ensures |r| == n && forall k :: 0 <= k < n ==> r[k] == i
  {
    seq(n, _ => i)
  }

  /** The positions of the elements that count, each as often as it counts. */
  function Places<T>(f: T -> nat, s: seq<T>): seq<nat> {
    if s == [] then [] else Places(f, s[..|s| - 1]) + Repeat(|s| - 1, f(s[|s| - 1]))
  }

  /** The list of positions is as long as the count, and starts with the first element that counts. */
  lemma {:induction false} PlacesCount<T>(f: T -> nat, s: seq<T>)
    ensures |Places(f, s)| == Sorting.Sum(f, s)
    ensures Places(f, s) != [] ==> Places(f, s)[0] == Sorting.Index(f, s)
  {
    if s != [] {
      PlacesCount(f, s[..|s| - 1]);
    }
  }

  lemma {:induction false} PlacesMember<T>(f: T -> nat, s: seq<T>, i: nat)
    ensures i in Places(f, s) <==> i < |s| && f(s[i]) > 0
  {
    if s != [] {
      var n := |s| - 1;
      PlacesMember(f, s[..n], i);
      var last := Repeat(n, f(s[n]));
      assert f(s[n]) > 0 ==> last[0] == n;
    }
  }

  lemma PlacesAppend<T>(f: T -> nat, s: seq<T>, x: T)
    ensures Places(f, s + [x]) == Places(f, s) + Repeat(|s|, f(x))
  {
    assert (s + [x])[..|s|] == s;
  }

  /** An edit that keeps the count of its element keeps the positions. */
  lemma {:induction false} PlacesUpdate<T>(f: T -> nat, s: seq<T>, i: nat, x: T)
    requires i < |s| && f(x) == f(s[i])
    ensures Places(f, s[i := x]) == Places(f, s)
  {
    var n := |s| - 1;
    if i < n {
      assert s[i := x][..n] == s[..n][i := x];
      PlacesUpdate(f, s[..n], i, x);
    } else {
      assert s[i := x][..n] == s[..n];
    }
  }
}
