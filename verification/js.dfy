/**
 * The JavaScript built-ins that the server routes and the client pages lean
 * on, over Dafny sequences: `Array.prototype.filter`, `findIndex`,
 * `splice(i, 1)` at an index inside the array, a `reduce` that sums,
 * `String.prototype.split` with a one-character separator (specified through
 * the position of the first separator), `includes`, `toLowerCase` (ASCII
 * letters only), and the truthiness of request fields.
 */
module Js {

  datatype Option<+T> = None | Some(value: T)

  /** A string is truthy exactly when it is not empty. */
  predicate Truthy(s: string) {
    s != ""
  }

  /** A number read from a request body is truthy unless it is missing or 0. */
  predicate TruthyNumber(x: Option<int>) {
    x.Some? && x.value != 0
  }

  // ---------------------------------------------------------------------
  // Arrays
  // ---------------------------------------------------------------------

  /** `a` is `b` with some elements deleted: an order-preserving subsequence. */
  ghost predicate Subseq<T>(a: seq<T>, b: seq<T>)
    decreases |b|
  {
    a == [] || (b != [] && ((a[0] == b[0] && Subseq(a[1..], b[1..])) || Subseq(a, b[1..])))
  }

  /** No two elements of `s` share a key. */
  ghost predicate DistinctBy<T, K>(s: seq<T>, key: T -> K) {
    forall i, j :: 0 <= i < j < |s| ==> key(s[i]) != key(s[j])
  }

  /** How many elements of `s` pass `p`, counted one by one. */
  function Count<T>(s: seq<T>, p: T -> bool): nat {
    if s == [] then 0 else (if p(s[0]) then 1 else 0) + Count(s[1..], p)
  }

  /**
   * `Array.prototype.filter`: the elements that pass `p`, in their original
   * order, each passing element as often as it occurs in `s`.
   */
  function Filter<T(!new)>(s: seq<T>, p: T -> bool): (r: seq<T>)
    ensures |r| == Count(s, p) <= |s|
    ensures forall x :: x in r <==> x in s && p(x)
    ensures forall x :: multiset(r)[x] == if p(x) then multiset(s)[x] else 0
    ensures Subseq(r, s)
  {
    if s == [] then []
    else
      assert s == [s[0]] + s[1..];
      if p(s[0]) then [s[0]] + Filter(s[1..], p)
      else Filter(s[1..], p)
  }

  /** Filtering drops nothing exactly when every element passes, and then it is the identity. */
  lemma {:induction false} FilterKeepsAll<T(!new)>(s: seq<T>, p: T -> bool)
    ensures |Filter(s, p)| == |s| <==> forall x :: x in s ==> p(x)
    ensures (forall x :: x in s ==> p(x)) ==> Filter(s, p) == s
  {
    if s != [] {
      FilterKeepsAll(s[1..], p);
      assert s == [s[0]] + s[1..];
    }
  }

  /** Two tests that agree on every element of `s` filter it alike. */
  lemma {:induction false} FilterCongruent<T(!new)>(s: seq<T>, p: T -> bool, q: T -> bool)
    requires forall x :: x in s ==> p(x) == q(x)
    ensures Filter(s, p) == Filter(s, q)
  {
    if s != [] {
      assert forall x :: x in s[1..] ==> x in s;
      FilterCongruent(s[1..], p, q);
    }
  }

  /** A stricter test keeps a subsequence of what a looser one keeps. */
  lemma {:induction false} FilterNarrows<T(!new)>(s: seq<T>, p: T -> bool, q: T -> bool)
    requires forall x :: x in s && q(x) ==> p(x)
    ensures Subseq(Filter(s, q), Filter(s, p))
  {
    if s != [] {
      assert forall x :: x in s[1..] ==> x in s;
      FilterNarrows(s[1..], p, q);
      var a, b := Filter(s, q), Filter(s, p);
      if p(s[0]) {
        assert b[1..] == Filter(s[1..], p);
        if q(s[0]) {
          assert a[0] == b[0] && a[1..] == Filter(s[1..], q);
        } else if a != [] {
          assert a == Filter(s[1..], q);
        }
      }
    }
  }

  /** `Array.prototype.findIndex`: the first index whose element passes `p`, or -1. */
  function FindIndex<T>(s: seq<T>, p: T -> bool): (i: int)
    ensures -1 <= i < |s|
    ensures 0 <= i ==> p(s[i]) && forall j :: 0 <= j < i ==> !p(s[j])
    ensures i == -1 ==> forall j :: 0 <= j < |s| ==> !p(s[j])
  {
    if s == [] then -1
    else if p(s[0]) then 0
    else
      var k := FindIndex(s[1..], p);
      if k == -1 then -1 else k + 1
  }

  /** `Array.prototype.splice(i, 1)`: the element at `i` is gone, the others keep their order. */
  function RemoveAt<T>(s: seq<T>, i: nat): (r: seq<T>)
    requires i < |s|
    ensures |r| == |s| - 1
    ensures forall j :: 0 <= j < i ==> r[j] == s[j]
    ensures forall j :: i <= j < |r| ==> r[j] == s[j + 1]
    ensures multiset(r) + multiset{s[i]} == multiset(s)
  {
    assert s == s[..i] + [s[i]] + s[i + 1..];
    s[..i] + s[i + 1..]
  }

  /**
   * `reduce((sum, x) => sum + f(x), 0)` over integers, folding from the left
   * as `reduce` does. A sum of non-negative terms is non-negative.
   */
  function Sum<T>(s: seq<T>, f: T -> int): (r: int)
    ensures (forall x :: x in s ==> f(x) >= 0) ==> r >= 0
  {
    if s == [] then 0
    else
      assert forall x :: x in s[..|s| - 1] ==> x in s;
      Sum(s[..|s| - 1], f) + f(s[|s| - 1])
  }

  /** Summing a concatenation sums the parts. */
  lemma {:induction false} SumAppend<T>(a: seq<T>, b: seq<T>, f: T -> int)
    ensures Sum(a + b, f) == Sum(a, f) + Sum(b, f)
  {
    if b != [] {
      assert (a + b)[..|a + b| - 1] == a + b[..|b| - 1];
      SumAppend(a, b[..|b| - 1], f);
    } else {
      assert a + b == a;
    }
  }

  /** Every element of a subsequence occurs in the sequence it was taken from. */
  lemma {:induction false} SubseqMembers<T>(a: seq<T>, b: seq<T>)
    requires Subseq(a, b)
    ensures forall x :: x in a ==> x in b
  {
    if a != [] {
      if a[0] == b[0] && Subseq(a[1..], b[1..]) {
        SubseqMembers(a[1..], b[1..]);
        assert a == [a[0]] + a[1..];
      } else {
        SubseqMembers(a, b[1..]);
      }
    }
  }

  /** Deleting elements cannot make two keys collide. */
  lemma {:induction false} SubseqKeepsDistinct<T, K>(a: seq<T>, b: seq<T>, key: T -> K)
    requires Subseq(a, b) && DistinctBy(b, key)
    ensures DistinctBy(a, key)
  {
    if a != [] {
      if a[0] == b[0] && Subseq(a[1..], b[1..]) {
        SubseqKeepsDistinct(a[1..], b[1..], key);
        SubseqMembers(a[1..], b[1..]);
        forall i, j | 0 <= i < j < |a| ensures key(a[i]) != key(a[j]) {
          if i == 0 {
            assert a[j] in a[1..];
            var k :| 0 <= k < |b[1..]| && b[1..][k] == a[j];
            assert b[k + 1] == a[j];
          } else {
            assert a[i] == a[1..][i - 1] && a[j] == a[1..][j - 1];
          }
        }
      } else {
        SubseqKeepsDistinct(a, b[1..], key);
      }
    }
  }

  /** Appending an element whose key is new keeps the keys distinct. */
  lemma AppendKeepsDistinct<T, K>(s: seq<T>, x: T, key: T -> K)
    requires DistinctBy(s, key)
    requires forall y :: y in s ==> key(y) != key(x)
    ensures DistinctBy(s + [x], key)
  {
    forall i, j | 0 <= i < j < |s + [x]| ensures key((s + [x])[i]) != key((s + [x])[j]) {
      if j == |s| {
        assert s[i] in s;
      }
    }
  }

  /** Removing one element keeps the keys distinct. */
  lemma RemoveAtKeepsDistinct<T, K>(s: seq<T>, i: nat, key: T -> K)
    requires i < |s| && DistinctBy(s, key)
    ensures DistinctBy(RemoveAt(s, i), key)
  {
    var r := RemoveAt(s, i);
    forall a, b | 0 <= a < b < |r| ensures key(r[a]) != key(r[b]) {
      var a' := if a < i then a else a + 1;
      var b' := if b < i then b else b + 1;
      assert r[a] == s[a'] && r[b] == s[b'];
    }
  }

  /** Replacing an element by one with the same key keeps the keys distinct. */
  lemma ReplaceKeepsDistinct<T, K>(s: seq<T>, i: nat, x: T, key: T -> K)
    requires i < |s| && DistinctBy(s, key) && key(x) == key(s[i])
    ensures DistinctBy(s[i := x], key)
  {
    var r := s[i := x];
    forall a, b | 0 <= a < b < |r| ensures key(r[a]) != key(r[b]) {
      assert key(r[a]) == key(s[a]) && key(r[b]) == key(s[b]);
    }
  }

  // ---------------------------------------------------------------------
  // Strings
  // ---------------------------------------------------------------------

  /** The first position of a character, or -1: the helper `Split` is specified with. */
  function IndexOf(s: string, c: char): (i: int)
    ensures -1 <= i < |s|
    ensures 0 <= i ==> s[i] == c && c !in s[..i]
    ensures i == -1 <==> c !in s
  {
    if s == [] then -1
    else if s[0] == c then 0
    else
      var k := IndexOf(s[1..], c);
      assert s == [s[0]] + s[1..];
      if k == -1 then -1
      else
        assert s[..k + 1] == [s[0]] + s[1..][..k];
        k + 1
  }

  /** The inverse of `Split`: the parts glued back together with the separator between them. */
  function Join(parts: seq<string>, sep: char): string {
    if parts == [] then ""
    else if |parts| == 1 then parts[0]
    else parts[0] + [sep] + Join(parts[1..], sep)
  }

  /** `String.prototype.split` with a one-character separator. */
  function Split(s: string, sep: char): (parts: seq<string>)
    ensures |parts| >= 1
    ensures forall k :: 0 <= k < |parts| ==> sep !in parts[k]
    ensures Join(parts, sep) == s
    decreases |s|
  {
    var i := IndexOf(s, sep);
    if i < 0 then [s]
    else
      var head, rest := s[..i], Split(s[i + 1..], sep);
      var parts := [head] + rest;
      assert parts[0] == head && parts[1..] == rest;
      assert forall k :: 1 <= k < |parts| ==> parts[k] == rest[k - 1];
      assert Join(parts, sep) == head + [sep] + Join(rest, sep);
      assert s == head + [sep] + s[i + 1..];
      parts
  }

  /** The first field of a split is the text before the first separator, or the whole string. */
  lemma SplitHead(s: string, sep: char)
    ensures var parts := Split(s, sep);
      |parts[0]| <= |s| && s[..|parts[0]|] == parts[0]
      && (|parts| == 1 <==> |parts[0]| == |s|)
      && (|parts| > 1 ==> s[|parts[0]|] == sep && parts[1..] == Split(s[|parts[0]| + 1..], sep))
  {
    var i := IndexOf(s, sep);
    if i >= 0 {
      var rest := Split(s[i + 1..], sep);
      assert Split(s, sep) == [s[..i]] + rest;
    }
  }

  /** The first field of what follows position `k` runs up to the next separator or to the end. */
  lemma FieldAfter(s: string, sep: char, k: nat, t: string)
    requires k < |s| && t == Split(s[k + 1..], sep)[0]
    ensures k + 1 + |t| <= |s| && s[k + 1..k + 1 + |t|] == t && (k + 1 + |t| == |s| || s[k + 1 + |t|] == sep)
  {
    var u := s[k + 1..];
    SplitHead(u, sep);
    assert s[k + 1..k + 1 + |t|] == u[..|t|];
  }

  /** Splitting a joined list of separator-free parts gives the parts back. */
  lemma {:induction false} SplitJoin(parts: seq<string>, sep: char)
    requires |parts| >= 1
    requires forall k :: 0 <= k < |parts| ==> sep !in parts[k]
    ensures Split(Join(parts, sep), sep) == parts
  {
    var s := Join(parts, sep);
    if |parts| == 1 {
      assert IndexOf(s, sep) == -1;
    } else {
      var p0 := parts[0];
      var tail := Join(parts[1..], sep);
      assert s == p0 + [sep] + tail;
      var i := IndexOf(s, sep);
      assert s[|p0|] == sep;
      assert sep in s[..|p0| + 1];
      assert i == |p0|;
      assert s[..i] == p0 && s[i + 1..] == tail;
      SplitJoin(parts[1..], sep);
      assert Split(s, sep) == [p0] + parts[1..];
    }
  }

  /** `needle` occurs in `hay` starting at offset `i`. */
  ghost predicate OccursAt(hay: string, needle: string, i: int) {
    0 <= i && i + |needle| <= |hay| && hay[i..i + |needle|] == needle
  }

  /** An occurrence in `hay` is either at its start or an occurrence in its tail, shifted by one. */
  lemma OccursStep(hay: string, needle: string)
    requires hay != [] && !(needle <= hay)
    ensures (exists i :: OccursAt(hay, needle, i)) <==> exists i :: OccursAt(hay[1..], needle, i)
  {
    forall i | OccursAt(hay[1..], needle, i) ensures OccursAt(hay, needle, i + 1) {
      assert hay[i + 1..i + 1 + |needle|] == hay[1..][i..i + |needle|];
    }
    assert !OccursAt(hay, needle, 0) by {
      assert |needle| <= |hay| ==> hay[0..|needle|] == hay[..|needle|];
    }
    forall i | OccursAt(hay, needle, i) ensures OccursAt(hay[1..], needle, i - 1) {
      assert i >= 1;
      var tail := hay[1..];
      var a, b := tail[i - 1..i - 1 + |needle|], hay[i..i + |needle|];
      assert forall k :: 0 <= k < |needle| ==> a[k] == b[k];
      assert a == b;
    }
  }

  /** `String.prototype.includes`: `needle` occurs somewhere in `hay`. */
  function Includes(hay: string, needle: string): (b: bool)
    ensures b <==> exists i :: OccursAt(hay, needle, i)
    ensures needle == "" ==> b
    decreases |hay|
  {
    if needle <= hay then
      assert OccursAt(hay, needle, 0);
      true
    else if hay == [] then false
    else
      OccursStep(hay, needle);
      Includes(hay[1..], needle)
  }

  /** Wherever a needle occurs, each of its prefixes occurs too. */
  lemma IncludesPrefix(hay: string, short: string, long: string)
    requires short <= long && Includes(hay, long)
    ensures Includes(hay, short)
  {
    var i :| OccursAt(hay, long, i);
    assert hay[i..i + |short|] == hay[i..i + |long|][..|short|];
    assert OccursAt(hay, short, i);
  }

  /** `toLowerCase` on one character, ASCII letters only. */
  function LowerChar(c: char): char {
    if 'A' <= c <= 'Z' then (c as int + ('a' as int - 'A' as int)) as char else c
  }

  /** `String.prototype.toLowerCase`, ASCII letters only. */
  function Lower(s: string): (r: string)
    ensures |r| == |s|
    ensures forall i :: 0 <= i < |s| ==> r[i] == LowerChar(s[i])
  {
    seq(|s|, i requires 0 <= i < |s| => LowerChar(s[i]))
  }

  /** Lower-casing keeps prefixes prefixes. */
  lemma LowerKeepsPrefix(short: string, long: string)
    requires short <= long
    ensures Lower(short) <= Lower(long)
  {
    assert forall i :: 0 <= i < |short| ==> Lower(short)[i] == Lower(long)[i];
  }

  /** Lower-casing twice is lower-casing once, and no upper-case ASCII letter survives it. */
  lemma LowerIsIdempotent(s: string)
    ensures Lower(Lower(s)) == Lower(s)
    ensures forall i :: 0 <= i < |s| ==> !('A' <= Lower(s)[i] <= 'Z')
  {
  }
}
