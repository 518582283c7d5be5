/** Byte strings and the first-occurrence search (`std::search`) the incremental parsers are built on. */
module Bytes {
  newtype byte = x: int | 0 <= x < 256

  const CR: byte := 13
  const LF: byte := 10
  const DASH: byte := 45
  const CRLF: seq<byte> := [CR, LF]
  const CRLF2: seq<byte> := [CR, LF, CR, LF]

  predicate OccursAt(s: seq<byte>, p: seq<byte>, i: nat) {
    i + |p| <= |s| && s[i..i + |p|] == p
  }

  function FindFrom(s: seq<byte>, p: seq<byte>, i: nat): (r: nat)
    requires i <= |s|
    ensures i <= r <= |s|
    ensures r < |s| ==> OccursAt(s, p, r)
    ensures forall j: nat :: i <= j < r ==> !OccursAt(s, p, j)
    decreases |s| - i
  {
    if i == |s| || OccursAt(s, p, i) then i else FindFrom(s, p, i + 1)
  }

  /** `std::search`: the first position of `p` in `s`, or `|s|` (the end iterator) when there is none. */
  function Find(s: seq<byte>, p: seq<byte>): (r: nat)
    ensures r <= |s|
    ensures r < |s| ==> OccursAt(s, p, r)
    ensures forall j: nat :: j < r ==> !OccursAt(s, p, j)
  {
    FindFrom(s, p, 0)
  }

  /** A position with an occurrence and none before it is the one `Find` returns. */
  lemma FindIs(s: seq<byte>, p: seq<byte>, i: nat)
    requires p != [] && OccursAt(s, p, i)
    requires forall j: nat :: j < i ==> !OccursAt(s, p, j)
    ensures Find(s, p) == i
  {
    var r := Find(s, p);
    assert !(i < r);
    assert !(r < i);
  }

  lemma OccursInPrefix(s: seq<byte>, t: seq<byte>, p: seq<byte>, i: nat)
    requires i + |p| <= |s|
    ensures OccursAt(s + t, p, i) <==> OccursAt(s, p, i)
  {
    assert (s + t)[i..i + |p|] == s[i..i + |p|];
  }

  /** A hit in a window is a hit at the same place in every extension of the window. */
  lemma FindExtends(s: seq<byte>, t: seq<byte>, p: seq<byte>)
    requires p != [] && Find(s, p) < |s|
    ensures Find(s + t, p) == Find(s, p)
  {
    var i := Find(s, p);
    OccursInPrefix(s, t, p, i);
    forall j: nat | j < i ensures !OccursAt(s + t, p, j) { OccursInPrefix(s, t, p, j); }
    FindIs(s + t, p, i);
  }

  /** After a miss in a window, a hit in an extension ends beyond the window: less than `|p|` bytes are at stake. */
  lemma FindAfterMiss(s: seq<byte>, t: seq<byte>, p: seq<byte>)
    requires p != [] && Find(s, p) == |s|
    ensures Find(s + t, p) + |p| > |s|
  {
    var i := Find(s + t, p);
    if i + |p| <= |s| { OccursInPrefix(s, t, p, i); }
  }

  lemma OccursAfterDrop(s: seq<byte>, p: seq<byte>, k: nat, j: nat)
    requires k <= |s|
    ensures OccursAt(s[k..], p, j) <==> OccursAt(s, p, k + j)
  {
    if k + j + |p| <= |s| { assert s[k..][j..j + |p|] == s[k + j..k + j + |p|]; }
  }

  /** Dropping bytes at which no occurrence starts shifts the first occurrence. */
  lemma FindAfterDrop(s: seq<byte>, p: seq<byte>, k: nat)
    requires p != [] && k <= Find(s, p)
    ensures Find(s[k..], p) == Find(s, p) - k
  {
    var i := Find(s, p);
    var r := Find(s[k..], p);
    if r < i - k { OccursAfterDrop(s, p, k, r); }
    if i - k < r { OccursAfterDrop(s, p, k, i - k); }
  }
}
