/**
 * Paths as sequences of segments (the separator is `/`), with the two pieces
 * of path arithmetic the tool relies on: picking one element of an array with
 * `Array.prototype.slice` and negative indices, and the lexical resolution of
 * `.` and `..` that `path.join` performs.
 */
module Paths {
  import opened Options

  /** `slice`'s reading of an index: a negative index counts from the end, and
      the result is clamped to `0 .. len`. */
  function SliceIndex(k: int, len: nat): (r: nat)
    ensures r <= len
  {
    if k < 0 then (if len + k < 0 then 0 else len + k)
    else if k > len then len
    else k
  }

  /** `s.slice(start, end)`: the elements from the start index up to, not
      including, the end index; empty when the end does not lie after the start. */
  function Slice<T>(s: seq<T>, start: int, end: int): seq<T> {
    var from, to := SliceIndex(start, |s|), SliceIndex(end, |s|);
    s[from..if to < from then from else to]
  }

  /** `s.slice(start, end)[0]`: the first element of the slice, or `undefined`
      when the slice is empty. */
  function FirstOfSlice<T>(s: seq<T>, start: int, end: int): Option<T> {
    var piece := Slice(s, start, end);
    if |piece| > 0 then Some(piece[0]) else None
  }

  /** The first element of a slice is the element at the clamped start index,
      and it exists exactly when the clamped start lies before the clamped end. */
  lemma FirstOfSliceAt<T>(s: seq<T>, start: int, end: int)
    ensures FirstOfSlice(s, start, end).Some? <==> SliceIndex(start, |s|) < SliceIndex(end, |s|)
    ensures FirstOfSlice(s, start, end).Some? ==> FirstOfSlice(s, start, end).value == s[SliceIndex(start, |s|)]
  {
  }

  /** `s.slice(-k, -k + 1)[0]` for k >= 2 is the k-th element from the end,
      and `undefined` when `s` is shorter than k. */
  lemma FirstOfNegativeSlice<T>(s: seq<T>, k: int)
    requires k >= 2
    ensures FirstOfSlice(s, -k, -k + 1) == if |s| >= k then Some(s[|s| - k]) else None
  {
    if |s| < k {
      assert SliceIndex(-k, |s|) == 0 && SliceIndex(-k + 1, |s|) == 0;
    }
  }

  /** `s.slice(-1)[0]`: the last element, `undefined` for an empty array. */
  lemma LastOfSlice<T>(s: seq<T>)
    ensures FirstOfSlice(s, -1, |s|) == if |s| > 0 then Some(s[|s| - 1]) else None
  {
  }

  /** A segment that names a directory entry, as opposed to an empty segment
      or one of the relative markers `.` and `..`. */
  predicate Ordinary(seg: string) {
    seg != "" && seg != "." && seg != ".."
  }

  /** A name `path.join` keeps as one entry: ordinary and free of the
      separator (a scoped package name `@scope/pkg` is two entries). */
  predicate SingleEntry(name: string) {
    Ordinary(name) && '/' !in name
  }

  /** A resolved path: no empty or `.` segment, and `..` only at the front. */
  predicate Normal(p: seq<string>) {
    && (forall i :: 0 <= i < |p| ==> p[i] != "" && p[i] != ".")
    && (forall i, j :: 0 <= j < i < |p| && p[i] == ".." ==> p[j] == "..")
  }

  /** Appends one segment to a resolved path: `.` and empty segments vanish,
      `..` cancels a preceding ordinary segment. */
  function JoinSegment(acc: seq<string>, seg: string): seq<string> {
    if seg == "" || seg == "." then acc
    else if seg == ".." && |acc| > 0 && Ordinary(acc[|acc| - 1]) then acc[..|acc| - 1]
    else acc + [seg]
  }

  /** The lexical resolution `path.join` applies to its segments, left to
      right. The result is normal: every `.` and empty segment is gone, and a
      `..` survives only when nothing ordinary precedes it. */
  function Resolve(p: seq<string>): (r: seq<string>)
    ensures Normal(r)
  {
    if p == [] then []
    else
      var acc := Resolve(p[..|p| - 1]);
      var seg := p[|p| - 1];
      assert seg == ".." && !(|acc| > 0 && Ordinary(acc[|acc| - 1])) ==>
        |acc| > 0 ==> acc[|acc| - 1] == "..";
      JoinSegment(acc, seg)
  }

  lemma ResolveSnoc(p: seq<string>, seg: string)
    ensures Resolve(p + [seg]) == JoinSegment(Resolve(p), seg)
  {
    assert (p + [seg])[..|p|] == p;
  }

  /** A resolved path with an ordinary segment appended resolves to itself plus
      that segment. */
  lemma ResolveOrdinary(p: seq<string>, seg: string)
    requires Ordinary(seg)
    ensures Resolve(p + [seg]) == Resolve(p) + [seg]
  {
    ResolveSnoc(p, seg);
  }

  /** Going into a directory and back out with `..` lands where it started. */
  lemma {:induction false} DownThenUp(p: seq<string>, seg: string)
    requires Ordinary(seg)
    ensures Resolve(p + [seg, ".."]) == Resolve(p)
  {
    ResolveOrdinary(p, seg);
    ResolveSnoc(p + [seg], "..");
    assert p + [seg] + [".."] == p + [seg, ".."];
    var r := Resolve(p) + [seg];
    assert r[..|r| - 1] == Resolve(p);
  }

  /** `n` segments `..`. */
  function Ups(n: nat): (r: seq<string>)
    ensures |r| == n && forall i :: 0 <= i < n ==> r[i] == ".."
  {
    seq(n, _ => "..")
  }

  /** Resolution reads its input left to right, so two prefixes that resolve
      alike stay alike whatever follows them. */
  lemma {:induction false} ResolveCongruent(a: seq<string>, b: seq<string>, tail: seq<string>)
    requires Resolve(a) == Resolve(b)
    ensures Resolve(a + tail) == Resolve(b + tail)
  {
    if tail != [] {
      var front, seg := tail[..|tail| - 1], tail[|tail| - 1];
      ResolveCongruent(a, b, front);
      assert a + tail == (a + front) + [seg];
      assert b + tail == (b + front) + [seg];
      ResolveSnoc(a + front, seg);
      ResolveSnoc(b + front, seg);
    } else {
      assert a + tail == a && b + tail == b;
    }
  }

  /** Going down through ordinary segments and back up as many levels lands
      where it started. */
  lemma {:induction false} DownThenUpAll(p: seq<string>, segs: seq<string>)
    requires forall i :: 0 <= i < |segs| ==> Ordinary(segs[i])
    ensures Resolve(p + segs + Ups(|segs|)) == Resolve(p)
  {
    if segs != [] {
      var n := |segs|;
      var front, last := segs[..n - 1], segs[n - 1];
      DownThenUp(p + front, last);
      assert p + segs + Ups(n) == (p + front + [last, ".."]) + Ups(n - 1);
      ResolveCongruent(p + front + [last, ".."], p + front, Ups(n - 1));
      DownThenUpAll(p, front);
    } else {
      assert p + segs + Ups(|segs|) == p;
    }
  }
}
