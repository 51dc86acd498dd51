/**
 * The POSIX path functions src/fff/download.ts uses, after Node's `path.posix`:
 * `dirname` and `basename` scan from the end, skipping trailing separators.
 */
module Paths {

  /** Scanning down from index `i`: the index of the separator that ends the directory part, or -1. */
  function DirEnd(p: string, i: int, matchedSlash: bool): (r: int)
    requires i < |p|
    ensures r == -1 || (1 <= r <= i && p[r] == '/')
    ensures r != -1 && matchedSlash ==> r < i
    decreases i
  {
    if i < 1 then -1
    else if p[i] == '/' then (if !matchedSlash then i else DirEnd(p, i - 1, matchedSlash))
    else DirEnd(p, i - 1, false)
  }

  /** `path.dirname(p)` */
  function Dirname(p: string): string {
    if p == "" then "."
    else
      var end := DirEnd(p, |p| - 1, true);
      if end == -1 then (if p[0] == '/' then "/" else ".")
      else if p[0] == '/' && end == 1 then "//"
      else p[..end]
  }

  /** The walk up the tree ends exactly at the root `/` and at `.`. */
  lemma DirnameFixedPoint(p: string)
    ensures Dirname(p) == p <==> p == "/" || p == "."
  {
    if p != "" {
      var end := DirEnd(p, |p| - 1, true);
      if end != -1 && !(p[0] == '/' && end == 1) {
        assert |Dirname(p)| < |p|;
      }
    }
  }

  /** Scanning down from index `i`: the bounds of the last path segment (`end` is -1 until one is seen). */
  function BaseBounds(p: string, i: int, end: int): (r: (int, int))
    requires -1 <= i < |p| && (end == -1 || (0 < end && i < end <= |p| && p[end - 1] != '/'))
    ensures r.1 == -1 || 0 <= r.0 < r.1 <= |p|
    ensures end != -1 ==> r.1 == end
    decreases i + 1
  {
    if i < 0 then (0, end)
    else if p[i] == '/' then (if end != -1 then (i + 1, end) else BaseBounds(p, i - 1, end))
    else BaseBounds(p, i - 1, if end == -1 then i + 1 else end)
  }

  /** `path.basename(p)` */
  function Basename(p: string): string {
    var (start, end) := BaseBounds(p, |p| - 1, -1);
    if end == -1 then "" else p[start..end]
  }

  /** The last segment never holds a separator. */
  lemma {:induction false} BaseBoundsSegment(p: string, i: int, end: int)
    requires -1 <= i < |p| && (end == -1 || (0 < end && i < end <= |p| && p[end - 1] != '/'))
    requires end != -1 ==> forall j :: i < j < end ==> p[j] != '/'
    ensures var r := BaseBounds(p, i, end); r.1 != -1 ==> forall j :: r.0 <= j < r.1 ==> p[j] != '/'
    decreases i + 1
  {
    if i >= 0 && !(p[i] == '/' && end != -1) {
      BaseBoundsSegment(p, i - 1, if p[i] == '/' then end else if end == -1 then i + 1 else end);
    }
  }

  lemma BasenameHasNoSeparator(p: string)
    ensures '/' !in Basename(p)
  {
    BaseBoundsSegment(p, |p| - 1, -1);
    var (start, end) := BaseBounds(p, |p| - 1, -1);
    if end != -1 {
      forall j | 0 <= j < |p[start..end]| ensures p[start..end][j] != '/' {
        assert p[start..end][j] == p[start + j];
      }
    }
  }

  /** `path.join(a, b)` for a relative file name `b`, without `.`/`..` normalization. */
  function Join(a: string, b: string): (r: string)
    ensures b != "" ==> r != ""
    ensures |b| <= |r|
    ensures r[|r| - |b|..] == b
  {
    if a == "" then b
    else if a[|a| - 1] == '/' then a + b
    else a + "/" + b
  }
}
