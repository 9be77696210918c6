/** Byte-string helpers with the meaning Python 2 gives them on `str`:
    prefix/suffix tests, `strip`, ASCII `lower`/`upper`, slicing that never
    fails, `str.join`, and the `posixpath` functions `join`, `splitext` and
    `dirname`. */
module Text {

  predicate StartsWith(s: string, prefix: string) {
    prefix <= s
  }

  predicate EndsWith(s: string, suffix: string) {
    |suffix| <= |s| && s[|s| - |suffix|..] == suffix
  }

  /** Python 2 `string.whitespace`, the characters `str.strip()` removes. */
  predicate IsSpace(c: char) {
    c == ' ' || c == '\t' || c == '\n' || c == '\r' || c as int == 11 || c as int == 12
  }

  predicate NoEdgeSpace(s: string) {
    |s| == 0 || (!IsSpace(s[0]) && !IsSpace(s[|s| - 1]))
  }

  /** The number of whitespace characters `s` starts with. */
  function LeadSpace(s: string): (n: nat)
    ensures n <= |s|
    ensures forall k :: 0 <= k < n ==> IsSpace(s[k])
    ensures n == |s| || !IsSpace(s[n])
  {
    if |s| > 0 && IsSpace(s[0]) then
      var m := LeadSpace(s[1..]);
      assert forall k :: 1 <= k < 1 + m ==> s[k] == s[1..][k - 1];
      1 + m
    else 0
  }

  /** The number of whitespace characters `s` ends with. */
  function TrailSpace(s: string): (n: nat)
    ensures n <= |s|
    ensures forall k :: |s| - n <= k < |s| ==> IsSpace(s[k])
    ensures n == |s| || !IsSpace(s[|s| - n - 1])
  {
    if |s| > 0 && IsSpace(s[|s| - 1]) then 1 + TrailSpace(s[..|s| - 1]) else 0
  }

  /** `str.strip()`: the slice of `s` left after removing its leading and
      trailing whitespace; it has no whitespace at either end. */
  function Strip(s: string): (r: string)
    ensures NoEdgeSpace(r)
    ensures LeadSpace(s) + |r| <= |s| && r == s[LeadSpace(s)..LeadSpace(s) + |r|]
    ensures forall k :: LeadSpace(s) + |r| <= k < |s| ==> IsSpace(s[k])
    ensures NoEdgeSpace(s) ==> r == s
  {
    var i := LeadSpace(s);
    var t := s[i..];
    var j := TrailSpace(t);
    assert forall k :: |t| - j <= k < |t| ==> t[k] == s[i + k];
    var r := t[..|t| - j];
    assert |r| > 0 ==> r[0] == s[i] && r[|r| - 1] == t[|t| - j - 1];
    assert NoEdgeSpace(s) ==> i == 0 && j == 0;
    r
  }

  function LowerChar(c: char): char {
    if 'A' <= c <= 'Z' then (c as int + 32) as char else c
  }

  function UpperChar(c: char): char {
    if 'a' <= c <= 'z' then (c as int - 32) as char else c
  }

  /** `str.lower()` on a byte string: ASCII letters only. */
  function Lower(s: string): (r: string)
    ensures |r| == |s|
    ensures forall k :: 0 <= k < |s| ==> r[k] == LowerChar(s[k])
  {
    if |s| == 0 then "" else [LowerChar(s[0])] + Lower(s[1..])
  }

  /** `str.upper()` on a byte string: ASCII letters only. */
  function Upper(s: string): (r: string)
    ensures |r| == |s|
    ensures forall k :: 0 <= k < |s| ==> r[k] == UpperChar(s[k])
  {
    if |s| == 0 then "" else [UpperChar(s[0])] + Upper(s[1..])
  }

  /** Python's `s[:-n]` for a positive `n`: empty when `s` is shorter than `n`. */
  function DropLast(s: string, n: nat): (r: string)
    requires n > 0
    ensures |s| >= n ==> r + s[|s| - n..] == s && |r| == |s| - n
    ensures |s| < n ==> r == ""
  {
    if |s| >= n then s[..|s| - n] else ""
  }

  /** `str.find(sub) != -1`. */
  predicate Contains(s: string, sub: string) {
    exists k :: 0 <= k <= |s| - |sub| && OccursAt(s, sub, k)
  }

  predicate OccursAt(s: string, sub: string, k: int) {
    0 <= k <= |s| - |sub| && s[k..k + |sub|] == sub
  }

  predicate HasChar(s: string, c: char) {
    c in s
  }

  /** Index of the last occurrence of `c`, or -1 (Python's `rfind`). */
  function LastIndexOf(s: string, c: char): (r: int)
    ensures -1 <= r < |s|
    ensures r >= 0 ==> s[r] == c
    ensures forall k :: r < k < |s| ==> s[k] != c
  {
    if |s| == 0 then -1
    else if s[|s| - 1] == c then |s| - 1
    else LastIndexOf(s[..|s| - 1], c)
  }

  /** Index of the first occurrence of `c`, or |s| when absent. */
  function FirstIndexOf(s: string, c: char): (r: nat)
    ensures r <= |s|
    ensures r < |s| ==> s[r] == c
    ensures forall k :: 0 <= k < r ==> s[k] != c
  {
    if |s| == 0 then 0
    else if s[0] == c then 0
    else 1 + FirstIndexOf(s[1..], c)
  }

  /** `posixpath.join(a, b)`. */
  function PathJoin(a: string, b: string): (r: string)
    ensures StartsWith(b, "/") ==> r == b
    ensures !StartsWith(b, "/") && a != "" && !EndsWith(a, "/") ==> r == a + "/" + b
    ensures !StartsWith(b, "/") ==> |b| <= |r| && r[|r| - |b|..] == b
  {
    if StartsWith(b, "/") then b
    else if a == "" || EndsWith(a, "/") then a + b
    else a + "/" + b
  }

  /** A relative path component: non-empty, and neither starting nor ending with "/". */
  predicate Rel(s: string) {
    |s| > 0 && s[0] != '/' && s[|s| - 1] != '/'
  }

  lemma RelJoin(a: string, b: string)
    requires Rel(a) && Rel(b)
    ensures PathJoin(a, b) == a + "/" + b
    ensures Rel(PathJoin(a, b))
  {
  }

  predicate OnlyDotsBetween(p: string, lo: int, hi: int)
    requires 0 <= lo && hi <= |p|
  {
    forall k :: lo <= k < hi ==> p[k] == '.'
  }

  /** `posixpath.splitext(p)`: the extension starts at the last "." of the last
      path component, unless everything before it in that component is dots. */
  function SplitExt(p: string): (r: (string, string))
    ensures r.0 + r.1 == p
    ensures r.1 == "" || (r.1[0] == '.' && !HasChar(r.1, '/'))
  {
    var sep := LastIndexOf(p, '/');
    var dot := LastIndexOf(p, '.');
    if dot > sep && !OnlyDotsBetween(p, sep + 1, dot) then
      assert p[..dot] + p[dot..] == p;
      assert forall k :: 0 <= k < |p[dot..]| ==> p[dot..][k] == p[dot + k];
      (p[..dot], p[dot..])
    else (p, "")
  }

  function RStripSlash(s: string): (r: string)
    ensures |r| <= |s| && r == s[..|r|]
    ensures |r| == 0 || r[|r| - 1] != '/'
  {
    if |s| > 0 && s[|s| - 1] == '/' then RStripSlash(s[..|s| - 1]) else s
  }

  predicate AllSlashes(s: string) {
    forall k :: 0 <= k < |s| ==> s[k] == '/'
  }

  /** `posixpath.dirname(p)`. */
  function Dirname(p: string): (r: string)
    ensures |r| <= |p| && r == p[..|r|]
  {
    var i := LastIndexOf(p, '/') + 1;
    var head := p[..i];
    if head != "" && !AllSlashes(head) then RStripSlash(head) else head
  }

  lemma DirnameOfJoin(a: string, f: string)
    requires a != "" && a[|a| - 1] != '/' && !HasChar(f, '/')
    ensures Dirname(a + "/" + f) == a
  {
    var p := a + "/" + f;
    assert p[|a|] == '/';
    var i := LastIndexOf(p, '/');
    assert forall k :: |a| < k < |p| ==> p[k] == f[k - |a| - 1];
    assert i == |a|;
    assert p[..i + 1] == a + "/";
    assert !AllSlashes(a + "/") by {
      assert (a + "/")[|a| - 1] == a[|a| - 1];
    }
    assert RStripSlash(a + "/") == RStripSlash(a) == a;
  }

  /** Python's `sep.join(parts)`. */
  function JoinWith(sep: string, parts: seq<string>): (r: string)
    ensures |parts| == 1 ==> r == parts[0]
    ensures |parts| == 0 ==> r == ""
  {
    if |parts| == 0 then ""
    else if |parts| == 1 then parts[0]
    else parts[0] + sep + JoinWith(sep, parts[1..])
  }

  lemma JoinWithSnoc(sep: string, parts: seq<string>, x: string)
    requires |parts| > 0
    ensures JoinWith(sep, parts + [x]) == JoinWith(sep, parts) + sep + x
  {
    if |parts| == 1 {
      assert parts + [x] == [parts[0], x];
    } else {
      assert (parts + [x])[1..] == parts[1..] + [x];
      JoinWithSnoc(sep, parts[1..], x);
    }
  }
}
