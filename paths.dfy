/**
 * Path and text helpers of backup.py: trim_trailing_slash, the os.path.basename
 * of a source path, Python's str.strip() used on the target path, the
 * os.path.join of a destination under the target, and str.join used on the
 * readiness reasons.
 */
module Paths {

  predicate EndsWithSlash(s: string) {
    |s| > 0 && s[|s| - 1] == '/'
  }

  /** trim_trailing_slash: drop exactly one trailing '/', if there is one. */
  function TrimTrailingSlash(s: string): (r: string)
    ensures |r| <= |s| && r == s[..|r|]
    ensures |s| - |r| == if EndsWithSlash(s) then 1 else 0
  {
    if EndsWithSlash(s) then s[..|s| - 1] else s
  }

  /** os.path.basename: the text after the last '/' (see BasenameSpec). */
  function Basename(p: string): string {
    if p == [] then []
    else if p[|p| - 1] == '/' then []
    else Basename(p[..|p| - 1]) + [p[|p| - 1]]
  }

  /**
   * The basename holds no '/', is a suffix of p, and is either all of p or
   * preceded by a '/': it is what follows the last '/'.
   */
  lemma {:induction false} BasenameSpec(p: string)
    ensures '/' !in Basename(p)
    ensures |Basename(p)| <= |p| && Basename(p) == p[|p| - |Basename(p)|..]
    ensures |Basename(p)| < |p| ==> p[|p| - |Basename(p)| - 1] == '/'
  {
    if p != [] && p[|p| - 1] != '/' {
      var q := p[..|p| - 1];
      BasenameSpec(q);
      var b := Basename(q);
      var i := |q| - |b|;
      assert Basename(p) == b + [p[|p| - 1]];
      assert |p| - |Basename(p)| == i;
      assert b == q[i..] == p[i..|q|];
      assert p[i..] == p[i..|q|] + [p[|q|]];
    }
  }

  /** The identifier of a source given as raw path s. */
  function Idn(s: string): string {
    Basename(TrimTrailingSlash(s))
  }

  /**
   * The characters Python's str.isspace() accepts, that is, the ones
   * str.strip() with no argument removes.
   */
  predicate IsSpace(c: char) {
    var n := c as int;
    n == 0x20 || (0x09 <= n <= 0x0D) || (0x1C <= n <= 0x1F) || n == 0x85 || n == 0xA0
    || n == 0x1680 || (0x2000 <= n <= 0x200A) || n == 0x2028 || n == 0x2029
    || n == 0x202F || n == 0x205F || n == 0x3000
  }

  /** The end of the run of whitespace in s that starts at index i. */
  function SpaceRunEnd(s: string, i: nat): (j: nat)
    requires i <= |s|
    ensures i <= j <= |s|
    ensures forall k :: i <= k < j ==> IsSpace(s[k])
    ensures j < |s| ==> !IsSpace(s[j])
    decreases |s| - i
  {
    if i < |s| && IsSpace(s[i]) then SpaceRunEnd(s, i + 1) else i
  }

  /** The start of the run of whitespace in s that ends just before index j. */
  function SpaceRunStart(s: string, j: nat): (i: nat)
    requires j <= |s|
    ensures i <= j
    ensures forall k :: i <= k < j ==> IsSpace(s[k])
    ensures 0 < i ==> !IsSpace(s[i - 1])
  {
    if 0 < j && IsSpace(s[j - 1]) then SpaceRunStart(s, j - 1) else j
  }

  /** str.lstrip(): the longest suffix of s that does not start with whitespace. */
  function StripLeft(s: string): (r: string)
    ensures |r| <= |s| && r == s[|s| - |r|..]
    ensures forall k :: 0 <= k < |s| - |r| ==> IsSpace(s[k])
    ensures r != [] ==> !IsSpace(r[0])
  {
    s[SpaceRunEnd(s, 0)..]
  }

  /** str.rstrip(): the longest prefix of s that does not end with whitespace. */
  function StripRight(s: string): (r: string)
    ensures |r| <= |s| && r == s[..|r|]
    ensures forall k :: |r| <= k < |s| ==> IsSpace(s[k])
    ensures r != [] ==> !IsSpace(r[|r| - 1])
  {
    s[..SpaceRunStart(s, |s|)]
  }

  /** str.strip(): s without its leading and trailing whitespace. */
  function Strip(s: string): string {
    StripRight(StripLeft(s))
  }

  /** os.path.join(a, b) for two POSIX path components. */
  function JoinPath(a: string, b: string): string {
    if b != [] && b[0] == '/' then b
    else if a == [] || EndsWithSlash(a) then a + b
    else a + "/" + b
  }

  /**
   * An absolute b replaces a; otherwise the result starts with a, ends with
   * b, and has one '/' between them exactly when a is not empty and does not
   * end in one already.
   */
  lemma JoinPathSpec(a: string, b: string)
    ensures b != [] && b[0] == '/' ==> JoinPath(a, b) == b
    ensures !(b != [] && b[0] == '/') ==>
      var r := JoinPath(a, b);
      (r == a + b || r == a + "/" + b)
      && |a| + |b| <= |r| && r[..|a|] == a && r[|r| - |b|..] == b
      && (a != [] && !EndsWithSlash(a) <==> r == a + "/" + b)
  {
  }

  /** sep.join(xs) */
  function Join(xs: seq<string>, sep: string): string {
    if xs == [] then ""
    else if |xs| == 1 then xs[0]
    else Join(xs[..|xs| - 1], sep) + sep + xs[|xs| - 1]
  }

  /**
   * Strip gives a slice s[i..j] of its input whose cut-off ends are all
   * whitespace and whose own ends are not.
   */
  lemma {:induction false} StripSlice(s: string)
    ensures var r := Strip(s); var i := |s| - |StripLeft(s)|;
      0 <= i <= i + |r| <= |s| && r == s[i..i + |r|]
      && (forall k :: 0 <= k < i ==> IsSpace(s[k]))
      && (forall k :: i + |r| <= k < |s| ==> IsSpace(s[k]))
      && (r != [] ==> !IsSpace(r[0]) && !IsSpace(r[|r| - 1]))
  {
    var l := StripLeft(s);
    var r := StripRight(l);
    assert r == Strip(s);
    TrimmedSlice(s, l, r);
    assert r != [] ==> !IsSpace(r[0]) && !IsSpace(r[|r| - 1]);
  }

  /**
   * Cutting whitespace off the front of s gives l, and off the back of l
   * gives r: then r is a slice of s with whitespace on both sides of it.
   */
  lemma TrimmedSlice(s: string, l: string, r: string)
    requires |l| <= |s| && l == s[|s| - |l|..]
    requires forall k :: 0 <= k < |s| - |l| ==> IsSpace(s[k])
    requires l != [] ==> !IsSpace(l[0])
    requires |r| <= |l| && r == l[..|r|]
    requires forall k :: |r| <= k < |l| ==> IsSpace(l[k])
    requires r != [] ==> !IsSpace(r[|r| - 1])
    ensures var i := |s| - |l|;
      0 <= i <= i + |r| <= |s| && r == s[i..i + |r|]
      && (forall k :: 0 <= k < i ==> IsSpace(s[k]))
      && (forall k :: i + |r| <= k < |s| ==> IsSpace(s[k]))
      && (r != [] ==> !IsSpace(r[0]) && !IsSpace(r[|r| - 1]))
  {
    var i := |s| - |l|;
    forall k | i + |r| <= k < |s| ensures IsSpace(s[k]) {
      assert s[k] == l[k - i];
    }
    if r != [] {
      assert r[0] == l[0];
    }
  }

  /** Stripping twice is stripping once. */
  lemma {:induction false} StripIdempotent(s: string)
    ensures Strip(Strip(s)) == Strip(s)
  {
    var r := Strip(s);
    StripSlice(s);
    LstripNoLeadingSpace(r);
    RstripNoTrailingSpace(r);
  }

  /** lstrip leaves a string that does not start with whitespace unchanged. */
  lemma LstripNoLeadingSpace(r: string)
    requires r != [] ==> !IsSpace(r[0])
    ensures StripLeft(r) == r
  {
    assert SpaceRunEnd(r, 0) == 0;
  }

  /** rstrip leaves a string that does not end with whitespace unchanged. */
  lemma RstripNoTrailingSpace(r: string)
    requires r != [] ==> !IsSpace(r[|r| - 1])
    ensures StripRight(r) == r
  {
    assert SpaceRunStart(r, |r|) == |r|;
  }

  /** A path and the same path with one trailing slash name the same source. */
  lemma {:induction false} IdnIgnoresOneTrailingSlash(s: string)
    requires !EndsWithSlash(s)
    ensures Idn(s + "/") == Idn(s)
  {
    assert (s + "/")[..|s|] == s;
  }

  /** Only one slash is trimmed: a path ending in "//" keeps one and its identifier is empty. */
  lemma {:induction false} DoubleSlashKeepsOne(s: string)
    ensures TrimTrailingSlash(s + "//") == s + "/"
    ensures Idn(s + "//") == ""
  {
    assert (s + "//")[..|s| + 1] == s + "/";
  }

  /** Once the last '/' is known, the identifier is everything after it. */
  lemma {:induction false} BasenameAfterLastSlash(p: string, i: nat)
    requires i < |p| && p[i] == '/'
    requires forall k :: i < k < |p| ==> p[k] != '/'
    ensures Basename(p) == p[i + 1..]
  {
    if i + 1 < |p| {
      var q := p[..|p| - 1];
      assert q[i] == '/';
      BasenameAfterLastSlash(q, i);
      assert Basename(q) + [p[|p| - 1]] == p[i + 1..];
    }
  }
}
