/**
 * The two entities of backup.py. A Source holds its normalised path, its
 * identifier, its uniqueness flag and the exclusion patterns appended to it
 * while the configuration is read; the class-level dict and padding live in
 * the shared Registry. A Target is only its stripped path, a value.
 * Filesystem probes are boolean arguments; du and rsync are modelled by the
 * argument vectors they would receive.
 */
module Entities {
  import opened Wrappers
  import opened Paths
  import opened Registry

  /** The flags in front of every rsync call. */
  const RsyncFlags: seq<string> := ["rsync", "-i", "--info=progress2", "-a", "--links", "--delete", "--delete-excluded"]

  /** One "--exclude", base + "/" + pattern pair per pattern, in order. */
  function ExcludeFlags(base: string, patterns: seq<string>): seq<string> {
    if patterns == [] then []
    else ExcludeFlags(base, patterns[..|patterns| - 1]) + ["--exclude", base + "/" + patterns[|patterns| - 1]]
  }

  /** The argument vector of the du call in Source.size. */
  function DuArgv(path: string, patterns: seq<string>): seq<string> {
    ["du", "-sh", path] + ExcludeFlags(path, patterns)
  }

  /** The argument vector of the rsync call in Target.rsync. */
  function RsyncArgv(targetPath: string, srcPath: string, idn: string, patterns: seq<string>): seq<string> {
    RsyncFlags + ExcludeFlags(idn, patterns) + [srcPath, targetPath]
  }

  /** The exclusion flags are one pair per pattern, each pattern in its place. */
  lemma {:induction false} ExcludeFlagsAt(base: string, patterns: seq<string>)
    ensures |ExcludeFlags(base, patterns)| == 2 * |patterns|
    ensures forall i :: 0 <= i < |patterns| ==>
      ExcludeFlags(base, patterns)[2 * i] == "--exclude" &&
      ExcludeFlags(base, patterns)[2 * i + 1] == base + "/" + patterns[i]
  {
    if patterns != [] {
      var pre := patterns[..|patterns| - 1];
      ExcludeFlagsAt(base, pre);
      assert forall i :: 0 <= i < |pre| ==> pre[i] == patterns[i];
    }
  }

  /**
   * The rsync vector: the seven fixed flags, one "--exclude" pair per pattern
   * scoped under the identifier, then the source path and the target root.
   */
  lemma {:induction false} RsyncArgvShape(targetPath: string, srcPath: string, idn: string, patterns: seq<string>)
    ensures var a := RsyncArgv(targetPath, srcPath, idn, patterns);
      |a| == 9 + 2 * |patterns|
      && a[..7] == RsyncFlags
      && (forall i :: 0 <= i < |patterns| ==> a[7 + 2 * i] == "--exclude" && a[8 + 2 * i] == idn + "/" + patterns[i])
      && a[|a| - 2] == srcPath && a[|a| - 1] == targetPath
  {
    ExcludeFlagsAt(idn, patterns);
    var a := RsyncArgv(targetPath, srcPath, idn, patterns);
    var f := ExcludeFlags(idn, patterns);
    forall i | 0 <= i < |patterns|
      ensures a[7 + 2 * i] == "--exclude" && a[8 + 2 * i] == idn + "/" + patterns[i]
    {
      assert a[7 + 2 * i] == f[2 * i];
      assert a[8 + 2 * i] == f[2 * i + 1];
    }
  }

  /**
   * The du vector: "du -sh path", then one "--exclude" pair per pattern
   * rooted at the source path.
   */
  lemma {:induction false} DuArgvShape(path: string, patterns: seq<string>)
    ensures var a := DuArgv(path, patterns);
      |a| == 3 + 2 * |patterns| && a[..3] == ["du", "-sh", path]
      && forall i :: 0 <= i < |patterns| ==> a[3 + 2 * i] == "--exclude" && a[4 + 2 * i] == path + "/" + patterns[i]
  {
    ExcludeFlagsAt(path, patterns);
    var a := DuArgv(path, patterns);
    var f := ExcludeFlags(path, patterns);
    forall i | 0 <= i < |patterns|
      ensures a[3 + 2 * i] == "--exclude" && a[4 + 2 * i] == path + "/" + patterns[i]
    {
      assert a[3 + 2 * i] == f[2 * i];
      assert a[4 + 2 * i] == f[2 * i + 1];
    }
  }

  class Source {
    const reg: Registry
    const path: string
    const idn: string
    const unique: bool
    var excludes: seq<string>

    /**
     * Source.__init__: trim the path, take its identifier, widen the padding,
     * and register the identifier with the raw, untrimmed string s.
     */
    constructor (s: string, reg: Registry)
      requires reg.Valid()
      modifies reg
      ensures this.reg == reg && reg.Valid()
      ensures path == TrimTrailingSlash(s) && idn == Idn(s) && excludes == []
      ensures unique == (idn !in old(reg.identifiers))
      ensures reg.identifiers == if unique then old(reg.identifiers)[idn := s] else old(reg.identifiers)
      ensures idn in reg.identifiers
      ensures reg.entries == old(reg.entries) + [(idn, s)]
      ensures reg.paths == old(reg.paths) + [path]
    {
      var p := TrimTrailingSlash(s);
      var i := Basename(p);
      this.reg := reg;
      path, idn := p, i;
      excludes := [];
      reg.UpdatePadding(p);
      var u := reg.Register(i, s);
      unique := u;
    }

    /** Source.exclude: append one pattern. */
    method Exclude(pattern: string)
      modifies this`excludes
      ensures excludes == old(excludes) + [pattern]
    {
      excludes := excludes + [pattern];
    }

    /**
     * Source.err: "not readable" if the path cannot be read, then the conflict
     * with the first path registered under the identifier, joined with ",";
     * both checks are made. The empty string means the source is sane.
     */
    method Err(readable: bool) returns (r: string)
      requires !unique ==> idn in reg.identifiers
      ensures r == "" <==> readable && unique
      ensures !readable && unique ==> r == "not readable"
      ensures readable && !unique ==> r == idn + " conflicts with " + reg.identifiers[idn]
      ensures !readable && !unique ==> r == "not readable," + idn + " conflicts with " + reg.identifiers[idn]
    {
      var errs: seq<string> := [];
      if !readable {
        errs := errs + ["not readable"];
      }
      if !unique {
        errs := errs + [idn + " conflicts with " + reg.identifiers[idn]];
      }
      r := Join(errs, ",");
      if |errs| == 2 {
        assert Join(errs[..1], ",") == errs[0];
        assert r == Join(errs[..1], ",") + "," + errs[1];
        assert r == "not readable," + errs[1];
      }
    }

    /** The du call of Source.size, built pattern by pattern. */
    method SizeArgs() returns (args: seq<string>)
      ensures args == DuArgv(path, excludes)
    {
      args := ["du", "-sh", path];
      var i := 0;
      while i < |excludes|
        invariant 0 <= i <= |excludes|
        invariant args == DuArgv(path, excludes[..i])
      {
        assert excludes[..i + 1][..i] == excludes[..i];
        args := args + ["--exclude", path + "/" + excludes[i]];
        i := i + 1;
      }
      assert excludes[..i] == excludes;
    }
  }

  /** Target.__init__: the configured string without surrounding whitespace. */
  datatype Target = Target(path: string)

  /** A built target has no surrounding whitespace, and building it again changes nothing. */
  lemma {:induction false} NewTargetStrips(s: string)
    ensures var p := NewTarget(s).path; p != [] ==> !IsSpace(p[0]) && !IsSpace(p[|p| - 1])
    ensures NewTarget(NewTarget(s).path) == NewTarget(s)
  {
    StripSlice(s);
    StripIdempotent(s);
  }

  function NewTarget(s: string): Target {
    Target(Strip(s))
  }

  /** Target.sanity: the target exists and is writable. */
  predicate Sanity(exists_: bool, writable: bool) {
    exists_ && writable
  }

  /** Target.rsync: the argument vector for mirroring one source into the target root. */
  method Rsync(t: Target, src: Source) returns (args: seq<string>)
    ensures args == RsyncArgv(t.path, src.path, src.idn, src.excludes)
  {
    args := RsyncFlags;
    var i := 0;
    while i < |src.excludes|
      invariant 0 <= i <= |src.excludes|
      invariant args == RsyncFlags + ExcludeFlags(src.idn, src.excludes[..i])
    {
      assert src.excludes[..i + 1][..i] == src.excludes[..i];
      args := args + ["--exclude", src.idn + "/" + src.excludes[i]];
      i := i + 1;
    }
    assert src.excludes[..i] == src.excludes;
    args := args + [src.path, t.path];
  }

  // ---- The size column of Target.showSource ----

  /** The width showSource right-aligns an existing destination's size in: the padding less 4. */
  function SizeColumnWidth(padding: nat): int {
    padding - 4
  }

  /**
   * Whether str.format accepts the specifier ">" followed by the decimal
   * width: a negative width puts a sign in the specifier, which a string
   * format refuses with a ValueError.
   */
  predicate WidthFormats(w: int) {
    w >= 0
  }

  /** showSource for one destination: only an existing destination has its size formatted. */
  predicate ShowSourceOk(padding: nat, destExists: bool) {
    !destExists || WidthFormats(SizeColumnWidth(padding))
  }

  /**
   * As written, when every trimmed source path has at most two characters the
   * padding is at most 3, and showing any existing destination fails.
   */
  lemma {:induction false} ShowSourceFailsOnShortPaths(paths: seq<string>)
    requires forall k :: 0 <= k < |paths| ==> |paths[k]| <= 2
    ensures MaxPadding(paths) <= 3
    ensures !ShowSourceOk(MaxPadding(paths), true)
  {
    MaxPaddingAttained(paths);
  }

  /** The configuration with the single source "." is one such input. */
  lemma ShowSourceFailsForDot()
    ensures MaxPadding(["."]) == 1
    ensures !ShowSourceOk(MaxPadding(["."]), true)
  {
    ShowSourceFailsOnShortPaths(["."]);
  }

  /**
   * The width as intended: never negative, and the same as written whenever
   * the written one is accepted.
   */
  function SizeColumnWidthFixed(padding: nat): (w: nat)
    ensures WidthFormats(w)
    ensures WidthFormats(SizeColumnWidth(padding)) ==> w == SizeColumnWidth(padding)
  {
    if padding >= 4 then padding - 4 else 0
  }

  // ---- The size cache of Source.size ----

  /**
   * One call of Source.size on an instance whose attributes are attrs, given
   * what du prints: the attributes afterwards, the size returned (None for
   * the AttributeError of reading a missing attribute) and whether du ran.
   */
  datatype SizeCall = SizeCall(attrs: map<string, string>, size: Option<string>, ranDu: bool)

  /** The attribute `self.__size` is stored under inside class Source (Python name mangling). */
  const MangledSize: string := "_Source__size"

  /**
   * Source.size as written: the cache test asks for the literal name
   * "__size", but the assignment stores under the mangled name, so the test
   * never succeeds.
   */
  function SizeAsWritten(attrs: map<string, string>, duOut: string): SizeCall {
    if "__size" !in attrs then
      var a := attrs[MangledSize := duOut];
      SizeCall(a, Some(a[MangledSize]), true)
    else
      SizeCall(attrs, if MangledSize in attrs then Some(attrs[MangledSize]) else None, false)
  }

  /** Nothing stores "__size", so every call as written runs du again and returns its latest output. */
  lemma {:induction false} SizeAsWrittenNeverCaches(attrs: map<string, string>, out1: string, out2: string)
    requires "__size" !in attrs
    ensures var c1 := SizeAsWritten(attrs, out1);
      var c2 := SizeAsWritten(c1.attrs, out2);
      "__size" !in c1.attrs && c1.ranDu && c2.ranDu && c1.size == Some(out1) && c2.size == Some(out2)
  {
  }

  /** Two size queries on a fresh Source disagree as soon as du's output changes in between. */
  lemma SizeAsWrittenNotIdempotent()
    ensures var c1 := SizeAsWritten(map[], "4.0K");
      SizeAsWritten(c1.attrs, "8.0K").size != c1.size
  {
    SizeAsWrittenNeverCaches(map[], "4.0K", "8.0K");
  }

  /** Source.size as intended: test for the name the value is stored under. */
  function SizeMemo(attrs: map<string, string>, duOut: string): (c: SizeCall)
    ensures c.ranDu <==> MangledSize !in attrs
    ensures MangledSize in c.attrs && c.size == Some(c.attrs[MangledSize])
    ensures !c.ranDu ==> c.attrs == attrs && c.size == Some(attrs[MangledSize])
    ensures c.ranDu ==> c.size == Some(duOut)
  {
    if MangledSize !in attrs then
      var a := attrs[MangledSize := duOut];
      SizeCall(a, Some(a[MangledSize]), true)
    else
      SizeCall(attrs, Some(attrs[MangledSize]), false)
  }

  /** With the corrected test, a second query returns the first answer and does not run du. */
  lemma {:induction false} SizeMemoIdempotent(attrs: map<string, string>, out1: string, out2: string)
    ensures var c1 := SizeMemo(attrs, out1);
      var c2 := SizeMemo(c1.attrs, out2);
      !c2.ranDu && c2.size == c1.size && c2.attrs == c1.attrs
  {
  }
}
