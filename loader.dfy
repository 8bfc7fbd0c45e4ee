/**
 * readconfig of backup.py: go through the "sources" list in order, build
 * one Source per entry (which registers its identifier and widens the
 * padding), append its exclusion patterns, then build the Target.
 */
module Loader {
  import opened Wrappers
  import opened Json
  import opened Config
  import opened Paths
  import opened Registry
  import opened Entities

  datatype Loaded = Loaded(sources: seq<Source>, target: Target)

  /** The (identifier, raw path) pairs that building srcs from es registers, in order. */
  function Registrations(srcs: seq<Source>, es: seq<Entry>): seq<(string, string)>
    requires |srcs| == |es|
  {
    seq(|es|, k requires 0 <= k < |es| => (srcs[k].idn, es[k].path))
  }

  /** The trimmed paths the sources widen the padding with, in order. */
  function TrimmedPaths(srcs: seq<Source>): seq<string> {
    seq(|srcs|, k requires 0 <= k < |srcs| => srcs[k].path)
  }

  /**
   * The sources built for the entries es, in order, on a registry that held
   * the registrations `before` when loading began: paths, identifiers and
   * uniqueness flags (all fixed once a Source is constructed) ...
   */
  predicate BuiltFrom(srcs: seq<Source>, es: seq<Entry>, reg: Registry, before: seq<(string, string)>) {
    |srcs| == |es| &&
    forall k :: 0 <= k < |es| ==>
      && srcs[k].reg == reg
      && srcs[k].path == TrimTrailingSlash(es[k].path)
      && srcs[k].idn == Idn(es[k].path)
      && srcs[k].unique == (srcs[k].idn !in FirstSeen(before) && forall j :: 0 <= j < k ==> srcs[j].idn != srcs[k].idn)
  }

  /** ... and their exclusion patterns, the one part that changes after construction. */
  ghost function ExcludesOf(srcs: seq<Source>): seq<seq<string>>
    reads srcs
  {
    seq(|srcs|, k reads srcs requires 0 <= k < |srcs| => srcs[k].excludes)
  }

  function PatternsOf(es: seq<Entry>): seq<seq<string>> {
    seq(|es|, k requires 0 <= k < |es| => es[k].excludes)
  }

  ghost predicate ExcludesMatch(srcs: seq<Source>, es: seq<Entry>)
    reads srcs
  {
    ExcludesOf(srcs) == PatternsOf(es)
  }

  lemma {:induction false} ExcludesMatchExtend(srcs: seq<Source>, es: seq<Entry>, src: Source, e: Entry)
    requires ExcludesMatch(srcs, es) && src.excludes == e.excludes
    ensures ExcludesMatch(srcs + [src], es + [e])
  {
    assert ExcludesOf(srcs + [src]) == ExcludesOf(srcs) + [src.excludes];
    assert PatternsOf(es + [e]) == PatternsOf(es) + [e.excludes];
  }

  /** A source built from entry e on a registry whose dict was `known`. */
  predicate SourceOf(src: Source, e: Entry, reg: Registry, known: map<string, string>) {
    && src.reg == reg && src.path == TrimTrailingSlash(e.path) && src.idn == Idn(e.path)
    && src.unique == (src.idn !in known)
  }

  lemma {:induction false} BuiltFromExtend(srcs: seq<Source>, es: seq<Entry>, reg: Registry, before: seq<(string, string)>,
                        src: Source, e: Entry)
    requires BuiltFrom(srcs, es, reg, before)
    requires SourceOf(src, e, reg, FirstSeen(before + Registrations(srcs, es)))
    ensures BuiltFrom(srcs + [src], es + [e], reg, before)
  {
    FirstSeenAppend(before, Registrations(srcs, es), src.idn);
    var srcs', es' := srcs + [src], es + [e];
    forall k | 0 <= k < |es'|
      ensures srcs'[k].unique == (srcs'[k].idn !in FirstSeen(before) && forall j :: 0 <= j < k ==> srcs'[j].idn != srcs'[k].idn)
    {
      if k < |es| {
        assert srcs'[k] == srcs[k];
        assert forall j :: 0 <= j < k ==> srcs'[j] == srcs[j];
      } else {
        assert forall j :: 0 <= j < |es| ==> Registrations(srcs, es)[j].0 == srcs'[j].idn;
      }
    }
  }

  lemma {:induction false} RegistrationsAppend(srcs: seq<Source>, es: seq<Entry>, src: Source, e: Entry,
                            before: seq<(string, string)>, paths0: seq<string>)
    requires |srcs| == |es|
    ensures before + Registrations(srcs + [src], es + [e]) == before + Registrations(srcs, es) + [(src.idn, e.path)]
    ensures paths0 + TrimmedPaths(srcs + [src]) == paths0 + TrimmedPaths(srcs) + [src.path]
  {
    assert Registrations(srcs + [src], es + [e]) == Registrations(srcs, es) + [(src.idn, e.path)];
    assert TrimmedPaths(srcs + [src]) == TrimmedPaths(srcs) + [src.path];
  }

  /**
   * One iteration of the readconfig loop: getpath, Source(...), getexclude,
   * then source.exclude for each pattern.
   */
  method LoadSource(item: Json, reg: Registry) returns (r: Result<Source, ConfigError>)
    requires reg.Valid()
    modifies reg
    ensures reg.Valid()
    ensures r.Failure? ==> NormaliseEntry(item) == Failure(r.error)
    ensures r.Success? ==> NormaliseEntry(item).Success?
    ensures r.Success? ==> fresh(r.value) && r.value.excludes == NormaliseEntry(item).value.excludes
    ensures r.Success? ==> SourceOf(r.value, NormaliseEntry(item).value, reg, FirstSeen(old(reg.entries)))
    ensures r.Success? ==> reg.entries == old(reg.entries) + [(r.value.idn, NormaliseEntry(item).value.path)]
    ensures r.Success? ==> reg.paths == old(reg.paths) + [r.value.path]
  {
    var p := GetPath(item);
    if p.Failure? {
      return Failure(p.error);
    }
    if !p.value.JString? {
      return Failure(NotAString);
    }
    var src := new Source(p.value.s, reg);
    var x := GetExclude(item);
    if x.Failure? {
      return Failure(x.error);
    }
    var xs := Iterate(x.value);
    if xs.Failure? {
      return Failure(xs.error);
    }
    var ok := AddExcludes(src, xs.value);
    if !ok {
      return Failure(NotAString);
    }
    r := Success(src);
  }

  /** The inner loop of readconfig: source.exclude(e) for each pattern, until one is not a string. */
  method AddExcludes(src: Source, patterns: seq<Json>) returns (ok: bool)
    requires src.excludes == []
    modifies src
    ensures ok <==> AsStrings(patterns).Success?
    ensures !ok ==> AsStrings(patterns) == Failure(NotAString)
    ensures ok ==> src.excludes == AsStrings(patterns).value
  {
    var j := 0;
    while j < |patterns|
      invariant 0 <= j <= |patterns|
      invariant AsStrings(patterns[..j]) == Success(src.excludes)
    {
      if !patterns[j].JString? {
        return false;
      }
      assert patterns[..j + 1][..j] == patterns[..j];
      src.Exclude(patterns[j].s);
      j := j + 1;
    }
    assert patterns[..j] == patterns;
    return true;
  }

  /** One step of the loop below: load items[i] and extend what has been built so far. */
  method LoadNext(items: seq<Json>, i: nat, reg: Registry, srcs: seq<Source>,
                  ghost es: seq<Entry>, ghost before: seq<(string, string)>, ghost paths0: seq<string>)
    returns (r: Result<Source, ConfigError>, ghost e: Entry)
    requires i < |items| && reg.Valid()
    requires NormaliseEntries(items[..i]) == Success(es)
    requires BuiltFrom(srcs, es, reg, before) && ExcludesMatch(srcs, es)
    requires reg.entries == before + Registrations(srcs, es)
    requires reg.paths == paths0 + TrimmedPaths(srcs)
    modifies reg
    ensures reg.Valid()
    ensures r.Failure? ==> NormaliseEntries(items) == Failure(r.error)
    ensures r.Success? ==>
      && NormaliseEntries(items[..i + 1]) == Success(es + [e])
      && BuiltFrom(srcs + [r.value], es + [e], reg, before)
      && ExcludesMatch(srcs + [r.value], es + [e])
      && reg.entries == before + Registrations(srcs + [r.value], es + [e])
      && reg.paths == paths0 + TrimmedPaths(srcs + [r.value])
  {
    e := Entry([], []);
    r := LoadSource(items[i], reg);
    if r.Failure? {
      EntriesFailAt(items, i, es, r.error);
      return;
    }
    var src := r.value;
    e := NormaliseEntry(items[i]).value;
    assert ExcludesMatch(srcs, es);
    StepFacts(items, i, srcs, es, before, paths0, src, e, reg);
    ExcludesMatchExtend(srcs, es, src, e);
  }

  /** The heap-free part of one loop step. */
  lemma {:induction false} StepFacts(items: seq<Json>, i: nat, srcs: seq<Source>, es: seq<Entry>,
                  before: seq<(string, string)>, paths0: seq<string>, src: Source, e: Entry, reg: Registry)
    requires i < |items|
    requires NormaliseEntries(items[..i]) == Success(es)
    requires BuiltFrom(srcs, es, reg, before)
    requires NormaliseEntry(items[i]) == Success(e)
    requires SourceOf(src, e, reg, FirstSeen(before + Registrations(srcs, es)))
    ensures NormaliseEntries(items[..i + 1]) == Success(es + [e])
    ensures BuiltFrom(srcs + [src], es + [e], reg, before)
    ensures before + Registrations(srcs + [src], es + [e]) == before + Registrations(srcs, es) + [(src.idn, e.path)]
    ensures paths0 + TrimmedPaths(srcs + [src]) == paths0 + TrimmedPaths(srcs) + [src.path]
  {
    EntriesExtend(items, i, es, e);
    BuiltFromExtend(srcs, es, reg, before, src, e);
    RegistrationsAppend(srcs, es, src, e, before, paths0);
  }

  /** The loop of readconfig over the "sources" list. */
  method LoadSources(items: seq<Json>, reg: Registry) returns (r: Result<seq<Source>, ConfigError>)
    requires reg.Valid()
    modifies reg
    ensures reg.Valid()
    ensures r.Success? <==> NormaliseEntries(items).Success?
    ensures r.Failure? ==> r.error == NormaliseEntries(items).error
    ensures r.Success? ==>
      var es := NormaliseEntries(items).value;
      && BuiltFrom(r.value, es, reg, old(reg.entries))
      && ExcludesMatch(r.value, es)
      && reg.entries == old(reg.entries) + Registrations(r.value, es)
      && reg.paths == old(reg.paths) + TrimmedPaths(r.value)
  {
    var srcs: seq<Source> := [];
    ghost var es: seq<Entry> := [];
    var i := 0;
    while i < |items|
      invariant 0 <= i <= |items|
      invariant reg.Valid()
      invariant NormaliseEntries(items[..i]) == Success(es)
      invariant BuiltFrom(srcs, es, reg, old(reg.entries))
      invariant ExcludesMatch(srcs, es)
      invariant reg.entries == old(reg.entries) + Registrations(srcs, es)
      invariant reg.paths == old(reg.paths) + TrimmedPaths(srcs)
    {
      var next, e := LoadNext(items, i, reg, srcs, es, old(reg.entries), old(reg.paths));
      if next.Failure? {
        return Failure(next.error);
      }
      srcs := srcs + [next.value];
      es := es + [e];
      i := i + 1;
    }
    assert items[..i] == items;
    r := Success(srcs);
  }

  /** readconfig: the schema check, the sources in order, then the target. */
  method ReadConfig(doc: Json, reg: Registry) returns (r: Result<Loaded, ConfigError>)
    requires reg.Valid()
    modifies reg
    ensures reg.Valid()
    ensures r.Success? <==> Normalise(doc).Success?
    ensures r.Failure? ==> r.error == Normalise(doc).error
    ensures r.Success? ==>
      var c := Normalise(doc).value;
      && BuiltFrom(r.value.sources, c.sources, reg, old(reg.entries))
      && ExcludesMatch(r.value.sources, c.sources)
      && r.value.target == NewTarget(c.target)
      && reg.entries == old(reg.entries) + Registrations(r.value.sources, c.sources)
      && reg.paths == old(reg.paths) + TrimmedPaths(r.value.sources)
  {
    if !doc.JObject? {
      return Failure(NotADict);
    }
    var ms := doc.members;
    if |Keys(ms)| != 2 {
      return Failure(SchemaViolation);
    }
    var sourcesVal := Get(ms, "sources");
    if sourcesVal.None? {
      return Failure(MissingKey("sources"));
    }
    if !sourcesVal.value.JArray? {
      return Failure(SchemaViolation);
    }
    var targetVal := Get(ms, "target");
    if targetVal.None? {
      return Failure(MissingKey("target"));
    }
    if !targetVal.value.JString? {
      return Failure(SchemaViolation);
    }
    var srcs := LoadSources(sourcesVal.value.items, reg);
    if srcs.Failure? {
      return Failure(srcs.error);
    }
    r := Success(Loaded(srcs.value, NewTarget(targetVal.value.s)));
  }

  /**
   * First occurrence wins: every identifier built is registered, under the
   * raw path of the first source that has it, and that source is the unique one.
   */
  lemma {:induction false} FirstRegisteredWins(srcs: seq<Source>, es: seq<Entry>, reg: Registry, k: nat)
    requires BuiltFrom(srcs, es, reg, []) && reg.Valid() && reg.entries == Registrations(srcs, es)
    requires k < |srcs|
    ensures srcs[k].idn in reg.identifiers
    ensures exists f :: 0 <= f <= k && srcs[f].idn == srcs[k].idn && srcs[f].unique && reg.identifiers[srcs[k].idn] == es[f].path
    decreases k
  {
    if srcs[k].unique {
      var entries := Registrations(srcs, es);
      assert forall j :: 0 <= j < k ==> entries[j].0 != entries[k].0;
      FirstSeenValue(entries, k);
      assert reg.identifiers[srcs[k].idn] == es[k].path;
    } else {
      var j :| 0 <= j < k && srcs[j].idn == srcs[k].idn;
      FirstRegisteredWins(srcs, es, reg, j);
    }
  }
}
