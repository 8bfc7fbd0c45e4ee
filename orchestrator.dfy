/**
 * main of backup.py: read the configuration, refuse to go on if any source
 * reports an error, create the target behind a confirmation when it is
 * missing, check that it is writable, ask "Proceed?", then run rsync once
 * per source in configuration order. The environment is passed in: the
 * parsed document (None when the file cannot be opened or parsed), the
 * readability probe, whether the target exists, whether makedirs succeeds,
 * whether the target is writable, and the lines the user types (running out
 * of lines is end of input). sys.exit becomes an Outcome.
 */
module Orchestrator {
  import opened Wrappers
  import opened Json
  import opened Config
  import opened Paths
  import opened Registry
  import opened Entities
  import opened Loader

  /** Exit status 1, exit status 3, or a finished run with the rsync calls made, in order. */
  datatype Outcome = Exit1 | Exit3 | Done(syncs: seq<seq<string>>)

  /** What confirm does: return, sys.exit(3), or the EOFError input raises at end of input. */
  datatype Gate = Proceed | Abort | NoInput

  /** The decision of confirm: skipped proceeds, otherwise only the exact answer "y" does. */
  function Confirm(answer: Option<string>, skipped: bool): (g: Gate)
    ensures g == Proceed <==> skipped || answer == Some("y")
    ensures g == NoInput <==> !skipped && answer.None?
    ensures g == Abort <==> !skipped && answer.Some? && answer.value != "y"
  {
    if skipped then Proceed
    else match answer
      case None => NoInput
      case Some(a) => if a == "y" then Proceed else Abort
  }

  /** The n-th line typed, or None once the input is exhausted. */
  function Answer(answers: seq<string>, n: nat): Option<string> {
    if n < |answers| then Some(answers[n]) else None
  }

  predicate Yes(answers: seq<string>, n: nat) {
    Answer(answers, n) == Some("y")
  }

  predicate Declined(answers: seq<string>, n: nat) {
    n < |answers| && answers[n] != "y"
  }

  /**
   * Every configured source is readable at its trimmed path and no earlier
   * source has the same identifier.
   */
  predicate SourcesSane(es: seq<Entry>, readable: string -> bool) {
    forall k :: 0 <= k < |es| ==>
      readable(TrimTrailingSlash(es[k].path)) && forall j :: 0 <= j < k ==> Idn(es[j].path) != Idn(es[k].path)
  }

  /** The configuration parses, passes the schema and every source is sane. */
  predicate Ready(doc: Option<Json>, readable: string -> bool) {
    doc.Some? && Normalise(doc.value).Success? && SourcesSane(Normalise(doc.value).value.sources, readable)
  }

  /** The target is there once the creation step is over. */
  predicate TargetPrepared(targetExists: bool, makedirsOk: bool, answers: seq<string>) {
    targetExists || (Yes(answers, 0) && makedirsOk)
  }

  /** The line that answers "Proceed?": the first one, or the second after the creation prompt. */
  function FinalPrompt(targetExists: bool): nat {
    if targetExists then 0 else 1
  }

  /** The rsync calls for a configuration, one per source, in order. */
  function Syncs(c: Config): (runs: seq<seq<string>>)
    ensures |runs| == |c.sources|
  {
    seq(|c.sources|, k requires 0 <= k < |c.sources| =>
      RsyncArgv(Strip(c.target), TrimTrailingSlash(c.sources[k].path), Idn(c.sources[k].path), c.sources[k].excludes))
  }

  /** Each rsync call names the source's trimmed path and the target root last, the patterns under the identifier. */
  lemma {:induction false} SyncsShape(c: Config, k: nat)
    requires k < |c.sources|
    ensures var a := Syncs(c)[k];
      var e := c.sources[k];
      |a| == 9 + 2 * |e.excludes| && a[..7] == RsyncFlags
      && (forall i :: 0 <= i < |e.excludes| ==> a[7 + 2 * i] == "--exclude" && a[8 + 2 * i] == Idn(e.path) + "/" + e.excludes[i])
      && a[|a| - 2] == TrimTrailingSlash(e.path) && a[|a| - 1] == Strip(c.target)
  {
    var e := c.sources[k];
    RsyncArgvShape(Strip(c.target), TrimTrailingSlash(e.path), Idn(e.path), e.excludes);
  }

  /** The trimmed source paths, in order: what the padding is the widest of. */
  function ConfigPaths(c: Config): (ps: seq<string>)
    ensures |ps| == |c.sources|
  {
    seq(|c.sources|, k requires 0 <= k < |c.sources| => TrimTrailingSlash(c.sources[k].path))
  }

  /**
   * The destination loop of main completes: every source's destination
   * under the target either does not exist or has its size shown in a
   * column the padding of all source paths makes valid.
   */
  predicate DestinationsShown(c: Config, destExists: string -> bool) {
    forall k :: 0 <= k < |c.sources| ==>
      ShowSourceOk(MaxPadding(ConfigPaths(c)), destExists(JoinPath(Strip(c.target), Idn(c.sources[k].path))))
  }

  /** The destination loop of main (Target.showSource per source): it stops at the first destination it cannot show. */
  method ShowDestinations(t: Target, srcs: seq<Source>, padding: nat, destExists: string -> bool) returns (ok: bool)
    ensures ok <==> forall k :: 0 <= k < |srcs| ==> ShowSourceOk(padding, destExists(JoinPath(t.path, srcs[k].idn)))
  {
    var k := 0;
    while k < |srcs|
      invariant 0 <= k <= |srcs|
      invariant forall j :: 0 <= j < k ==> ShowSourceOk(padding, destExists(JoinPath(t.path, srcs[j].idn)))
    {
      var location := JoinPath(t.path, srcs[k].idn);
      if destExists(location) && !WidthFormats(SizeColumnWidth(padding)) {
        return false;
      }
      k := k + 1;
    }
    return true;
  }

  /** The sanity loop of main: the first source whose err() is not empty stops it. */
  method CheckSources(srcs: seq<Source>, readable: string -> bool) returns (ok: bool)
    requires forall k :: 0 <= k < |srcs| ==> srcs[k].idn in srcs[k].reg.identifiers
    ensures ok <==> forall k :: 0 <= k < |srcs| ==> readable(srcs[k].path) && srcs[k].unique
  {
    var k := 0;
    while k < |srcs|
      invariant 0 <= k <= |srcs|
      invariant forall j :: 0 <= j < k ==> readable(srcs[j].path) && srcs[j].unique
    {
      var m := srcs[k].Err(readable(srcs[k].path));
      if m != "" {
        return false;
      }
      k := k + 1;
    }
    return true;
  }

  /** The sync loop of main: one Target.rsync per source, in order; return codes are not looked at. */
  method SyncAll(t: Target, srcs: seq<Source>) returns (runs: seq<seq<string>>)
    ensures |runs| == |srcs|
    ensures forall k :: 0 <= k < |srcs| ==> runs[k] == RsyncArgv(t.path, srcs[k].path, srcs[k].idn, srcs[k].excludes)
  {
    runs := [];
    var k := 0;
    while k < |srcs|
      invariant 0 <= k <= |srcs| && |runs| == k
      invariant forall j :: 0 <= j < k ==> runs[j] == RsyncArgv(t.path, srcs[j].path, srcs[j].idn, srcs[j].excludes)
    {
      var args := Rsync(t, srcs[k]);
      runs := runs + [args];
      k := k + 1;
    }
  }

  /** Sources built from the entries on a fresh registry are sane exactly when the entries are. */
  lemma {:induction false} SaneFromBuilt(srcs: seq<Source>, es: seq<Entry>, reg: Registry, readable: string -> bool)
    requires BuiltFrom(srcs, es, reg, [])
    ensures SourcesSane(es, readable) <==> forall k :: 0 <= k < |srcs| ==> readable(srcs[k].path) && srcs[k].unique
  {
  }

  /** The rsync calls made for the loaded sources are those of the configuration. */
  lemma {:induction false} SyncsAgree(c: Config, t: Target, srcs: seq<Source>, reg: Registry)
    requires BuiltFrom(srcs, c.sources, reg, []) && ExcludesMatch(srcs, c.sources) && t == NewTarget(c.target)
    ensures forall k :: 0 <= k < |srcs| ==> Syncs(c)[k] == RsyncArgv(t.path, srcs[k].path, srcs[k].idn, srcs[k].excludes)
  {
    forall k | 0 <= k < |srcs|
      ensures Syncs(c)[k] == RsyncArgv(t.path, srcs[k].path, srcs[k].idn, srcs[k].excludes)
    {
      var e := c.sources[k];
      assert srcs[k].path == TrimTrailingSlash(e.path) && srcs[k].idn == Idn(e.path);
      assert srcs[k].excludes == ExcludesOf(srcs)[k] == PatternsOf(c.sources)[k] == e.excludes;
    }
  }

  /**
   * readconfig on a fresh registry, seen from main: the loaded sources, each
   * registered, sane exactly when the configuration's entries are, and with
   * the rsync calls of the configuration.
   */
  method Load(doc: Option<Json>, readable: string -> bool) returns (r: Option<(seq<Source>, Target, nat)>)
    ensures r.Some? <==> doc.Some? && Normalise(doc.value).Success?
    ensures r.Some? ==> |r.value.0| == |Normalise(doc.value).value.sources|
    ensures r.Some? ==>
      var c := Normalise(doc.value).value;
      && r.value.1 == NewTarget(c.target)
      && r.value.2 == MaxPadding(ConfigPaths(c))
      && forall k :: 0 <= k < |r.value.0| ==> r.value.0[k].idn == Idn(c.sources[k].path)
    ensures r.Some? ==> forall k :: 0 <= k < |r.value.0| ==> r.value.0[k].idn in r.value.0[k].reg.identifiers
    ensures r.Some? ==>
      (SourcesSane(Normalise(doc.value).value.sources, readable) <==>
       forall k :: 0 <= k < |r.value.0| ==> readable(r.value.0[k].path) && r.value.0[k].unique)
    ensures r.Some? ==>
      forall k :: 0 <= k < |r.value.0| ==>
        Syncs(Normalise(doc.value).value)[k] == RsyncArgv(r.value.1.path, r.value.0[k].path, r.value.0[k].idn, r.value.0[k].excludes)
  {
    if doc.None? {
      return None;
    }
    var reg := new Registry();
    var loaded := ReadConfig(doc.value, reg);
    if loaded.Failure? {
      return None;
    }
    LoadedFacts(doc.value, readable, loaded.value.sources, loaded.value.target, reg);
    r := Some((loaded.value.sources, loaded.value.target, reg.padding));
  }

  /** What the postcondition of ReadConfig on a fresh registry gives main. */
  lemma {:induction false} LoadedFacts(doc: Json, readable: string -> bool, srcs: seq<Source>, t: Target, reg: Registry)
    requires Normalise(doc).Success?
    requires reg.Valid()
    requires var c := Normalise(doc).value;
      && BuiltFrom(srcs, c.sources, reg, [])
      && ExcludesMatch(srcs, c.sources)
      && t == NewTarget(c.target)
      && reg.entries == [] + Registrations(srcs, c.sources)
      && reg.paths == [] + TrimmedPaths(srcs)
    ensures |srcs| == |Normalise(doc).value.sources|
    ensures reg.padding == MaxPadding(ConfigPaths(Normalise(doc).value))
    ensures t == NewTarget(Normalise(doc).value.target)
    ensures forall k :: 0 <= k < |srcs| ==> srcs[k].idn == Idn(Normalise(doc).value.sources[k].path)
    ensures forall k :: 0 <= k < |srcs| ==> srcs[k].idn in srcs[k].reg.identifiers
    ensures SourcesSane(Normalise(doc).value.sources, readable) <==>
      forall k :: 0 <= k < |srcs| ==> readable(srcs[k].path) && srcs[k].unique
    ensures forall k :: 0 <= k < |srcs| ==>
      Syncs(Normalise(doc).value)[k] == RsyncArgv(t.path, srcs[k].path, srcs[k].idn, srcs[k].excludes)
  {
    var c := Normalise(doc).value;
    assert reg.entries == Registrations(srcs, c.sources);
    forall k | 0 <= k < |srcs|
      ensures srcs[k].idn in srcs[k].reg.identifiers
    {
      FirstRegisteredWins(srcs, c.sources, reg, k);
    }
    SaneFromBuilt(srcs, c.sources, reg, readable);
    SyncsAgree(c, t, srcs, reg);
    assert TrimmedPaths(srcs) == ConfigPaths(c);
    assert reg.paths == ConfigPaths(c);
  }

  /**
   * The first half of main: read the configuration and run the sanity loop.
   * None is exit status 1; otherwise the loaded sources and target, whose
   * rsync calls are those of the configuration.
   */
  method Prepare(doc: Option<Json>, readable: string -> bool) returns (r: Option<(seq<Source>, Target, nat)>)
    ensures r.Some? <==> Ready(doc, readable)
    ensures r.Some? ==>
      var c := Normalise(doc.value).value;
      var (srcs, t, padding) := r.value;
      |srcs| == |c.sources|
      && t == NewTarget(c.target)
      && padding == MaxPadding(ConfigPaths(c))
      && (forall k :: 0 <= k < |srcs| ==> srcs[k].idn == Idn(c.sources[k].path))
      && forall k :: 0 <= k < |srcs| ==> Syncs(c)[k] == RsyncArgv(t.path, srcs[k].path, srcs[k].idn, srcs[k].excludes)
  {
    r := Load(doc, readable);
    if r.None? {
      return;
    }
    var ok := CheckSources(r.value.0, readable);
    if !ok {
      r := None;
    }
  }

  /**
   * main. autoconfirm is the parsed --autoconfirm flag: like the source, the
   * model never hands it to confirm, so neither gate is ever skipped.
   * attemptedCreate says whether makedirs was called. destExists is
   * os.path.exists on each source's destination under the target.
   */
  method Run(doc: Option<Json>, autoconfirm: bool, readable: string -> bool, targetExists: bool,
             makedirsOk: bool, targetWritable: bool, destExists: string -> bool, answers: seq<string>)
    returns (outcome: Outcome, attemptedCreate: bool)
    ensures !Ready(doc, readable) ==> outcome == Exit1 && !attemptedCreate
    ensures attemptedCreate <==> Ready(doc, readable) && !targetExists && Yes(answers, 0)
    ensures outcome.Done? <==>
      Ready(doc, readable) && TargetPrepared(targetExists, makedirsOk, answers) && targetWritable
      && DestinationsShown(Normalise(doc.value).value, destExists)
      && Yes(answers, FinalPrompt(targetExists))
    ensures outcome == Exit3 <==>
      Ready(doc, readable)
      && ((!targetExists && Declined(answers, 0))
          || (TargetPrepared(targetExists, makedirsOk, answers) && targetWritable
              && DestinationsShown(Normalise(doc.value).value, destExists)
              && Declined(answers, FinalPrompt(targetExists))))
    ensures outcome.Done? ==> outcome.syncs == Syncs(Normalise(doc.value).value)
    ensures outcome.Done? ==> Sanity(targetExists || attemptedCreate, targetWritable)
  {
    attemptedCreate := false;
    var prepared := Prepare(doc, readable);
    if prepared.None? {
      return Exit1, false;
    }
    var (srcs, target, padding) := prepared.value;

    var next := 0;
    if !targetExists {
      var g := Confirm(Answer(answers, 0), false);
      next := 1;
      if g == Abort {
        return Exit3, false;
      }
      if g == NoInput {
        return Exit1, false;
      }
      attemptedCreate := true;
      if !makedirsOk {
        return Exit1, true;
      }
    }
    if !targetWritable {
      return Exit1, attemptedCreate;
    }
    var shown := ShowDestinations(target, srcs, padding, destExists);
    if !shown {
      return Exit1, attemptedCreate;
    }
    var g := Confirm(Answer(answers, next), false);
    if g == Abort {
      return Exit3, attemptedCreate;
    }
    if g == NoInput {
      return Exit1, attemptedCreate;
    }
    var runs := SyncAll(target, srcs);
    outcome := Done(runs);
  }
}
