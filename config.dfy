/**
 * Configuration normalisation of backup.py: makelist, getpath, getexclude
 * and the schema check of readconfig, as functions on the parsed document.
 * Each Python exception that ends the run (AttributeError, KeyError,
 * TypeError, AssertionError) becomes a ConfigError.
 */
module Config {
  import opened Wrappers
  import opened Json

  datatype ConfigError =
    | NotADict             // config.keys() on a document that is not an object
    | SchemaViolation      // the assertion of readconfig fails
    | MissingKey(key: string)
    | NotAString           // a path is not a string, or an exclusion pattern is not one
    | NotIterable          // the exclude value cannot be iterated

  /** A source entry once normalised: the raw path and its exclusion patterns. */
  datatype Entry = Entry(path: string, excludes: seq<string>)

  /** A loaded configuration: sources in document order and the raw target string. */
  datatype Config = Config(sources: seq<Entry>, target: string)

  /** makelist: a string becomes a one-element list; anything else is returned as is. */
  function MakeList(j: Json): Json {
    if j.JString? then JArray([j]) else j
  }

  /** getpath: item["path"] for an object, the item itself otherwise. */
  function GetPath(item: Json): Result<Json, ConfigError> {
    if item.JObject? then
      match Get(item.members, "path")
      case None => Failure(MissingKey("path"))
      case Some(p) => Success(p)
    else Success(item)
  }

  /** getexclude: [] for a non-object, makelist(item["exclude"]) for an object (the key is required). */
  function GetExclude(item: Json): Result<Json, ConfigError> {
    if item.JObject? then
      match Get(item.members, "exclude")
      case None => Failure(MissingKey("exclude"))
      case Some(x) => Success(MakeList(x))
    else Success(JArray([]))
  }

  /** What a Python for loop over a parsed JSON value visits. */
  function Iterate(j: Json): (r: Result<seq<Json>, ConfigError>)
    ensures r.Failure? <==> !(j.JArray? || j.JObject? || j.JString?)
    ensures j.JArray? ==> r == Success(j.items)
    ensures j.JObject? ==>
      (&& r.Success?
       && (forall a :: 0 <= a < |r.value| ==> r.value[a].JString?)
       && (forall k :: JString(k) in r.value <==> exists i :: 0 <= i < |j.members| && j.members[i].0 == k)
       && (forall a, b :: 0 <= a < b < |r.value| ==> r.value[a] != r.value[b])
       && (forall a, b :: 0 <= a < b < |r.value| ==>
             FirstIndex(j.members, r.value[a].s) < FirstIndex(j.members, r.value[b].s)))
    ensures j.JString? ==>
      (&& r.Success? && |r.value| == |j.s|
       && forall i :: 0 <= i < |j.s| ==> r.value[i] == JString([j.s[i]]))
  {
    match j
    case JArray(xs) => Success(xs)
    case JObject(ms) =>
      var ks := Keys(ms);
      var vs := seq(|ks|, i requires 0 <= i < |ks| => JString(ks[i]));
      StringsOfKeys(ks, vs);
      KeysInFirstOrder(ms);
      Success(vs)
    case JString(s) => Success(seq(|s|, i requires 0 <= i < |s| => JString([s[i]])))
    case _ => Failure(NotIterable)
  }

  /** Wrapping each key in a JSON string keeps which keys there are and that none repeats. */
  lemma StringsOfKeys(ks: seq<string>, vs: seq<Json>)
    requires |vs| == |ks| && forall i :: 0 <= i < |ks| ==> vs[i] == JString(ks[i])
    ensures forall k :: JString(k) in vs <==> k in ks
  {
    forall k | JString(k) in vs ensures k in ks {
      var i :| 0 <= i < |vs| && vs[i] == JString(k);
      assert ks[i] == k;
    }
  }

  /** The exclusion patterns as strings, failing on the first value that is not one. */
  function AsStrings(xs: seq<Json>): (r: Result<seq<string>, ConfigError>)
    ensures r.Success? <==> forall i :: 0 <= i < |xs| ==> xs[i].JString?
    ensures r.Success? ==> |r.value| == |xs| && forall i :: 0 <= i < |xs| ==> r.value[i] == xs[i].s
    ensures r.Failure? ==> r.error == NotAString
  {
    if xs == [] then Success([])
    else
      match AsStrings(xs[..|xs| - 1])
      case Failure(e) => Failure(e)
      case Success(ss) =>
        var x := xs[|xs| - 1];
        if x.JString? then Success(ss + [x.s]) else Failure(NotAString)
  }

  /**
   * One element of "sources", in the order readconfig goes through it:
   * getpath, the string operations of Source.__init__, getexclude, then the
   * loop over the exclusions.
   */
  function NormaliseEntry(item: Json): Result<Entry, ConfigError> {
    var p :- GetPath(item);
    if !p.JString? then Failure(NotAString)
    else
      var x :- GetExclude(item);
      var xs :- Iterate(x);
      var ss :- AsStrings(xs);
      Success(Entry(p.s, ss))
  }

  /** The "sources" list, entry by entry; the first entry that fails decides the error. */
  function NormaliseEntries(items: seq<Json>): Result<seq<Entry>, ConfigError> {
    if items == [] then Success([])
    else
      match NormaliseEntries(items[..|items| - 1])
      case Failure(e) => Failure(e)
      case Success(es) =>
        match NormaliseEntry(items[|items| - 1])
        case Failure(e) => Failure(e)
        case Success(x) => Success(es + [x])
  }

  /** The schema check of readconfig: exactly two keys, "sources" a list, "target" a string. */
  predicate SchemaOk(doc: Json) {
    && doc.JObject?
    && |Keys(doc.members)| == 2
    && Get(doc.members, "sources").Some? && Get(doc.members, "sources").value.JArray?
    && Get(doc.members, "target").Some? && Get(doc.members, "target").value.JString?
  }

  /** readconfig without the objects: the checks in the order Python makes them. */
  function Normalise(doc: Json): Result<Config, ConfigError> {
    if !doc.JObject? then Failure(NotADict)
    else if |Keys(doc.members)| != 2 then Failure(SchemaViolation)
    else if Get(doc.members, "sources").None? then Failure(MissingKey("sources"))
    else if !Get(doc.members, "sources").value.JArray? then Failure(SchemaViolation)
    else if Get(doc.members, "target").None? then Failure(MissingKey("target"))
    else if !Get(doc.members, "target").value.JString? then Failure(SchemaViolation)
    else
      var es :- NormaliseEntries(Get(doc.members, "sources").value.items);
      Success(Config(es, Get(doc.members, "target").value.s))
  }

  // ---- Properties of the normalisation ----

  /** A bare string entry is its own path and has no exclusions. */
  lemma {:induction false} BareStringEntry(s: string)
    ensures NormaliseEntry(JString(s)) == Success(Entry(s, []))
  {
    assert AsStrings([]) == Success([]);
  }

  /** An object entry whose "exclude" is one string has that one pattern. */
  lemma {:induction false} ObjectEntrySingleExclude(ms: seq<(string, Json)>, p: string, x: string)
    requires Get(ms, "path") == Some(JString(p))
    requires Get(ms, "exclude") == Some(JString(x))
    ensures NormaliseEntry(JObject(ms)) == Success(Entry(p, [x]))
  {
    var r := AsStrings([JString(x)]);
    assert r.Success? && |r.value| == 1 && r.value[0] == x;
    assert r.value == [x];
  }

  /** An object entry whose "exclude" is a list of strings keeps the list, in order. */
  lemma {:induction false} ObjectEntryExcludeList(ms: seq<(string, Json)>, p: string, xs: seq<Json>)
    requires Get(ms, "path") == Some(JString(p))
    requires Get(ms, "exclude") == Some(JArray(xs))
    requires forall i :: 0 <= i < |xs| ==> xs[i].JString?
    ensures NormaliseEntry(JObject(ms)).Success?
    ensures var e := NormaliseEntry(JObject(ms)).value;
      e.path == p && |e.excludes| == |xs| && forall i :: 0 <= i < |xs| ==> e.excludes[i] == xs[i].s
  {
  }

  /**
   * An object entry whose "exclude" is an object has its keys as patterns:
   * each key once, in the order of its first occurrence.
   */
  lemma {:induction false} ObjectEntryExcludeDict(ms: seq<(string, Json)>, p: string, xm: seq<(string, Json)>)
    requires Get(ms, "path") == Some(JString(p))
    requires Get(ms, "exclude") == Some(JObject(xm))
    ensures NormaliseEntry(JObject(ms)).Success?
    ensures var e := NormaliseEntry(JObject(ms)).value;
      && e.path == p
      && (forall k :: k in e.excludes <==> exists i :: 0 <= i < |xm| && xm[i].0 == k)
      && (forall a, b :: 0 <= a < b < |e.excludes| ==> FirstIndex(xm, e.excludes[a]) < FirstIndex(xm, e.excludes[b]))
  {
    var xs := Iterate(JObject(xm)).value;
    var ss := AsStrings(xs).value;
    assert NormaliseEntry(JObject(ms)) == Success(Entry(p, ss));
    forall k ensures k in ss <==> JString(k) in xs {
      if k in ss {
        var i :| 0 <= i < |ss| && ss[i] == k;
        assert xs[i] == JString(k);
      }
      if JString(k) in xs {
        var i :| 0 <= i < |xs| && xs[i] == JString(k);
        assert ss[i] == k;
      }
    }
  }

  /** An object entry without "exclude" is a failure (the KeyError of getexclude). */
  lemma {:induction false} ObjectEntryWithoutExclude(ms: seq<(string, Json)>, p: Json)
    requires Get(ms, "path") == Some(p)
    requires Get(ms, "exclude") == None
    ensures NormaliseEntry(JObject(ms)).Failure?
  {
  }

  /** Normalising succeeds exactly when the schema holds and every entry normalises. */
  lemma {:induction false} EntriesSucceedIff(items: seq<Json>)
    ensures NormaliseEntries(items).Success? <==> forall i :: 0 <= i < |items| ==> NormaliseEntry(items[i]).Success?
    ensures NormaliseEntries(items).Success? ==>
      |NormaliseEntries(items).value| == |items| &&
      forall i :: 0 <= i < |items| ==> NormaliseEntry(items[i]) == Success(NormaliseEntries(items).value[i])
  {
    if items != [] {
      var pre := items[..|items| - 1];
      EntriesSucceedIff(pre);
      forall i | 0 <= i < |pre| ensures pre[i] == items[i] { }
      var r, rp := NormaliseEntries(items), NormaliseEntries(pre);
      var last := NormaliseEntry(items[|items| - 1]);
      if r.Success? {
        assert rp.Success? && last.Success? && r.value == rp.value + [last.value];
        forall i | 0 <= i < |items| ensures NormaliseEntry(items[i]) == Success(r.value[i]) {
          if i < |pre| {
            assert r.value[i] == rp.value[i];
          }
        }
      }
    }
  }

  /** What a loaded configuration guarantees about the document it came from. */
  lemma {:induction false} NormaliseAccepts(doc: Json)
    ensures Normalise(doc).Success? <==>
      SchemaOk(doc) && NormaliseEntries(Get(doc.members, "sources").value.items).Success?
    ensures Normalise(doc).Success? ==>
      (forall k :: k in Keys(doc.members) <==> k == "sources" || k == "target")
      && Normalise(doc).value.target == Get(doc.members, "target").value.s
      && Normalise(doc).value.sources == NormaliseEntries(Get(doc.members, "sources").value.items).value
  {
    if Normalise(doc).Success? {
      TwoKeysAreThese(doc.members, "sources", "target");
    }
  }

  /** A document with a key too many, or without "target", is refused. */
  lemma {:induction false} SchemaRejects(doc: Json)
    requires doc.JObject?
    requires |Keys(doc.members)| != 2 || Get(doc.members, "target").None?
    ensures Normalise(doc).Failure?
  {
  }

  /** Once an entry fails, the whole list fails with that entry's error. */
  lemma {:induction false} EntriesFailAt(items: seq<Json>, i: nat, es: seq<Entry>, e: ConfigError)
    requires i < |items|
    requires NormaliseEntries(items[..i]) == Success(es)
    requires NormaliseEntry(items[i]) == Failure(e)
    ensures NormaliseEntries(items) == Failure(e)
  {
    if i == |items| - 1 {
      assert items[..|items| - 1] == items[..i];
    } else {
      var pre := items[..|items| - 1];
      assert pre[..i] == items[..i] && pre[i] == items[i];
      EntriesFailAt(pre, i, es, e);
    }
  }

  /** A successful entry extends the successful prefix before it. */
  lemma {:induction false} EntriesExtend(items: seq<Json>, i: nat, es: seq<Entry>, e: Entry)
    requires i < |items|
    requires NormaliseEntries(items[..i]) == Success(es)
    requires NormaliseEntry(items[i]) == Success(e)
    ensures NormaliseEntries(items[..i + 1]) == Success(es + [e])
  {
    assert items[..i + 1][..i] == items[..i];
  }
}
