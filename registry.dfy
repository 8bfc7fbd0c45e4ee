/**
 * The class-level state of Source in backup.py: the `identifiers` dict from
 * identifier to the first raw path registered under it, and the `padding`
 * column width. The ghost histories record what was registered, in order,
 * so that the state can be stated as a function of that history.
 */
module Registry {

  /** The dict after registering each (identifier, raw path) pair in turn: the first path per identifier stays. */
  function FirstSeen(entries: seq<(string, string)>): map<string, string> {
    if entries == [] then map[]
    else
      var m := FirstSeen(entries[..|entries| - 1]);
      var e := entries[|entries| - 1];
      if e.0 in m then m else m[e.0 := e.1]
  }

  /** update_padding's candidate width, int(len(path) * 1.5) computed exactly. */
  function Pad(path: string): nat {
    (3 * |path|) / 2
  }

  /** The padding after update_padding ran on each path in turn, from 0. */
  function MaxPadding(paths: seq<string>): nat {
    if paths == [] then 0
    else
      var m := MaxPadding(paths[..|paths| - 1]);
      var p := Pad(paths[|paths| - 1]);
      if p > m then p else m
  }

  class Registry {
    var identifiers: map<string, string>
    var padding: nat
    ghost var entries: seq<(string, string)>
    ghost var paths: seq<string>

    ghost predicate Valid()
      reads this
    {
      identifiers == FirstSeen(entries) && padding == MaxPadding(paths)
    }

    /** The state at process start: an empty dict and padding 0. */
    constructor ()
      ensures Valid() && entries == [] && paths == []
      ensures identifiers == map[] && padding == 0
    {
      identifiers, padding := map[], 0;
      entries, paths := [], [];
    }

    /** Source.update_padding: raise the padding to the path's width if that is larger. */
    method UpdatePadding(path: string)
      requires Valid()
      modifies this
      ensures Valid()
      ensures padding == if Pad(path) > old(padding) then Pad(path) else old(padding)
      ensures paths == old(paths) + [path]
      ensures identifiers == old(identifiers) && entries == old(entries)
    {
      var p := (3 * |path|) / 2;
      if p > padding {
        padding := p;
      }
      paths := paths + [path];
      assert paths[..|paths| - 1] == old(paths);
    }

    /**
     * The registry step of Source.__init__: a new identifier is recorded
     * with the raw path and reported unique; a known one changes nothing.
     */
    method Register(idn: string, raw: string) returns (unique: bool)
      requires Valid()
      modifies this
      ensures Valid()
      ensures unique == (idn !in old(identifiers))
      ensures identifiers == if unique then old(identifiers)[idn := raw] else old(identifiers)
      ensures idn in identifiers
      ensures entries == old(entries) + [(idn, raw)]
      ensures padding == old(padding) && paths == old(paths)
    {
      unique := false;
      if idn !in identifiers {
        identifiers := identifiers[idn := raw];
        unique := true;
      }
      entries := entries + [(idn, raw)];
      assert entries[..|entries| - 1] == old(entries);
    }
  }

  // ---- Properties of the registry ----

  /** An identifier is registered exactly when some registration used it. */
  lemma {:induction false} FirstSeenDomain(entries: seq<(string, string)>, idn: string)
    ensures idn in FirstSeen(entries) <==> exists i :: 0 <= i < |entries| && entries[i].0 == idn
  {
    if entries != [] {
      var pre := entries[..|entries| - 1];
      FirstSeenDomain(pre, idn);
      if exists i :: 0 <= i < |pre| && pre[i].0 == idn {
        var i :| 0 <= i < |pre| && pre[i].0 == idn;
        assert entries[i].0 == idn;
      }
    }
  }

  /** An identifier is new after further registrations exactly when it was new before and none of them used it. */
  lemma {:induction false} FirstSeenAppend(before: seq<(string, string)>, more: seq<(string, string)>, idn: string)
    ensures idn !in FirstSeen(before + more) <==>
      idn !in FirstSeen(before) && forall j :: 0 <= j < |more| ==> more[j].0 != idn
  {
    if more == [] {
      assert before + more == before;
    } else {
      var pre := more[..|more| - 1];
      FirstSeenAppend(before, pre, idn);
      var all := before + more;
      assert all[..|all| - 1] == before + pre;
      assert forall j :: 0 <= j < |pre| ==> pre[j] == more[j];
    }
  }

  /** The first registration of an identifier is the path the registry reports for it. */
  lemma {:induction false} FirstSeenValue(entries: seq<(string, string)>, i: nat)
    requires i < |entries|
    requires forall j :: 0 <= j < i ==> entries[j].0 != entries[i].0
    ensures entries[i].0 in FirstSeen(entries)
    ensures FirstSeen(entries)[entries[i].0] == entries[i].1
  {
    var pre := entries[..|entries| - 1];
    if i == |entries| - 1 {
      FirstSeenDomain(pre, entries[i].0);
    } else {
      FirstSeenValue(pre, i);
    }
  }

  /** Later registrations never change or remove an entry. */
  lemma {:induction false} FirstSeenGrows(entries: seq<(string, string)>, more: seq<(string, string)>)
    ensures forall idn :: idn in FirstSeen(entries) ==>
      idn in FirstSeen(entries + more) && FirstSeen(entries + more)[idn] == FirstSeen(entries)[idn]
  {
    if more != [] {
      var pre := more[..|more| - 1];
      FirstSeenGrows(entries, pre);
      assert (entries + more)[..|entries + more| - 1] == entries + pre;
    } else {
      assert entries + more == entries;
    }
  }

  /** The padding is at least the width of every path seen. */
  lemma {:induction false} MaxPaddingBound(paths: seq<string>)
    ensures forall i :: 0 <= i < |paths| ==> Pad(paths[i]) <= MaxPadding(paths)
  {
    if paths != [] {
      var pre := paths[..|paths| - 1];
      MaxPaddingBound(pre);
      assert forall i :: 0 <= i < |pre| ==> pre[i] == paths[i];
    }
  }

  /** The padding is 0 or the width of some path seen: it is the maximum. */
  lemma {:induction false} MaxPaddingAttained(paths: seq<string>)
    ensures MaxPadding(paths) == 0 || exists i :: 0 <= i < |paths| && Pad(paths[i]) == MaxPadding(paths)
  {
    if paths != [] {
      var pre := paths[..|paths| - 1];
      MaxPaddingAttained(pre);
      if MaxPadding(paths) != Pad(paths[|paths| - 1]) && MaxPadding(pre) != 0 {
        var i :| 0 <= i < |pre| && Pad(pre[i]) == MaxPadding(pre);
        assert paths[i] == pre[i];
      }
    }
  }

  /** The padding never decreases as more sources are constructed. */
  lemma {:induction false} MaxPaddingMonotone(paths: seq<string>, more: seq<string>)
    ensures MaxPadding(paths) <= MaxPadding(paths + more)
  {
    if more != [] {
      var pre := more[..|more| - 1];
      MaxPaddingMonotone(paths, pre);
      assert (paths + more)[..|paths + more| - 1] == paths + pre;
    } else {
      assert paths + more == paths;
    }
  }
}
