/**
 * The configuration document as json.load returns it. An object keeps its
 * members in document order; looking a key up and listing the keys follow
 * the dict json.load builds from them: for a repeated key the last value
 * wins, and each key is listed once, in the order of its first occurrence.
 */
module Json {
  import opened Wrappers

  datatype Json =
    | JNull
    | JBool(b: bool)
    | JNumber(n: int)
    | JString(s: string)
    | JArray(items: seq<Json>)
    | JObject(members: seq<(string, Json)>)

  /** dict[key]: the value of the last member named key, None for a KeyError. */
  function Get(members: seq<(string, Json)>, key: string): (r: Option<Json>)
    ensures r.Some? <==> exists i :: 0 <= i < |members| && members[i].0 == key
    ensures r.Some? ==>
      exists i :: 0 <= i < |members| && members[i] == (key, r.value)
        && forall j :: i < j < |members| ==> members[j].0 != key
  {
    if members == [] then None
    else if members[|members| - 1].0 == key then Some(members[|members| - 1].1)
    else Get(members[..|members| - 1], key)
  }

  /** dict.keys(): every key of the object, each once (KeysInFirstOrder gives the order). */
  function Keys(members: seq<(string, Json)>): (ks: seq<string>)
    ensures forall i, j :: 0 <= i < j < |ks| ==> ks[i] != ks[j]
    ensures forall k :: k in ks <==> exists i :: 0 <= i < |members| && members[i].0 == k
  {
    if members == [] then []
    else
      var ks := Keys(members[..|members| - 1]);
      var k := members[|members| - 1].0;
      if k in ks then ks else ks + [k]
  }

  /** Where key first occurs among the members; |members| when it does not occur. */
  function FirstIndex(members: seq<(string, Json)>, key: string): (p: nat)
    ensures p <= |members|
    ensures p < |members| <==> exists i :: 0 <= i < |members| && members[i].0 == key
    ensures p < |members| ==> members[p].0 == key
    ensures forall q :: 0 <= q < p && q < |members| ==> members[q].0 != key
  {
    if members == [] then 0
    else
      var p := FirstIndex(members[..|members| - 1], key);
      if p < |members| - 1 then p
      else if members[|members| - 1].0 == key then |members| - 1
      else |members|
  }

  /** dict.keys() lists the keys in the order of their first insertion. */
  lemma {:induction false} KeysInFirstOrder(members: seq<(string, Json)>)
    ensures forall i, j :: 0 <= i < j < |Keys(members)| ==>
      FirstIndex(members, Keys(members)[i]) < FirstIndex(members, Keys(members)[j])
  {
    if members != [] {
      var pre := members[..|members| - 1];
      KeysInFirstOrder(pre);
      var kp := Keys(pre);
      forall x | x in kp ensures FirstIndex(members, x) == FirstIndex(pre, x) < |pre| { }
      var k := members[|members| - 1].0;
      if k !in kp {
        assert FirstIndex(members, k) == |pre|;
      }
    }
  }

  /** Exactly two keys, both named, means there is no third key. */
  lemma {:induction false} TwoKeysAreThese(members: seq<(string, Json)>, a: string, b: string)
    requires |Keys(members)| == 2 && a != b
    requires Get(members, a).Some? && Get(members, b).Some?
    ensures forall k :: k in Keys(members) <==> k == a || k == b
  {
    var ks := Keys(members);
    assert a in ks && b in ks;
    var ia :| 0 <= ia < 2 && ks[ia] == a;
    var ib :| 0 <= ib < 2 && ks[ib] == b;
    assert ia + ib == 1;
    forall k | k in ks ensures k == a || k == b {
      var j :| 0 <= j < 2 && ks[j] == k;
    }
  }
}
