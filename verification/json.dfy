/**
 A request body as the handlers see it: a JSON object, kept as the ordered list of
 its members. Looking a key up follows the dictionary Python builds from such an
 object, in which a later member with the same key replaces an earlier one.
 */
module Json {
  import opened Options

  datatype JsonValue =
    | JNull
    | JBool(b: bool)
    | JInt(i: int)
    | JFloat(f: real)
    | JString(s: string)
    | JArray(items: seq<JsonValue>)
    | JObject(members: seq<(string, JsonValue)>)

  type Object = seq<(string, JsonValue)>

  /** `i` is the position of the last member of `obj` whose key is `key`. */
  ghost predicate IsLastWith(obj: Object, key: string, i: int)
  {
    && 0 <= i < |obj|
    && obj[i].0 == key
    && forall j :: i < j < |obj| ==> obj[j].0 != key
  }

  /** `data.get(key)`: the value of the last member named `key`, if any. */
  function Get(obj: Object, key: string): Option<JsonValue>
    decreases |obj|
  {
    if |obj| == 0 then None
    else if obj[|obj| - 1].0 == key then Some(obj[|obj| - 1].1)
    else Get(obj[..|obj| - 1], key)
  }

  /** `Get` finds a value exactly when some member has the key, and it is the last such member's. */
  lemma {:induction false} GetFindsLast(obj: Object, key: string)
    ensures Get(obj, key).None? <==> forall i :: 0 <= i < |obj| ==> obj[i].0 != key
    ensures Get(obj, key).Some? ==> exists i :: IsLastWith(obj, key, i) && obj[i].1 == Get(obj, key).value
    decreases |obj|
  {
    if |obj| > 0 && obj[|obj| - 1].0 != key {
      var front := obj[..|obj| - 1];
      GetFindsLast(front, key);
      assert forall i :: 0 <= i < |front| ==> front[i] == obj[i];
      if Get(front, key).Some? {
        var i :| IsLastWith(front, key, i) && front[i].1 == Get(front, key).value;
        assert IsLastWith(obj, key, i);
      }
    } else if |obj| > 0 {
      assert IsLastWith(obj, key, |obj| - 1);
    }
  }

  /** Members appended later take precedence over the members before them. */
  lemma {:induction false} GetConcat(a: Object, b: Object, key: string)
    ensures Get(a + b, key) == if Get(b, key).Some? then Get(b, key) else Get(a, key)
    decreases |b|
  {
    if |b| == 0 {
      assert a + b == a;
    } else {
      var b' := b[..|b| - 1];
      assert (a + b)[..|a + b| - 1] == a + b';
      GetConcat(a, b', key);
    }
  }

  /** The object with the members at `i` and `i + 1` exchanged. */
  function Swap(obj: Object, i: nat): (r: Object)
    requires i + 1 < |obj|
    ensures |r| == |obj|
    ensures r[i] == obj[i + 1] && r[i + 1] == obj[i]
    ensures forall j :: 0 <= j < |obj| && j != i && j != i + 1 ==> r[j] == obj[j]
  {
    obj[..i] + [obj[i + 1], obj[i]] + obj[i + 2..]
  }

  /** Reordering two neighbouring members with different keys changes no lookup. */
  lemma SwapKeepsGet(obj: Object, i: nat, key: string)
    requires i + 1 < |obj|
    requires obj[i].0 != obj[i + 1].0
    ensures Get(Swap(obj, i), key) == Get(obj, key)
  {
    var p, s := obj[..i], obj[i + 2..];
    var x, y := obj[i], obj[i + 1];
    assert obj == (p + [x, y]) + s;
    assert Swap(obj, i) == (p + [y, x]) + s;
    GetConcat(p + [x, y], s, key);
    GetConcat(p + [y, x], s, key);
    GetConcat(p, [x, y], key);
    GetConcat(p, [y, x], key);
    assert [x, y][..1] == [x];
    assert [y, x][..1] == [y];
  }

  /** With a repeated key the order does matter: of two members named `key`, the later one wins. */
  lemma DuplicateOrderMatters(p: Object, key: string, v1: JsonValue, v2: JsonValue, s: Object)
    requires forall j :: 0 <= j < |s| ==> s[j].0 != key
    ensures Get(p + [(key, v1), (key, v2)] + s, key) == Some(v2)
    ensures Get(p + [(key, v2), (key, v1)] + s, key) == Some(v1)
  {
    GetFindsLast(s, key);
    var a, b := p + [(key, v1), (key, v2)], p + [(key, v2), (key, v1)];
    assert a[|a| - 1] == (key, v2) && b[|b| - 1] == (key, v1);
    GetConcat(a, s, key);
    GetConcat(b, s, key);
  }

  /** Two objects that answer the same for every key in `keys`. */
  ghost predicate AgreeOn(a: Object, b: Object, keys: set<string>)
  {
    forall k :: k in keys ==> Get(a, k) == Get(b, k)
  }

  /** Exchanging two neighbouring members with different keys keeps every lookup. */
  lemma SwapAgrees(obj: Object, i: nat, keys: set<string>)
    requires i + 1 < |obj| && obj[i].0 != obj[i + 1].0
    ensures AgreeOn(Swap(obj, i), obj, keys)
  {
    forall k | k in keys
      ensures Get(Swap(obj, i), k) == Get(obj, k)
    {
      SwapKeepsGet(obj, i, k);
    }
  }
}
