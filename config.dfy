/**
 * The program's configuration: a JSON document read with dotted key paths
 * (`Config.get`) and written the same way (`Config.set`).
 */
module Settings {
  import opened Wrappers
  import opened Text

  /** A JSON value as `json.load` produces it. */
  datatype Json =
    | Null
    | Bool(b: bool)
    | Int(i: int)
    | Real(r: real)
    | Str(s: string)
    | List(items: seq<Json>)
    | Object(fields: map<string, Json>)

  /**
   * The path walk of `Config.get`: descend through `keys` while the current
   * value is an object that has the next key; `default` as soon as it is not.
   */
  function Lookup(value: Json, keys: seq<string>, default: Json): Json {
    if keys == [] then value
    else if value.Object? && keys[0] in value.fields then Lookup(value.fields[keys[0]], keys[1..], default)
    else default
  }

  /**
   * The update of `Config.set`: descend through `keys`, creating an empty
   * object for each missing key but the last, and bind the last key to `v`.
   * `None` where Python raises `TypeError`, because a value on the way is not
   * an object; nothing has been changed at that point.
   */
  function Assign(node: Json, keys: seq<string>, v: Json): Option<Json>
    requires |keys| >= 1
    decreases |keys|
  {
    if !node.Object? then None
    else if |keys| == 1 then Some(Object(node.fields[keys[0] := v]))
    else
      var child := if keys[0] in node.fields then node.fields[keys[0]] else Object(map[]);
      match Assign(child, keys[1..], v)
      case None => None
      case Some(c) => Some(Object(node.fields[keys[0] := c]))
  }

  /** Reading back the path just written gives the value written. */
  lemma {:induction false} LookupAfterAssign(node: Json, keys: seq<string>, v: Json, default: Json)
    requires |keys| >= 1 && Assign(node, keys, v).Some?
    ensures Lookup(Assign(node, keys, v).value, keys, default) == v
    decreases |keys|
  {
    if |keys| > 1 {
      var child := if keys[0] in node.fields then node.fields[keys[0]] else Object(map[]);
      LookupAfterAssign(child, keys[1..], v, default);
    }
  }

  /** Two key paths part ways: after a common prefix they name different keys. */
  predicate Diverge(a: seq<string>, b: seq<string>) {
    exists i :: 0 <= i < |a| && i < |b| && a[..i] == b[..i] && a[i] != b[i]
  }

  /** Writing one path leaves every path that parts ways with it as it was. */
  lemma {:induction false} LookupElsewhereAfterAssign(node: Json, keys: seq<string>, v: Json, other: seq<string>, default: Json)
    requires |keys| >= 1 && Assign(node, keys, v).Some?
    requires Diverge(keys, other)
    ensures Lookup(Assign(node, keys, v).value, other, default) == Lookup(node, other, default)
    decreases |keys|
  {
    var i :| 0 <= i < |keys| && i < |other| && keys[..i] == other[..i] && keys[i] != other[i];
    if i > 0 {
      assert keys[0] == keys[..i][0] == other[..i][0] == other[0];
      var child := if keys[0] in node.fields then node.fields[keys[0]] else Object(map[]);
      assert Diverge(keys[1..], other[1..]) by {
        assert keys[1..][..i - 1] == keys[1..i] && other[1..][..i - 1] == other[1..i];
        assert keys[1..i] == keys[..i][1..] && other[1..i] == other[..i][1..];
        assert keys[1..][i - 1] == keys[i] && other[1..][i - 1] == other[i];
      }
      LookupElsewhereAfterAssign(child, keys[1..], v, other[1..], default);
      var c := Assign(child, keys[1..], v).value;
      assert Assign(node, keys, v).value == Object(node.fields[keys[0] := c]);
    } else {
      LookupOtherKey(node, keys, v, other, default);
    }
  }

  /** Writing below one key leaves the paths through any other key as they were. */
  lemma LookupOtherKey(node: Json, keys: seq<string>, v: Json, other: seq<string>, default: Json)
    requires |keys| >= 1 && Assign(node, keys, v).Some?
    requires |other| >= 1 && keys[0] != other[0]
    ensures Lookup(Assign(node, keys, v).value, other, default) == Lookup(node, other, default)
  {
    var f := Assign(node, keys, v).value.fields;
    assert f == node.fields[keys[0] := f[keys[0]]];
  }

  /**
   * The configuration as the program holds it once `load_config` has merged
   * the file over the defaults.
   */
  class Config {
    var config: Json

    constructor (loaded: Json)
      requires loaded.Object?
      ensures config == loaded
    {
      config := loaded;
    }

    /** `Config.get`: the value at the dotted `keyPath`, or `default`. */
    method Get(keyPath: string, default: Json) returns (r: Json)
      ensures r == Lookup(config, Split(keyPath, '.'), default)
    {
      var keys := Split(keyPath, '.');
      var value := config;
      var i := 0;
      while i < |keys|
        invariant 0 <= i <= |keys|
        invariant Lookup(value, keys[i..], default) == Lookup(config, keys, default)
      {
        if value.Object? && keys[i] in value.fields {
          assert keys[i..][1..] == keys[i + 1..];
          value := value.fields[keys[i]];
        } else {
          return default;
        }
        i := i + 1;
      }
      return value;
    }

    /**
     * `Config.set` without the save to `config.json`: `ok` is false where
     * Python raises, and the document is then unchanged.
     */
    method Set(keyPath: string, v: Json) returns (ok: bool)
      modifies this
      ensures var after := Assign(old(config), Split(keyPath, '.'), v);
        && ok == after.Some?
        && config == if ok then after.value else old(config)
    {
      var after := Assign(config, Split(keyPath, '.'), v);
      ok := after.Some?;
      if ok {
        config := after.value;
      }
    }
  }
}
