/**
 * Dot-path lookup into the nested configuration dictionary
 * (`get_config_value` in src/config_loader.py). A loaded YAML document is a
 * `Value`; Python's `isinstance(value, dict)` is `Dict?`.
 */
module Config {
  import opened Wrappers
  import PyStr

  /** A YAML/JSON-like configuration value. */
  datatype Value =
    | Null
    | Bool(b: bool)
    | Int(i: int)
    | Float(f: real)
    | Str(s: string)
    | List(items: seq<Value>)
    | Dict(entries: map<string, Value>)

  /** Python truthiness of a configuration value. */
  predicate Truthy(v: Value)
  {
    match v
    case Null => false
    case Bool(b) => b
    case Int(i) => i != 0
    case Float(f) => f != 0.0
    case Str(s) => s != ""
    case List(items) => items != []
    case Dict(entries) => entries != map[]
  }

  /** `d.get(key, default)`. */
  function Get(d: map<string, Value>, key: string, default: Value): Value
  {
    if key in d then d[key] else default
  }

  /**
   * What the lookup loop computes on a list of keys: each step replaces the
   * current value by `value.get(key, default)`, and a non-dictionary met
   * while keys remain ends the walk with `default`.
   */
  function Lookup(value: Value, keys: seq<string>, default: Value): Value
    decreases |keys|
  {
    if keys == [] then value
    else if !value.Dict? then default
    else Lookup(Get(value.entries, keys[0], default), keys[1..], default)
  }

  /**
   * An independent reference: the value at the end of `keys` when every key
   * exists and every step but the last lands on a dictionary, and `None`
   * otherwise. It never looks at a default.
   */
  function Walk(value: Value, keys: seq<string>): Option<Value>
    decreases |keys|
  {
    if keys == [] then Some(value)
    else if value.Dict? && keys[0] in value.entries then Walk(value.entries[keys[0]], keys[1..])
    else None
  }

  /** `get_config_value(config, key_path, default)`. */
  method GetConfigValue(config: Value, keyPath: string, default: Value) returns (r: Value)
    ensures r == Lookup(config, PyStr.Split(keyPath, '.'), default)
  {
    var keys := PyStr.Split(keyPath, '.');
    var value := config;
    var i := 0;
    while i < |keys|
      invariant 0 <= i <= |keys|
      invariant Lookup(config, keys, default) == Lookup(value, keys[i..], default)
    {
      if value.Dict? {
        value := Get(value.entries, keys[i], default);
      } else {
        return default;
      }
      i := i + 1;
    }
    return value;
  }

  /** A path without dots is a single `config.get(key, default)`. */
  lemma SingleSegment(config: map<string, Value>, key: string, default: Value)
    requires '.' !in key
    ensures Lookup(Dict(config), PyStr.Split(key, '.'), default) == Get(config, key, default)
  {
    PyStr.SplitNoSeparator(key, '.');
  }

  /**
   * When every key of the path exists through nested dictionaries, the
   * lookup returns the leaf, whatever it is (a falsy value or `Null`
   * included) and whatever the default.
   */
  lemma {:induction false} PresentPathGivesLeaf(value: Value, keys: seq<string>, default: Value)
    requires Walk(value, keys).Some?
    ensures Lookup(value, keys, default) == Walk(value, keys).value
    decreases |keys|
  {
    if keys != [] {
      PresentPathGivesLeaf(value.entries[keys[0]], keys[1..], default);
    }
  }

  /**
   * With a default that is not a dictionary the lookup is the reference walk,
   * falling back to the default whenever the walk fails: a missing key or a
   * non-dictionary anywhere along the path yields `default`.
   */
  lemma {:induction false} NonDictDefault(value: Value, keys: seq<string>, default: Value)
    requires !default.Dict?
    ensures Lookup(value, keys, default) == Walk(value, keys).GetOr(default)
    decreases |keys|
  {
    if keys != [] && value.Dict? {
      if keys[0] in value.entries {
        NonDictDefault(value.entries[keys[0]], keys[1..], default);
      } else {
        NonDictDefault(default, keys[1..], default);
      }
    }
  }

  /**
   * Reaching a non-dictionary while keys remain returns `default`, even when
   * `default` is itself a dictionary.
   */
  lemma {:induction false} NonDictBeforeEnd(value: Value, keys: seq<string>, i: nat, default: Value)
    requires i < |keys|
    requires Walk(value, keys[..i]).Some? && !Walk(value, keys[..i]).value.Dict?
    ensures Lookup(value, keys, default) == default
    decreases i
  {
    if i > 0 {
      assert keys[..i][1..] == keys[1..][..i - 1];
      NonDictBeforeEnd(value.entries[keys[0]], keys[1..], i - 1, default);
    }
  }

  /**
   * A missing key replaces the current value by `default` and the walk goes on
   * inside `default` with the remaining keys.
   */
  lemma {:induction false} MissingKeyContinuesInDefault(value: Value, keys: seq<string>, i: nat, default: Value)
    requires i < |keys|
    requires Walk(value, keys[..i]).Some?
    requires Walk(value, keys[..i]).value.Dict?
    requires keys[i] !in Walk(value, keys[..i]).value.entries
    ensures Lookup(value, keys, default) == Lookup(default, keys[i + 1..], default)
    decreases i
  {
    if i > 0 {
      assert keys[..i][1..] == keys[1..][..i - 1];
      MissingKeyContinuesInDefault(value.entries[keys[0]], keys[1..], i - 1, default);
    }
  }

  /** Consecutive dots give an empty key: `"a..b"` is looked up as `a`, `""`, `b`. */
  lemma EmptySegment()
    ensures PyStr.Split("a..b", '.') == ["a", "", "b"]
  {
    PyStr.SplitJoin(["a", "", "b"], '.');
  }

  /** A missing middle key with a dictionary default resumes inside that default. */
  lemma DictDefaultExample()
    ensures Lookup(Dict(map["a" := Dict(map[])]), ["a", "b", "c"], Dict(map["c" := Int(5)])) == Int(5)
  {
    MissingKeyContinuesInDefault(Dict(map["a" := Dict(map[])]), ["a", "b", "c"], 1, Dict(map["c" := Int(5)]));
  }
}
