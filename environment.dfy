/** Spring's `StandardEnvironment` as the launcher uses it: an ordered list of
    named property sources (`MutablePropertySources`), a lookup of
    `${key:default}` that takes the first source defining the key, and the
    insertion of the `commandArgs` source. */
module Environment {
  import opened Wrappers

  datatype PropertySource = PropertySource(name: string, properties: map<string, string>)

  /** The name the launcher gives the command-line property source. */
  const COMMAND_ARGS := "commandArgs"

  /** Source `i` is the first, in precedence order, that defines `key`. */
  ghost predicate Supplies(sources: seq<PropertySource>, key: string, i: int)
  {
    && 0 <= i < |sources|
    && key in sources[i].properties
    && forall j :: 0 <= j < i ==> key !in sources[j].properties
  }

  /** `environment.resolvePlaceholders("${key:default}")`: the value from the
      first source that defines `key`, otherwise `default`. */
  function Resolve(sources: seq<PropertySource>, key: string, default: string): string
  {
    if |sources| == 0 then default
    else if key in sources[0].properties then sources[0].properties[key]
    else Resolve(sources[1..], key, default)
  }

  /** The lookup gives the value of the first source defining the key, and
      the default exactly when no source defines it. */
  lemma {:induction false} ResolveFirstDefining(sources: seq<PropertySource>, key: string, default: string)
    ensures (forall i :: 0 <= i < |sources| ==> key !in sources[i].properties) ==>
              Resolve(sources, key, default) == default
    ensures forall i :: Supplies(sources, key, i) ==> Resolve(sources, key, default) == sources[i].properties[key]
  {
    if |sources| > 0 && key !in sources[0].properties {
      ResolveFirstDefining(sources[1..], key, default);
      assert forall i :: Supplies(sources, key, i) ==> i > 0 && Supplies(sources[1..], key, i - 1);
    }
  }

  /** No two sources share a name: `MutablePropertySources` removes an existing
      source of the same name before adding one. */
  ghost predicate NamesUnique(sources: seq<PropertySource>)
  {
    forall i, j :: 0 <= i < j < |sources| ==> sources[i].name != sources[j].name
  }

  /** `properties.contains(name)` */
  predicate Contains(sources: seq<PropertySource>, name: string)
  {
    exists i :: 0 <= i < |sources| && sources[i].name == name
  }

  /** The position of the first source called `name`, as
      `MutablePropertySources.replace` finds it. */
  function IndexOf(sources: seq<PropertySource>, name: string): (r: Option<nat>)
    ensures r.None? <==> !Contains(sources, name)
    ensures r.Some? ==> r.value < |sources| && sources[r.value].name == name
    ensures r.Some? ==> forall j :: 0 <= j < r.value ==> sources[j].name != name
  {
    if |sources| == 0 then None
    else if sources[0].name == name then Some(0)
    else
      match IndexOf(sources[1..], name)
      case None => None
      case Some(k) => Some(k + 1)
  }

  /** The sources after `addCommandLineProperties` with a non-empty argument
      list: `source` is put first when no `commandArgs` source exists and
      replaces the existing one in place otherwise. */
  function WithCommandArgs(sources: seq<PropertySource>, source: PropertySource): seq<PropertySource>
    requires source.name == COMMAND_ARGS
  {
    match IndexOf(sources, COMMAND_ARGS)
    case None => [source] + sources
    case Some(i) => sources[i := source]
  }

  /** The sources other than those called `name`, in order. */
  function Without(sources: seq<PropertySource>, name: string): seq<PropertySource>
  {
    if |sources| == 0 then []
    else (if sources[0].name == name then [] else [sources[0]]) + Without(sources[1..], name)
  }

  /** How many sources are called `name`. */
  function CountNamed(sources: seq<PropertySource>, name: string): nat
  {
    if |sources| == 0 then 0
    else (if sources[0].name == name then 1 else 0) + CountNamed(sources[1..], name)
  }

  lemma {:induction false} CountNamedUnique(sources: seq<PropertySource>, name: string)
    requires NamesUnique(sources)
    ensures CountNamed(sources, name) == if Contains(sources, name) then 1 else 0
  {
    if |sources| > 0 {
      CountNamedUnique(sources[1..], name);
      if sources[0].name == name {
        assert !Contains(sources[1..], name) by {
          forall i | 0 <= i < |sources[1..]| ensures sources[1..][i].name != name {
            assert sources[1..][i] == sources[i + 1];
          }
        }
      } else {
        assert Contains(sources, name) ==> Contains(sources[1..], name) by {
          if Contains(sources, name) {
            var i :| 0 <= i < |sources| && sources[i].name == name;
            assert sources[1..][i - 1] == sources[i];
          }
        }
        assert Contains(sources[1..], name) ==> Contains(sources, name) by {
          if Contains(sources[1..], name) {
            var i :| 0 <= i < |sources[1..]| && sources[1..][i].name == name;
            assert sources[i + 1] == sources[1..][i];
          }
        }
      }
    }
  }

  /** Replacing a source with one of the same name leaves the other sources
      as they were. */
  lemma {:induction false} WithoutReplaced(sources: seq<PropertySource>, i: nat, source: PropertySource)
    requires i < |sources| && sources[i].name == source.name
    ensures Without(sources[i := source], source.name) == Without(sources, source.name)
  {
    if i > 0 {
      WithoutReplaced(sources[1..], i - 1, source);
      assert sources[i := source][1..] == sources[1..][i - 1 := source];
    } else {
      assert sources[i := source][1..] == sources[1..];
    }
  }

  /** Adding the command-line source keeps names unique, leaves every other
      source untouched and in order, yields exactly one `commandArgs` source,
      and puts it first when there was none before. */
  lemma WithCommandArgsProperties(sources: seq<PropertySource>, source: PropertySource)
    requires source.name == COMMAND_ARGS
    requires NamesUnique(sources)
    ensures NamesUnique(WithCommandArgs(sources, source))
    ensures Without(WithCommandArgs(sources, source), COMMAND_ARGS) == Without(sources, COMMAND_ARGS)
    ensures CountNamed(WithCommandArgs(sources, source), COMMAND_ARGS) == 1
    ensures !Contains(sources, COMMAND_ARGS) ==> WithCommandArgs(sources, source)[0] == source
    ensures |WithCommandArgs(sources, source)| == |sources| + (if Contains(sources, COMMAND_ARGS) then 0 else 1)
    ensures source in WithCommandArgs(sources, source)
    ensures forall i :: 0 <= i < |sources| && sources[i].name == COMMAND_ARGS ==> WithCommandArgs(sources, source)[i] == source
  {
    var r := WithCommandArgs(sources, source);
    match IndexOf(sources, COMMAND_ARGS)
    case None =>
      assert r[1..] == sources;
      forall i, j | 0 <= i < j < |r| ensures r[i].name != r[j].name {
        if i == 0 { assert r[j] == sources[j - 1]; }
      }
      assert Contains(r, COMMAND_ARGS) by { assert r[0].name == COMMAND_ARGS; }
      CountNamedUnique(r, COMMAND_ARGS);
    case Some(k) =>
      WithoutReplaced(sources, k, source);
      assert r[k] == source;
      assert Contains(r, COMMAND_ARGS) by { assert r[k].name == COMMAND_ARGS; }
      CountNamedUnique(r, COMMAND_ARGS);
  }

  /** A command-line source put first wins every lookup of a key it defines. */
  lemma PrependedCommandArgsWin(sources: seq<PropertySource>, source: PropertySource, key: string, default: string)
    requires source.name == COMMAND_ARGS && !Contains(sources, COMMAND_ARGS)
    requires key in source.properties
    ensures Resolve(WithCommandArgs(sources, source), key, default) == source.properties[key]
  {
    assert Supplies(WithCommandArgs(sources, source), key, 0);
    ResolveFirstDefining(WithCommandArgs(sources, source), key, default);
  }
}
