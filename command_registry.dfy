/** The command registry and the fluent builder of
    src/modules/commands/commands.ts: `CommandsManager.add`, `createCommand`,
    `setCallback`, `addParameter`, `closeCommand` and `search_command`.

    The builder works on values: every step of the chain spreads the command
    into a fresh object, so a chain of calls is a chain of value updates. */
module CommandRegistry {
  import opened Wrappers
  import opened Text
  import opened CommandTypes
  import opened Coercion

  // ---------------------------------------------------------------- builder

  /** `createCommand(alias, data)`: no parameters yet, the default options
      (`adminOnly` and `needQuotedMessage` false) overridden by the given
      ones, the given info and the empty callback. */
  function CreateCommand(alias: seq<string>, data: Option<CommandData>): (c: Command)
    ensures c.alias == alias && c.parameters.None? && !c.hasOptionalValues && c.callback == NoOp
    ensures c.options.adminOnly <==>
      data.Some? && data.value.options.Some? && data.value.options.value.adminOnly == Some(true)
    ensures c.options.needQuotedMessage <==>
      data.Some? && data.value.options.Some? && data.value.options.value.needQuotedMessage == Some(true)
    ensures c.info == if data.Some? then data.value.info else None
  {
    var given := if data.Some? && data.value.options.Some? then data.value.options.value else CommandOptionsInput(None, None);
    Command(alias, None, false,
      CommandOptions(given.adminOnly.GetOr(false), given.needQuotedMessage.GetOr(false)),
      if data.Some? then data.value.info else None,
      NoOp)
  }

  /** `setCallback(callback)`: the same command with that callback. */
  function SetCallback(c: Command, callback: Callback): (r: Command)
    ensures r.callback == callback
    ensures r.(callback := c.callback) == c
  {
    c.(callback := callback)
  }

  /** The parameter info `{ ...parameterDefaultInfo, ...info }`: a field left
      out is 'UNDEFINED' for the name and the example and '' for the
      description. */
  function MergeInfo(info: Option<ParamInfoInput>): (r: ParamInfo)
    ensures info.Some? && info.value.name.Some? ==> r.name == info.value.name.value
    ensures !(info.Some? && info.value.name.Some?) ==> r.name == "UNDEFINED"
    ensures info.Some? && info.value.description.Some? ==> r.description == info.value.description.value
    ensures !(info.Some? && info.value.description.Some?) ==> r.description == ""
    ensures info.Some? && info.value.example.Some? ==> r.example == info.value.example.value
    ensures !(info.Some? && info.value.example.Some?) ==> r.example == "UNDEFINED"
  {
    match info
    case None => ParamInfo("UNDEFINED", "", "UNDEFINED")
    case Some(i) => ParamInfo(i.name.GetOr("UNDEFINED"), i.description.GetOr(""), i.example.GetOr("UNDEFINED"))
  }

  /** The default passes `addParameter`'s check: `null` and `undefined` pass,
      any other value passes when one of the types is its `argument_type`. */
  predicate DefaultAccepted(d: Value, types: seq<ParamType>) {
    match ArgumentType(d)
    case None => true
    case Some(t) => t in types
  }

  /** `${value}` for a default value. */
  function ValueText(v: Value): string {
    match v
    case Str(s) => s
    case Num(n) => IntToString(n)
    case Bool(b) => if b then "true" else "false"
    case Null => "null"
    case Undefined => "undefined"
  }

  /** `typeof value`. */
  function TypeOf(v: Value): string {
    match v
    case Str(_) => "string"
    case Num(_) => "number"
    case Bool(_) => "boolean"
    case Null => "object"
    case Undefined => "undefined"
  }

  /** The message `addParameter` throws for a default of the wrong type. */
  function DefaultTypeError(d: Value, types: seq<ParamType>): string {
    "The dafault value \"" + ValueText(d) + "\" is of type \"" + TypeOf(d) +
    "\" and doesn't match any of the types: [" + Join(TypeNames(types), ", ") + "]\n"
  }

  /** The declared parameters, `[]` while they are still `null`. */
  function ParamsOf(c: Command): seq<Parameter> {
    if c.parameters.Some? then c.parameters.value else []
  }

  /** `addParameter(type, info, defaultValue)`: throws for a default whose
      type is not declared; otherwise appends the parameter, which is
      optional exactly when a default (possibly `null`) was given, and marks
      the command as having optional values in that case. */
  function AddParameter(c: Command, types: seq<ParamType>, info: Option<ParamInfoInput>, d: Value): (r: Result<Command, string>)
    ensures r.Failure? <==> !DefaultAccepted(d, types)
    ensures r.Failure? ==> r.error == DefaultTypeError(d, types)
    ensures r.Success? ==>
      r.value.parameters.Some? &&
      var ps := r.value.parameters.value;
      |ps| == |ParamsOf(c)| + 1 && ps[..|ps| - 1] == ParamsOf(c) &&
      ps[|ps| - 1].types == types && ps[|ps| - 1].defaultValue == d && ps[|ps| - 1].info == MergeInfo(info) &&
      (ps[|ps| - 1].isOptional <==> !d.Undefined?) &&
      (r.value.hasOptionalValues <==> c.hasOptionalValues || !d.Undefined?) &&
      r.value.alias == c.alias && r.value.options == c.options &&
      r.value.info == c.info && r.value.callback == c.callback
  {
    if !DefaultAccepted(d, types) then Failure(DefaultTypeError(d, types))
    else
      var optional := !d.Undefined?;
      var ps := ParamsOf(c) + [Parameter(types, d, optional, MergeInfo(info))];
      assert ps[..|ps| - 1] == ParamsOf(c);
      Success(c.(parameters := Some(ps), hasOptionalValues := c.hasOptionalValues || optional))
  }

  /** A number default is accepted for a `'number'` parameter but not for a
      `'string'`-only one: the default check does not go through the
      string-accepts-all rule of `verify_args`. */
  lemma NumberDefaultNeedsNumberType(c: Command, n: int, info: Option<ParamInfoInput>)
    ensures AddParameter(c, [NumberType], info, Num(n)).Success?
    ensures AddParameter(c, [StringType], info, Num(n)).Failure?
  {
  }

  /** A `null` default makes the parameter optional; so does every other default. */
  lemma NullDefaultIsOptional(c: Command, types: seq<ParamType>, info: Option<ParamInfoInput>)
    ensures AddParameter(c, types, info, Null).Success?
    ensures AddParameter(c, types, info, Null).value.hasOptionalValues
  {
  }

  // --------------------------------------------------- optional parameters

  /** No optional parameter is immediately followed by a required one. */
  predicate NoOptionalBeforeRequired(ps: seq<Parameter>) {
    forall i :: 0 <= i < |ps| - 1 ==> !(ps[i].isOptional && !ps[i + 1].isOptional)
  }

  /** Every parameter after an optional one is optional. */
  predicate OptionalsFormSuffix(ps: seq<Parameter>) {
    forall i, j :: 0 <= i < j < |ps| && ps[i].isOptional ==> ps[j].isOptional
  }

  lemma {:induction false} OptionalSpreads(ps: seq<Parameter>, i: nat, j: nat)
    requires NoOptionalBeforeRequired(ps)
    requires i < j < |ps| && ps[i].isOptional
    ensures ps[j].isOptional
    decreases j - i
  {
    if j > i + 1 {
      OptionalSpreads(ps, i, j - 1);
      assert !(ps[j - 1].isOptional && !ps[j].isOptional);
    } else {
      assert !(ps[i].isOptional && !ps[i + 1].isOptional);
    }
  }

  /** The adjacent-pair check of `closeCommand` accepts exactly the
      parameter lists whose optional parameters come last. */
  lemma OrderCheckIsSuffix(ps: seq<Parameter>)
    ensures NoOptionalBeforeRequired(ps) <==> OptionalsFormSuffix(ps)
  {
    if NoOptionalBeforeRequired(ps) {
      forall i, j | 0 <= i < j < |ps| && ps[i].isOptional
        ensures ps[j].isOptional
      {
        OptionalSpreads(ps, i, j);
      }
    }
    if OptionalsFormSuffix(ps) {
      forall i | 0 <= i < |ps| - 1
        ensures !(ps[i].isOptional && !ps[i + 1].isOptional)
      {
        if ps[i].isOptional {
          assert ps[i + 1].isOptional;
        }
      }
    }
  }

  /** The loop of `closeCommand` over adjacent parameters. */
  method CheckOptionalOrder(ps: seq<Parameter>) returns (ok: bool)
    ensures ok <==> NoOptionalBeforeRequired(ps)
  {
    if |ps| > 1 {
      var i := 0;
      while i < |ps| - 1
        invariant 0 <= i <= |ps| - 1
        invariant forall j :: 0 <= j < i ==> !(ps[j].isOptional && !ps[j + 1].isOptional)
      {
        if ps[i].isOptional && !ps[i + 1].isOptional {
          return false;
        }
        i := i + 1;
      }
    }
    return true;
  }

  /** The message `closeCommand` throws. */
  const OrderError := "Optional parameters must be placed at the end of the command.\n"

  // ------------------------------------------------------- alias filtering

  /** `s.splice(i, 1)` on an array: removes position `i`, or nothing once `i`
      is past the end. */
  function Splice(s: seq<string>, i: nat): (r: seq<string>)
    ensures i < |s| ==> r == s[..i] + s[i + 1..]
    ensures i >= |s| ==> r == s
  {
    if i < |s| then s[..i] + s[i + 1..] else s
  }

  /** How many of the first `k` aliases are already in use. */
  function Collisions(aliases: seq<string>, used: set<string>, k: nat): (n: nat)
    requires k <= |aliases|
    ensures n <= k
  {
    if k == 0 then 0
    else Collisions(aliases, used, k - 1) + (if aliases[k - 1] in used then 1 else 0)
  }

  /** The copy `add` filters after `k` steps, as written: each alias in use
      is spliced out of the shrinking copy at its index in the original list. */
  function StaleFilter(aliases: seq<string>, used: set<string>, k: nat): seq<string>
    requires k <= |aliases|
  {
    if k == 0 then aliases
    else if aliases[k - 1] in used then Splice(StaleFilter(aliases, used, k - 1), k - 1)
    else StaleFilter(aliases, used, k - 1)
  }

  /** The first `k` aliases that are not in use, in order. */
  function Unused(aliases: seq<string>, used: set<string>, k: nat): (r: seq<string>)
    requires k <= |aliases|
    ensures |r| == k - Collisions(aliases, used, k)
  {
    if k == 0 then []
    else Unused(aliases, used, k - 1) + (if aliases[k - 1] in used then [] else [aliases[k - 1]])
  }

  /** `Unused` keeps exactly the aliases not in use. */
  lemma {:induction false} UnusedMembers(aliases: seq<string>, used: set<string>, k: nat)
    requires k <= |aliases|
    ensures forall a :: a in Unused(aliases, used, k) <==> a in aliases[..k] && a !in used
  {
    if k > 0 {
      UnusedMembers(aliases, used, k - 1);
      assert aliases[..k] == aliases[..k - 1] + [aliases[k - 1]];
    }
  }

  /** With no collision among the first `k`, nothing is filtered out. */
  lemma {:induction false} NoCollisionKeepsAll(aliases: seq<string>, used: set<string>, k: nat)
    requires k <= |aliases| && Collisions(aliases, used, k) == 0
    ensures Unused(aliases, used, k) == aliases[..k]
  {
    if k > 0 {
      NoCollisionKeepsAll(aliases, used, k - 1);
      assert aliases[..k] == aliases[..k - 1] + [aliases[k - 1]];
    }
  }

  /** `add` throws exactly when every one of its aliases is in use (so
      always for an empty alias list). */
  lemma {:induction false} AllCollideIffAllUsed(aliases: seq<string>, used: set<string>, k: nat)
    requires k <= |aliases|
    ensures Collisions(aliases, used, k) == k <==> forall i :: 0 <= i < k ==> aliases[i] in used
  {
    if k > 0 {
      AllCollideIffAllUsed(aliases, used, k - 1);
    }
  }

  /** With at most one collision the as-written filter removes exactly the
      alias in use and keeps the others in order. */
  lemma {:induction false} StaleFilterOneCollision(aliases: seq<string>, used: set<string>, k: nat)
    requires k <= |aliases| && Collisions(aliases, used, k) <= 1
    ensures StaleFilter(aliases, used, k) == Unused(aliases, used, k) + aliases[k..]
  {
    if k > 0 {
      StaleFilterOneCollision(aliases, used, k - 1);
      assert aliases[k - 1..] == [aliases[k - 1]] + aliases[k..];
      if aliases[k - 1] in used {
        NoCollisionKeepsAll(aliases, used, k - 1);
        assert aliases[..k - 1] + aliases[k - 1..] == aliases;
      }
    }
  }

  /** With two collisions the stale index removes the wrong alias: registering
      ["x", "y", "z"] while "x" and "y" are in use keeps "y", which is in use,
      and drops "z", which is free. */
  lemma StaleFilterDropsWrongAlias()
    ensures StaleFilter(["x", "y", "z"], {"x", "y"}, 3) == ["y"]
    ensures Unused(["x", "y", "z"], {"x", "y"}, 3) == ["z"]
  {
    var s: seq<string> := ["x", "y", "z"];
    var used: set<string> := {"x", "y"};
    assert s[0] in used && s[1] in used && s[2] !in used;
    assert StaleFilter(s, used, 1) == ["y", "z"];
    assert StaleFilter(s, used, 2) == ["y"];
  }

  /** The filter `add` evidently intends: the index of the alias in the copy
      is its original index minus the aliases already removed. */
  function IntendedFilter(aliases: seq<string>, used: set<string>, k: nat): seq<string>
    requires k <= |aliases|
  {
    if k == 0 then aliases
    else if aliases[k - 1] in used then
      Splice(IntendedFilter(aliases, used, k - 1), k - 1 - Collisions(aliases, used, k - 1))
    else IntendedFilter(aliases, used, k - 1)
  }

  /** The intended filter removes exactly the aliases in use, whatever the
      number of collisions. */
  lemma {:induction false} IntendedFilterIsUnused(aliases: seq<string>, used: set<string>, k: nat)
    requires k <= |aliases|
    ensures IntendedFilter(aliases, used, k) == Unused(aliases, used, k) + aliases[k..]
  {
    if k > 0 {
      IntendedFilterIsUnused(aliases, used, k - 1);
      assert aliases[k - 1..] == [aliases[k - 1]] + aliases[k..];
    }
  }

  // ------------------------------------------------------------- registry

  /** Every alias points at a registered command, and that command lists
      the alias among its own. */
  predicate RegistryValid(list: seq<Command>, alias: map<string, nat>) {
    forall a :: a in alias ==> alias[a] < |list| && a in list[alias[a]].alias
  }

  /** `search_command(name)`: the command an alias maps to; an empty name
      finds nothing. */
  function Lookup(list: seq<Command>, alias: map<string, nat>, name: string): (r: Option<Command>)
    requires RegistryValid(list, alias)
    ensures r.Some? <==> |name| > 0 && name in alias
    ensures r.Some? ==> r.value == list[alias[name]]
  {
    if |name| > 0 && name in alias then Some(list[alias[name]]) else None
  }

  /** `names.forEach(a => this.alias.set(a, index))` over the first `k` names. */
  function Registered(alias: map<string, nat>, names: seq<string>, k: nat, index: nat): map<string, nat>
    requires k <= |names|
  {
    if k == 0 then alias else Registered(alias, names, k - 1, index)[names[k - 1] := index]
  }

  /** The registered names map to the new index; every other key keeps its
      entry. */
  lemma {:induction false} RegisteredMeaning(alias: map<string, nat>, names: seq<string>, k: nat, index: nat)
    requires k <= |names|
    ensures forall a :: a in Registered(alias, names, k, index) <==> a in alias || a in names[..k]
    ensures forall a :: a in names[..k] ==> Registered(alias, names, k, index)[a] == index
    ensures forall a :: a in alias && a !in names[..k] ==> Registered(alias, names, k, index)[a] == alias[a]
  {
    if k > 0 {
      RegisteredMeaning(alias, names, k - 1, index);
      assert names[..k] == names[..k - 1] + [names[k - 1]];
    }
  }

  /** The message `add` throws when all aliases are in use. */
  function AddError(aliases: seq<string>): string {
    "The command could not be added to the list, aliases [" + Join(aliases, ", ") +
    "] are being used by other command(s)."
  }

  /** The outcome of a registration and the registry after it. */
  datatype Registration = Registration(result: Result<Command, string>, list: seq<Command>, alias: map<string, nat>)

  /** `CommandsManager.add` as written: throws, changing nothing, when every
      alias collides; otherwise registers the command with the filtered
      aliases, each mapped to the new command's index. */
  function AddSpec(list: seq<Command>, alias: map<string, nat>, c: Command): Registration {
    if Collisions(c.alias, alias.Keys, |c.alias|) == |c.alias| then
      Registration(Failure(AddError(c.alias)), list, alias)
    else
      var filtered := StaleFilter(c.alias, alias.Keys, |c.alias|);
      var added := c.(alias := filtered);
      Registration(Success(added), list + [added], Registered(alias, filtered, |filtered|, |list|))
  }

  /** `add` fails exactly when every alias is in use, and then leaves the
      registry as it was; otherwise the list grows by the command. */
  lemma AddFailsIffAllUsed(list: seq<Command>, alias: map<string, nat>, c: Command)
    ensures AddSpec(list, alias, c).result.Failure? <==> forall i :: 0 <= i < |c.alias| ==> c.alias[i] in alias
    ensures AddSpec(list, alias, c).result.Failure? ==>
      AddSpec(list, alias, c).list == list && AddSpec(list, alias, c).alias == alias
    ensures AddSpec(list, alias, c).result.Success? ==>
      AddSpec(list, alias, c).list == list + [AddSpec(list, alias, c).result.value]
  {
    AllCollideIffAllUsed(c.alias, alias.Keys, |c.alias|);
  }

  /** A registration keeps the registry valid; afterwards every kept alias
      finds the new command and every other name finds what it found before. */
  lemma AddKeepsRegistryValid(list: seq<Command>, alias: map<string, nat>, c: Command, name: string)
    requires RegistryValid(list, alias)
    ensures RegistryValid(AddSpec(list, alias, c).list, AddSpec(list, alias, c).alias)
    ensures var reg := AddSpec(list, alias, c);
      reg.result.Success? ==>
        (|name| > 0 && name in reg.result.value.alias ==> Lookup(reg.list, reg.alias, name) == Some(reg.result.value))
    ensures var reg := AddSpec(list, alias, c);
      reg.result.Failure? || name !in reg.result.value.alias ==> Lookup(reg.list, reg.alias, name) == Lookup(list, alias, name)
  {
    var reg := AddSpec(list, alias, c);
    if reg.result.Success? {
      var filtered := reg.result.value.alias;
      RegisteredMeaning(alias, filtered, |filtered|, |list|);
      assert filtered[..|filtered|] == filtered;
    }
  }

  /** With the intended filter a registration never takes over an alias
      another command holds. */
  lemma IntendedNeverSteals(list: seq<Command>, alias: map<string, nat>, c: Command, name: string)
    requires RegistryValid(list, alias) && name in alias
    ensures name !in IntendedFilter(c.alias, alias.Keys, |c.alias|)
  {
    IntendedFilterIsUnused(c.alias, alias.Keys, |c.alias|);
    UnusedMembers(c.alias, alias.Keys, |c.alias|);
    assert c.alias[|c.alias|..] == [];
  }

  /** As written, a registration can take over an alias another command
      holds: "y" moves from command 0 to the new command 1. */
  lemma AddStealsAlias(old0: Command, c: Command)
    requires c.alias == ["x", "y", "z"]
    ensures var reg := AddSpec([old0], map["x" := 0, "y" := 0], c);
      reg.result.Success? && "y" in reg.alias && reg.alias["y"] == 1
  {
    var alias := map["x" := 0, "y" := 0];
    assert alias.Keys == {"x", "y"};
    StaleFilterDropsWrongAlias();
    RegisteredMeaning(alias, ["y"], 1, 1);
    assert ["y"][..1] == ["y"];
  }

  /** `CommandsManager`: the registered commands and the alias index. */
  class CommandsManager {
    var list: seq<Command>
    var alias: map<string, nat>

    ghost predicate Valid()
      reads this
    {
      RegistryValid(list, alias)
    }

    constructor()
      ensures list == [] && alias == map[] && Valid()
    {
      list := [];
      alias := map[];
    }

    /** `search_command(name)` against this registry. */
    function Search(name: string): (r: Option<Command>)
      reads this
      requires Valid()
      ensures r == Lookup(list, alias, name)
    {
      Lookup(list, alias, name)
    }

    /** `add(command)`: the collision loop over the original aliases, the
        throw when all collide, then the alias index and the list push. */
    method Add(c: Command) returns (r: Result<Command, string>)
      requires Valid()
      modifies this
      ensures Valid()
      ensures Registration(r, list, alias) == AddSpec(old(list), old(alias), c)
    {
      AddKeepsRegistryValid(list, alias, c, "");
      var collisions := 0;
      var filtered := c.alias;
      var i := 0;
      while i < |c.alias|
        invariant 0 <= i <= |c.alias|
        invariant list == old(list) && alias == old(alias)
        invariant collisions == Collisions(c.alias, alias.Keys, i)
        invariant filtered == StaleFilter(c.alias, alias.Keys, i)
      {
        if c.alias[i] in alias {
          collisions := collisions + 1;
          filtered := Splice(filtered, i);
        }
        i := i + 1;
      }
      if collisions == |c.alias| {
        return Failure(AddError(c.alias));
      }
      var commandIndex := |list|;
      var j := 0;
      while j < |filtered|
        invariant 0 <= j <= |filtered|
        invariant list == old(list)
        invariant alias == Registered(old(alias), filtered, j, commandIndex)
      {
        alias := alias[filtered[j] := commandIndex];
        j := j + 1;
      }
      var added := c.(alias := filtered);
      list := list + [added];
      return Success(added);
    }

    /** `closeCommand()`: the optional-order check, then `add`. */
    method CloseCommand(c: Command) returns (r: Result<Command, string>)
      requires Valid()
      modifies this
      ensures Valid()
      ensures !NoOptionalBeforeRequired(ParamsOf(c)) ==>
        r == Failure(OrderError) && list == old(list) && alias == old(alias)
      ensures NoOptionalBeforeRequired(ParamsOf(c)) ==>
        Registration(r, list, alias) == AddSpec(old(list), old(alias), c)
    {
      if c.parameters.Some? {
        var ok := CheckOptionalOrder(c.parameters.value);
        if !ok {
          return Failure(OrderError);
        }
      }
      r := Add(c);
    }
  }
}
