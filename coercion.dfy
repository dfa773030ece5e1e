/** `argument_type` and `verify_args` of src/modules/commands/commands.ts:
    classifying a token and converting, in place, the arguments of a command
    to the first declared type of each parameter that they match. */
module Coercion {
  import opened Wrappers
  import opened Text
  import opened CommandTypes
  import opened CommandMessages

  /** The words `/^si$|^no$|^true$|^false$/` matches (after case folding). */
  predicate IsBoolWord(w: string) {
    w == "si" || w == "no" || w == "true" || w == "false"
  }

  /** No digit string is a boolean word, whatever its case. */
  lemma DigitsAreNotBoolWords(s: string)
    requires IsDigits(s)
    ensures !IsBoolWord(Lower(s))
  {
    assert Lower(s)[0] == LowerChar(s[0]);
    assert IsDigit(Lower(s)[0]);
  }

  /** `argument_type`: `None` is JavaScript's `null`, for `null` and `undefined`. */
  function ArgumentType(v: Value): (r: Option<ParamType>)
    ensures v.Str? ==> (r == Some(BooleanType) <==> IsBoolWord(Lower(v.s)))
    ensures v.Str? ==> (r == Some(NumberType) <==> IsDigits(v.s))
    ensures v.Str? ==> (r == Some(StringType) <==> !IsBoolWord(Lower(v.s)) && !IsDigits(v.s))
    ensures r.None? <==> v.Null? || v.Undefined?
    ensures r != Some(AnyType)
  {
    match v
    case Str(s) =>
      assert IsDigits(s) ==> !IsBoolWord(Lower(s)) by {
        if IsDigits(s) { DigitsAreNotBoolWords(s); }
      }
      if IsBoolWord(Lower(s)) then Some(BooleanType)
      else if IsDigits(s) then Some(NumberType)
      else Some(StringType)
    case Num(_) => Some(NumberType)
    case Bool(_) => Some(BooleanType)
    case Null => None
    case Undefined => None
  }

  /** `/^"([^]*)"$|^'([^]*)'$/`: enclosed in a pair of double or single quotes. */
  predicate Quoted(tok: string) {
    |tok| >= 2 &&
    ((tok[0] == '"' && tok[|tok| - 1] == '"') || (tok[0] == '\'' && tok[|tok| - 1] == '\''))
  }

  /** Whether `verify_args` accepts the token for the declared type:
      `'any'` and `'string'` accept every token, the other types the tokens
      `argument_type` classifies as that type. */
  predicate Matches(tok: string, t: ParamType) {
    t == AnyType || t == StringType || ArgumentType(Str(tok)) == Some(t)
  }

  /** What `verify_args` writes back for a token it accepts for type `t`:
      `'any'` keeps the token, `'string'` strips one pair of enclosing
      quotes, `'number'` is the value of the digits, and `'boolean'` converts
      only the lower-case words, keeping any other spelling as a string. */
  function Convert(tok: string, t: ParamType): Value
    requires Matches(tok, t)
  {
    match t
    case AnyType => Str(tok)
    case StringType => if Quoted(tok) then Str(tok[1..|tok| - 1]) else Str(tok)
    case NumberType => Num(DigitsValue(tok))
    case BooleanType =>
      if tok == "si" || tok == "true" then Bool(true)
      else if tok == "no" || tok == "false" then Bool(false)
      else Str(tok)
  }

  /** The token converted to the first declared type it matches, or `None`
      when it matches none. */
  function Coerce(tok: string, types: seq<ParamType>): Option<Value>
    decreases |types|
  {
    if types == [] then None
    else if Matches(tok, types[0]) then Some(Convert(tok, types[0]))
    else Coerce(tok, types[1..])
  }

  /** `Coerce` fails exactly when no declared type matches, and otherwise
      converts to the first one that does. */
  lemma {:induction false} CoerceMeaning(tok: string, types: seq<ParamType>)
    ensures Coerce(tok, types).None? <==> forall k :: 0 <= k < |types| ==> !Matches(tok, types[k])
    ensures Coerce(tok, types).Some? ==>
      exists k :: FirstMatch(tok, types, k) && Coerce(tok, types).value == Convert(tok, types[k])
    decreases |types|
  {
    if types == [] {
    } else if Matches(tok, types[0]) {
      assert FirstMatch(tok, types, 0);
    } else {
      CoerceMeaning(tok, types[1..]);
      var r := Coerce(tok, types[1..]);
      if r.Some? {
        var k :| FirstMatch(tok, types[1..], k) && r.value == Convert(tok, types[1..][k]);
        assert FirstMatch(tok, types, k + 1);
      } else {
        assert forall k :: 0 < k < |types| ==> types[k] == types[1..][k - 1];
      }
    }
  }

  /** Position `k` holds the first type in `types` that the token matches. */
  predicate FirstMatch(tok: string, types: seq<ParamType>, k: int) {
    0 <= k < |types| && Matches(tok, types[k]) &&
    forall j :: 0 <= j < k ==> !Matches(tok, types[j])
  }

  /** The first matching type decides, whatever follows it. */
  lemma {:induction false} FirstMatchWins(tok: string, types: seq<ParamType>, k: nat)
    requires FirstMatch(tok, types, k)
    ensures Coerce(tok, types) == Some(Convert(tok, types[k]))
    decreases k
  {
    if k > 0 {
      assert !Matches(tok, types[0]);
      assert FirstMatch(tok, types[1..], k - 1);
      FirstMatchWins(tok, types[1..], k - 1);
    }
  }

  /** A parameter that accepts strings accepts every token. */
  lemma StringAcceptsAll(tok: string, types: seq<ParamType>)
    requires StringType in types
    ensures Coerce(tok, types).Some?
  {
  }

  /** `'any'` first keeps the token unchanged, quotes included. */
  lemma AnyKeepsToken(tok: string, types: seq<ParamType>)
    requires |types| > 0 && types[0] == AnyType
    ensures Coerce(tok, types) == Some(Str(tok))
  {
    FirstMatchWins(tok, types, 0);
  }

  /** `'string'` strips exactly one pair of enclosing quotes. */
  lemma StringStripsQuotes(tok: string)
    requires Quoted(tok)
    ensures Coerce(tok, [StringType]) == Some(Str(tok[1..|tok| - 1]))
  {
    FirstMatchWins(tok, [StringType], 0);
  }

  /** A boolean word in another case than lower case is accepted as a
      boolean but stays a string ("SI", "True"). */
  lemma BooleanCaseQuirk(tok: string)
    requires IsBoolWord(Lower(tok)) && !IsBoolWord(tok)
    ensures Coerce(tok, [BooleanType]) == Some(Str(tok))
  {
    FirstMatchWins(tok, [BooleanType], 0);
  }

  /** "SI" is such a word. */
  lemma UpperSiStaysString()
    ensures Coerce("SI", [BooleanType]) == Some(Str("SI"))
  {
    assert Lower("SI") == "si" by {
      assert LowerChar('S') == 's' && LowerChar('I') == 'i';
    }
    BooleanCaseQuirk("SI");
  }

  /** There are no negative numbers: a token with a leading '-' never
      matches `'number'`. */
  lemma NoNegativeNumbers(tok: string)
    requires |tok| > 0 && tok[0] == '-'
    ensures !Matches(tok, NumberType)
    ensures Coerce(tok, [NumberType]).None?
  {
    assert !IsDigit(tok[0]);
    assert Lower(tok)[0] == '-';
  }

  // ----------------------------------------------------------- verify_args

  /** The number of arguments `verify_args` checks: excess ones are ignored. */
  function CheckedCount(nargs: nat, nparams: nat): (n: nat)
    ensures n <= nargs && n <= nparams && (n == nargs || n == nparams)
  {
    if nargs > nparams then nparams else nargs
  }

  /** The token of an argument; the arguments the tokenizer yields are strings. */
  function TokenOf(v: Value): string {
    if v.Str? then v.s else ""
  }

  /** What `verify_args`'s inner loop makes of argument `v` against
      parameter `p`: its converted value, or `None` when no type accepts it. */
  function CheckArg(v: Value, p: Parameter): Option<Value> {
    Coerce(TokenOf(v), p.types)
  }

  /** The position of the first of the first `n` arguments that `check`
      rejects. */
  function FirstRejected(args: seq<Value>, ps: seq<Parameter>, n: nat, check: (Value, Parameter) -> Option<Value>): (r: Option<nat>)
    requires n <= |args| && n <= |ps|
    ensures r.None? <==> forall j :: 0 <= j < n ==> check(args[j], ps[j]).Some?
    ensures r.Some? ==>
      r.value < n && check(args[r.value], ps[r.value]).None? &&
      forall j :: 0 <= j < r.value ==> check(args[j], ps[j]).Some?
  {
    if n == 0 then None
    else match FirstRejected(args, ps, n - 1, check)
      case Some(i) => Some(i)
      case None => if check(args[n - 1], ps[n - 1]).None? then Some(n - 1) else None
  }

  /** The first rejected argument is the one all earlier arguments are
      accepted before. */
  lemma FirstRejectedIs(args: seq<Value>, ps: seq<Parameter>, n: nat, check: (Value, Parameter) -> Option<Value>, i: nat)
    requires i < n <= |args| && n <= |ps|
    requires check(args[i], ps[i]).None?
    requires forall j :: 0 <= j < i ==> check(args[j], ps[j]).Some?
    ensures FirstRejected(args, ps, n, check) == Some(i)
  {
    assert FirstRejected(args, ps, n, check).Some?;
  }

  /** The value an argument holds once checked: the converted value when
      accepted, the argument itself when not. */
  function Rewritten(v: Value, checked: Option<Value>): Value {
    match checked
    case Some(w) => w
    case None => v
  }

  /** The arguments with the first `k` rewritten by `check` against their
      parameters. */
  function RewrittenUpTo(args: seq<Value>, ps: seq<Parameter>, k: nat, check: (Value, Parameter) -> Option<Value>): (r: seq<Value>)
    requires k <= |args| && k <= |ps|
    ensures |r| == |args|
  {
    if k == 0 then args
    else RewrittenUpTo(args, ps, k - 1, check)[k - 1 := Rewritten(args[k - 1], check(args[k - 1], ps[k - 1]))]
  }

  /** Only the first `k` arguments are rewritten, each on its own. */
  lemma {:induction false} RewrittenUpToAt(args: seq<Value>, ps: seq<Parameter>, k: nat, check: (Value, Parameter) -> Option<Value>, j: nat)
    requires k <= |args| && k <= |ps| && j < |args|
    ensures j < k ==> RewrittenUpTo(args, ps, k, check)[j] == Rewritten(args[j], check(args[j], ps[j]))
    ensures j >= k ==> RewrittenUpTo(args, ps, k, check)[j] == args[j]
  {
    if k > 0 {
      RewrittenUpToAt(args, ps, k - 1, check, j);
    }
  }

  /** One accepted argument extends the rewritten prefix by one. */
  lemma RewriteStep(args: seq<Value>, ps: seq<Parameter>, k: nat, check: (Value, Parameter) -> Option<Value>, cur: seq<Value>, w: Value)
    requires k < |args| && k < |ps|
    requires cur == RewrittenUpTo(args, ps, k, check) && FirstRejected(args, ps, k, check).None?
    requires check(args[k], ps[k]) == Some(w)
    ensures cur[k := w] == RewrittenUpTo(args, ps, k + 1, check)
    ensures FirstRejected(args, ps, k + 1, check).None?
  {
  }

  /** The position of the first invalid one among the first `n` arguments. */
  function FirstInvalid(args: seq<Value>, ps: seq<Parameter>, n: nat): Option<nat>
    requires n <= |args| && n <= |ps|
  {
    FirstRejected(args, ps, n, CheckArg)
  }

  /** The arguments after `verify_args` has converted the first `k`. */
  function CoercedUpTo(args: seq<Value>, ps: seq<Parameter>, k: nat): (r: seq<Value>)
    requires k <= |args| && k <= |ps|
    ensures |r| == |args|
  {
    RewrittenUpTo(args, ps, k, CheckArg)
  }

  /** `verify_args` reports the first argument that no type of its parameter
      accepts, and only when there is one. */
  lemma FirstInvalidMeaning(args: seq<Value>, ps: seq<Parameter>, n: nat)
    requires n <= |args| && n <= |ps|
    ensures FirstInvalid(args, ps, n).None? <==>
      forall j :: 0 <= j < n ==> Coerce(TokenOf(args[j]), ps[j].types).Some?
    ensures FirstInvalid(args, ps, n).Some? ==>
      var i := FirstInvalid(args, ps, n).value;
      i < n && Coerce(TokenOf(args[i]), ps[i].types).None? &&
      forall j :: 0 <= j < i ==> Coerce(TokenOf(args[j]), ps[j].types).Some?
  {
    var r := FirstRejected(args, ps, n, CheckArg);
    assert forall j :: 0 <= j < n ==> CheckArg(args[j], ps[j]) == Coerce(TokenOf(args[j]), ps[j].types);
  }

  /** `verify_args` leaves every argument past the `k`-th as it was and
      converts each of the first `k` on its own, keeping one it rejects. */
  lemma CoercedUpToAt(args: seq<Value>, ps: seq<Parameter>, k: nat, j: nat)
    requires k <= |args| && k <= |ps| && j < |args|
    ensures j < k ==>
      CoercedUpTo(args, ps, k)[j] == Rewritten(args[j], Coerce(TokenOf(args[j]), ps[j].types))
    ensures j >= k ==> CoercedUpTo(args, ps, k)[j] == args[j]
  {
    RewrittenUpToAt(args, ps, k, CheckArg, j);
  }

  /** The inner loop of `verify_args`: the first declared type the token
      matches, and the value it converts to. */
  method CoerceArg(tok: string, types: seq<ParamType>) returns (r: Option<Value>)
    ensures r == Coerce(tok, types)
  {
    var typeIndex := 0;
    while typeIndex < |types|
      invariant 0 <= typeIndex <= |types|
      invariant forall j :: 0 <= j < typeIndex ==> !Matches(tok, types[j])
    {
      if types[typeIndex] == AnyType || types[typeIndex] == StringType || ArgumentType(Str(tok)) == Some(types[typeIndex]) {
        assert FirstMatch(tok, types, typeIndex);
        FirstMatchWins(tok, types, typeIndex);
        return Some(Convert(tok, types[typeIndex]));
      }
      typeIndex := typeIndex + 1;
    }
    CoerceMeaning(tok, types);
    return None;
  }

  /** After `k` rounds the arguments hold the first `k` conversions and
      every one of those was accepted. */
  ghost predicate CoerceProgress(original: seq<Value>, ps: seq<Parameter>, k: nat, cur: seq<Value>) {
    k <= |original| && k <= |ps| &&
    cur == RewrittenUpTo(original, ps, k, CheckArg) && FirstRejected(original, ps, k, CheckArg).None?
  }

  /** One round of the loop of `verify_args`: converts argument `i` in place,
      or reports that it is the first one no type accepts. */
  method CoerceOne(args: array<Value>, ghost original: seq<Value>, ps: seq<Parameter>, n: nat, i: nat) returns (rejected: bool)
    requires i < n <= args.Length == |original| && n <= |ps|
    requires CoerceProgress(original, ps, i, args[..])
    modifies args
    ensures rejected ==> args[..] == old(args[..]) && FirstRejected(original, ps, n, CheckArg) == Some(i)
    ensures !rejected ==> CoerceProgress(original, ps, i + 1, args[..])
  {
    RewrittenUpToAt(original, ps, i, CheckArg, i);
    var converted := CoerceArg(TokenOf(args[i]), ps[i].types);
    assert converted == CheckArg(original[i], ps[i]);
    if converted.None? {
      FirstRejectedIs(original, ps, n, CheckArg, i);
      return true;
    }
    RewriteStep(original, ps, i, CheckArg, args[..], converted.value);
    args[i] := converted.value;
    return false;
  }

  /** The loop of `verify_args` over the first `n` arguments: converts them
      in place up to the first one no type accepts, whose position it
      returns. */
  method CoerceArgs(args: array<Value>, ps: seq<Parameter>, n: nat) returns (bad: Option<nat>)
    requires n <= args.Length && n <= |ps|
    modifies args
    ensures bad == FirstInvalid(old(args[..]), ps, n)
    ensures bad.None? ==> args[..] == CoercedUpTo(old(args[..]), ps, n)
    ensures bad.Some? ==> args[..] == CoercedUpTo(old(args[..]), ps, bad.value)
  {
    ghost var original := args[..];
    var argIndex := 0;
    while argIndex < n
      invariant 0 <= argIndex <= n
      invariant CoerceProgress(original, ps, argIndex, args[..])
    {
      var rejected := CoerceOne(args, original, ps, n, argIndex);
      if rejected {
        return Some(argIndex);
      }
      argIndex := argIndex + 1;
    }
    return None;
  }

  /** `verify_args`: converts the first min(#args, #params) arguments in
      place. `Success(false)` when the command has no parameters, the
      `INVALID_ARGUMENT` error for the first argument no type accepts (the
      arguments before it already converted), `Success(true)` otherwise. */
  method VerifyArgs(args: array<Value>, c: Command, prefix: string) returns (r: Result<bool, CommandError>)
    modifies args
    ensures c.parameters.None? ==> r == Success(false) && args[..] == old(args[..])
    ensures c.parameters.Some? ==>
      var ps := c.parameters.value;
      var n := CheckedCount(args.Length, |ps|);
      match FirstInvalid(old(args[..]), ps, n)
      case None => r == Success(true) && args[..] == CoercedUpTo(old(args[..]), ps, n)
      case Some(i) =>
        r == Failure(CommandError(InvalidArgument(prefix, FirstAlias(c), TokenOf(old(args[..])[i]), ps[i]), None)) &&
        args[..] == CoercedUpTo(old(args[..]), ps, i)
  {
    if c.parameters.None? {
      return Success(false);
    }
    var ps := c.parameters.value;
    var argsLen := if args.Length > |ps| then |ps| else args.Length;
    ghost var original := args[..];
    var bad := CoerceArgs(args, ps, argsLen);
    if bad.Some? {
      var i := bad.value;
      // the rejected argument itself is left as it was
      CoercedUpToAt(original, ps, i, i);
      return Failure(CommandError(InvalidArgument(prefix, FirstAlias(c), TokenOf(args[i]), ps[i]), None));
    }
    return Success(true);
  }
}
