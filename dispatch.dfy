/** Dispatch of an incoming message to a command (`exec_command` of
    src/modules/commands/commands.ts): the tokenizer, the command-name
    lookup, the admin and quoted-message gates, the default values of
    missing optional parameters, the missing-argument error and the
    coercion of the arguments; and the callback of the built-in `help`
    command. */
module Dispatch {
  import opened Wrappers
  import opened Text
  import opened CommandTypes
  import opened CommandMessages
  import opened Coercion
  import opened CommandRegistry

  // -------------------------------------------------------------- tokenizer

  predicate IsQuote(c: char) {
    c == '"' || c == '\''
  }

  /** `body.match(/"([^"]*)"|'([^']*)'|[^ ]+/gim)`: scanning left to right,
      a quote that is closed later starts a quoted span (quotes kept), any
      other character but the space starts a maximal run of non-space
      characters, and a space is skipped. Only ' ' separates tokens. */
  function Tokenize(s: string): seq<string>
    decreases |s|
  {
    if s == [] then []
    else if IsQuote(s[0]) && FindChar(s[1..], s[0]).Some? then
      var k := FindChar(s[1..], s[0]).value;
      [s[..k + 2]] + Tokenize(s[k + 2..])
    else if s[0] != ' ' then
      var w := FirstWord(s);
      [w] + Tokenize(s[|w|..])
    else Tokenize(s[1..])
  }

  /** A quoted span: an opening quote, no second one of the same kind, and
      the closing quote. */
  predicate QuotedSpan(t: string) {
    |t| >= 2 && IsQuote(t[0]) && t[|t| - 1] == t[0] && t[0] !in t[1..|t| - 1]
  }

  /** Every token is non-empty and is either a quoted span or contains no
      space. */
  lemma {:induction false} TokenShapes(s: string)
    ensures forall i :: 0 <= i < |Tokenize(s)| ==>
      |Tokenize(s)[i]| > 0 && (QuotedSpan(Tokenize(s)[i]) || ' ' !in Tokenize(s)[i])
    decreases |s|
  {
    if s == [] {
    } else if IsQuote(s[0]) && FindChar(s[1..], s[0]).Some? {
      var k := FindChar(s[1..], s[0]).value;
      TokenShapes(s[k + 2..]);
      assert s[..k + 2][1..k + 1] == s[1..][..k];
    } else if s[0] != ' ' {
      FindCharFirstWordNonEmpty(s);
      TokenShapes(s[|FirstWord(s)|..]);
    } else {
      TokenShapes(s[1..]);
    }
  }

  lemma FindCharFirstWordNonEmpty(s: string)
    requires s != [] && s[0] != ' '
    ensures |FirstWord(s)| > 0
  {
  }

  /** The first word of `w + " " + rest` is `w` when `w` has no space. */
  lemma FirstWordOf(w: string, rest: string)
    requires ' ' !in w
    ensures FirstWord(w + " " + rest) == w
  {
    var s := w + " " + rest;
    var r := FirstWord(s);
    assert s[|w|] == ' ';
    assert r == s[..|w|] == w;
  }

  /** A non-empty word with no space and no leading quote. */
  predicate PlainWord(w: string) {
    |w| > 0 && ' ' !in w && !IsQuote(w[0])
  }

  /** A plain word is one token. */
  lemma TokenizeWord(w: string)
    requires PlainWord(w)
    ensures Tokenize(w) == [w]
  {
    assert FirstWord(w) == w;
    assert w[|w|..] == [];
  }

  /** Words joined by single spaces tokenize back into the words, when no
      word has a space or starts with a quote. */
  lemma {:induction false} TokenizeJoin(words: seq<string>)
    requires forall i :: 0 <= i < |words| ==> PlainWord(words[i])
    ensures Tokenize(Join(words, " ")) == words
  {
    if |words| == 1 {
      assert PlainWord(words[0]);
      TokenizeWord(words[0]);
    } else if |words| > 1 {
      var w, tail := words[0], words[1..];
      assert PlainWord(w);
      assert Join(words, " ") == w + " " + Join(tail, " ");
      TokenizeWordThen(w, Join(tail, " "));
      assert forall i :: 0 <= i < |tail| ==> PlainWord(tail[i]) by {
        forall i | 0 <= i < |tail| ensures PlainWord(tail[i]) {
          assert tail[i] == words[i + 1];
        }
      }
      TokenizeJoin(tail);
      assert words == [w] + tail;
    }
  }

  /** A word followed by a space is the first token of what follows it. */
  lemma TokenizeWordThen(w: string, rest: string)
    requires PlainWord(w)
    ensures Tokenize(w + " " + rest) == [w] + Tokenize(rest)
  {
    var s := w + " " + rest;
    FirstWordOf(w, rest);
    assert s[0] == w[0];
    assert s[|w|..] == " " + rest;
    assert (" " + rest)[1..] == rest;
  }

  /** A quote closed later yields the whole quoted span, quotes kept, as one
      token, spaces inside included. */
  lemma TokenizeQuoted(q: char, inner: string, rest: string)
    requires IsQuote(q) && q !in inner
    ensures Tokenize([q] + inner + [q] + rest) == [[q] + inner + [q]] + Tokenize(rest)
  {
    var s := [q] + inner + [q] + rest;
    var tail := s[1..];
    assert tail == inner + [q] + rest;
    var f := FindChar(tail, q);
    assert tail[|inner|] == q;
    assert f.Some?;
    assert f.value == |inner|;
    assert s[..|inner| + 2] == [q] + inner + [q];
    assert s[|inner| + 2..] == rest;
  }

  // ------------------------------------------------------------- dispatch

  /** What `exec_command` needs of a WhatsApp message. */
  datatype Message = Message(body: string, fromMe: bool, hasQuotedMsg: bool)

  /** What `exec_command` does with a message: nothing at all, the command's
      callback with its arguments, or an error response for a thrown
      `CommandError`. Every outcome but `Ignored` first reacts with '⏳'. */
  datatype Outcome = Ignored | Invoked(callback: Callback, args: seq<Value>) | Rejected(error: CommandError)

  /** The tokens as argument values. */
  function StrValues(args: seq<string>): (r: seq<Value>)
    ensures |r| == |args|
    ensures forall i :: 0 <= i < |args| ==> r[i] == Str(args[i])
  {
    if args == [] then [] else [Str(args[0])] + StrValues(args[1..])
  }

  /** The default values of the optional parameters at positions `lo` to
      `n - 1`, in order. */
  function DefaultsFrom(ps: seq<Parameter>, lo: nat, n: nat): (r: seq<Value>)
    requires lo <= n <= |ps|
    ensures |r| <= n - lo
    decreases n
  {
    if n == lo then []
    else DefaultsFrom(ps, lo, n - 1) + (if ps[n - 1].isOptional then [ps[n - 1].defaultValue] else [])
  }

  /** The defaults `exec_command` appends for the arguments that are missing. */
  function Defaults(c: Command, nargs: nat): seq<Value>
    requires c.parameters.Some?
  {
    var ps := c.parameters.value;
    if c.hasOptionalValues && nargs < |ps| then DefaultsFrom(ps, nargs, |ps|) else []
  }

  /** The command a message names: its first token without the prefix's
      length of characters, in lower case. */
  function CommandName(tokens: seq<string>, prefix: string): string
    requires tokens != []
  {
    Lower(Drop(tokens[0], |prefix|))
  }

  /** `exec_command` for a registry and a message. */
  function ExecSpec(list: seq<Command>, alias: map<string, nat>, prefix: string, m: Message): Outcome
    requires RegistryValid(list, alias)
  {
    var tokens := Tokenize(m.body);
    if tokens == [] then Ignored
    else match Lookup(list, alias, CommandName(tokens, prefix))
      case None => Ignored
      case Some(c) =>
        if c.options.adminOnly && !m.fromMe then Ignored
        else if c.options.needQuotedMessage && !m.hasQuotedMsg then Rejected(CommandError(MissingQuote, None))
        else ArgumentsSpec(c, prefix, tokens[1..])
  }

  /** What `exec_command` does with the tokens after the command name once
      the command passed its gates. */
  function ArgumentsSpec(c: Command, prefix: string, args: seq<string>): Outcome {
    if c.parameters.None? then Invoked(c.callback, StrValues(args))
    else
      var ps := c.parameters.value;
      var defaults := Defaults(c, |args|);
      if |args| + |defaults| < |ps| then Rejected(CommandError(MissingArgumentText(prefix, c, args), None))
      else
        var vs := StrValues(args);
        var n := CheckedCount(|vs|, |ps|);
        match FirstInvalid(vs, ps, n)
        case Some(i) => Rejected(CommandError(InvalidArgument(prefix, FirstAlias(c), TokenOf(vs[i]), ps[i]), None))
        case None => Invoked(c.callback, CoercedUpTo(vs, ps, n) + defaults)
  }

  /** `exec_command`: reads the registry, fills the defaults in a loop, and
      coerces the arguments in place with `verify_args`. */
  method ExecCommand(registry: CommandsManager, prefix: string, m: Message) returns (out: Outcome)
    requires registry.Valid()
    ensures out == ExecSpec(registry.list, registry.alias, prefix, m)
  {
    var tokens := Tokenize(m.body);
    if tokens == [] {
      return Ignored;
    }
    var found := registry.Search(CommandName(tokens, prefix));
    if found.None? {
      return Ignored;
    }
    var c := found.value;
    if c.options.adminOnly && !m.fromMe {
      return Ignored;
    }
    if c.options.needQuotedMessage && !m.hasQuotedMsg {
      return Rejected(CommandError(MissingQuote, None));
    }
    out := ApplyArguments(c, prefix, tokens[1..]);
  }

  /** The part of `exec_command` after the gates: defaults, the
      missing-argument check and `verify_args`. */
  method ApplyArguments(c: Command, prefix: string, args: seq<string>) returns (out: Outcome)
    ensures out == ArgumentsSpec(c, prefix, args)
  {
    if c.parameters.None? {
      return Invoked(c.callback, StrValues(args));
    }
    var ps := c.parameters.value;
    var optionalValues := CollectDefaults(ps, |args|, c.hasOptionalValues);
    if |args| + |optionalValues| >= |ps| {
      var vs := StrValues(args);
      var commandArgs := new Value[|args|](j requires 0 <= j < |args| => Str(args[j]));
      assert commandArgs[..] == vs;
      var verified := VerifyArgs(commandArgs, c, prefix);
      if verified.Failure? {
        return Rejected(verified.error);
      }
      return Invoked(c.callback, commandArgs[..] + optionalValues);
    }
    var text := MissingArgument(prefix, c, args);
    return Rejected(CommandError(text, None));
  }

  /** The loop that collects `optionalValues`. */
  method CollectDefaults(ps: seq<Parameter>, nargs: nat, hasOptionalValues: bool) returns (values: seq<Value>)
    ensures hasOptionalValues && nargs < |ps| ==> values == DefaultsFrom(ps, nargs, |ps|)
    ensures !(hasOptionalValues && nargs < |ps|) ==> values == []
  {
    values := [];
    if hasOptionalValues && nargs < |ps| {
      var i := nargs;
      while i < |ps|
        invariant nargs <= i <= |ps|
        invariant values == DefaultsFrom(ps, nargs, i)
      {
        if ps[i].isOptional {
          values := values + [ps[i].defaultValue];
        }
        i := i + 1;
      }
    }
  }

  // ------------------------------------------------- properties of dispatch

  /** The parameters at positions `lo` to `n - 1` that are required. */
  function RequiredIn(ps: seq<Parameter>, lo: nat, n: nat): (k: nat)
    requires lo <= n <= |ps|
    ensures k <= n - lo
    decreases n
  {
    if n == lo then 0 else RequiredIn(ps, lo, n - 1) + (if ps[n - 1].isOptional then 0 else 1)
  }

  /** `DefaultsFrom` holds one value per optional parameter of its range. */
  lemma {:induction false} DefaultsCount(ps: seq<Parameter>, lo: nat, n: nat)
    requires lo <= n <= |ps|
    ensures |DefaultsFrom(ps, lo, n)| == (n - lo) - RequiredIn(ps, lo, n)
    decreases n
  {
    if n > lo {
      DefaultsCount(ps, lo, n - 1);
    }
  }

  /** With the optional parameters last, none of the positions from `lo` on
      is required exactly when `lo` is past every required parameter. */
  lemma {:induction false} RequiredInSuffix(ps: seq<Parameter>, lo: nat, n: nat)
    requires lo <= n <= |ps| && OptionalsFormSuffix(ps)
    ensures RequiredIn(ps, lo, n) == 0 <==> forall j :: lo <= j < n ==> ps[j].isOptional
    decreases n
  {
    if n > lo {
      RequiredInSuffix(ps, lo, n - 1);
    }
  }

  /** For a command whose parameters passed `closeCommand`'s check (the
      optional ones last) and whose optional values are flagged, a message
      gets `MISSING_ARGUMENT` exactly when one of the parameters it leaves
      out is required. */
  lemma MissingArgumentIffRequiredLeftOut(c: Command, nargs: nat)
    requires c.parameters.Some? && OptionalsFormSuffix(c.parameters.value)
    requires c.hasOptionalValues || forall j :: 0 <= j < |c.parameters.value| ==> !c.parameters.value[j].isOptional
    ensures nargs + |Defaults(c, nargs)| < |c.parameters.value| <==>
      exists j :: nargs <= j < |c.parameters.value| && !c.parameters.value[j].isOptional
  {
    var ps := c.parameters.value;
    if nargs < |ps| {
      DefaultsCount(ps, nargs, |ps|);
      RequiredInSuffix(ps, nargs, |ps|);
      if !c.hasOptionalValues {
        assert !ps[nargs].isOptional;
      }
    }
  }

  /** A message naming no registered command, or an admin-only command from
      anyone but the bot's own account, does nothing. */
  lemma UnknownOrForbiddenIgnored(list: seq<Command>, alias: map<string, nat>, prefix: string, m: Message)
    requires RegistryValid(list, alias)
    ensures Tokenize(m.body) == [] ==> ExecSpec(list, alias, prefix, m) == Ignored
    ensures Tokenize(m.body) != [] && Lookup(list, alias, CommandName(Tokenize(m.body), prefix)).None? ==>
      ExecSpec(list, alias, prefix, m) == Ignored
    ensures Tokenize(m.body) != [] && Lookup(list, alias, CommandName(Tokenize(m.body), prefix)).Some? ==>
      (Lookup(list, alias, CommandName(Tokenize(m.body), prefix)).value.options.adminOnly && !m.fromMe ==>
       ExecSpec(list, alias, prefix, m) == Ignored)
  {
  }

  /** When the callback runs with parameters declared, it gets the first
      min(#args, #params) arguments coerced, the excess ones as given, and
      then the defaults. */
  lemma InvokedArguments(c: Command, prefix: string, args: seq<string>, j: nat)
    requires c.parameters.Some? && ArgumentsSpec(c, prefix, args).Invoked?
    ensures var ps := c.parameters.value;
      var out := ArgumentsSpec(c, prefix, args).args;
      |out| == |args| + |Defaults(c, |args|)| &&
      out[|args|..] == Defaults(c, |args|) &&
      (j < |args| && j < |ps| ==> out[j] == Rewritten(Str(args[j]), Coerce(args[j], ps[j].types))) &&
      (|ps| <= j < |args| ==> out[j] == Str(args[j]))
  {
    var ps := c.parameters.value;
    var vs := StrValues(args);
    var n := CheckedCount(|vs|, |ps|);
    var coerced := CoercedUpTo(vs, ps, n);
    assert ArgumentsSpec(c, prefix, args).args == coerced + Defaults(c, |args|);
    if j < |vs| {
      CoercedUpToAt(vs, ps, n, j);
    }
  }

  // -------------------------------------------------------------- help

  /** The built-in `help` command: aliases "help" and "?", an info block, the
      given callback and one optional string parameter whose default is
      `null`. */
  function HelpCommand(callback: Callback): (c: Command)
    ensures c.alias == ["help", "?"] && c.callback == callback && c.hasOptionalValues
    ensures !c.options.adminOnly && !c.options.needQuotedMessage
    ensures c.info == Some(CommandInfo("Help", Some("Get info about a command.")))
    ensures c.parameters.Some? && |c.parameters.value| == 1
    ensures c.parameters.value[0].types == [StringType] && c.parameters.value[0].defaultValue == Null
    ensures c.parameters.value[0].isOptional
  {
    var base := SetCallback(
      CreateCommand(["help", "?"], Some(CommandData(None, Some(CommandInfo("Help", Some("Get info about a command.")))))),
      callback);
    var r := AddParameter(base, [StringType], Some(ParamInfoInput(Some("Command name"), None, Some("ping"))), Null);
    r.value
  }

  /** What the `help` callback sends. */
  datatype HelpReply =
    | SendText(content: Option<string>)   // `send_response(content)`; `None` is `null`, which sends nothing
    | SendErrorText(text: string)         // `send_error_response(text)`
    | TypeError                           // the callback throws before sending anything

  /** The `help` callback as written: `args[0].toLowerCase()` throws for an
      argument that is not a string. */
  function HelpAsWritten(list: seq<Command>, alias: map<string, nat>, prefix: string, self: Command, args: seq<Value>): HelpReply
    requires RegistryValid(list, alias)
  {
    if |args| > 0 then
      if !args[0].Str? then TypeError
      else HelpFor(list, alias, prefix, args[0].s)
    else SendText(CommandExample(prefix, self))
  }

  /** The help for a named command. */
  function HelpFor(list: seq<Command>, alias: map<string, nat>, prefix: string, name: string): HelpReply
    requires RegistryValid(list, alias)
  {
    match Lookup(list, alias, Lower(name))
    case None => SendErrorText("The command *" + name + "* doesn't exist.")
    case Some(c) =>
      match CommandExample(prefix, c)
      case Some(text) => SendText(Some(text))
      case None => SendErrorText("There is no information for the command *" + name + "*.")
  }

  /** The `help` callback as evidently intended: a missing argument, which
      `exec_command` fills with the `null` default, shows the help of `help`
      itself. */
  function HelpIntended(list: seq<Command>, alias: map<string, nat>, prefix: string, self: Command, args: seq<Value>): HelpReply
    requires RegistryValid(list, alias)
  {
    if |args| > 0 && args[0].Str? then HelpFor(list, alias, prefix, args[0].s)
    else SendText(CommandExample(prefix, self))
  }

  /** "help" on its own, as the bot receives it: `exec_command` calls the
      callback with `[null]`, so the written callback throws a TypeError,
      which `exec_command` only logs, and the user gets no answer. */
  lemma BareHelpThrows(list: seq<Command>, alias: map<string, nat>, prefix: string, callback: Callback, m: Message)
    requires RegistryValid(list, alias)
    requires Lookup(list, alias, "help") == Some(HelpCommand(callback))
    requires ' ' !in prefix && (prefix == [] || !IsQuote(prefix[0]))
    requires m.body == prefix + "help"
    ensures ExecSpec(list, alias, prefix, m) == Invoked(callback, [Null])
    ensures HelpAsWritten(list, alias, prefix, HelpCommand(callback), [Null]) == TypeError
  {
    BareHelpTokens(prefix);
    ExecNoArguments(list, alias, prefix, m, HelpCommand(callback));
    BareHelpDefaults(prefix, callback);
  }

  /** A message that is a single token naming a command open to everyone
      runs the command with no arguments. */
  lemma ExecNoArguments(list: seq<Command>, alias: map<string, nat>, prefix: string, m: Message, c: Command)
    requires RegistryValid(list, alias)
    requires |Tokenize(m.body)| == 1 && Lookup(list, alias, CommandName(Tokenize(m.body), prefix)) == Some(c)
    requires !c.options.adminOnly && !c.options.needQuotedMessage
    ensures ExecSpec(list, alias, prefix, m) == ArgumentsSpec(c, prefix, [])
  {
    assert Tokenize(m.body)[1..] == [];
  }

  /** A prefix followed by "help" is one token naming "help". */
  lemma BareHelpTokens(prefix: string)
    requires ' ' !in prefix && (prefix == [] || !IsQuote(prefix[0]))
    ensures Tokenize(prefix + "help") == [prefix + "help"]
    ensures CommandName([prefix + "help"], prefix) == "help"
  {
    var word := "help";
    assert word[0] == 'h' && word[1] == 'e' && word[2] == 'l' && word[3] == 'p';
    PrefixedWordTokens(prefix, word);
  }

  /** A prefix followed by a lower-case word is one token naming the word. */
  lemma PrefixedWordTokens(prefix: string, word: string)
    requires ' ' !in prefix && (prefix == [] || !IsQuote(prefix[0]))
    requires word != [] && ' ' !in word && !IsQuote(word[0])
    requires forall i :: 0 <= i < |word| ==> !('A' <= word[i] <= 'Z')
    ensures Tokenize(prefix + word) == [prefix + word]
    ensures CommandName([prefix + word], prefix) == word
  {
    var w := prefix + word;
    assert w[|prefix|..] == word;
    assert w[0] == if prefix == [] then word[0] else prefix[0];
    assert ' ' !in w by {
      assert forall i :: 0 <= i < |w| ==> w[i] == if i < |prefix| then prefix[i] else word[i - |prefix|];
    }
    TokenizeWord(w);
    LowerUnchanged(word);
  }

  /** With no argument, `help` gets its `null` default. */
  lemma BareHelpDefaults(prefix: string, callback: Callback)
    ensures Defaults(HelpCommand(callback), 0) == [Null]
    ensures ArgumentsSpec(HelpCommand(callback), prefix, []) == Invoked(callback, [Null])
  {
    var c := HelpCommand(callback);
    var ps := c.parameters.value;
    assert DefaultsFrom(ps, 0, 1) == [Null];
    assert StrValues([]) == [];
    assert CheckedCount(0, 1) == 0;
    assert FirstInvalid([], ps, 0).None?;
    assert CoercedUpTo([], ps, 0) == [];
  }

  /** The intended callback answers a bare "help" with the help of `help`,
      which exists because `help` has a name. */
  lemma BareHelpAnswered(list: seq<Command>, alias: map<string, nat>, prefix: string, callback: Callback)
    requires RegistryValid(list, alias)
    ensures HelpIntended(list, alias, prefix, HelpCommand(callback), [Null]) ==
      SendText(CommandExample(prefix, HelpCommand(callback)))
    ensures CommandExample(prefix, HelpCommand(callback)).Some?
  {
  }

  /** With a string argument the intended callback behaves as written. */
  lemma HelpIntendedAgrees(list: seq<Command>, alias: map<string, nat>, prefix: string, self: Command, args: seq<Value>)
    requires RegistryValid(list, alias)
    requires |args| == 0 || args[0].Str?
    ensures HelpIntended(list, alias, prefix, self, args) == HelpAsWritten(list, alias, prefix, self, args)
  {
  }
}
