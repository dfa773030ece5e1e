/** The user-facing texts of the command engine: `COMMAND_ERROR_MESSAGES` and
    `command_example` (the help text) of src/modules/commands/commands.ts. The
    configured command prefix is a parameter.

    A JavaScript `s += `...`` appends one whole template string, so the
    specification functions below append whole pieces in the same order. */
module CommandMessages {
  import opened Wrappers
  import opened Text
  import opened CommandTypes

  const MissingQuote: string := "This command requires quoting a message to be executed."

  /** `commandsSettings.commandPrefix > 0`: JavaScript turns the prefix into a
      number for the comparison, so only a numeric prefix above zero passes. */
  predicate PrefixAboveZero(prefix: string) {
    match JsNumber(prefix)
    case Some(v) => v > 0
    case None => false
  }

  /** A prefix that is not a number never passes the comparison. */
  lemma NonNumericPrefixFails(prefix: string)
    requires JsNumber(prefix).None?
    ensures !PrefixAboveZero(prefix)
  {
  }

  /** The prefix "!" does not pass, so `MISSING_ARGUMENT` capitalises the
      alias for it as it does with no prefix at all. */
  lemma ExclamationPrefixCapitalises(c: Command)
    ensures ShownAlias("!", c) == Capitalize(FirstAlias(c))
    ensures ShownAlias("", c) == Capitalize(FirstAlias(c))
  {
    NotANumber("!");
  }

  /** `COMMAND_ERROR_MESSAGES.INVALID_ARGUMENT(alias, arg, param)`. */
  function InvalidArgument(prefix: string, alias: string, arg: string, p: Parameter): string {
    "Invalid argument \"*" + arg + "*\".\n\n" +
    ("The parameter \"*" + p.info.name + "*\" must be *" + Join(TypeNames(p.types), ",") + "*.\n\n") +
    ("For more info use: *" + prefix + (if |prefix| > 0 then "help" else "Help") + " " + alias + "*")
  }

  // ---------------------------------------------------- MISSING_ARGUMENT

  /** How a parameter is shown in a signature: `[ *name* ]` when optional,
      `{ *name* }` when required. */
  function Marker(p: Parameter): string {
    if p.isOptional then "[ *" + p.info.name + "* ]" else "{ *" + p.info.name + "* }"
  }

  /** `show` applied to the parameters at positions `lo` to `n - 1`. */
  function Shown(ps: seq<Parameter>, lo: nat, n: nat, show: Parameter -> string): (r: seq<string>)
    requires lo <= n <= |ps|
    ensures |r| == n - lo
    decreases n
  {
    if n == lo then [] else Shown(ps, lo, n - 1, show) + [show(ps[n - 1])]
  }

  /** `seed` followed by `show` of the parameters at positions `lo` to
      `n - 1`, as the loop of `MISSING_ARGUMENT` appends them: each followed
      by a space unless it shows the very last parameter. */
  function Spaced(seed: string, ps: seq<Parameter>, lo: nat, n: nat, show: Parameter -> string): string
    requires lo <= n <= |ps|
    decreases n
  {
    if n == lo then seed
    else if n - 1 != |ps| - 1 then Spaced(seed, ps, lo, n - 1, show) + show(ps[n - 1]) + " "
    else Spaced(seed, ps, lo, n - 1, show) + show(ps[n - 1])
  }

  /** The alias as `MISSING_ARGUMENT` prints it. */
  function ShownAlias(prefix: string, c: Command): string {
    if PrefixAboveZero(prefix) then FirstAlias(c) else Capitalize(FirstAlias(c))
  }

  /** The arguments the user gave, as `MISSING_ARGUMENT` repeats them. */
  function GivenArgs(args: seq<string>): string {
    if |args| > 0 then "_" + Join(args, " ") + "_ " else ""
  }

  /** The given arguments followed by the markers of the missing parameters. */
  function ArgsLine(c: Command, args: seq<string>): string {
    match c.parameters
    case None => GivenArgs(args)
    case Some(ps) =>
      if |args| < |ps| then Spaced(GivenArgs(args), ps, |args|, |ps|, Marker) else GivenArgs(args)
  }

  /** The text of `COMMAND_ERROR_MESSAGES.MISSING_ARGUMENT(command, args)`. */
  function MissingArgumentText(prefix: string, c: Command, args: seq<string>): string {
    "Arguments missing in the command.\n\n" + ("_" + prefix + ShownAlias(prefix, c) + "_ " + ArgsLine(c, args))
  }

  /** The loop of `MISSING_ARGUMENT` over the parameters from position
      `from` on. */
  method AppendMarkers(commandArgs: string, ps: seq<Parameter>, from: nat) returns (r: string)
    requires from < |ps|
    ensures r == Spaced(commandArgs, ps, from, |ps|, Marker)
  {
    r := commandArgs;
    var i := from;
    while i < |ps|
      invariant from <= i <= |ps|
      invariant r == Spaced(commandArgs, ps, from, i, Marker)
    {
      r := r + Marker(ps[i]);
      if i != |ps| - 1 {
        r := r + " ";
      }
      i := i + 1;
    }
  }

  /** `MISSING_ARGUMENT`. */
  method MissingArgument(prefix: string, c: Command, args: seq<string>) returns (text: string)
    ensures text == MissingArgumentText(prefix, c, args)
  {
    var commandArgs := if |args| > 0 then "_" + Join(args, " ") + "_ " else "";
    var alias := if PrefixAboveZero(prefix) then FirstAlias(c) else Capitalize(FirstAlias(c));
    if c.parameters.Some? && |args| < |c.parameters.value| {
      commandArgs := AppendMarkers(commandArgs, c.parameters.value, |args|);
    }
    text := "Arguments missing in the command.\n\n" + ("_" + prefix + alias + "_ " + commandArgs);
  }

  /** The `j`-th shown part is `show` of the parameter at position `lo + j`. */
  lemma {:induction false} ShownAt(ps: seq<Parameter>, lo: nat, n: nat, show: Parameter -> string, j: nat)
    requires lo <= n <= |ps| && j < n - lo
    ensures Shown(ps, lo, n, show)[j] == show(ps[lo + j])
    decreases n
  {
    if j < n - 1 - lo {
      ShownAt(ps, lo, n - 1, show, j);
    }
  }

  /** Before the last parameter every shown part is followed by its space. */
  lemma {:induction false} SpacedPrefix(seed: string, ps: seq<Parameter>, lo: nat, k: nat, show: Parameter -> string)
    requires lo <= k < |ps|
    ensures k > lo ==> Spaced(seed, ps, lo, k, show) == seed + Join(Shown(ps, lo, k, show), " ") + " "
    ensures k == lo ==> Spaced(seed, ps, lo, k, show) == seed
    decreases k
  {
    if k > lo + 1 {
      SpacedPrefix(seed, ps, lo, k - 1, show);
      var ms := Shown(ps, lo, k, show);
      JoinSplitLast(ms);
      assert ms[..|ms| - 1] == Shown(ps, lo, k - 1, show);
      SpaceAssoc(seed, Join(Shown(ps, lo, k - 1, show), " "), show(ps[k - 1]));
    } else if k == lo + 1 {
      assert Shown(ps, lo, k, show) == [show(ps[lo])];
    }
  }

  /** The parts of `MISSING_ARGUMENT`'s signature are joined by single
      spaces after the given arguments. */
  lemma SpacedIsJoin(seed: string, ps: seq<Parameter>, lo: nat, show: Parameter -> string)
    requires lo < |ps|
    ensures Spaced(seed, ps, lo, |ps|, show) == seed + Join(Shown(ps, lo, |ps|, show), " ")
  {
    var n := |ps|;
    SpacedPrefix(seed, ps, lo, n - 1, show);
    var ms := Shown(ps, lo, n, show);
    if n - 1 > lo {
      JoinSplitLast(ms);
      assert ms[..|ms| - 1] == Shown(ps, lo, n - 1, show);
      SpaceAssoc(seed, Join(Shown(ps, lo, n - 1, show), " "), show(ps[n - 1]));
    } else {
      assert ms == [show(ps[lo])];
    }
  }

  /** The whole message: the header, the alias, the given arguments, then
      the markers of the parameters from position #args on, joined by
      single spaces. */
  lemma MissingArgumentShape(prefix: string, c: Command, args: seq<string>)
    requires c.parameters.Some? && |args| < |c.parameters.value|
    ensures MissingArgumentText(prefix, c, args) ==
      "Arguments missing in the command.\n\n" +
      ("_" + prefix + ShownAlias(prefix, c) + "_ " +
       (GivenArgs(args) + Join(Shown(c.parameters.value, |args|, |c.parameters.value|, Marker), " ")))
  {
    var ps := c.parameters.value;
    var line := ArgsLine(c, args);
    assert line == Spaced(GivenArgs(args), ps, |args|, |ps|, Marker);
    SpacedIsJoin(GivenArgs(args), ps, |args|, Marker);
    var joined := GivenArgs(args) + Join(Shown(ps, |args|, |ps|, Marker), " ");
    assert line == joined;
    assert MissingArgumentText(prefix, c, args) ==
      "Arguments missing in the command.\n\n" + ("_" + prefix + ShownAlias(prefix, c) + "_ " + line);
  }

  /** The markers shown are exactly those of the parameters from position
      #args on, in order. */
  lemma MissingArgumentMarkers(ps: seq<Parameter>, nargs: nat)
    requires nargs < |ps|
    ensures |Shown(ps, nargs, |ps|, Marker)| == |ps| - nargs
    ensures forall j :: 0 <= j < |ps| - nargs ==> Shown(ps, nargs, |ps|, Marker)[j] == Marker(ps[nargs + j])
  {
    forall j | 0 <= j < |ps| - nargs
      ensures Shown(ps, nargs, |ps|, Marker)[j] == Marker(ps[nargs + j])
    {
      ShownAt(ps, nargs, |ps|, Marker, j);
    }
  }

  lemma SpaceAssoc(a: string, b: string, m: string)
    ensures a + b + " " + m + " " == a + (b + " " + m) + " "
    ensures a + b + " " + m == a + (b + " " + m)
  {
  }

  /** Joining splits off the last part. */
  lemma {:induction false} JoinSplitLast(parts: seq<string>)
    requires |parts| >= 2
    ensures Join(parts, " ") == Join(parts[..|parts| - 1], " ") + " " + parts[|parts| - 1]
    decreases |parts|
  {
    if |parts| > 2 {
      JoinSplitLast(parts[1..]);
      assert parts[1..][..|parts| - 2] == parts[..|parts| - 1][1..];
    }
  }

  // ---------------------------------------------------- command_example

  /** The alias as the help text prints it: capitalised when there is no prefix. */
  function HelpAlias(prefix: string, c: Command): string {
    if |prefix| == 0 then Capitalize(FirstAlias(c)) else FirstAlias(c)
  }

  /** What one parameter adds to the syntax line; nothing when it has no name. */
  function SyntaxPiece(p: Parameter): string {
    if |p.info.name| == 0 then ""
    else if p.isOptional then " [ *" + p.info.name + "* ]"
    else " { *" + p.info.name + "* }"
  }

  /** What one parameter adds to the example line: its example, in quotes
      when the parameter takes a string and the example has a space. */
  function ExamplePiece(p: Parameter): string {
    if |p.info.name| == 0 then ""
    else if StringType in p.types && ' ' in p.info.example then " \"*" + p.info.example + "*\""
    else " *" + p.info.example + "*"
  }

  /** What one parameter adds to the parameter descriptions. */
  function DescriptionPiece(p: Parameter): string {
    if |p.info.name| == 0 || |p.info.description| == 0 then ""
    else "\n\n*" + p.info.name + "*: " + p.info.description
  }

  /** `seed` followed by the syntax pieces of the first `n` parameters. */
  function Syntax(seed: string, ps: seq<Parameter>, n: nat): string
    requires n <= |ps|
  {
    if n == 0 then seed else Syntax(seed, ps, n - 1) + SyntaxPiece(ps[n - 1])
  }

  /** `seed` followed by the example pieces of the first `n` parameters. */
  function Examples(seed: string, ps: seq<Parameter>, n: nat): string
    requires n <= |ps|
  {
    if n == 0 then seed else Examples(seed, ps, n - 1) + ExamplePiece(ps[n - 1])
  }

  /** The descriptions of the first `n` parameters. */
  function Descriptions(ps: seq<Parameter>, n: nat): string
    requires n <= |ps|
  {
    if n == 0 then "" else Descriptions(ps, n - 1) + DescriptionPiece(ps[n - 1])
  }

  /** The title line, with the description below it when there is one. */
  function HelpHeader(info: CommandInfo): string {
    var title := "🤖 *" + info.name + "* 🤖";
    match info.description
    case Some(d) => if |d| > 0 then title + ("\n\n" + d) else title
    case None => title
  }

  /** The text after the syntax and example sections have been appended. */
  function WithSyntax(text: string, prefix: string, c: Command, ps: seq<Parameter>): string {
    var alias := HelpAlias(prefix, c);
    var syntax := Syntax(text + "\n\n✍️ *Command Syntax* ✍️\n\n" + (prefix + alias), ps, |ps|);
    var example := Examples("\n\n📥 *Example* 📥\n\n" + prefix + alias, ps, |ps|);
    var descriptions := Descriptions(ps, |ps|);
    syntax + (example + (if |descriptions| > 0 then "\n\n📄 *Parameters* 📄" + descriptions else ""))
  }

  /** The text after the alias list has been appended; only commands with
      more than one alias get one. */
  function WithAliases(text: string, c: Command): string {
    if |c.alias| > 1 then text + "\n\n🏷️ *Alias* 🏷️\n\n" + ("\"" + Join(c.alias, "\" - \"") + "\"") else text
  }

  /** The help text of `command_example`: `None` (JavaScript `null`) when the
      command has no display name. */
  function CommandExample(prefix: string, c: Command): (r: Option<string>)
    ensures r.None? <==> c.info.None? || |c.info.value.name| == 0
  {
    if c.info.Some? && |c.info.value.name| > 0 then
      var header := HelpHeader(c.info.value);
      var body := match c.parameters
        case None => header
        case Some(ps) => WithSyntax(header, prefix, c, ps);
      Some(WithAliases(body, c))
    else None
  }

  /** The callback of the `forEach` in `command_example`: what one parameter
      adds to the syntax line, the example line and the descriptions. */
  method AddParameterHelp(text: string, example: string, description: string, p: Parameter)
    returns (text': string, example': string, description': string)
    ensures text' == text + SyntaxPiece(p)
    ensures example' == example + ExamplePiece(p)
    ensures description' == description + DescriptionPiece(p)
  {
    text', example', description' := text, example, description;
    if |p.info.name| > 0 {
      if p.isOptional {
        text' := text' + (" [ *" + p.info.name + "* ]");
      } else {
        text' := text' + (" { *" + p.info.name + "* }");
      }
      if StringType in p.types {
        if ' ' in p.info.example {
          example' := example' + (" \"*" + p.info.example + "*\"");
        } else {
          example' := example' + (" *" + p.info.example + "*");
        }
      } else {
        example' := example' + (" *" + p.info.example + "*");
      }
      if |p.info.description| > 0 {
        description' := description' + ("\n\n*" + p.info.name + "*: " + p.info.description);
      } else {
        EmptyAppend(description);
      }
    } else {
      EmptyAppend(text);
      EmptyAppend(example);
      EmptyAppend(description);
    }
  }

  /** The `forEach` of `command_example` over the parameters. */
  method AddParametersHelp(text: string, example: string, ps: seq<Parameter>)
    returns (text': string, example': string, description: string)
    ensures text' == Syntax(text, ps, |ps|)
    ensures example' == Examples(example, ps, |ps|)
    ensures description == Descriptions(ps, |ps|)
  {
    text', example', description := text, example, "";
    var i := 0;
    while i < |ps|
      invariant 0 <= i <= |ps|
      invariant text' == Syntax(text, ps, i)
      invariant example' == Examples(example, ps, i)
      invariant description == Descriptions(ps, i)
    {
      text', example', description := AddParameterHelp(text', example', description, ps[i]);
      HelpStep(text, example, ps, i);
      i := i + 1;
    }
  }

  /** `command_example`. */
  method HelpText(prefix: string, c: Command) returns (r: Option<string>)
    ensures r == CommandExample(prefix, c)
  {
    if c.info.Some? && |c.info.value.name| > 0 {
      var text := "🤖 *" + c.info.value.name + "* 🤖";
      if c.info.value.description.Some? && |c.info.value.description.value| > 0 {
        text := text + ("\n\n" + c.info.value.description.value);
      }
      ghost var header := text;
      if c.parameters.Some? {
        var ps := c.parameters.value;
        var alias := FirstAlias(c);
        if |prefix| == 0 {
          alias := Capitalize(FirstAlias(c));
        }
        text := text + "\n\n✍️ *Command Syntax* ✍️\n\n";
        text := text + (prefix + alias);
        var example := "\n\n📥 *Example* 📥\n\n" + prefix + alias;
        var parameterDescription;
        text, example, parameterDescription := AddParametersHelp(text, example, ps);
        text := text + (example + (if |parameterDescription| > 0 then "\n\n📄 *Parameters* 📄" + parameterDescription else ""));
      }
      if |c.alias| > 1 {
        text := text + "\n\n🏷️ *Alias* 🏷️\n\n";
        text := text + ("\"" + Join(c.alias, "\" - \"") + "\"");
      }
      r := Some(text);
    } else {
      r := None;
    }
  }

  lemma EmptyAppend(s: string)
    ensures s + "" == s
  {
  }

  /** One more parameter extends each fold by that parameter's piece. */
  lemma HelpStep(syntaxSeed: string, exampleSeed: string, ps: seq<Parameter>, i: nat)
    requires i < |ps|
    ensures Syntax(syntaxSeed, ps, i + 1) == Syntax(syntaxSeed, ps, i) + SyntaxPiece(ps[i])
    ensures Examples(exampleSeed, ps, i + 1) == Examples(exampleSeed, ps, i) + ExamplePiece(ps[i])
    ensures Descriptions(ps, i + 1) == Descriptions(ps, i) + DescriptionPiece(ps[i])
  {
  }

  /** Every seeded fold starts with its seed. */
  lemma {:induction false} SyntaxExtends(seed: string, ps: seq<Parameter>, n: nat)
    requires n <= |ps|
    ensures StartsWith(Syntax(seed, ps, n), seed)
  {
    if n > 0 {
      SyntaxExtends(seed, ps, n - 1);
      StartsWithAppend(Syntax(seed, ps, n - 1), SyntaxPiece(ps[n - 1]));
      StartsWithTrans(Syntax(seed, ps, n), Syntax(seed, ps, n - 1), seed);
    }
  }

  /** A parameter without a name adds nothing to any part of the help text. */
  lemma UnnamedAddsNothing(seed: string, ps: seq<Parameter>, n: nat)
    requires 0 < n <= |ps| && |ps[n - 1].info.name| == 0
    ensures Syntax(seed, ps, n) == Syntax(seed, ps, n - 1)
    ensures Examples(seed, ps, n) == Examples(seed, ps, n - 1)
    ensures Descriptions(ps, n) == Descriptions(ps, n - 1)
  {
    assert Syntax(seed, ps, n - 1) + "" == Syntax(seed, ps, n - 1);
    assert Examples(seed, ps, n - 1) + "" == Examples(seed, ps, n - 1);
    assert Descriptions(ps, n - 1) + "" == Descriptions(ps, n - 1);
  }

  /** The help text opens with the command's title line. */
  lemma HelpStartsWithTitle(prefix: string, c: Command)
    requires c.info.Some? && |c.info.value.name| > 0
    ensures CommandExample(prefix, c).Some?
    ensures StartsWith(CommandExample(prefix, c).value, "🤖 *" + c.info.value.name + "* 🤖")
  {
    var info := c.info.value;
    var title := "🤖 *" + info.name + "* 🤖";
    var header := HelpHeader(info);
    if info.description.Some? && |info.description.value| > 0 {
      StartsWithAppend(title, "\n\n" + info.description.value);
    }
    assert StartsWith(header, title);
    var body := match c.parameters
      case None => header
      case Some(ps) => WithSyntax(header, prefix, c, ps);
    if c.parameters.Some? {
      var ps := c.parameters.value;
      var alias := HelpAlias(prefix, c);
      var s1 := header + "\n\n✍️ *Command Syntax* ✍️\n\n";
      var s2 := s1 + (prefix + alias);
      StartsWithAppend(header, "\n\n✍️ *Command Syntax* ✍️\n\n");
      StartsWithAppend(s1, prefix + alias);
      SyntaxExtends(s2, ps, |ps|);
      var syntax := Syntax(s2, ps, |ps|);
      StartsWithAppend(syntax, body[|syntax|..]);
      assert body == syntax + body[|syntax|..];
      StartsWithTrans(body, syntax, s2);
      StartsWithTrans(body, s2, s1);
      StartsWithTrans(body, s1, header);
    }
    StartsWithTrans(body, header, title);
    if |c.alias| > 1 {
      var a1 := body + "\n\n🏷️ *Alias* 🏷️\n\n";
      StartsWithAppend(body, "\n\n🏷️ *Alias* 🏷️\n\n");
      StartsWithAppend(a1, "\"" + Join(c.alias, "\" - \"") + "\"");
      StartsWithTrans(WithAliases(body, c), a1, body);
    }
    StartsWithTrans(WithAliases(body, c), body, title);
  }

  /** The alias list closes the help text exactly when there is more than one
      alias; a command without parameters shows only its header. */
  lemma HelpAliasSection(prefix: string, c: Command)
    requires c.info.Some? && |c.info.value.name| > 0
    ensures |c.alias| > 1 ==> EndsWith(CommandExample(prefix, c).value, "\"" + Join(c.alias, "\" - \"") + "\"")
    ensures c.parameters.None? && |c.alias| <= 1 ==> CommandExample(prefix, c).value == HelpHeader(c.info.value)
  {
    if |c.alias| > 1 {
      var r := CommandExample(prefix, c).value;
      var tail := "\"" + Join(c.alias, "\" - \"") + "\"";
      EndsWithAppend(r[..|r| - |tail|], tail);
    }
  }
}
