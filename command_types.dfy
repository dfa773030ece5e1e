/** The data model of the command engine (src/modules/commands/commands.ts and
    the interfaces in src/ts/interfaces/commands.d.ts): argument values,
    parameters, command definitions, response options and command errors. */
module CommandTypes {
  import opened Wrappers
  import opened Text

  /** The declared type of a parameter (`ParameterType`). */
  datatype ParamType = StringType | NumberType | BooleanType | AnyType

  /** A runtime argument or default value: the tokenizer yields strings, the
      coercion turns some of them into numbers and booleans, and a default may
      be `null` or left `undefined`. */
  datatype Value = Str(s: string) | Num(n: int) | Bool(b: bool) | Null | Undefined

  /** Parameter display info after merging with the defaults
      `{ name: 'UNDEFINED', description: '', example: 'UNDEFINED' }`. */
  datatype ParamInfo = ParamInfo(name: string, description: string, example: string)

  /** The `info` argument of `addParameter`, any field of which may be left out. */
  datatype ParamInfoInput = ParamInfoInput(name: Option<string>, description: Option<string>, example: Option<string>)

  /** A declared parameter. */
  datatype Parameter = Parameter(types: seq<ParamType>, defaultValue: Value, isOptional: bool, info: ParamInfo)

  datatype CommandOptions = CommandOptions(adminOnly: bool, needQuotedMessage: bool)

  /** The `options` of `createCommand`'s data, any field of which may be left out. */
  datatype CommandOptionsInput = CommandOptionsInput(adminOnly: Option<bool>, needQuotedMessage: Option<bool>)

  /** The optional `data` argument of `createCommand`. */
  datatype CommandData = CommandData(options: Option<CommandOptionsInput>, info: Option<CommandInfo>)

  datatype CommandInfo = CommandInfo(name: string, description: Option<string>)

  /** The callback attached with `setCallback`; `NoOp` is the default `() => {}`. */
  datatype Callback = NoOp | Handler(id: string)

  /** A command definition. `parameters == None` is the `null` that
      `createCommand` starts with; the first `addParameter` makes it a list. */
  datatype Command = Command(
    alias: seq<string>,
    parameters: Option<seq<Parameter>>,
    hasOptionalValues: bool,
    options: CommandOptions,
    info: Option<CommandInfo>,
    callback: Callback)

  /** A value inside a `MessageSendOptions` object. */
  datatype OptionValue = OptBool(b: bool) | OptText(t: string)

  /** `MessageSendOptions`, as a dictionary from option name to value. */
  type SendOptions = map<string, OptionValue>

  /** `CommandResponseOptions`; absent booleans are `false`. The older
      `send_response` reads `reply`, the newer `sendResponse` reads a field
      named `asReply`, so both are kept. */
  datatype ResponseOptions = ResponseOptions(
    reply: bool,
    asReply: bool,
    asError: bool,
    reaction: Option<string>,
    messageOptions: Option<SendOptions>)

  /** The options of a call that passes none. */
  const NoOptions := ResponseOptions(false, false, false, None, None)

  /** `MessageContent | null`: no content, a text, or a media object. */
  datatype Content = NoContent | Text(text: string) | Media(id: string)

  /** JavaScript truthiness of a content value: `null` and `""` are falsy. */
  predicate Truthy(c: Content) {
    match c
    case NoContent => false
    case Text(t) => t != ""
    case Media(_) => true
  }

  /** `CommandError`: a user-facing message with optional response options. */
  datatype CommandError = CommandError(message: string, options: Option<ResponseOptions>)

  /** `${param.type}`: the type names joined with commas. */
  function TypeName(t: ParamType): string {
    match t
    case StringType => "string"
    case NumberType => "number"
    case BooleanType => "boolean"
    case AnyType => "any"
  }

  function TypeNames(ts: seq<ParamType>): (r: seq<string>)
    ensures |r| == |ts|
    ensures forall i :: 0 <= i < |ts| ==> r[i] == TypeName(ts[i])
  {
    if ts == [] then [] else [TypeName(ts[0])] + TypeNames(ts[1..])
  }

  /** `command.alias[0]`, which JavaScript prints as "undefined" for an empty list. */
  function FirstAlias(c: Command): string {
    if |c.alias| > 0 then c.alias[0] else "undefined"
  }
}
