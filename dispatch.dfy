/** Dispatch: how Exec and ExecString answer against a registry snapshot. */
module Dispatch {
  import opened Outcomes
  import opened Registry

  /** The engine's decision for one argument vector: either the handler is
      invoked with the given tokens, or the call is rejected and no handler runs. */
  datatype Decision<!C> = Invoke(info: CommandInfo<C>, args: seq<string>) | Reject(error: Error)

  /** The checks of Exec, in their fixed order: a non-empty vector, a
      registered first token, then a caller level at least the command's. */
  function Decide<C>(commands: Commands<C>, userLevel: GoInt, args: seq<string>): (d: Decision<C>)
    ensures d.Invoke? <==> |args| > 0 && args[0] in commands && commands[args[0]].userLevel <= userLevel
    ensures d.Invoke? ==> d.info == commands[args[0]] && d.args == args[1..] && |d.args| == |args| - 1
    ensures d == Reject(EmptyCommand) <==> |args| == 0
    ensures d.Reject? && d.error.CommandNotFound? <==> |args| > 0 && args[0] !in commands
    ensures d.Reject? && d.error.CommandNotFound? ==> d.error.name == args[0]
    ensures d.Reject? && d.error.InsufficientLevel? <==>
              |args| > 0 && args[0] in commands && userLevel < commands[args[0]].userLevel
    ensures d.Reject? && d.error.InsufficientLevel? ==>
              d.error == InsufficientLevel(userLevel, commands[args[0]].userLevel)
  {
    if |args| < 1 then Reject(EmptyCommand)
    else if args[0] !in commands then Reject(CommandNotFound(args[0]))
    else if commands[args[0]].userLevel > userLevel
    then Reject(InsufficientLevel(userLevel, commands[args[0]].userLevel))
    else Invoke(commands[args[0]], args[1..])
  }

  /** Exec: the decision's error, or whatever the invoked handler returns. */
  function Exec<C>(commands: Commands<C>, ctx: C, userLevel: GoInt, args: seq<string>): (r: Outcome) {
    match Decide(commands, userLevel, args)
    case Invoke(info, rest) => info.handler(ctx, rest)
    case Reject(e) => Fail(e)
  }

  /** ExecString: the tokenizer's syntax error, or Exec of its words. */
  function ExecString<C>(parse: Tokenizer, commands: Commands<C>, ctx: C,
                         userLevel: GoInt, line: string): (r: Outcome)
  {
    match parse(line)
    case SyntaxError(message) => Fail(Syntax(message))
    case Words(tokens) => Exec(commands, ctx, userLevel, tokens)
  }

  /** On success the handler's own result is returned unchanged. */
  lemma HandlerResultPassesThrough<C>(commands: Commands<C>, ctx: C, userLevel: GoInt, args: seq<string>)
    requires |args| > 0 && args[0] in commands && commands[args[0]].userLevel <= userLevel
    ensures Exec(commands, ctx, userLevel, args) == commands[args[0]].handler(ctx, args[1..])
  {
  }

  /** Same names and levels: same registry as far as the checks can see. */
  ghost predicate SameLevels<C>(c1: Commands<C>, c2: Commands<C>) {
    c1.Keys == c2.Keys && forall n :: n in c1 ==> c1[n].userLevel == c2[n].userLevel
  }

  /** No handler is invoked on a failure path: whenever the checks reject,
      the result is the engine's own error, whatever the handlers and the
      context are. */
  lemma RejectionIgnoresHandlers<C>(c1: Commands<C>, c2: Commands<C>, ctx1: C, ctx2: C,
                                    userLevel: GoInt, args: seq<string>)
    requires SameLevels(c1, c2)
    ensures Decide(c1, userLevel, args).Reject? <==> Decide(c2, userLevel, args).Reject?
    ensures Decide(c1, userLevel, args).Reject? ==>
              && Exec(c1, ctx1, userLevel, args) == Fail(Decide(c1, userLevel, args).error)
              && Exec(c1, ctx1, userLevel, args) == Exec(c2, ctx2, userLevel, args)
  {
  }

  /** Authorization is monotone: a caller allowed at one level is allowed,
      with the same invocation, at any higher level. */
  lemma LevelMonotone<C>(commands: Commands<C>, low: GoInt, high: GoInt, args: seq<string>)
    requires low <= high
    requires Decide(commands, low, args).Invoke?
    ensures Decide(commands, high, args) == Decide(commands, low, args)
  {
  }

  /** The authorization boundary: a caller level equal to the command's
      level suffices, one below it is refused. */
  lemma AuthorizationBoundary<C>(commands: Commands<C>, args: seq<string>)
    requires |args| > 0 && args[0] in commands
    requires commands[args[0]].userLevel > MinGoInt
    ensures var level := commands[args[0]].userLevel;
            && Decide(commands, level, args) == Invoke(commands[args[0]], args[1..])
            && Decide(commands, level - 1, args) == Reject(InsufficientLevel(level - 1, level))
  {
  }

  /** A one-token vector invokes the handler with no arguments. */
  lemma SingleTokenInvokesWithNoArgs<C>(commands: Commands<C>, userLevel: GoInt, name: string)
    requires name in commands && commands[name].userLevel <= userLevel
    ensures Decide(commands, userLevel, [name]) == Invoke(commands[name], [])
  {
  }

  /** A fresh engine knows no command: every call fails as empty or not found. */
  lemma EmptyRegistryFindsNothing<C>(ctx: C, userLevel: GoInt, args: seq<string>)
    ensures Exec(map[], ctx, userLevel, args) ==
              if args == [] then Fail(EmptyCommand) else Fail(CommandNotFound(args[0]))
  {
  }

  /** After a successful removal, executing the removed name fails as not found. */
  lemma RemovedCommandNotFound<C>(commands: Commands<C>, name: string, ctx: C, userLevel: GoInt,
                                  rest: seq<string>)
    requires Remove(commands, name).result == Success
    ensures Exec(Remove(commands, name).after, ctx, userLevel, [name] + rest) == Fail(CommandNotFound(name))
  {
  }

  /** After a successful registration, the name dispatches to exactly the
      registered entry, with the tokens after the name. */
  lemma AddedCommandDispatches<C>(commands: Commands<C>, name: string, info: CommandInfo<C>,
                                  userLevel: GoInt, rest: seq<string>)
    requires name !in commands
    requires info.userLevel <= userLevel
    ensures Decide(Add(commands, name, info).after, userLevel, [name] + rest) == Invoke(info, rest)
  {
  }

  /** A tokenizer error is returned as a syntax error with the tokenizer's own
      message, whatever the registry holds, and no handler runs. */
  lemma SyntaxErrorPassesThrough<C>(parse: Tokenizer, commands: Commands<C>, ctx: C,
                                    userLevel: GoInt, line: string)
    requires parse(line).SyntaxError?
    ensures ExecString(parse, commands, ctx, userLevel, line) == Fail(Syntax(parse(line).message))
  {
  }

  /** A line the tokenizer turns into no tokens fails as an empty command. */
  lemma EmptyLineIsEmptyCommand<C>(parse: Tokenizer, commands: Commands<C>, ctx: C,
                                   userLevel: GoInt, line: string)
    requires parse(line) == Words([])
    ensures ExecString(parse, commands, ctx, userLevel, line) == Fail(EmptyCommand)
  {
  }

  /** Tokenize-then-dispatch: a line that tokenizes behaves exactly as Exec of its tokens. */
  lemma ExecStringIsExecOfTokens<C>(parse: Tokenizer, commands: Commands<C>, ctx: C,
                                    userLevel: GoInt, line: string, tokens: seq<string>)
    requires parse(line) == Words(tokens)
    ensures ExecString(parse, commands, ctx, userLevel, line) == Exec(commands, ctx, userLevel, tokens)
  {
  }
}
