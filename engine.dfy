/** The engine object of engine.go: a registry it updates in place, a
    tokenizer, and the four operations on them. */
module Cmd {
  import opened Outcomes
  import opened Registry
  import Dispatch

  /** The command interpreter. `C` is the type of the context handed,
      unexamined, to handlers. */
  class Engine<!C> {
    /** The registered commands, keyed by name. */
    var commands: Commands<C>
    /** The shell-word tokenizer the engine was built with. */
    const parser: Tokenizer
    /** Every registration call made on this engine, failed ones included. */
    ghost var log: seq<Op<C>>

    /** The registry is what the calls made so far leave behind. */
    ghost predicate Valid()
      reads this
    {
      commands == Replay(map[], log)
    }

    /** NewEngine: an empty registry. */
    constructor (parser: Tokenizer)
      ensures Valid()
      ensures commands == map[] && log == []
      ensures this.parser == parser
    {
      this.commands := map[];
      this.parser := parser;
      this.log := [];
    }

    method AddCommand(name: string, help: string, handler: Handler<C>, userLevel: GoInt) returns (err: Outcome)
      requires Valid()
      modifies this
      ensures Valid()
      ensures log == old(log) + [AddOp(name, CommandInfo(handler, userLevel, help))]
      ensures err == Add(old(commands), name, CommandInfo(handler, userLevel, help)).result
      ensures commands == Add(old(commands), name, CommandInfo(handler, userLevel, help)).after
    {
      log := log + [AddOp(name, CommandInfo(handler, userLevel, help))];
      if name in commands {
        return Fail(AlreadyRegistered(name));
      }
      commands := commands[name := CommandInfo(handler, userLevel, help)];
      return Success;
    }

    method RemoveCommand(name: string) returns (err: Outcome)
      requires Valid()
      modifies this
      ensures Valid()
      ensures log == old(log) + [RemoveOp(name)]
      ensures err == Remove(old(commands), name).result
      ensures commands == Remove(old(commands), name).after
    {
      log := log + [RemoveOp(name)];
      if name !in commands {
        return Fail(NotRegistered(name));
      }
      commands := commands - {name};
      return Success;
    }

    /** Exec: the checks in order, then the handler with the tokens after the
        name. It changes nothing: it has no modifies clause. */
    method Exec(ctx: C, userLevel: GoInt, args: seq<string>) returns (err: Outcome)
      ensures err == Dispatch.Exec(commands, ctx, userLevel, args)
    {
      if |args| < 1 {
        return Fail(EmptyCommand);
      }
      if args[0] !in commands {
        return Fail(CommandNotFound(args[0]));
      }
      var cmd := commands[args[0]];
      if cmd.userLevel > userLevel {
        return Fail(InsufficientLevel(userLevel, cmd.userLevel));
      }
      return cmd.handler(ctx, args[1..]);
    }

    /** ExecString: tokenize, return the tokenizer's syntax error, or Exec the words. */
    method ExecString(ctx: C, userLevel: GoInt, commandString: string) returns (err: Outcome)
      ensures err == Dispatch.ExecString(parser, commands, ctx, userLevel, commandString)
    {
      var args := parser(commandString);
      if args.SyntaxError? {
        return Fail(Syntax(args.message));
      }
      err := Exec(ctx, userLevel, args.words);
    }
  }

  /** On any valid engine, a name is registered exactly when the last
      registration call naming it was an AddCommand. */
  lemma RegisteredIffLastCallAdded<C>(e: Engine<C>, name: string)
    requires e.Valid()
    ensures var k := LastTouch(e.log, name);
            name in e.commands <==> k >= 0 && e.log[k].AddOp?
  {
    ReplayMembership(map[], e.log, name);
  }

  /** The handler used by the engine's tests: it fails exactly when its
      first argument is "bad". */
  function BadHandler(ctx: int, args: seq<string>): (r: Outcome) {
    if |args| >= 1 && args[0] == "bad" then Fail(Application("bad")) else Success
  }

  /** The scenarios of the engine's tests, checked against the contracts
      above: each call's error, and which handler invocation, if any, the
      call makes. The tokenizer is any one that splits the test lines as a
      shell would. */
  method EngineScenario(parse: Tokenizer)
    requires parse("test") == Words(["test"]) && parse("nope") == Words(["nope"])
    requires parse("test good") == Words(["test", "good"]) && parse("test bad") == Words(["test", "bad"])
    requires parse("") == Words([]) && parse("\"").SyntaxError?
  {
    var e := new Engine<int>(parse);
    var err := e.RemoveCommand("test");
    assert err == Fail(NotRegistered("test"));
    err := e.AddCommand("test", "help", BadHandler, 0);
    assert err == Success;
    err := e.AddCommand("test", "help", BadHandler, 0);
    assert err == Fail(AlreadyRegistered("test"));
    ghost var entry := CommandInfo(BadHandler, 0, "help");
    assert e.commands == map["test" := entry];

    // Exec: the error, and the handler invocation or its absence.
    err := e.Exec(0, 0, []);
    assert err == Fail(EmptyCommand) && Dispatch.Decide(e.commands, 0, []).Reject?;
    err := e.Exec(0, 0, ["nope"]);
    assert err == Fail(CommandNotFound("nope")) && Dispatch.Decide(e.commands, 0, ["nope"]).Reject?;
    err := e.Exec(0, -1, ["test"]);
    assert err == Fail(InsufficientLevel(-1, 0)) && Dispatch.Decide(e.commands, -1, ["test"]).Reject?;
    err := e.Exec(0, 0, ["test"]);
    assert err == Success && Dispatch.Decide(e.commands, 0, ["test"]) == Dispatch.Invoke(entry, []);
    err := e.Exec(0, 0, ["test", "good"]);
    assert err == Success && Dispatch.Decide(e.commands, 0, ["test", "good"]) == Dispatch.Invoke(entry, ["good"]);
    err := e.Exec(0, 0, ["test", "bad"]);
    assert err == Fail(Application("bad")) && Dispatch.Decide(e.commands, 0, ["test", "bad"]) == Dispatch.Invoke(entry, ["bad"]);

    // ExecString: the same checks after tokenizing.
    err := e.ExecString(0, 0, "\"");
    assert err == Fail(Syntax(parse("\"").message));
    err := e.ExecString(0, 0, "");
    assert err == Fail(EmptyCommand);
    err := e.ExecString(0, 0, "nope");
    assert err == Fail(CommandNotFound("nope"));
    err := e.ExecString(0, -1, "test");
    assert err == Fail(InsufficientLevel(-1, 0));
    err := e.ExecString(0, 0, "test");
    assert err == Success;
    err := e.ExecString(0, 0, "test good");
    assert err == Success;
    err := e.ExecString(0, 0, "test bad");
    assert err == Fail(Application("bad"));

    // Removal, read off the call log, then the removed name is not found.
    err := e.RemoveCommand("test");
    assert err == Success;
    RegisteredIffLastCallAdded(e, "test");
    assert e.log[|e.log| - 1] == RemoveOp("test");
    assert "test" !in e.commands;
    err := e.ExecString(0, 10, "test");
    assert err == Fail(CommandNotFound("test"));
  }
}
