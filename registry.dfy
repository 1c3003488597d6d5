/** The registry of an engine: the map from command name to `commandInfo`,
    the two operations that change it, and what a sequence of such calls
    leaves behind. */
module Registry {
  import opened Outcomes

  /** A host-supplied handler: it receives the caller's context and the
      tokens after the command name, and returns an error or nil. */
  type Handler<-C> = (C, seq<string>) -> Outcome

  /** One registered command. Created by AddCommand, never mutated. */
  datatype CommandInfo<!C> = CommandInfo(handler: Handler<C>, userLevel: GoInt, help: string)

  /** The `commands` field of an engine. A map holds at most one entry per name. */
  type Commands<!C> = map<string, CommandInfo<C>>

  /** The error a registration call returns and the registry it leaves. */
  datatype Step<!C> = Step(result: Outcome, after: Commands<C>)

  /** AddCommand: registers `name` only when it is absent; a present name is
      an error and the registry, original entry included, stays as it was. */
  function Add<C>(commands: Commands<C>, name: string, info: CommandInfo<C>): (s: Step<C>)
    ensures s.result == Success <==> name !in commands
    ensures name in commands ==> s.result == Fail(AlreadyRegistered(name)) && s.after == commands
    ensures name !in commands ==>
              && s.after.Keys == commands.Keys + {name}
              && s.after[name] == info
              && forall n :: n in commands ==> s.after[n] == commands[n]
  {
    if name in commands then Step(Fail(AlreadyRegistered(name)), commands)
    else Step(Success, commands[name := info])
  }

  /** RemoveCommand: deletes `name` only when it is present; an absent name
      is an error and the registry stays as it was. */
  function Remove<C>(commands: Commands<C>, name: string): (s: Step<C>)
    ensures s.result == Success <==> name in commands
    ensures name !in commands ==> s.result == Fail(NotRegistered(name)) && s.after == commands
    ensures name in commands ==>
              && s.after.Keys == commands.Keys - {name}
              && forall n :: n in s.after ==> s.after[n] == commands[n]
  {
    if name !in commands then Step(Fail(NotRegistered(name)), commands)
    else Step(Success, commands - {name})
  }

  /** A registration call, as recorded in an engine's history. */
  datatype Op<!C> = AddOp(name: string, info: CommandInfo<C>) | RemoveOp(name: string)

  function Apply<C>(commands: Commands<C>, op: Op<C>): (s: Step<C>) {
    match op
    case AddOp(name, info) => Add(commands, name, info)
    case RemoveOp(name) => Remove(commands, name)
  }

  /** The registry after the calls `ops`, made in order, starting from `commands`. */
  function Replay<C>(commands: Commands<C>, ops: seq<Op<C>>): (after: Commands<C>)
    decreases |ops|
  {
    if ops == [] then commands
    else Apply(Replay(commands, ops[..|ops| - 1]), ops[|ops| - 1]).after
  }

  /** The position of the last call in `ops` that names `name`, or -1 if none does. */
  function LastTouch<C>(ops: seq<Op<C>>, name: string): (k: int)
    ensures -1 <= k < |ops|
    ensures k >= 0 ==> ops[k].name == name
    ensures forall j :: k < j < |ops| ==> ops[j].name != name
    decreases |ops|
  {
    if ops == [] then -1
    else if ops[|ops| - 1].name == name then |ops| - 1
    else LastTouch(ops[..|ops| - 1], name)
  }

  /** Whatever happened before, a name is registered exactly when the last
      call naming it was an AddCommand; a name no call mentions keeps its
      initial membership. */
  lemma {:induction false} ReplayMembership<C>(commands: Commands<C>, ops: seq<Op<C>>, name: string)
    ensures var k := LastTouch(ops, name);
            name in Replay(commands, ops) <==> (if k < 0 then name in commands else ops[k].AddOp?)
  {
    if ops != [] {
      var init := ops[..|ops| - 1];
      ReplayMembership(commands, init, name);
    }
  }

  /** A name that no call mentions keeps its initial entry, or stays absent. */
  lemma {:induction false} ReplayUntouched<C>(commands: Commands<C>, ops: seq<Op<C>>, name: string)
    requires forall j :: 0 <= j < |ops| ==> ops[j].name != name
    ensures name in Replay(commands, ops) <==> name in commands
    ensures name in commands ==> Replay(commands, ops)[name] == commands[name]
  {
    if ops != [] {
      ReplayUntouched(commands, ops[..|ops| - 1], name);
    }
  }

  /** Registration never overwrites: once registered, a name keeps the entry
      it was registered with, through any number of calls, until it is removed. */
  lemma {:induction false} EntryStableUntilRemoved<C>(commands: Commands<C>, ops: seq<Op<C>>, name: string)
    requires name in commands
    requires forall j :: 0 <= j < |ops| ==> !(ops[j].RemoveOp? && ops[j].name == name)
    ensures name in Replay(commands, ops)
    ensures Replay(commands, ops)[name] == commands[name]
  {
    if ops != [] {
      EntryStableUntilRemoved(commands, ops[..|ops| - 1], name);
    }
  }

  /** Registering a fresh name and removing it again restores the registry. */
  lemma AddThenRemove<C>(commands: Commands<C>, name: string, info: CommandInfo<C>)
    requires name !in commands
    ensures var added := Add(commands, name, info);
            added.result == Success && Remove(added.after, name) == Step(Success, commands)
  {
  }

  /** Removing a name and registering its old entry again restores the registry. */
  lemma RemoveThenAdd<C>(commands: Commands<C>, name: string)
    requires name in commands
    ensures var removed := Remove(commands, name);
            removed.result == Success && Add(removed.after, name, commands[name]) == Step(Success, commands)
  {
  }

  /** A second registration of the same name fails and the first entry remains. */
  lemma DuplicateAddKeepsFirst<C>(commands: Commands<C>, name: string, first: CommandInfo<C>, second: CommandInfo<C>)
    requires name !in commands
    ensures var once := Add(commands, name, first);
            var twice := Add(once.after, name, second);
            && once.result == Success
            && twice.result == Fail(AlreadyRegistered(name))
            && twice.after == once.after
            && twice.after[name] == first
  {
  }
}
