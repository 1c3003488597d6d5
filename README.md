# cmd: a command-dispatch engine, modelled in Dafny

The Go package `cmd` is a small command interpreter. An `Engine` owns a
registry that maps a command name to its `commandInfo`: a handler, the
minimum user level needed to run it, and a help string. Commands are
registered with `AddCommand` and deleted with `RemoveCommand`. `Exec` takes
an argument vector. It rejects an empty vector, looks the first token up,
rejects a caller whose level is below the command's level, and otherwise
calls the handler with the remaining tokens, returning the handler's error
unchanged. `ExecString` first splits a raw line into shell words and then
behaves as `Exec`.

The model has four modules:

- `Outcomes` (outcomes.dfy): Go's 64-bit `int` as the newtype `GoInt`, the
  error kinds, and `Result`/`Outcome` (an `Ok` outcome is Go's nil error).
- `Registry` (registry.dfy): `CommandInfo`, the registry map, the registration
  functions `Add` and `Remove`, and a trace semantics. `Replay` applies a
  sequence of registration calls. Its lemmas describe what any such sequence
  leaves behind.
- `Dispatch` (dispatch.dfy): the decision `Decide` (invoke a handler with
  given tokens, or reject with an error), and `Exec`/`ExecString` as
  functions of a registry snapshot. Lemmas relate these to registration.
- `Cmd` (engine.dfy): the class `Engine<C>`. It has the map field `commands`
  that `AddCommand` and `RemoveCommand` update in place. It keeps the
  tokenizer in a constant field, and a ghost `log` of every registration
  call. Its invariant `Valid()` says `commands` is the `Replay` of `log`.
  `Exec` and `ExecString` are read-only methods proved equal to the
  `Dispatch` functions. The lemma `RegisteredIffLastCallAdded` applies the
  trace semantics to an engine. A client method `EngineScenario` checks the
  cases of engine_test.go against these contracts. For each case it checks
  the error, and for each Exec case which handler invocation is made, if any.

Handlers are Dafny functions `(C, seq<string>) -> Outcome`, where the type
parameter `C` stands for Go's `ctx interface{}`. The context value is passed
through unexamined. The shell-word tokenizer comes from an external library.
It is passed to the `Engine` constructor as a function `string -> Tokens`
and is not defined here. It returns either the words of the line or its own
syntax error, which ExecString returns as the error kind `Syntax`. A
tokenizer failure therefore never looks like an engine rejection.

Command names may be empty: `AddCommand("")` succeeds in engine.go:33-45,
and so it does here.

## Model

| member | source | states |
|---|---|---|
| `Cmd.Engine.constructor` | engine.go:25-30 | a new engine has an empty registry (so every name is unregistered), an empty call log, and the given tokenizer |
| `Cmd.Engine.AddCommand` | engine.go:33-45 | appends the call to the log and keeps the registry equal to the replay of the log; the error and new registry are those of `Registry.Add` |
| `Cmd.Engine.RemoveCommand` | engine.go:48-55 | appends the call to the log and keeps the registry equal to the replay of the log; the error and new registry are those of `Registry.Remove` |
| `Cmd.Engine.Exec` | engine.go:58-74 | the imperative checks return exactly the result of `Dispatch.Exec` on the current registry; the method modifies nothing |
| `Cmd.Engine.ExecString` | engine.go:77-84 | returns exactly `Dispatch.ExecString` for the engine's tokenizer and current registry; it modifies nothing |
| `Cmd.RegisteredIffLastCallAdded` | engine.go:33-55 | on any engine, a name is registered exactly when the last AddCommand or RemoveCommand call naming it was an AddCommand |
| `Registry.Add` | engine.go:33-45 | succeeds exactly when the name is absent; on success the name maps to exactly the given handler, level and help, and every other entry is unchanged; otherwise it returns AlreadyRegistered and leaves the registry, including the original entry, unchanged |
| `Registry.Remove` | engine.go:48-55 | succeeds exactly when the name is present; on success only that key is removed and all other entries are kept; otherwise it returns NotRegistered and leaves the registry unchanged |
| `Registry.ReplayMembership` | engine.go:34-38 | after any sequence of registration calls, a name is registered exactly when the last call naming it was an AddCommand; a name no call mentions keeps its initial membership |
| `Registry.ReplayUntouched` | engine.go:38-53 | registration calls on other names never change a name's membership or its entry |
| `Registry.EntryStableUntilRemoved` | engine.go:34-36 | at most one entry per name, never overwritten: a registered name keeps its original entry through any sequence of calls that does not remove it |
| `Registry.AddThenRemove` | engine.go:38-53 | registering a fresh name and removing it again gives back the original registry |
| `Registry.RemoveThenAdd` | engine.go:49-53 | removing a name and registering its old entry again gives back the original registry |
| `Registry.DuplicateAddKeepsFirst` | engine_test.go:20-28 | a second AddCommand of the same name fails with AlreadyRegistered, changes nothing, and the first entry remains |
| `Dispatch.Decide` | engine.go:59-73 | the handler is invoked exactly when the vector is non-empty, its first token is registered and the caller level is at least the command's level; it is then invoked with exactly the tokens after the name; otherwise the error is EmptyCommand exactly for an empty vector, CommandNotFound (naming the token) exactly for an unregistered first token, and InsufficientLevel exactly for a caller below the level |
| `Dispatch.HandlerResultPassesThrough` | engine.go:73 | on success Exec returns the handler's own result unchanged, error or not |
| `Dispatch.RejectionIgnoresHandlers` | engine.go:59-71 | on every failure path no handler runs: the result is the engine's own error and does not depend on the handlers or on the context |
| `Dispatch.LevelMonotone` | engine.go:69-71 | a caller allowed at some level is allowed, with the same invocation, at every higher level |
| `Dispatch.AuthorizationBoundary` | engine.go:69-71 | a caller level equal to the command's level is sufficient; one below it fails with InsufficientLevel |
| `Dispatch.SingleTokenInvokesWithNoArgs` | engine.go:73 | a one-token vector invokes the handler with the empty sequence |
| `Dispatch.EmptyRegistryFindsNothing` | engine.go:25-30 | on a new engine every Exec fails, as EmptyCommand or as CommandNotFound |
| `Dispatch.RemovedCommandNotFound` | engine.go:53-67 | after a successful removal, executing the removed name fails as CommandNotFound |
| `Dispatch.AddedCommandDispatches` | engine.go:38-73 | after a successful registration, a caller at or above the level invokes exactly the registered entry with the tokens after the name |
| `Dispatch.SyntaxErrorPassesThrough` | engine.go:78-81 | when tokenizing fails, ExecString returns a Syntax error with the tokenizer's own message, whatever the registry holds |
| `Dispatch.EmptyLineIsEmptyCommand` | engine.go:78-83 | a line that tokenizes to no tokens fails as EmptyCommand |
| `Dispatch.ExecStringIsExecOfTokens` | engine.go:77-84 | a line that tokenizes behaves exactly as Exec applied to its tokens |

## Left out

- The go-shellwords tokenizer (engine.go:6, 28, 78) is not part of this model: its algorithm lives in an external library. It is a function parameter of the `Engine` constructor, and the model only passes its words on, or its syntax error as `Syntax`.
- The tokenizer's own state: a go-shellwords parser records a position after each parse. The engine never reads it, and the model has no such state.
- Unchecked handlers and partial engines: `AddCommand` accepts a nil handler, and a later `Exec` of that name panics at engine.go:73. A handler may itself panic or never return, and then Exec does the same. The zero value `Engine{}` is usable from outside the package, and its `AddCommand` (nil map, engine.go:38) and `ExecString` (nil parser, engine.go:78) panic. The model has no nil handler, only terminating handlers, and no engine that is not built by the constructor.
- Handlers that use the engine: a handler may call `AddCommand` or `RemoveCommand` on the engine that invoked it, so a Go `Exec` can change the registry. In the model a handler cannot reach the engine, which is why `Cmd.Engine.Exec` modifies nothing.
- Handler side effects: a Go handler may change anything, such as the tests' captured `handlerArgs`. Here a handler is a pure function of the context and its arguments. Which handler runs, and with which tokens, is stated by `Dispatch.Decide` instead.
- Aliasing of `args[1:]`: the Go slice shares memory with the caller's vector, so a handler could write into it. Dafny sequences are values.
- Error message text built with `fmt.Errorf`: each error kind carries the values the message is formatted from, not the text.
- Help text: it is stored in `CommandInfo` but never read, as in the source.
- `commands` holds `*commandInfo` pointers in Go. An entry is never mutated after it is created, so the model stores the entries as values.
- Concurrency: the source has no locking and assumes one caller at a time; the model is sequential.
- Strings: Go strings are byte sequences, while Dafny's `string` holds Unicode scalar values. Names are compared for exact equality in both, but a Go name holding invalid UTF-8 has no counterpart here.
- Go's `int` is taken to be 64 bits wide (`GoInt`). Levels are only compared, so no operation can overflow.
