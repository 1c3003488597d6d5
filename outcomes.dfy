/** Values shared by every part of the command engine: Go's `int` and the
    errors the engine's operations return. */
module Outcomes {

  /** Go's `int` on a 64-bit platform. The engine only compares levels and
      never computes with them, so no operation here can wrap around. */
  newtype GoInt = x: int | -0x8000_0000_0000_0000 <= x <= 0x7fff_ffff_ffff_ffff

  const MinGoInt: GoInt := -0x8000_0000_0000_0000

  /** The kinds of error the engine produces. Each carries the values its
      Go message is formatted from, not the message text. */
  datatype Error =
    | AlreadyRegistered(name: string)                     // AddCommand
    | NotRegistered(name: string)                         // RemoveCommand
    | EmptyCommand                                        // Exec: no tokens
    | CommandNotFound(name: string)                       // Exec: unknown first token
    | InsufficientLevel(userLevel: GoInt, required: GoInt) // Exec: caller below the command's level
    | Syntax(message: string)                             // ExecString: the tokenizer rejected the line
    | Application(message: string)                        // any error a handler chooses to return

  /** A Go `error` result (Ok is a nil error) or a value-or-error pair. */
  datatype Result<T> = Ok(value: T) | Fail(error: Error)

  /** What a Go function returning only `error` returns. */
  type Outcome = Result<()>

  const Success: Outcome := Ok(())

  /** What the shell-word tokenizer returns: the words of a line, or its own
      syntax error (an unterminated quote, say), which is never an engine error. */
  datatype Tokens = Words(words: seq<string>) | SyntaxError(message: string)

  /** A tokenizer, as the engine holds one. */
  type Tokenizer = string -> Tokens
}
