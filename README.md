# ninter in Dafny

`ninter` drives a guest interpreter (R or Deno) through its standard input
and output, from Python. The guest's output is one undelimited stream of
text. To frame it, every submission is followed by a sentinel: a command
that prints a stamped marker line. A reply is everything read up to that
marker. The pending markers form a FIFO queue, so several requests can be
pipelined before any reply is read. Host values are rendered as guest
literals. Guest values stay in the guest behind proxies, which compose
calls, operators and element accesses as guest source text.

This project models that core and proves properties of it.

- `Text` (text.dfy): the Python string operations the source relies on.
  These are `''.join`, `sep.join`, `str.split` on one character, `strip`
  with Python's full white-space set, slicing past the end, `str.index`,
  and `str(int)`. Each carries a characterising contract or a round-trip
  lemma.
- `Syntax` (syntax.dfy): the per-guest builders of `Command`, `RCommand`
  and `DenoCommand`, and the layout of `InterpreterException.__str__`.
- `Wire` (wire.dfy): a pure specification of the correlation protocol.
  The state is the queue of pending match lines and a cursor into the
  guest's output.
- `Engine` (engine.dfy): the classes `Command` and `Interpreter`.
  - `Command` keeps the written log, the flush mark and the read cursor as
    mutable fields. Its constructor is the handshake loop.
  - The methods of `Interpreter` are proved to follow `Wire`. That covers
    `send`, `flush`, `receive_one`, `receive_by_key`, `get`, the binding
    forms and `close`.
- `Proxy` (proxy.dfy): what both proxy classes share. That is handles, the
  operator table, operator expressions, and the guarded operator of
  `InterpreterObject`.
- `RProxy` (rproxy.dfy): `RObject`.
  - Literal rendering, against a model of R's reader for string literals.
  - Calls, element access after the blocking `is.list` probe, and
    `_remove_index`.
  - The four pipelined diagnostic questions of `to_python`, its error
    check, and its choice of decoder.
- `DenoProxy` (denoproxy.dfy): `DenoObject`. That is calls with guarded
  assignment, operators, member access and update, and the stringify round
  trip of `to_python`.
- `Legacy` (legacy.dfy): the older top-level copy (`base.py`,
  `interpreter.py`).
  - Its read loop, `send`, `flush`, `receive_one`, `receive_by_key` and
    `get` follow the same protocol as the `ninter/` package, so they are
    modelled once, by `Wire` and `Engine`.
  - It has no `_operator`, no `__setitem__` on proxies and no `close`.
    `__del__` kills the process instead.
  - Its proxies keep `inter`, `code` and `value` as plain attributes, with
    no `__getattr__`. The reasons given below for the restrictions of
    RProxy.Call and Engine.Interpreter.Bind therefore do not apply to it.
  - `DenoObject` in `interpreter.py` has a `def __getattribute__` line
    with no body at interpreter.py:326, followed by `def __call__` at the
    same indentation. The legacy `interpreter.py` therefore does not parse,
    and none of its builders, including the `make_let`/`make_const` that
    `Legacy.Declaration` models, can run as written. The legacy model
    states what that text specifies.
  - The model states where its binding commands differ: `let`/`const`
    build statements with their own semicolon for Deno, and an empty
    command for R.

Modelling decisions:

- **Guest output.** The guest's output is a fixed sequence of lines, which
  `readline` consumes. At end of input `readline` returns `""`, as Python's
  does.
- **Writes.** Every write is appended to a log, and a flush records how
  much of that log the guest can see.
- **Stamps.** The timestamps and UUIDs that make stamps and temporary
  names are parameters.
- **Stamp collisions.** Stamps are not assumed unique. The lemmas cover
  what happens when two pending requests share a match line.
- **Blocking reads.** A read loop in the source blocks forever if its
  marker never arrives. The model's methods therefore require that the
  marker is still ahead in the guest's output.

Behaviour of the code that a reader might not expect, which the model
keeps:

- Host strings are not escaped for R (see Findings). `RProxy.SetItem`
  sends the literal as written.
- An unsupported host value renders as the empty text rather than raising.
- `__getitem__` binds no temporary: the new handle's name and code are
  both the access expression.
- The R and Deno `_operator` never send the assignment to the temporary
  they name.

## Model

| member | source | states |
|---|---|---|
| Text.JoinSplit | ninter/base.py:150 | joining the pieces of `split` on one character with that character gives back the text |
| Text.SplitJoin | ninter/interpreter.py:269-270 | splitting a join of separator-free pieces gives back exactly those pieces |
| Text.StripPadded | ninter/interpreter.py:199 | `strip` removes exactly the white space around a text that starts and ends visibly |
| Text.IntToStringRoundTrip | ninter/interpreter.py:333-334 | `str` of an integer reads back as that integer, sign included |
| Text.NegativeRoundTrip | ninter/interpreter.py:333-334 | a minus sign before the digits of `n` reads back as `-n` |
| Text.Find | ninter/interpreter.py:269-270 | `str.index` finds the first occurrence, and fails exactly when the character is absent |
| Syntax.MakeCode | ninter/interpreter.py:42-43 | R wraps the fragment verbatim in `try(` … `)` and ends the line; Deno (ninter/interpreter.py:95-96) appends `;` |
| Syntax.MakeCodeInjective | ninter/base.py:84-94 | the guest runs exactly the fragment it is given: two wrapped fragments are equal exactly when the fragments are |
| Syntax.MakeKeyPair | ninter/interpreter.py:45-49 | the stamp sits verbatim just before the closing quote of the match line, both halves end the line, and for Deno (ninter/interpreter.py:86-90) the two halves are equal |
| Syntax.MakeTmpVariable | ninter/base.py:56-61 | the stamp ends the name after a fixed prefix, `Python_tmp_object_` for R and `PythonObjects.py` for Deno (ninter/interpreter.py:121-125) |
| Syntax.IsNotInputHead | ninter/base.py:69-82 | a line is kept exactly when it is non-empty and does not start with the prompt `>` |
| Syntax.DeclCommand | ninter/interpreter.py:92-119 | every binding command starts with its head and the bound name, and ends with the value (the literal, or its JSON text for Deno's `let`/`const`) before one closing character |
| Syntax.DenoDeclareProxy | ninter/interpreter.py:103-104 | a Deno proxy is declared by the `let`/`const` head and its name, and the proxy's code ends the statement verbatim |
| Syntax.DenoDeclareHostIsParse | ninter/interpreter.py:98-119 | declaring a host value is declaring the code `JSON.parse(<json>)`, the form a proxy's code takes |
| Syntax.MatchKeyInjective | ninter/base.py:47-54 | two match lines are equal exactly when their stamps are, for both guests |
| Syntax.TmpVariableInjective | ninter/base.py:56-61 | distinct stamps name distinct temporaries |
| Syntax.MatchKeyIsOneLine | ninter/base.py:69-82 | a match line is one line that `is_not_input_head` keeps; for Deno the submitted sentinel echoes as the match line |
| Syntax.RDeclarationsCoincide | ninter/interpreter.py:51-66 | R's send, let and const commands are all `class(name <- value)` |
| Syntax.ExceptionText | ninter/base.py:149-151 | the exception text opens with two empty lines and the header, and arguments that make one line follow the header unchanged; Syntax.ExceptionLines gives the full layout |
| Syntax.ExceptionLines | ninter/base.py:149-151 | the exception text is two empty lines, a header line with the first argument line, then each further line indented by four spaces |
| Syntax.IndentTail | ninter/base.py:150 | the first line is kept and every later line gains the indent |
| Syntax.JoinIndent | ninter/base.py:150 | joining with a line break followed by an indent is joining the lines with every line after the first indented |
| Wire.MatchIndex | ninter/base.py:220-223 | the read loop stops at the first line from the cursor that equals the key |
| Wire.Kept | ninter/base.py:224-225 | a reply has no more lines than were read |
| Wire.KeptMembers | ninter/base.py:224-225 | a reply keeps exactly the lines that are not prompt echoes |
| Wire.KeptStep | ninter/base.py:218-225 | reading one more line extends the reply by that line exactly when it is not a prompt echo |
| Wire.KeptAppend | ninter/base.py:224-225 | filtering prompt echoes distributes over concatenation |
| Wire.ReceiveOne | ninter/base.py:212-228 | `receive_one` never moves the cursor backwards or past the end of the output |
| Wire.ReceiveByKey | ninter/base.py:194-202 | `receive_by_key` never moves the cursor backwards or past the end of the output |
| Wire.Pipelined | ninter/base.py:212-228 | replies to pipelined questions, read back to back, are one per question |
| Wire.PipelinedStep | ninter/base.py:212-228 | one `receive_one` reads the first pending pipelined reply and leaves the others to be read back to back |
| Wire.ReceiveOneFifo | ninter/base.py:212-228 | `receive_one` pops the oldest key and consumes input up to and including that key's first occurrence |
| Wire.ReceiveByKeyDrains | ninter/base.py:194-202 | for a pending key, `receive_by_key` discards the earlier pending replies in order, answers with the reply read from where they left the cursor up to the key's first match line, and leaves the cursor just past that line and the later keys queued; for a key never queued it drains the queue, answers `""`, and the key must be the empty key |
| Wire.ReceiveByKeyAnswer | ninter/base.py:194-202 | the answer to a pending key is the reply read from the cursor left after the earlier entries are popped, and the cursor ends just past the key's match line |
| Wire.AnsweredAtKey | ninter/base.py:194-202 | `receive_by_key` answers as it would once the key reaches the head of the queue, and the cursor only moves forward on the way |
| Wire.AnsweredQueue | ninter/base.py:194-202 | the entry answered is the first occurrence of the key in the queue |
| Wire.DrainsToKey | ninter/base.py:194-202 | for a pending key, `receive_by_key` pops exactly the entries up to its first occurrence and discards the earlier ones in queue order |
| Wire.DrainsAll | ninter/base.py:194-202 | for a key that is not pending, `receive_by_key` pops and discards the whole queue in order and answers the empty text |
| Wire.ReceiveByKeyForward | ninter/base.py:194-202 | reading never moves the cursor backwards |
| Wire.GetOnIdle | ninter/base.py:204-210 | on an idle engine `get` returns exactly its own reply and leaves the engine idle |
| Wire.GetDrainsEarlier | ninter/base.py:204-210 | `get` empties the queue unless its stamp collides with an earlier pending one, in which case it stops at the earlier one |
| Engine.Command.constructor | ninter/interpreter.py:72-84 | the handshake writes the prelude (Deno) and the sentinel, flushes, and reads past the first match line |
| Engine.Command.Write | ninter/base.py:30-36 | a write appends one chunk to the guest's input |
| Engine.Command.Flush | ninter/base.py:63-67 | a flush makes everything written visible to the guest |
| Engine.Command.ReadLine | ninter/base.py:38-45 | `readline` returns the next line, or `""` at end of input |
| Engine.Interpreter.constructor | ninter/base.py:164-168 | a new engine has an empty queue and a zero count |
| Engine.Interpreter.Send | ninter/base.py:170-186 | `send` writes the framed code and the sentinel, queues the match line, and reads nothing |
| Engine.Interpreter.Flush | ninter/base.py:188-192 | `flush` changes only the flush mark |
| Engine.Interpreter.ReadReply | ninter/base.py:218-225 | the inner loop consumes input through the key and collects the lines that are not prompt echoes |
| Engine.Interpreter.ReceiveOne | ninter/base.py:212-228 | `receive_one` follows `Wire.ReceiveOne`, including `('', '')` when nothing is pending |
| Engine.Interpreter.ReceiveByKey | ninter/base.py:194-202 | `receive_by_key` follows `Wire.ReceiveByKey` |
| Engine.Interpreter.Get | ninter/base.py:204-210 | `get` writes two chunks, flushes everything, and returns its own reply when the engine was idle |
| Engine.Interpreter.Bind | ninter/base.py:230-271 | `__setitem__`, `let` and `const` of a host value are a blocking round trip of the guest's binding command |
| Engine.Interpreter.Close | ninter/base.py:273-277 | `close` sends the guest's shutdown fragment and flushes, and its reply is never read |
| Proxy.NewHandle | ninter/interpreter.py:138-144 | a missing or empty code falls back to the name |
| Proxy.Lookup | ninter/base.py:250-254 | indexing the engine by a name gives a proxy named and substituted by that name |
| Proxy.OpSymbolInjective | ninter/base.py:341-393 | no two operators share a symbol |
| Proxy.ProxyStr | ninter/interpreter.py:235-236 | `__str__` shows the class, then the name, then the code before the closing `]`, each at a fixed place (also ninter/interpreter.py:358-359) |
| Proxy.OperatorDependsOnlyOnCode | ninter/interpreter.py:402-410 | in the corrected expression, proxies with one code are interchangeable |
| Proxy.OperatorAsWrittenUsesStr | ninter/interpreter.py:402-410 | as written, any two proxy operands with the same code but different names give different guest text, while their code gives the same expression |
| Proxy.OperatorAsWrittenExample | ninter/interpreter.py:402-410 | as written, `x + y` for a proxy `y` with code `t` sends `(x + DenoObject[y: t])` instead of `(x + t)` |
| Proxy.GuardedOperator | ninter/base.py:331-339 | the base `_operator` names the result by the expression as written, a proxy operand formatted by its `__str__`, sends a guarded assignment of that expression to a fresh temporary, and flushes |
| RProxy.LiteralAsWritten | ninter/interpreter.py:326-341 | a host string is quoted verbatim with no escaping, a boolean is `TRUE`/`FALSE`, and an integer reads back as itself |
| RProxy.Literal | ninter/interpreter.py:326-341 | the corrected literal quotes the escaped string and agrees with the source elsewhere; RProxy.StringLiteralRoundTrip proves R reads it back |
| RProxy.LiteralAgreesOnPlainStrings | ninter/interpreter.py:326-341 | the corrected literal is the source's literal for every value except strings with a quote or backslash |
| RProxy.StringLiteralRoundTrip | ninter/interpreter.py:329-330 | R reads every rendered host string back as that string |
| RProxy.LiteralAsWrittenBreaksOnQuote | ninter/interpreter.py:329-330 | as written, the string `a"b` renders as `"a"b"`, which is no R string literal |
| RProxy.BoolIsNotNumber | ninter/interpreter.py:331-334 | booleans render as `TRUE`/`FALSE`, never as a number |
| RProxy.Escape | ninter/interpreter.py:329-330 | escaping leaves a string without quotes or backslashes unchanged |
| RProxy.CallExpr | ninter/interpreter.py:171-183 | the call expression is the callee's code followed by a parenthesised argument list; RProxy.CallArgumentsRecoverable splits the arguments back |
| RProxy.CallArgumentsRecoverable | ninter/interpreter.py:171-183 | the call is the callee's code applied to its arguments, which split back at commas |
| RProxy.Call | ninter/interpreter.py:147-189 | a call binds `tmp <- call`, flushes, and returns a handle named by the call and substituted by the temporary |
| RProxy.InheritedSymbolsAreNotR | ninter/base.py:365-393 | the inherited symbols for `==`, `!=` and `%` are not R operators |
| RProxy.SymbolsAreR | ninter/base.py:341-393 | R's table maps every operator to a distinct R operator |
| RProxy.OperatorAsWritten | ninter/interpreter.py:219-226 | as written, a proxy operand appears through `RObject.__str__`, and the handle is the corrected one exactly for a host operand under an operator that R spells alike (not `==`, `!=`, `%`) |
| RProxy.Operator | ninter/interpreter.py:219-226 | the operator handle substitutes a fresh temporary and is named by the expression over operand codes |
| RProxy.OperatorAsWrittenIsNotR | ninter/interpreter.py:219-226 | as written, `x == 1` names `(x === 1)`; corrected, `(x == 1)` |
| RProxy.SetItem | ninter/interpreter.py:228-230 | `__setitem__` sends `code$key <- literal`, with the literal as the source renders it, without flushing or waiting |
| RProxy.IndexExpr | ninter/interpreter.py:199-216 | every access starts with the target's code, and off lists every non-integer key fails with the source's message; RProxy.IndexPolicy says which keys succeed |
| RProxy.IndexPolicy | ninter/interpreter.py:199-216 | which keys succeed on lists and on other values, and that an integer key reads back from the expression, shifted to R's 1-based indexing off lists |
| RProxy.GetItem | ninter/interpreter.py:191-217 | `__getitem__` runs the `is.list` probe as a blocking round trip, then applies the access policy or raises its message |
| RProxy.DropIndexes | ninter/interpreter.py:268-270 | each line keeps what follows its first `]`, and the whole fails exactly when some line has none |
| RProxy.RemoveIndex | ninter/interpreter.py:268-270 | `_remove_index` succeeds exactly when every line of the reply holds a `]`, and then gives one body per line; RProxy.RemoveIndexOfPrinted gives the bodies |
| RProxy.RemoveIndexOfPrinted | ninter/interpreter.py:268-270 | on R's `[i] body` printout, `_remove_index` returns exactly the bodies |
| RProxy.TryError | ninter/interpreter.py:306-308 | a detected error's text starts on a new line |
| RProxy.TryErrorOnClass | ninter/interpreter.py:306-308 | a printed class is reported as an error exactly when it is `try-error` |
| RProxy.TryErrorOnFailure | ninter/interpreter.py:306-308 | R's diagnostic lines followed by `[1] "try-error"` raise with exactly those lines |
| RProxy.ErrorLinesDetected | ninter/interpreter.py:306-308 | the lines before a final `try-error` line become the error text |
| RProxy.MaterializeRaises | ninter/interpreter.py:306-308 | a failed evaluation raises the exception text of its diagnostics, whatever the other replies say |
| RProxy.Dispatch | ninter/interpreter.py:310-323 | vectors and other values get disjoint decoders, and the proxy is kept exactly for a function or a list that is no vector |
| RProxy.Materialize | ninter/interpreter.py:300-323 | `to_python` raises exactly when the error check fires, with the interpreter-exception text, and otherwise picks a vector decoder exactly when `is.vector` printed `TRUE` |
| RProxy.DispatchNonVector | ninter/interpreter.py:315-323 | off vectors, functions and lists keep the proxy, and matrices and data frames get their decoders |
| RProxy.MaterializeNonVector | ninter/interpreter.py:300-323 | for a value that evaluated and is not a vector, the class alone decides, and no error is raised |
| RProxy.DiagnoseInOrder | ninter/interpreter.py:294-306 | on an idle engine the four replies answer the four questions in order, each read from just past the previous match line, and the engine ends idle just past the last match line, even if stamps collide |
| RProxy.Ask | ninter/interpreter.py:294-298 | the four questions are pipelined and flushed once |
| RProxy.ReadDiagnosis | ninter/interpreter.py:300-306 | one read by key, then three reads in order |
| RProxy.ToPython | ninter/interpreter.py:289-323 | `to_python` raises on `try-error`, otherwise chooses the decoder by class tag |
| DenoProxy.CallRecoverable | ninter/interpreter.py:383-395 | the callee sits in the first parentheses and the arguments split back at commas |
| DenoProxy.CallExpr | ninter/interpreter.py:383-395 | the call expression is the parenthesised callee followed by a parenthesised argument list; DenoProxy.CallRecoverable splits it back |
| DenoProxy.Call | ninter/interpreter.py:372-400 | a call is sent as a guarded assignment to a fresh temporary and flushed |
| DenoProxy.Operator | ninter/interpreter.py:402-410 | the operator handle substitutes a fresh, unbound temporary and is named by the expression over operand codes |
| DenoProxy.OperatorAsWritten | ninter/interpreter.py:402-410 | as written, a proxy operand appears through `DenoObject.__str__`, and the handle is the corrected one exactly when the operand is a host value |
| DenoProxy.OperatorAsWrittenOnHostValues | ninter/interpreter.py:402-405 | as written and corrected agree when the operand is a host value |
| DenoProxy.GetItem | ninter/interpreter.py:466-468 | a member access is name and code of the new handle, and nothing is sent |
| DenoProxy.Member | ninter/interpreter.py:466-468 | a member access is the target's code, `["`, then the key and `"]`; DenoProxy.MemberRecoverable reads the key back |
| DenoProxy.MemberRecoverable | ninter/interpreter.py:466-468 | target and key read back from the member access |
| DenoProxy.MemberInjective | ninter/interpreter.py:466-468 | distinct keys of one target reach distinct members |
| DenoProxy.DeclareProxyReadsName | ninter/base.py:230-234 | `let`/`const` of a Deno proxy declare its member `["name"]`, read through `__getattr__` (ninter/interpreter.py:103-104, 466-468), never the proxy itself |
| DenoProxy.SetItem | ninter/interpreter.py:470-472 | `__setitem__` sends `code["key"] = json` without flushing or waiting |
| DenoProxy.ToPython | ninter/interpreter.py:361-366 | `to_python` is a blocking round trip of the stringify statement, returning its own reply when idle |
| Legacy.DenoDeclarationEndsStatement | interpreter.py:80-93 | the older Deno declarations are the newer ones with a terminating semicolon |
| Legacy.RDeclarationIsEmpty | base.py:118-133 | the older R `let`/`const` submit the empty `try()` |
| Legacy.Declaration | interpreter.py:80-93 | the older Deno `let`/`const` start with the keyword and the name and end with the JSON inside `JSON.parse(` … `);`; for R the command is empty (base.py:118-133) |
| Legacy.Declare | base.py:252-260 | the older `let`/`const` are a blocking round trip of the declaration |

## Left out

- Process management is not modelled. That covers `Popen`, `wait`,
  `terminate`, the older `__del__` kill, the `NO_COLOR` setting and debug
  printing. The guest is a fixed sequence of output lines.
- Timestamps and UUIDs are parameters. The model does not assume they are
  unique.
- Byte encoding and decoding on the pipe is not modelled. Text is a
  sequence of characters.
- A read whose marker never arrives blocks forever in the source. Every
  reading method requires that the marker is still ahead, so
  non-termination is not modelled.
- JSON is not modelled. For Deno, values arrive already JSON-encoded.
- DenoProxy.ToPython: returns the text of the reply. `json.loads` and the
  exception on undecodable text are not modelled.
- RProxy.ToPython: stops at the choice of decoder. `_convert_character`,
  `_convert_numeric`, `_convert_matrix` and `_convert_dataframe` parse
  floats and CSV into numpy and pandas values. The extra `get` of the
  printed branch is not modelled either.
- RProxy.LiteralAsWritten and RProxy.Literal: do not render tuples, lists
  or data frames. These go through Python's `repr` and pandas' CSV writer,
  and the model has neither.
- RProxy.LiteralAsWritten and RProxy.Literal: do not cover proxies, which
  the source converts with `to_python` first.
- RProxy.Call: requires keyword arguments to be host values. The source
  reads a proxy keyword argument through `.code`, which `__getattr__`
  turns into another element access.
- DenoProxy.Call: keyword arguments are rendered texts, for the same
  reason.
- Engine.Interpreter.Bind: takes a host value already rendered as guest
  text. A proxy value is read through `.name`, which `__getattr__` turns
  into an element access, so it is not modelled.
- RProxy.IndexPolicy: covers string, integer and slice keys, and treats
  every other key as one case. Python booleans would format as
  `True`/`False`, and slice steps are ignored by the source.
- Syntax.DeclCommand: the Deno `let`/`const` of a proxy of the other
  guest (`JSON.parse` of its `to_python` result) is not modelled, as JSON
  is not. The Deno-proxy branch is Syntax.DenoDeclareProxy. `let` and
  `const` do reach it: `_setitem` passes `value.name`, which
  `__getattr__` turns into the member access `code["name"]`, a
  `DenoObject` again. So the text sent is
  `DenoDeclareProxy(kind, name, DenoProxy.Member(h.code, "name"))`, and
  DenoProxy.DeclareProxyReadsName states it.
- `Bridge`, `Let`, `Const`, `__getattr__` and `__setattr__` only delegate
  to the modelled operations.
- `__div__` and `__idiv__` are both dead under Python 3, where `/` calls
  `__truediv__` and `/=` calls `__itruediv__`. Neither ninter/base.py nor
  ninter/interpreter.py defines those, so `/` and `/=` on a proxy raise
  `TypeError`. `Op.Div` models the text `(x / y)` that the two dunders
  compose, reached only by calling one of them directly.
- The base `InterpreterObject._operator` is overridden by both proxy
  classes, so `Proxy.GuardedOperator` never runs in the package.

## Findings

| source | as written | input that shows it | evidently intended | confidence | as-written member | corrected member |
|---|---|---|---|---|---|---|
| ninter/interpreter.py:402-410 | a proxy operand is formatted into the expression by its `__str__`; the same happens for R at ninter/interpreter.py:219-226 | `x + y` where `y` is named `y` with code `t` gives `(x + DenoObject[y: t])` | the operand's code: `(x + t)` | high, not executed | Proxy.OperatorAsWrittenUsesStr | DenoProxy.Operator |
| ninter/interpreter.py:329-330 | a host string is wrapped in double quotes without escaping | the string `a"b` renders as `"a"b"`, which R does not read as a string | escape `"` and `\` so that R reads the string back | high, not executed | RProxy.LiteralAsWrittenBreaksOnQuote | RProxy.StringLiteralRoundTrip |
| ninter/base.py:365-393 | `RObject` inherits the JavaScript symbols `===`, `!==` and `%` | `r['x'] == 1` names `(x === 1)` | R's `==`, `!=` and `%%` | medium, not executed | RProxy.InheritedSymbolsAreNotR | RProxy.SymbolsAreR |
