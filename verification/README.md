# ruby-lsp-rails runner core in Dafny

This project models three pieces of ruby-lsp-rails:

- **The runner client.** `RubyLsp::Rails::RunnerClient` talks to a `bin/rails runner` worker over its stdin and stdout. It uses `Content-Length` framing and JSON bodies. `create_client` falls back to `NullClient`, a stand-in that answers every query with nil.
- **The worker's request loop** (`server.rb`).
- **The `CodeLens` listener.** It emits Run / Run In Terminal / Debug lenses for Active Support tests, nested by group id under their test class. For a controller class it also emits a route lens above each action that comes before the first `private`/`protected` call and whose route lookup answers.

Everything is pure: a datatype per entity, and a function per operation. Each operation returns the client as it is afterwards, together with what the Ruby call returns or raises. Streams are modelled as `seq<char>`: everything the peer writes before it closes its end. Ruby exceptions are the `Outcomes.Exception` datatype, and a Ruby computation gives `Outcomes.Result` (`Ok` or `Raised`). Parsed JSON is `Json.Json`, with Ruby nil as `Json.Null`. Parsing and serialising belong to the json library. They enter as the two functions of a `Json.Codec`, and any lemma that reads back a value it wrote requires `parse(serialize(j)) == Some(j)` for that value only.

Modules:
- `Outcomes`: the shared datatypes.
- `Text`: digits, ASCII case folding, prefixes and suffixes.
- `Json`: the JSON values.
- `Framing`: the codec.
- `RunnerClient`: the client.
- `Server`: the worker loop.
- `CodeLens`: the listener.
- `CodeLensNesting`: a reference reading of the event sequence, which the listener's group-id stack is proved against.

In these places the code does less than the protocol's evident design, and the model follows the code:
- `IO#gets("\r\n\r\n")` returns whatever is left of the stream even when no terminator arrives. So `read_response` raises IncompleteMessageError only when stdout holds nothing more (`RunnerClient.ReadResponse`, `Framing.UnterminatedHeader`). It does not raise it whenever the header is incomplete.
- `IO#read(n)` returns a short body when the stream ends early. The client hands that partial body to the JSON parser as if it were whole (`Framing.ShortBodyIsReturned`).
- `shutdown` is not idempotent: a second call writes to a closed stdin and raises IOError (`RunnerClient.SecondShutdownRaises`).
- `model` rescues only IncompleteMessageError. Parse errors, a missing `result` key and closed streams escape to the caller (`RunnerClient.ModelLetsParseErrorsEscape`).
- The client keys its requests by `method`, but the worker fetches `route`. Every client request therefore crashes the worker with KeyError (`Server.ClientRequestsAreRejected`).
- The worker has no answer for routes other than `shutdown`: writing the nil response raises (`Server.OtherRouteCrashes`). No iteration of its `while running` loop can end with `running` still set, so the loop is modelled as one pass (`Server.ServeOnce`).
- Lengths count characters (`String#length`), not bytes.
- When the handshake fails, the spawned process is not reaped.
- `initialize` reads a handshake frame before writing anything, but this repository's worker writes nothing before it has read a request (its first action is `$stdin.gets`). Against that worker `RunnerClient.new` blocks for as long as the worker runs, and `create_client` never returns. The model reads streams as what the peer writes before closing, so `RunnerClient.Initialize` describes a worker that does write a handshake frame or closes its stdout.

`CodeLens` calls `@client.route(controller:, action:)`, but neither `RunnerClient` nor `NullClient` defines `route`. The model takes that lookup as a parameter of the listener (`CodeLens.Env.route`). It answers an optional `{path, verb, source_location}`.

## Model

| member | source | states |
|---|---|---|
| `Text.ParseShowNat` | lib/ruby_lsp/ruby_lsp_rails/runner_client.rb:106 | Parsing the decimal digits that `Integer#to_s` prints gives the number back (the digits written into the header are read back by `to_i`). |
| `Text.ShowNat` | lib/ruby_lsp/ruby_lsp_rails/runner_client.rb:106 | `Integer#to_s` prints a non-empty run of digits whose first digit is 0 only for zero. |
| `Text.DigitRunOfDigits` | lib/ruby_lsp/ruby_lsp_rails/runner_client.rb:123 | A greedy `\d+` over digits followed by a non-digit takes exactly those digits. |
| `Text.EndsWithIffSplit` | lib/ruby_lsp/ruby_lsp_rails/code_lens.rb:115 | `end_with?(t)` holds exactly when the string is something followed by `t`. |
| `Text.StartsWithIffSplit` | lib/ruby_lsp/ruby_lsp_rails/code_lens.rb:103 | `start_with?(p)` holds exactly when the string is `p` followed by something. |
| `Json.Index` | lib/ruby_lsp/ruby_lsp_rails/runner_client.rb:127 | `response[:error]` gives a Hash's entry or nil, and raises on a value that is not a Hash. |
| `Json.Fetch` | lib/ruby_lsp/ruby_lsp_rails/runner_client.rb:132 | `fetch` succeeds exactly when the value is a Hash holding the key; a missing key raises KeyError. |
| `Framing.FindFrom` | lib/ruby_lsp/ruby_lsp_rails/runner_client.rb:115 | Finds the first occurrence of the terminator: it occurs there and at no earlier position. |
| `Framing.EncodeFrame` | lib/ruby_lsp/ruby_lsp_rails/runner_client.rb:106 | The frame written for a body starts with `Content-Length: ` and ends with the blank line followed by the body. `DecodeEncode` is its inverse. |
| `Framing.Gets` | lib/ruby_lsp/ruby_lsp_rails/runner_client.rb:115-119 | The header read answers nil exactly at end of stream. Otherwise it splits the stream without loss, and the header runs up to and including the FIRST `\r\n\r\n`: no earlier terminator occurs, and it ends in one whenever the stream holds one. Without a terminator it is the whole stream. |
| `Framing.Read` | lib/ruby_lsp/ruby_lsp_rails/runner_client.rb:123 | `read(n)` raises RangeError exactly when `n` does not fit a 64-bit long. Otherwise it answers nil exactly when `n > 0` at end of stream, and else takes `min(n, available)` characters without loss. |
| `Framing.DecodeFrame` | lib/ruby_lsp/ruby_lsp_rails/runner_client.rb:115-123 | Decoding reports end of stream exactly for an empty stream, a RangeError exactly when the declared length is 2^63 or more, and a missing body exactly when a positive length meets nothing after the header. A decoded body has exactly `min(declared, available)` characters, and header, body and rest make up the stream. |
| `Framing.LengthOfEncodedHeader` | lib/ruby_lsp/ruby_lsp_rails/runner_client.rb:106 | The header the encoder writes for `n` declares `n` under the case-insensitive `Content-Length` match. |
| `Framing.GetsOfEncodedHeader` | lib/ruby_lsp/ruby_lsp_rails/runner_client.rb:115 | The header read of an encoded frame stops at that frame's own terminator. |
| `Framing.DecodeEncode` | lib/ruby_lsp/ruby_lsp_rails/runner_client.rb:103-123 | Framing round trip: decoding `Content-Length: <len>\r\n\r\n<body>` followed by anything gives back exactly the body, and leaves the rest unread. |
| `Framing.ShortBodyIsReturned` | lib/ruby_lsp/ruby_lsp_rails/runner_client.rb:123 | A declared length (below 2^63) larger than what remains yields the short remainder as the body, not an error. |
| `Framing.NothingAfterHeader` | lib/ruby_lsp/ruby_lsp_rails/runner_client.rb:123-125 | A positive declared length below 2^63 with nothing after the header yields no body (nil). |
| `Framing.UnterminatedHeader` | lib/ruby_lsp/ruby_lsp_rails/runner_client.rb:115-123 | A non-empty stream with no terminator is all header. It gives an empty body when no length is declared, no body for a length below 2^63, and a RangeError for a larger one. |
| `Framing.LengthBeyondLongRaises` | lib/ruby_lsp/ruby_lsp_rails/runner_client.rb:123 | A header declaring 2^63 or more makes the body read raise RangeError, leaving what follows the header unread. |
| `Framing.LengthFieldIgnoresCase` | lib/ruby_lsp/ruby_lsp_rails/runner_client.rb:123 | Every spelling of `Content-Length: ` that equals it up to ASCII letter case, followed by the digits of `n` and a non-digit, declares `n`. |
| `Framing.ContentLength` | lib/ruby_lsp/ruby_lsp_rails/runner_client.rb:123 | `headers[/Content-Length: (\d+)/i, 1].to_i`: scans for the leftmost match (what it computes is stated by `ContentLengthIsLeftmostMatch`). |
| `Framing.ContentLengthIsLeftmostMatch` | lib/ruby_lsp/ruby_lsp_rails/runner_client.rb:123 | The declared length is the number spelled by the digits of the leftmost match, and 0 (`nil.to_i`) when nothing matches. |
| `RunnerClient.Message` | lib/ruby_lsp/ruby_lsp_rails/runner_client.rb:100-103 | The request is `{method: request}`, with a `params` key exactly when params are given, and no `route` key. |
| `RunnerClient.Stopped` | lib/ruby_lsp/ruby_lsp_rails/runner_client.rb:80-83 | `stopped?`: all three pipes closed and the process gone; always true for the NullClient (the properties are stated by `ShutdownClosesEverything`, `StoppedIsFinal` and `NullClientIsInert`). |
| `RunnerClient.Interpret` | lib/ruby_lsp/ruby_lsp_rails/runner_client.rb:125-134 | A non-Hash response raises. A truthy `error` gives nil when it is a String and raises TypeError otherwise. Without an error, the answer is `fetch(:result)`. |
| `RunnerClient.CheckNilableHash` | lib/ruby_lsp/ruby_lsp_rails/runner_client.rb:111 | The `T.nilable(T::Hash[Symbol, T.untyped])` return signature passes nil and Hashes unchanged and turns any other value into TypeError. |
| `RunnerClient.ReadResponse` | lib/ruby_lsp/ruby_lsp_rails/runner_client.rb:111-135 | `read_response` raises IncompleteMessageError exactly when stdout holds nothing more, RangeError for a length beyond a long, and TypeError for a missing body. What it returns is nil or a Hash. |
| `RunnerClient.ReadResponseOfFrame` | lib/ruby_lsp/ruby_lsp_rails/runner_client.rb:111-135 | Reading a frame the worker wrote gives the interpretation of its body, checked against the return signature, and leaves what follows unread. |
| `RunnerClient.Send` | lib/ruby_lsp/ruby_lsp_rails/runner_client.rb:100-107 | `send_message` appends exactly one frame of the serialised request to stdin. It raises IOError, changing nothing, when stdin is closed. |
| `RunnerClient.Initialize` | lib/ruby_lsp/ruby_lsp_rails/runner_client.rb:29-63 | A failed spawn raises. A handshake read at end of stream becomes InitializationError carrying stderr, and IncompleteMessageError never escapes. Construction succeeds exactly when the handshake read succeeds, and otherwise raises the read's error. A constructed client is running, has nothing written yet, and its stdout is what the handshake read left unread. |
| `RunnerClient.CreateClient` | lib/ruby_lsp/ruby_lsp_rails/runner_client.rb:14-20 | `create_client` never raises a StandardError: it gives the NullClient exactly when construction raised, and the constructed client otherwise. |
| `RunnerClient.Model` | lib/ruby_lsp/ruby_lsp_rails/runner_client.rb:65-71 | `model` writes the `{method: "model", params: {name}}` frame. With open pipes and a non-empty stdout it returns what `read_response` returns and leaves stdout as `read_response` left it. At end of stdout the IncompleteMessageError becomes nil, with stderr drained. A closed stdin or stdout raises IOError. The NullClient answers nil and changes nothing. |
| `RunnerClient.Shutdown` | lib/ruby_lsp/ruby_lsp_rails/runner_client.rb:74-78 | `shutdown` writes the shutdown frame, and afterwards `stopped?` holds. On a closed stdin it raises IOError. The NullClient is unchanged. |
| `RunnerClient.ShutdownClosesEverything` | test/ruby_lsp_rails/runner_client_test.rb:14-21 | After shutdown, stdin, stdout and stderr are closed, the process is not alive, and `stopped?` holds. |
| `RunnerClient.SecondShutdownRaises` | lib/ruby_lsp/ruby_lsp_rails/runner_client.rb:74-77 | A second shutdown raises IOError: shutdown is not idempotent. |
| `RunnerClient.StoppedIsFinal` | lib/ruby_lsp/ruby_lsp_rails/runner_client.rb:81-83 | Once `stopped?` holds, neither `model` nor `shutdown` makes it false again. |
| `RunnerClient.NullClientIsInert` | lib/ruby_lsp/ruby_lsp_rails/runner_client.rb:138-165 | The NullClient's `model` is nil, its `shutdown` changes nothing, and its `stopped?` is true. |
| `RunnerClient.ModelExchange` | lib/ruby_lsp/ruby_lsp_rails/runner_client.rb:65-67 | On any open client, given a result frame, `model` returns that result when it is nil or a Hash, and raises TypeError otherwise. What it appended to stdin decodes to exactly its request, and what was written before is kept. |
| `RunnerClient.ModelRequestFrame` | lib/ruby_lsp/ruby_lsp_rails/runner_client.rb:93-107 | On an open stdin, `model` appends one frame of `{method: "model", params: {name}}` and keeps what was written before. |
| `RunnerClient.ModelAnswer` | lib/ruby_lsp/ruby_lsp_rails/runner_client.rb:111-135 | Given a result frame, `model` returns the result when it is nil or a Hash, raises TypeError otherwise, and leaves what follows the frame unread. |
| `RunnerClient.ModelErrorIsNil` | lib/ruby_lsp/ruby_lsp_rails/runner_client.rb:127-130 | A worker answer carrying an `error` makes `model` return nil. |
| `RunnerClient.ModelLetsParseErrorsEscape` | lib/ruby_lsp/ruby_lsp_rails/runner_client.rb:66-71 | A body that does not parse makes `model` raise ParserError: only IncompleteMessageError is rescued. |
| `Server.ServeOnce` | lib/ruby_lsp/ruby_lsp_rails/server.rb:5-27 | A pass ends the loop exactly when the frame decodes and parses with `route` equal to `"shutdown"`, and then writes one shutdown-answer frame. End of input crashes with NoMethodError, a length beyond a long with RangeError, a header without a body with TypeError, and an unparsable body with the parser's error. |
| `Server.ShutdownResponse` | lib/ruby_lsp/ruby_lsp_rails/server.rb:20-21 | The shutdown answer is a Hash with exactly the keys `result` (`"ok"`) and `columns` (the column names, in order). |
| `Server.ShutdownRequestEndsLoop` | lib/ruby_lsp/ruby_lsp_rails/server.rb:19-27 | A framed shutdown request ends the loop with the answer written and the rest of stdin unread. |
| `Server.OtherRouteCrashes` | lib/ruby_lsp/ruby_lsp_rails/server.rb:18-26 | Any other route leaves the response nil, and writing it raises NoMethodError. |
| `Server.AnswerIsOneFrame` | lib/ruby_lsp/ruby_lsp_rails/server.rb:26-27 | The answer is exactly one frame whose declared length is its body's length. |
| `Server.ClientRequestsAreRejected` | lib/ruby_lsp/ruby_lsp_rails/server.rb:15 | Every `method`-keyed request the client sends makes the worker raise KeyError. |
| `CodeLens.ZeroBased` | lib/ruby_lsp/ruby_lsp_rails/code_lens.rb:208-213 | An emitted range is the node's lines minus one with its columns unchanged. |
| `CodeLens.TestCommand` | lib/ruby_lsp/ruby_lsp_rails/code_lens.rb:191-198 | The test command always ends in `bin/rails test`, and is prefixed by `ruby ` exactly on Windows. |
| `CodeLens.AddTestCodeLens` | lib/ruby_lsp/ruby_lsp_rails/code_lens.rb:201-242 | No lenses without a path. Otherwise exactly Run/`rubyLsp.runTest`/`test`, Run In Terminal/`rubyLsp.runTestInTerminal`/`test_in_terminal` and Debug/`rubyLsp.debugTest`/`debug`, in that order. All three share the arguments and the grouping: the stack top, the kind, and for a group the counter. |
| `CodeLens.PublicDefsBeforeFirstVisibilityCall` | lib/ruby_lsp/ruby_lsp_rails/code_lens.rb:151-156 | An action is considered exactly when it is a `def` among the body's children with no `private`/`protected` call at or before it. |
| `CodeLens.PublicDefs` | lib/ruby_lsp/ruby_lsp_rails/code_lens.rb:151-154 | The actions considered: the `def`s among the body's children before the first `private`/`protected` call (characterised by `PublicDefsBeforeFirstVisibilityCall`). |
| `CodeLens.RouteLens` | lib/ruby_lsp/ruby_lsp_rails/code_lens.rb:166-187 | The lens for a routed action: titled `<verb> <path>`, command `rubyLsp.openFile`, arguments the source location and the zero-based range, data type `file`. |
| `CodeLens.RouteLenses` | lib/ruby_lsp/ruby_lsp_rails/code_lens.rb:154-189 | There is exactly one lens per action whose route lookup answers (`Routed` counts them). Each lens opens a file and carries no test grouping. |
| `CodeLens.RouteLensesCoverRoutedActions` | lib/ruby_lsp/ruby_lsp_rails/code_lens.rb:160-189 | Every lens is the `verb path` lens of an action whose route lookup answers, and every such action has its lens. |
| `CodeLens.RouteLensesInActionOrder` | lib/ruby_lsp/ruby_lsp_rails/code_lens.rb:154-156 | The lenses come out in the order of the actions: the lenses of one run of actions followed by another are the first run's lenses followed by the second's. |
| `CodeLens.OnClassEnter` | lib/ruby_lsp/ruby_lsp_rails/code_lens.rb:111-157 | A `*Test` class gets its group lenses, pushes the counter and increments it. Route lenses come only for a `*Controller` class with a `*Controller` superclass. Such a class raises NoMethodError when the index holds no entry for its name, and TypeError when its body is empty. |
| `CodeLens.OnClassLeave` | lib/ruby_lsp/ruby_lsp_rails/code_lens.rb:127-133 | Leaving a class keeps the counter and the lenses. Leaving a `*Test` class removes the top id from the stack (an empty stack stays empty), and leaving any other class keeps the stack. |
| `CodeLens.OnDefEnter` | lib/ruby_lsp/ruby_lsp_rails/code_lens.rb:101-108 | A `def` yields three example lenses exactly when it is named `test_*` and there is a path. Their command is `<test command> <path>:<line>`. |
| `CodeLens.OnCallEnter` | lib/ruby_lsp/ruby_lsp_rails/code_lens.rb:89-97 | A recognised test call yields three example lenses named by it, with the same command shape. |
| `CodeLens.OnEvent` | lib/ruby_lsp/ruby_lsp_rails/code_lens.rb:110-133 | Entering a `*Test` class pushes and leaving one pops. Other events keep the stack, and lenses are only appended. New test lenses are grouped under the stack top, and only group lenses carry an id: the counter. |
| `CodeLens.Run` | lib/ruby_lsp/ruby_lsp_rails/code_lens.rb:85 | The dispatcher's walk: the callbacks applied in event order from the initial listener (counter 1, empty stack, no lenses), stopping at the first one that raises. Its properties are the `CodeLensNesting` lemmas. |
| `CodeLensNesting.GroupIdCountsTestClasses` | lib/ruby_lsp/ruby_lsp_rails/code_lens.rb:82 | The counter starts at 1 and is 1 plus the number of `*Test` classes entered. |
| `CodeLensNesting.StackHoldsOpenTestClassIds` | lib/ruby_lsp/ruby_lsp_rails/code_lens.rb:115-133 | For well-nested events the stack is exactly the ids owed to the open `*Test` classes, so its depth is their number. |
| `CodeLensNesting.GroupIdsIncrease` | lib/ruby_lsp/ruby_lsp_rails/code_lens.rb:115-120 | Every group id issued is between 1 and the counter, and ids never decrease along the emitted lenses. |
| `CodeLensNesting.TestClassIdsAreFresh` | lib/ruby_lsp/ruby_lsp_rails/code_lens.rb:115-120 | A `*Test` class is owed an id strictly smaller than the id owed to every later position. So each `*Test` class gets an id strictly larger than that of every `*Test` class entered before it. |
| `CodeLensNesting.TestEntersGrow` | lib/ruby_lsp/ruby_lsp_rails/code_lens.rb:118-119 | The number of `*Test` classes entered never decreases along the walk. |
| `CodeLensNesting.NoPathNoTestLenses` | lib/ruby_lsp/ruby_lsp_rails/code_lens.rb:202 | A document without a path gets no test lens at all. |
| `CodeLensNesting.TestClassEnteredAt` | lib/ruby_lsp/ruby_lsp_rails/code_lens.rb:115-119 | A `*Test` class entered at any position adds three group lenses whose `id` is one more than the number of `*Test` classes entered before it. |
| `CodeLensNesting.InnermostTestClassLenses` | lib/ruby_lsp/ruby_lsp_rails/code_lens.rb:117-119 | The innermost open `*Test` class's group lenses carry the `id` owed to its entry. |
| `CodeLensNesting.NextExampleLenses` | lib/ruby_lsp/ruby_lsp_rails/code_lens.rb:216-217 | The three lenses of the next `def test_*` carry as `group_id` the `id` owed to the innermost open `*Test` class, the same `id` its group lenses carry (`InnermostTestClassLenses`). |
| `CodeLensNesting.NextTestCallLenses` | lib/ruby_lsp/ruby_lsp_rails/code_lens.rb:89-97 | The three lenses of the next `test "..." do` call are example lenses carrying as `group_id` the `id` owed to the innermost open `*Test` class. |
| `CodeLensNesting.GroupLensesCarryCounter` | lib/ruby_lsp/ruby_lsp_rails/code_lens.rb:117-119 | A `*Test` class's three group lenses carry the counter as `id`. |
| `CodeLensNesting.TestClassIsNotController` | lib/ruby_lsp/ruby_lsp_rails/code_lens.rb:115-124 | No class gets both group lenses and route lenses. |

## Left out

- Process spawning (`Open3.popen3`), `Process.setsid` and `binmode`: the spawn is a parameter, either nothing (Errno::ENOENT) or the worker's output streams and liveness.
- RunnerClient.Initialize: describes Linux and macOS, where `Process.setsid` succeeds or raises the rescued Errno::EPERM. On Windows it raises NotImplementedError, a ScriptError rather than a StandardError, which escapes both `initialize` and `create_client`; so there `create_client` raises instead of returning the NullClient.
- The `Thread.pass while @wait_thread.alive?` wait: shutdown simply ends with the process gone. A worker that never exits would hang it, and that hang is not modelled.
- The debug `File.write` logging to a fixed path under /home/spin: the model assumes every one of these writes succeeds. Where that directory is missing each write raises Errno::ENOENT, so `new` would always fail (and `create_client` give the NullClient), and even the NullClient's `model` would raise from `make_request`.
- The `warn` output to the language server's stderr.
- Errno::EPIPE, which depends on the operating system's pipe state. It can come from writes to a worker that already exited. In `initialize` it can also come from the two `warn` calls, which write to the language server's own stderr: that EPIPE is rescued and becomes InitializationError, even after a good handshake. Both sources are left out, along with `warn`'s output.
- JSON parsing and serialisation: they are the functions of `Json.Codec`. JSON numbers are integers only.
- Byte and character lengths: `json.length` counts characters, so the framing is byte-exact only for ASCII bodies.
- Unicode case folding: the model folds ASCII letters only, as the match does on the client's binary stdout. On the worker's UTF-8 stdin the match could in principle fold non-ASCII characters, but none of those folds to a letter of `Content-Length: `.
- The Rails runtime behind the worker: `User.column_names` is a parameter, and which names are models is decided in the worker.
- Prism, the dispatcher, `create_code_lens` and `extract_test_case_name`: nodes are records, a lens keeps its node's location, and a call node carries the test name that `extract_test_case_name` would answer.
- The `RubyIndexer` entries in `add_route_code_lenses_to_actions`: whether `index[node.name.to_s]` answers is the `indexed` oracle of `CodeLens.Env`, but the controller entry it yields and the `action_names` computed from the index are never used afterwards.
- Framing.Read: assumes a 64-bit C long, as on Linux and macOS. On 64-bit Windows, which the code explicitly supports, `read` already raises RangeError for every declared length of 2^31 or more, and the model instead reads a body there. `DecodeFrame`, `ShortBodyIsReturned`, `NothingAfterHeader`, `UnterminatedHeader` and `Server.ServeOnce` share this assumption.
- Blocking reads: a peer that neither writes nor closes its end is not modelled. Every stream is what the peer writes before closing it, so a read that would wait forever is not represented.
- Framing.Read: does not model the NoMemoryError that `IO#read` can raise when it cannot allocate a buffer for a huge declared length below 2^63, because whether an allocation succeeds depends on the machine. That error is not a StandardError and would escape `create_client`.
- Sorbet runtime checks are assumed on, as is their default: `T.must(nil)` raises TypeError, and the return signatures of `read_response`, `make_request` and `model` reject values other than nil and Hashes.
- `Gem.win_platform?`: it is the `windows` flag of `CodeLens.Env`.
