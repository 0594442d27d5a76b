/** RubyLsp::Rails::RunnerClient and its NullClient stand-in. A client owns
    the worker's three pipes and its process; every operation returns the
    client as it is afterwards together with what the Ruby call returns or
    raises. The worker's side of the pipes is abstract: its stdout and stderr
    are what it writes before closing them. */
module RunnerClient {
  import opened Outcomes
  import opened Json
  import opened Framing

  /** The client's write end of the worker's stdin: what was written so far. */
  datatype Sink = Sink(written: string, closed: bool)

  /** The client's read end of one of the worker's output pipes. */
  datatype Source = Source(unread: string, closed: bool)

  datatype Client =
    | Runner(stdin: Sink, stdout: Source, stderr: Source, alive: bool)
    | NullClient

  /** What Open3.popen3 hands back: the worker's output as it will arrive and
      whether the process is running. */
  datatype Worker = Worker(stdout: string, stderr: string, alive: bool)

  /** `stopped?`: every pipe closed and the process gone; always true for the NullClient. */
  predicate Stopped(c: Client) {
    match c
    case NullClient => true
    case Runner(stdin, stdout, stderr, alive) =>
      stdin.closed && stdout.closed && stderr.closed && !alive
  }

  /** The payload `send_message` serialises: {method: request}, plus params
      only when params were given. */
  function Message(request: string, params: Option<map<string, Json>>): (m: Json)
    ensures m.Object? && m.fields.Keys == {"method"} + (if params.Some? then {"params"} else {})
    ensures m.fields["method"] == Str(request)
    ensures params.Some? ==> m.fields["params"] == Object(params.value)
    ensures "route" !in m.fields
  {
    var base := map["method" := Str(request)];
    match params
    case None => Object(base)
    case Some(p) => Object(base["params" := Object(p)])
  }

  /** What `read_response` does with a parsed response: nil for a response
      carrying an error (whose message must be a String for the warning to be
      built), otherwise `fetch(:result)`. */
  function Interpret(response: Json): (r: Result<Json>)
    ensures !response.Object? ==> r.Raised?
    ensures response.Object? && "error" in response.fields && Truthy(response.fields["error"])
            ==> r == (if response.fields["error"].Str? then Ok(Null) else Raised(TypeError))
    ensures response.Object? && !("error" in response.fields && Truthy(response.fields["error"]))
            ==> r == Fetch(response, "result")
  {
    match Index(response, "error")
    case Raised(e) => Raised(e)
    case Ok(err) =>
      if Truthy(err) then
        if err.Str? then Ok(Null) else Raised(TypeError)
      else Fetch(response, "result")
  }

  /** The return signature `T.nilable(T::Hash[Symbol, T.untyped])` that
      sorbet-runtime checks when `read_response`, `make_request` and `model`
      return: nil or a Hash passes through, any other value raises TypeError. */
  function CheckNilableHash(r: Result<Json>): (checked: Result<Json>)
    ensures checked.Ok? <==> r.Ok? && (r.value.Null? || r.value.Object?)
    ensures checked.Ok? || r.Raised? ==> checked == r
    ensures r.Ok? && checked.Raised? ==> checked.error == TypeError
  {
    match r
    case Ok(v) => if v.Null? || v.Object? then r else Raised(TypeError)
    case Raised(_) => r
  }

  /** `read_response` on a stdout holding s: the unread rest and the outcome.
      End of stream raises IncompleteMessageError; a declared length beyond
      a long fails in IO#read; a missing body fails in T.must; an unparsable
      body fails in JSON.parse; a result that is neither nil nor a Hash fails
      the return signature. */
  function ReadResponse(s: string, codec: Codec): (out: (string, Result<Json>))
    ensures out.1 == Raised(IncompleteMessageError) <==> s == []
    ensures s == [] ==> out.0 == []
    ensures DecodeFrame(s).LengthOutOfRange? ==> out == (DecodeFrame(s).rest, Raised(RangeError))
    ensures DecodeFrame(s) == BodyMissing ==> out == ([], Raised(TypeError))
    ensures out.1.Ok? ==> out.1.value.Null? || out.1.value.Object?
  {
    match DecodeFrame(s)
    case EndOfStream => ([], Raised(IncompleteMessageError))
    case LengthOutOfRange(rest) => (rest, Raised(RangeError))
    case BodyMissing => ([], Raised(TypeError))
    case Decoded(body, rest) =>
      match codec.parse(body)
      case None => (rest, Raised(ParserError))
      case Some(response) => (rest, CheckNilableHash(Interpret(response)))
  }

  /** Reading a frame the worker wrote for `response` (followed by anything)
      gives `read_response`'s interpretation of it and leaves the rest unread. */
  lemma ReadResponseOfFrame(response: Json, rest: string, codec: Codec)
    requires RoundTrips(codec, response) && |codec.serialize(response)| < LongLimit
    ensures ReadResponse(EncodeFrame(codec.serialize(response)) + rest, codec)
         == (rest, CheckNilableHash(Interpret(response)))
  {
    DecodeEncode(codec.serialize(response), rest);
  }

  /** `send_message`: write the framed request to stdin; a closed stdin raises IOError. */
  function Send(c: Client, request: string, params: Option<map<string, Json>>, codec: Codec): (r: (Client, Result<()>))
    requires c.Runner?
    ensures r.1.Ok? <==> !c.stdin.closed
    ensures r.1.Ok? ==> r.0 == c.(stdin := Sink(c.stdin.written + EncodeFrame(codec.serialize(Message(request, params))), false))
    ensures r.1.Raised? ==> r == (c, Raised(IOError))
  {
    if c.stdin.closed then (c, Raised(IOError))
    else (c.(stdin := c.stdin.(written := c.stdin.written + EncodeFrame(codec.serialize(Message(request, params))))), Ok(()))
  }

  /** `initialize`: spawn the worker, then read its handshake frame. A failed
      spawn raises; a handshake hitting end of stream becomes an
      InitializationError carrying the worker's stderr; any other failure of
      the read escapes as it is. */
  function Initialize(spawn: Option<Worker>, codec: Codec): (r: Result<Client>)
    ensures spawn.None? ==> r == Raised(SpawnError)
    ensures spawn.Some? && spawn.value.stdout == [] ==> r == Raised(InitializationError(spawn.value.stderr))
    ensures r != Raised(IncompleteMessageError)
    ensures r.Ok? ==> r.value.Runner? && !Stopped(r.value) && r.value.stdin == Sink([], false)
    ensures r.Ok? ==> r.value.stderr == Source(spawn.value.stderr, false) && r.value.alive == spawn.value.alive
    ensures spawn.Some? ==> (r.Ok? <==> ReadResponse(spawn.value.stdout, codec).1.Ok?)
    ensures r.Ok? ==> r.value.stdout == Source(ReadResponse(spawn.value.stdout, codec).0, false)
    ensures spawn.Some? && spawn.value.stdout != [] && ReadResponse(spawn.value.stdout, codec).1.Raised?
            ==> r == Raised(ReadResponse(spawn.value.stdout, codec).1.error)
  {
    match spawn
    case None => Raised(SpawnError)
    case Some(w) =>
      var (rest, handshake) := ReadResponse(w.stdout, codec);
      match handshake
      case Raised(IncompleteMessageError) => Raised(InitializationError(w.stderr))
      case Raised(e) => Raised(e)
      case Ok(_) => Ok(Runner(Sink([], false), Source(rest, false), Source(w.stderr, false), w.alive))
  }

  /** `create_client`: a constructed client, or the NullClient when
      construction raised anything; it never raises itself. */
  function CreateClient(spawn: Option<Worker>, codec: Codec): (c: Client)
    ensures c.NullClient? <==> Initialize(spawn, codec).Raised?
    ensures c.Runner? ==> Initialize(spawn, codec) == Ok(c)
    ensures spawn.None? ==> c == NullClient && Stopped(c)
    ensures spawn.Some? && spawn.value.stdout == [] ==> c == NullClient
  {
    match Initialize(spawn, codec)
    case Ok(client) => client
    case Raised(_) => NullClient
  }

  /** The params `model(name)` sends. */
  function ModelParams(name: string): map<string, Json> {
    map["name" := Str(name)]
  }

  /** `model(name)`: send {method: "model", params: {name}} and read the
      answer. An IncompleteMessageError is rescued: the stderr is drained into
      the warning and nil is returned; every other failure escapes. The
      NullClient sends and reads nothing and answers nil. */
  function Model(c: Client, name: string, codec: Codec): (r: (Client, Result<Json>))
    ensures c.NullClient? ==> r == (NullClient, Ok(Null))
    ensures r.1 != Raised(IncompleteMessageError)
    ensures c.Runner? && c.stdin.closed ==> r == (c, Raised(IOError))
    ensures c.Runner? && !c.stdin.closed && c.stdout.closed ==> r.1 == Raised(IOError)
    ensures c.Runner? ==> r.0.Runner? && r.0.alive == c.alive
    ensures c.Runner? && !c.stdin.closed ==>
              r.0.stdin == Sink(c.stdin.written + EncodeFrame(codec.serialize(Message("model", Some(ModelParams(name))))), false)
    ensures c.Runner? && !c.stdin.closed && !c.stdout.closed && !c.stderr.closed && c.stdout.unread == []
            ==> r.1 == Ok(Null) && r.0.stderr == Source([], false)
    ensures c.Runner? && !c.stdin.closed && !c.stdout.closed && c.stdout.unread != [] ==>
              r.1 == ReadResponse(c.stdout.unread, codec).1
              && r.0.stdout == Source(ReadResponse(c.stdout.unread, codec).0, false)
              && r.0.stderr == c.stderr
  {
    match c
    case NullClient => (NullClient, Ok(Null))
    case Runner(_, stdout, stderr, _) =>
      var (sent, written) := Send(c, "model", Some(ModelParams(name)), codec);
      if written.Raised? then (sent, Raised(written.error))
      else if stdout.closed then (sent, Raised(IOError))
      else
        var (rest, response) := ReadResponse(stdout.unread, codec);
        var read := sent.(stdout := Source(rest, false));
        if response != Raised(IncompleteMessageError) then (read, response)
        else if stderr.closed then (read, Raised(IOError))
        else (read.(stderr := Source([], false)), Ok(Null))
  }

  /** `shutdown`: send the shutdown notification, wait for the process to
      exit, then close all three pipes. Writing to an already closed stdin
      raises IOError, so a second shutdown is not a no-op. The NullClient does
      nothing. */
  function Shutdown(c: Client, codec: Codec): (r: (Client, Result<()>))
    ensures c.NullClient? ==> r == (NullClient, Ok(()))
    ensures c.Runner? ==> (r.1.Ok? <==> !c.stdin.closed)
    ensures r.1.Ok? ==> Stopped(r.0)
    ensures c.Runner? && r.1.Ok? ==>
              r.0.Runner? && r.0.stdin.written == c.stdin.written + EncodeFrame(codec.serialize(Message("shutdown", None)))
    ensures r.1.Raised? ==> r == (c, Raised(IOError))
  {
    match c
    case NullClient => (NullClient, Ok(()))
    case Runner(_, stdout, stderr, _) =>
      var (sent, written) := Send(c, "shutdown", None, codec);
      if written.Raised? then (c, Raised(written.error))
      else
        (Runner(sent.stdin.(closed := true), stdout.(closed := true), stderr.(closed := true), false), Ok(()))
  }

  /** After a successful shutdown every pipe is closed and the process is
      gone, as the test teardown asserts; `stopped?` then holds. */
  lemma ShutdownClosesEverything(c: Client, codec: Codec)
    requires c.Runner? && !c.stdin.closed
    ensures var (after, outcome) := Shutdown(c, codec);
            outcome.Ok? && after.Runner?
            && after.stdin.closed && after.stdout.closed && after.stderr.closed && !after.alive
            && Stopped(after)
  {
  }

  /** Calling shutdown again after it returned raises IOError on the closed stdin. */
  lemma SecondShutdownRaises(c: Client, codec: Codec)
    requires c.Runner?
    requires Shutdown(c, codec).1.Ok?
    ensures Shutdown(Shutdown(c, codec).0, codec) == (Shutdown(c, codec).0, Raised(IOError))
  {
  }

  /** Once stopped, no operation brings a client back: model and shutdown
      leave it stopped. */
  lemma StoppedIsFinal(c: Client, name: string, codec: Codec)
    requires Stopped(c)
    ensures Stopped(Model(c, name, codec).0)
    ensures Stopped(Shutdown(c, codec).0)
  {
  }

  /** The NullClient answers every question with nil, shutting it down
      changes nothing, and it is always stopped. */
  lemma NullClientIsInert(name: string, codec: Codec)
    ensures Model(NullClient, name, codec) == (NullClient, Ok(Null))
    ensures Shutdown(NullClient, codec) == (NullClient, Ok(()))
    ensures Stopped(NullClient)
  {
  }

  /** What `model` writes on an open stdin is one frame of {method: "model",
      params: {name}} appended to whatever the client wrote before. */
  lemma ModelRequestFrame(c: Client, name: string, codec: Codec)
    requires c.Runner? && !c.stdin.closed
    requires |codec.serialize(Message("model", Some(ModelParams(name))))| < LongLimit
    ensures var written := Model(c, name, codec).0.stdin.written;
            && |c.stdin.written| <= |written|
            && written[..|c.stdin.written|] == c.stdin.written
            && DecodeFrame(written[|c.stdin.written|..])
               == Decoded(codec.serialize(Message("model", Some(ModelParams(name)))), [])
  {
    var request := codec.serialize(Message("model", Some(ModelParams(name))));
    var frame := EncodeFrame(request);
    DecodeEncode(request, []);
    assert frame + [] == frame;
    var written := c.stdin.written + frame;
    assert Model(c, name, codec).0.stdin.written == written;
    assert written[..|c.stdin.written|] == c.stdin.written;
    assert written[|c.stdin.written|..] == frame;
  }

  /** When the worker answers `model` with a result frame, the client returns
      that result when it is nil or a Hash (any other value fails the return
      signature) and leaves what follows the frame unread. */
  lemma ModelAnswer(c: Client, name: string, result: Json, rest: string, codec: Codec)
    requires c.Runner? && !c.stdin.closed && !c.stdout.closed
    requires c.stdout.unread == EncodeFrame(codec.serialize(Object(map["result" := result]))) + rest
    requires RoundTrips(codec, Object(map["result" := result]))
    requires |codec.serialize(Object(map["result" := result]))| < LongLimit
    ensures var (after, answer) := Model(c, name, codec);
            answer == (if result.Null? || result.Object? then Ok(result) else Raised(TypeError))
            && after.stdout.unread == rest
  {
    ReadResponseOfFrame(Object(map["result" := result]), rest, codec);
    assert |c.stdout.unread| >= |LengthField|;
  }

  /** One `model` exchange on any open client: the result comes back, and the
      request written decodes back to {method: "model", params: {name}}
      appended to whatever the client wrote before. */
  lemma ModelExchange(c: Client, name: string, result: Json, rest: string, codec: Codec)
    requires c.Runner? && !c.stdin.closed && !c.stdout.closed
    requires c.stdout.unread == EncodeFrame(codec.serialize(Object(map["result" := result]))) + rest
    requires RoundTrips(codec, Object(map["result" := result]))
    requires |codec.serialize(Object(map["result" := result]))| < LongLimit
    requires |codec.serialize(Message("model", Some(ModelParams(name))))| < LongLimit
    ensures var (after, answer) := Model(c, name, codec);
            answer == (if result.Null? || result.Object? then Ok(result) else Raised(TypeError))
            && after.stdout.unread == rest
            && after.stdin.written[..|c.stdin.written|] == c.stdin.written
            && DecodeFrame(after.stdin.written[|c.stdin.written|..])
               == Decoded(codec.serialize(Message("model", Some(ModelParams(name)))), [])
  {
    ModelAnswer(c, name, result, rest, codec);
    ModelRequestFrame(c, name, codec);
  }

  /** A worker answering with an error makes `model` return nil. */
  lemma ModelErrorIsNil(c: Client, name: string, message: string, rest: string, codec: Codec)
    requires c.Runner? && !c.stdin.closed && !c.stdout.closed
    requires c.stdout.unread == EncodeFrame(codec.serialize(Object(map["error" := Str(message)]))) + rest
    requires RoundTrips(codec, Object(map["error" := Str(message)]))
    requires |codec.serialize(Object(map["error" := Str(message)]))| < LongLimit
    ensures Model(c, name, codec).1 == Ok(Null)
    ensures Model(c, name, codec).0.stdout.unread == rest
  {
    ReadResponseOfFrame(Object(map["error" := Str(message)]), rest, codec);
  }

  /** Only IncompleteMessageError is rescued: a frame whose body does not
      parse makes `model` raise JSON::ParserError to its caller. */
  lemma ModelLetsParseErrorsEscape(c: Client, name: string, body: string, rest: string, codec: Codec)
    requires c.Runner? && !c.stdin.closed && !c.stdout.closed
    requires c.stdout.unread == EncodeFrame(body) + rest
    requires codec.parse(body).None? && |body| < LongLimit
    ensures Model(c, name, codec).1 == Raised(ParserError)
  {
    DecodeEncode(body, rest);
  }
}
