/** The worker's request loop (server.rb). Each pass reads one frame from
    stdin, fetches its `route`, and answers only `shutdown`; for every other
    route the response stays nil and writing it raises. No pass can therefore
    finish with `running` still set, and the loop is one pass: it either ends
    the process after answering `shutdown` or crashes. */
module Server {
  import opened Outcomes
  import opened Json
  import opened Framing
  import RunnerClient

  datatype Exit =
    | Exited(output: string, rest: string)  // what was written to stdout, and the unread stdin
    | Crashed(error: Exception)             // the exception that ended the process

  /** The body answering `shutdown`: {result: "ok", columns: User.column_names}. */
  function ShutdownResponse(columns: seq<string>): (response: Json)
    ensures response.Object? && response.fields.Keys == {"result", "columns"}
    ensures response.fields["result"] == Str("ok")
    ensures response.fields["columns"].Array? && |response.fields["columns"].items| == |columns|
    ensures forall i :: 0 <= i < |columns| ==> response.fields["columns"].items[i] == Str(columns[i])
  {
    Object(map["result" := Str("ok"), "columns" := Array(seq(|columns|, i requires 0 <= i < |columns| => Str(columns[i])))])
  }

  /** The route a parsed request names, as `json.fetch(:route)` finds it. */
  function RouteOf(request: Json): Result<Json> {
    Fetch(request, "route")
  }

  /** One pass of `while running`: the header read (nil at end of input makes
      the regex lookup fail), the body read (nil makes JSON.parse fail), the
      parse, the route fetch, and the answer. `columns` stands for
      User.column_names, which the application runtime supplies. */
  function ServeOnce(input: string, codec: Codec, columns: seq<string>): (e: Exit)
    ensures input == [] ==> e == Crashed(NoMethodError)
    ensures DecodeFrame(input).LengthOutOfRange? ==> e == Crashed(RangeError)
    ensures DecodeFrame(input) == BodyMissing ==> e == Crashed(TypeError)
    ensures DecodeFrame(input).Decoded? && codec.parse(DecodeFrame(input).body).None? ==> e == Crashed(ParserError)
    ensures e.Exited? <==>
              DecodeFrame(input).Decoded?
              && codec.parse(DecodeFrame(input).body).Some?
              && RouteOf(codec.parse(DecodeFrame(input).body).value) == Ok(Str("shutdown"))
    ensures e.Exited? ==> e.output == EncodeFrame(codec.serialize(ShutdownResponse(columns)))
                          && e.rest == DecodeFrame(input).rest
  {
    match DecodeFrame(input)
    case EndOfStream => Crashed(NoMethodError)
    case LengthOutOfRange(_) => Crashed(RangeError)
    case BodyMissing => Crashed(TypeError)
    case Decoded(body, rest) =>
      match codec.parse(body)
      case None => Crashed(ParserError)
      case Some(request) =>
        match RouteOf(request)
        case Raised(err) => Crashed(err)
        case Ok(route) =>
          if route == Str("shutdown") then
            Exited(EncodeFrame(codec.serialize(ShutdownResponse(columns))), rest)
          else
            Crashed(NoMethodError)
  }

  /** A framed shutdown request ends the loop with the shutdown answer
      written and the rest of stdin unread. */
  lemma ShutdownRequestEndsLoop(request: Json, rest: string, codec: Codec, columns: seq<string>)
    requires RoundTrips(codec, request) && |codec.serialize(request)| < LongLimit
    requires RouteOf(request) == Ok(Str("shutdown"))
    ensures ServeOnce(EncodeFrame(codec.serialize(request)) + rest, codec, columns)
         == Exited(EncodeFrame(codec.serialize(ShutdownResponse(columns))), rest)
  {
    DecodeEncode(codec.serialize(request), rest);
  }

  /** A framed request naming any other route crashes the worker without
      writing anything. */
  lemma OtherRouteCrashes(request: Json, rest: string, codec: Codec, columns: seq<string>)
    requires RoundTrips(codec, request) && |codec.serialize(request)| < LongLimit
    requires RouteOf(request).Ok? && RouteOf(request).value != Str("shutdown")
    ensures ServeOnce(EncodeFrame(codec.serialize(request)) + rest, codec, columns) == Crashed(NoMethodError)
  {
    DecodeEncode(codec.serialize(request), rest);
  }

  /** The answer the loop writes is exactly one frame whose declared length is
      its body's length: reading it back gives the body and nothing more. */
  lemma AnswerIsOneFrame(input: string, codec: Codec, columns: seq<string>)
    requires ServeOnce(input, codec, columns).Exited?
    requires |codec.serialize(ShutdownResponse(columns))| < LongLimit
    ensures DecodeFrame(ServeOnce(input, codec, columns).output)
         == Decoded(codec.serialize(ShutdownResponse(columns)), [])
  {
    var body := codec.serialize(ShutdownResponse(columns));
    DecodeEncode(body, []);
    assert EncodeFrame(body) + [] == EncodeFrame(body);
  }

  /** The runner client keys its requests by `method`, the worker fetches
      `route`: every request the client sends, `shutdown` included, makes the
      worker raise KeyError. */
  lemma ClientRequestsAreRejected(request: string, params: Option<map<string, Json>>, rest: string,
                                  codec: Codec, columns: seq<string>)
    requires RoundTrips(codec, RunnerClient.Message(request, params))
    requires |codec.serialize(RunnerClient.Message(request, params))| < LongLimit
    ensures ServeOnce(EncodeFrame(codec.serialize(RunnerClient.Message(request, params))) + rest, codec, columns)
         == Crashed(KeyError)
  {
    DecodeEncode(codec.serialize(RunnerClient.Message(request, params)), rest);
  }
}
