/**
 The serving loop of the MCP server on top of the framing: which lines get a response, the handshake,
 and that the whole transcript depends on the bytes alone, not on how they arrive.
 */
module McpServer {
  import opened Wrappers
  import opened Framing

  /** JSON as far as the server looks at it. */
  datatype Json = Null | Text(s: string) | Scalar(code: int) | Array(items: seq<Json>) | Object(code: int)

  /** A message by the members the server reads; a parsed value that is no object has none. */
  datatype Message =
    | NoObject
    | Fields(jsonrpc: Option<Json>, id: Option<Json>, method_: Option<Json>, params: Option<Json>)

  /** What trimming and the JSON parser make of a line. */
  datatype Parsed = BlankLine | NoJson | Parsed(message: Message)

  datatype Outcome = Result(value: Json) | Error(code: int)

  /** A response; `id` is `None` where a null id has been pruned from an error. */
  datatype Response = Response(id: Option<Json>, outcome: Outcome)

  const PARSE_ERROR := -32700
  const INVALID_REQUEST := -32600
  const METHOD_NOT_FOUND := -32601
  const INVALID_PARAMS := -32602
  const NOT_INITIALIZED := -32002

  /** The tool call, and what parses a line: code that is not part of this model. */
  datatype World = World(parse: seq<Byte> -> Parsed, call: Json -> Outcome, initializeResult: Json -> Json, tools: Json)

  const EMPTY_OBJECT := Object(0)

  function ErrorResponse(id: Json, code: int): Response {
    Response(if id == Null then None else Some(id), Error(code))
  }

  function Reply(w: World, id: Json, method_: string, params: Json): Response {
    match method_
    case "initialize" => Response(Some(id), Result(w.initializeResult(params)))
    case "ping" => Response(Some(id), Result(EMPTY_OBJECT))
    case "tools/list" => Response(Some(id), Result(w.tools))
    case "tools/call" => Response(Some(id), w.call(params))
    case _ => Response(Some(id), Error(METHOD_NOT_FOUND))
  }

  /** `handle_message`: the response, if any, and the handshake state after it. */
  function Handle(w: World, m: Message, initialized: bool): (Option<Response>, bool) {
    if m.NoObject? then (Some(ErrorResponse(Null, INVALID_REQUEST)), initialized)
    else if m.jsonrpc != Some(Text("2.0")) then
      (Some(ErrorResponse(m.id.UnwrapOr(Null), INVALID_REQUEST)), initialized)
    else if !(m.method_.Some? && m.method_.value.Text?) then
      (if m.id.Some? then Some(ErrorResponse(m.id.value, INVALID_REQUEST)) else None, initialized)
    else
      var method_ := m.method_.value.s;
      if m.id.Some? && (m.id.value.Null? || m.id.value.Array? || m.id.value.Object?) then
        (Some(ErrorResponse(Null, INVALID_REQUEST)), initialized)
      else if m.id.None? then
        (None, initialized || method_ == "notifications/initialized")
      else
        var id, params := m.id.value, m.params.UnwrapOr(EMPTY_OBJECT);
        if !params.Object? then (Some(ErrorResponse(id, INVALID_PARAMS)), initialized)
        else if method_ != "initialize" && !initialized then (Some(ErrorResponse(id, NOT_INITIALIZED)), initialized)
        else (Some(Reply(w, id, method_, params)), initialized || method_ == "initialize")
  }

  /** One line of input. */
  function HandleInput(w: World, input: InputLine, initialized: bool): (Option<Response>, bool) {
    match input
    case TooLarge => (Some(ErrorResponse(Null, PARSE_ERROR)), initialized)
    case InvalidUtf8 => (Some(ErrorResponse(Null, PARSE_ERROR)), initialized)
    case Line(bytes) =>
      match w.parse(bytes)
      case BlankLine => (None, initialized)
      case NoJson => (Some(ErrorResponse(Null, PARSE_ERROR)), initialized)
      case Parsed(message) => Handle(w, message, initialized)
  }

  /** The handshake state after the first `n` pieces. */
  function StateAfter(w: World, pieces: seq<seq<Byte>>, n: nat): bool
    requires n <= |pieces|
  {
    n > 0 && HandleInput(w, Report(pieces[n - 1], MCP_MAX_LINE_BYTES), StateAfter(w, pieces, n - 1)).1
  }

  /** The responses to the first `n` pieces. */
  function Transcript(w: World, pieces: seq<seq<Byte>>, n: nat): seq<Response>
    requires n <= |pieces|
  {
    if n == 0 then []
    else
      var r := HandleInput(w, Report(pieces[n - 1], MCP_MAX_LINE_BYTES), StateAfter(w, pieces, n - 1)).0;
      Transcript(w, pieces, n - 1) + if r.Some? then [r.value] else []
  }

  // ---------------------------------------------------------------- what a response says about its message

  /** A message that completes the handshake: the notification, or a well-formed "initialize". */
  predicate InitializesBy(m: Message) {
    && m.Fields? && m.jsonrpc == Some(Text("2.0")) && m.method_.Some?
    && if m.id.None? then m.method_.value == Text("notifications/initialized")
       else (m.id.value.Text? || m.id.value.Scalar?) && m.method_.value == Text("initialize")
            && (m.params.None? || m.params.value.Object?)
  }

  /** A notification, with or without a usable method: it has no id. */
  predicate Unanswered(m: Message) {
    m.Fields? && m.jsonrpc == Some(Text("2.0")) && m.id.None?
  }

  /**
   A message whose answer carries no id: it has none, or a null one, or one that is no string or number
   in a message that is otherwise a call.
   */
  predicate LosesId(m: Message) {
    || m.NoObject? || m.id in {None, Some(Null)}
    || (m.jsonrpc == Some(Text("2.0")) && m.method_.Some? && m.method_.value.Text?
        && (m.id.value.Array? || m.id.value.Object?))
  }

  class Session {
    const world: World
    var initialized: bool

    constructor (world: World)
      ensures this.world == world && !initialized
    {
      this.world, initialized := world, false;
    }

    /** `handle_message`: who is answered, under which id, and when the handshake is done. */
    method HandleMessage(m: Message) returns (response: Option<Response>)
      modifies this`initialized
      ensures (response, initialized) == Handle(world, m, old(initialized))
      ensures response.None? <==> Unanswered(m)
      ensures response.Some? ==> response.value.id == if LosesId(m) then None else m.id
      ensures initialized <==> old(initialized) || InitializesBy(m)
      ensures response.Some? && response.value.outcome.Result? ==> initialized
    {
      if m.NoObject? {
        return Some(ErrorResponse(Null, INVALID_REQUEST));
      }
      if m.jsonrpc != Some(Text("2.0")) {
        return Some(ErrorResponse(m.id.UnwrapOr(Null), INVALID_REQUEST));
      }
      if m.method_.None? || !m.method_.value.Text? {
        return if m.id.Some? then Some(ErrorResponse(m.id.value, INVALID_REQUEST)) else None;
      }
      var method_ := m.method_.value.s;
      if m.id.Some? && (m.id.value.Null? || m.id.value.Array? || m.id.value.Object?) {
        return Some(ErrorResponse(Null, INVALID_REQUEST));
      }
      if m.id.None? {
        if method_ == "notifications/initialized" {
          initialized := true;
        }
        return None;
      }
      var id := m.id.value;
      var params := m.params.UnwrapOr(EMPTY_OBJECT);
      if !params.Object? {
        return Some(ErrorResponse(id, INVALID_PARAMS));
      }
      if method_ != "initialize" && !initialized {
        return Some(ErrorResponse(id, NOT_INITIALIZED));
      }
      if method_ == "initialize" {
        initialized := true;
      }
      return Some(Reply(world, id, method_, params));
    }

    method HandleLine(input: InputLine) returns (response: Option<Response>)
      modifies this`initialized
      ensures (response, initialized) == HandleInput(world, input, old(initialized))
    {
      match input {
        case TooLarge => return Some(ErrorResponse(Null, PARSE_ERROR));
        case InvalidUtf8 => return Some(ErrorResponse(Null, PARSE_ERROR));
        case Line(bytes) =>
          match world.parse(bytes) {
            case BlankLine => return None;
            case NoJson => return Some(ErrorResponse(Null, PARSE_ERROR));
            case Parsed(message) => response := HandleMessage(message);
          }
      }
    }

    /** The serving loop: for any chunking, the transcript is that of the pieces between line feeds. */
    method Serve(reader: Reader) returns (out: seq<Response>)
      requires reader.Valid() && !initialized
      modifies reader, this`initialized
      ensures out == Transcript(world, Pieces(old(reader.Contents())), |Pieces(old(reader.Contents()))|)
      ensures initialized == StateAfter(world, Pieces(old(reader.Contents())), |Pieces(old(reader.Contents()))|)
      ensures reader.Contents() == []
    {
      ghost var pieces := Pieces(reader.Contents());
      ghost var n := 0;
      out := [];
      while true
        invariant reader.Valid() && n <= |pieces| && pieces[n..] == Pieces(reader.Contents())
        invariant out == Transcript(world, pieces, n) && initialized == StateAfter(world, pieces, n)
        decreases |pieces| - n
      {
        ghost var left := reader.Contents();
        var input := ReadInputLine(reader, MCP_MAX_LINE_BYTES);
        if input.None? {
          return;
        }
        assert pieces[n] == pieces[n..][0] == left[..LineLength(left)];
        assert pieces[n + 1..] == pieces[n..][1..];
        n := n + 1;
        var response := HandleLine(input.value);
        if response.Some? {
          out := out + [response.value];
        }
      }
    }
  }

  // ---------------------------------------------------------------- laws of the protocol

  /** A piece that completes the handshake. */
  predicate Initializes(w: World, piece: seq<Byte>) {
    var input := Report(piece, MCP_MAX_LINE_BYTES);
    && input.Line? && w.parse(input.bytes).Parsed? && InitializesBy(w.parse(input.bytes).message)
  }

  /** The server is initialised iff some piece so far completed the handshake; it never forgets. */
  lemma {:induction false} InitializedIff(w: World, pieces: seq<seq<Byte>>, n: nat)
    requires n <= |pieces|
    ensures StateAfter(w, pieces, n) <==> exists i :: 0 <= i < n && Initializes(w, pieces[i])
  {
    if n > 0 {
      InitializedIff(w, pieces, n - 1);
      var input := Report(pieces[n - 1], MCP_MAX_LINE_BYTES);
      assert StateAfter(w, pieces, n) <==> StateAfter(w, pieces, n - 1) || Initializes(w, pieces[n - 1]);
    }
  }

  /** An answer carries no id exactly for these messages; every other one carries the message's own. */
  lemma {:induction false} AnswerLosesId(w: World, m: Message, initialized: bool)
    requires Handle(w, m, initialized).0.Some?
    ensures Handle(w, m, initialized).0.value.id == None <==> LosesId(m)
    ensures !LosesId(m) ==> Handle(w, m, initialized).0.value.id == m.id
  {
  }

  /**
   Two inputs: a call with a null id, whose refusal carries no id where section 5 of the JSON-RPC 2.0
   specification asks for a null one, and a message of another version with an array for an id, which keeps it.
   */
  lemma {:induction false} NullIdIsPruned(w: World, initialized: bool)
    ensures
      var call := Fields(Some(Text("2.0")), Some(Null), Some(Text("ping")), None);
      Handle(w, call, initialized).0 == Some(Response(None, Error(INVALID_REQUEST)))
    ensures
      var other := Fields(Some(Text("1.0")), Some(Array([])), Some(Text("ping")), None);
      Handle(w, other, initialized).0 == Some(Response(Some(Array([])), Error(INVALID_REQUEST)))
  {
  }

  /** A request: version 2.0, a method, and an id that is a string or a number. */
  predicate IsRequest(m: Message) {
    && m.Fields? && m.jsonrpc == Some(Text("2.0")) && m.method_.Some? && m.method_.value.Text?
    && m.id.Some? && (m.id.value.Text? || m.id.value.Scalar?)
  }

  /**
   A request is answered under its own id; it succeeds only if it is "initialize" or the handshake is
   done, and with the handshake missing the refusal says so. A notification is never answered.
   */
  lemma {:induction false} AnswersUnderItsId(w: World, m: Message, initialized: bool)
    requires m.Fields? && m.jsonrpc == Some(Text("2.0")) && m.method_.Some? && m.method_.value.Text?
    ensures IsRequest(m) ==> Handle(w, m, initialized).0.Some? && Handle(w, m, initialized).0.value.id == m.id
    ensures IsRequest(m) && !initialized && m.method_.value.s != "initialize" ==>
      Handle(w, m, initialized).0.value.outcome ==
        Error(if m.params.None? || m.params.value.Object? then NOT_INITIALIZED else INVALID_PARAMS)
    ensures Handle(w, m, initialized).0.None? <==> m.id.None?
  {
  }

  /** A piece goes unanswered iff it is blank, or a message that is a notification. */
  predicate Silent(w: World, piece: seq<Byte>) {
    var input := Report(piece, MCP_MAX_LINE_BYTES);
    && input.Line?
    && match w.parse(input.bytes)
       case BlankLine => true
       case NoJson => false
       case Parsed(message) => Unanswered(message)
  }

  /** Every other piece is answered: with a parse error iff it is no JSON text, and as a bad request iff it is no request. */
  lemma {:induction false} EveryPieceIsAnswered(w: World, piece: seq<Byte>, initialized: bool)
    ensures
      var input := Report(piece, MCP_MAX_LINE_BYTES);
      var answer := HandleInput(w, input, initialized).0;
      && (answer.None? <==> Silent(w, piece))
      && (answer.Some? && !(input.Line? && w.parse(input.bytes).Parsed?) ==> answer == Some(Response(None, Error(PARSE_ERROR))))
      && (answer.Some? && input.Line? && w.parse(input.bytes).Parsed? && !IsRequest(w.parse(input.bytes).message) ==>
            answer.value.outcome == Error(INVALID_REQUEST))
  {
  }

  /** The transcript has one response for each piece that is not silent. */
  lemma {:induction false} OneResponseEach(w: World, pieces: seq<seq<Byte>>, n: nat)
    requires n <= |pieces|
    ensures |Transcript(w, pieces, n)| == |set i | 0 <= i < n && !Silent(w, pieces[i])|
  {
    if n > 0 {
      OneResponseEach(w, pieces, n - 1);
      EveryPieceIsAnswered(w, pieces[n - 1], StateAfter(w, pieces, n - 1));
      var before := set i | 0 <= i < n - 1 && !Silent(w, pieces[i]);
      var now := set i | 0 <= i < n && !Silent(w, pieces[i]);
      assert now == if Silent(w, pieces[n - 1]) then before else before + {n - 1};
    }
  }

  const METHODS: set<string> := {"initialize", "ping", "tools/list", "tools/call"}

  /** What a request is answered with, by its method: each is served, under the handshake, and no other is. */
  lemma {:induction false} EachMethodIsServed(w: World, m: Message, initialized: bool)
    requires IsRequest(m) && (initialized || m.method_.value.s == "initialize")
    ensures
      var method_, params := m.method_.value.s, m.params.UnwrapOr(EMPTY_OBJECT);
      var outcome := Handle(w, m, initialized).0.value.outcome;
      && (m.params.Some? && !m.params.value.Object? ==> outcome == Error(INVALID_PARAMS))
      && (params.Object? ==>
            && (method_ == "initialize" ==> outcome == Result(w.initializeResult(params)))
            && (method_ == "ping" ==> outcome == Result(EMPTY_OBJECT))
            && (method_ == "tools/list" ==> outcome == Result(w.tools))
            && (method_ == "tools/call" ==> outcome == w.call(params))
            && (method_ !in METHODS ==> outcome == Error(METHOD_NOT_FOUND)))
  {
  }

  /**
   A successful answer in a transcript is to "initialize", or comes after a piece that completed the
   handshake.
   */
  lemma {:induction false} NoResultBeforeHandshake(w: World, pieces: seq<seq<Byte>>, n: nat)
    requires n < |pieces|
    requires
      var r := HandleInput(w, Report(pieces[n], MCP_MAX_LINE_BYTES), StateAfter(w, pieces, n)).0;
      r.Some? && r.value.outcome.Result?
    ensures
      || (exists i :: 0 <= i < n && Initializes(w, pieces[i]))
      || Initializes(w, pieces[n])
  {
    InitializedIff(w, pieces, n);
  }
}
