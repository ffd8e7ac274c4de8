/**
 The server end of the binary transport (crates/mustard-sidecar/src/main.rs:29-104) over a byte
 source whose reads may return any nonempty part of what was asked for.  JSON text is the pair of
 unknown functions in `Wire`.
 */
module Transport {
  import opened Wrappers
  import opened StructuredValues
  import opened Bytes
  import opened BoundaryMessages
  import opened Framing
  import opened SidecarTables
  import opened SidecarTheorems
  import opened SidecarSession

  const MAX_REQUEST_FRAME_BYTES: nat := 1024 * 1024

  // ------------------------------------------------------------------ reading

  class ByteSource {
    var remaining: seq<byte>

    constructor (bytes: seq<byte>)
      ensures remaining == bytes
    {
      remaining := bytes;
    }

    /** One `read`: some nonempty part of the next `max` bytes, and nothing only at the end. */
    method Read(max: nat) returns (chunk: seq<byte>)
      requires max > 0
      modifies this
      ensures |chunk| <= max && old(remaining) == chunk + remaining
      ensures chunk == [] <==> old(remaining) == []
    {
      if remaining == [] {
        return [];
      }
      var count: nat :| 1 <= count <= max && count <= |remaining|;
      chunk := remaining[..count];
      remaining := remaining[count..];
    }
  }

  /** The length, the end of the stream before its first byte, or the end in the middle of it. */
  datatype LengthRead = Length(length: nat) | EndOfStream | Truncated

  function LengthAt(bytes: seq<byte>): LengthRead {
    if bytes == [] then EndOfStream else if |bytes| < 4 then Truncated else Length(FromLE(bytes[..4]))
  }

  method ReadU32OrEof(source: ByteSource) returns (result: LengthRead)
    modifies source
    ensures result == LengthAt(old(source.remaining))
    ensures result.Length? ==> source.remaining == old(source.remaining)[4..]
  {
    var buf := new byte[4];
    var read := 0;
    ghost var start := source.remaining;
    while read < 4
      invariant read <= 4 && start == buf[..read] + source.remaining
      decreases 4 - read
    {
      ghost var before := buf[..read];
      ghost var left := source.remaining;
      var chunk := source.Read(4 - read);
      if chunk == [] {
        return if read == 0 then EndOfStream else Truncated;
      }
      Put(buf, read, chunk);
      assert before + (chunk + source.remaining) == (before + chunk) + source.remaining;
      read := read + |chunk|;
    }
    assert buf[..] == buf[..4] && start[..4] == buf[..4] && start[4..] == source.remaining;
    return Length(FromLE(buf[..]));
  }

  method ReadExactVec(source: ByteSource, len: nat) returns (bytes: Option<seq<byte>>)
    modifies source
    ensures bytes == if len <= |old(source.remaining)| then Some(old(source.remaining)[..len]) else None
    ensures bytes.Some? ==> source.remaining == old(source.remaining)[len..]
  {
    var read: seq<byte> := [];
    ghost var start := source.remaining;
    while |read| < len
      invariant |read| <= len && start == read + source.remaining
      decreases len - |read|
    {
      var chunk := source.Read(len - |read|);
      if chunk == [] {
        return None;
      }
      assert read + (chunk + source.remaining) == (read + chunk) + source.remaining;
      read := read + chunk;
    }
    return Some(read);
  }

  // ------------------------------------------------------------------ frames as requests and responses

  /** JSON text of headers: `parseRequest` and `printResponse` never see the byte part. */
  datatype Wire = Wire(parseRequest: string -> Option<Request>, printResponse: Response -> seq<byte>)

  /** The characters `trim` removes. */
  predicate IsWhitespace(c: char) {
    || '\t' <= c <= '\r' || c == ' ' || c == '\U{85}' || c == '\U{A0}' || c == '\U{1680}'
    || '\U{2000}' <= c <= '\U{200A}' || c == '\U{2028}' || c == '\U{2029}' || c == '\U{202F}'
    || c == '\U{205F}' || c == '\U{3000}'
  }

  predicate Blank(text: string) {
    forall i :: 0 <= i < |text| ==> IsWhitespace(text[i])
  }

  /** `request_from_binary_header`: an empty blob is no bytes, and a compile request takes none. */
  function WithBlob(header: Request, blob: seq<byte>): Option<Request> {
    var part := if blob == [] then None else Some(blob);
    match header
    case Compile(_, _, _) => if blob == [] then Some(header) else None
    case Start(_, _, _, _, _) => Some(header.(programBytes := part))
    case ResumeRequest(_, _, _, _, _, _, _, _) => Some(header.(snapshotBytes := part))
  }

  /** The part of a response that travels as raw bytes, and the rest. */
  function Blob(response: Response): seq<byte> {
    match response
    case ProgramResponse(_, bytes, _) => bytes
    case StepResponse(_, SuspendedStep(_, _, bytes), _, _) => bytes
    case _ => []
  }

  function Stripped(response: Response): Response {
    match response
    case ProgramResponse(_, _, _) => response.(programBytes := [])
    case StepResponse(_, SuspendedStep(_, _, _), _, _) => response.(step := response.step.(snapshotBytes := []))
    case _ => response
  }

  /** What the client puts together from a response frame. */
  function Joined(header: Response, blob: seq<byte>): Response {
    match header
    case ProgramResponse(_, _, _) => header.(programBytes := blob)
    case StepResponse(_, SuspendedStep(_, _, _), _, _) => header.(step := header.step.(snapshotBytes := blob))
    case _ => header
  }

  lemma JoinedAfterStripped(response: Response)
    ensures Joined(Stripped(response), Blob(response)) == response
  {
  }

  /** `response_to_binary_parts`. */
  function ResponseFrame(wire: Wire, response: Response): Frame {
    Frame(wire.printResponse(Stripped(response)), Blob(response))
  }

  /** What the server makes of one frame: nothing to answer, a request, or an error that ends it. */
  datatype FrameMeaning = Skip | Ask(request: Request) | Bad

  function Meaning(wire: Wire, frame: Frame): FrameMeaning {
    match FromUtf8(frame.header)
    case None => Bad
    case Some(text) =>
      if Blank(text) && frame.blob == [] then Skip
      else
        match wire.parseRequest(text)
        case None => Bad
        case Some(header) =>
          match WithBlob(header, frame.blob)
          case None => Bad
          case Some(request) => Ask(request)
  }

  // ------------------------------------------------------------------ frames as clients send them

  /** The bytes a request brings with it. */
  function InlineBytes(request: Request): Option<seq<byte>> {
    match request
    case Compile(_, _, _) => None
    case Start(_, _, _, programBytes, _) => programBytes
    case ResumeRequest(_, _, _, snapshotBytes, _, _, _, _) => snapshotBytes
  }

  function WithoutBytes(request: Request): Request {
    match request
    case Compile(_, _, _) => request
    case Start(_, _, _, _, _) => request.(programBytes := None)
    case ResumeRequest(_, _, _, _, _, _, _, _) => request.(snapshotBytes := None)
  }

  /** The header of a request has everything but the bytes, which go into the blob. */
  function RequestFrame(header: Request -> string, request: Request): Frame {
    Frame(Utf8(header(WithoutBytes(request))), if InlineBytes(request).Some? then InlineBytes(request).value else [])
  }

  /** The server reads the headers that clients print. */
  ghost predicate Understands(wire: Wire, header: Request -> string) {
    forall request :: InlineBytes(request).None? ==>
      wire.parseRequest(header(request)) == Some(request) && !Blank(header(request))
  }

  /** The server takes the frame of a request for that very request, inline bytes included; only bytes that
      are empty cannot be told from none. */
  lemma RequestsAreUnderstood(wire: Wire, header: Request -> string, request: Request)
    requires Understands(wire, header)
    ensures Meaning(wire, RequestFrame(header, request)) == Ask(if InlineBytes(request) == Some([]) then WithoutBytes(request) else request)
  {
    hide Utf8, FromUtf8, Blank;
    Utf8RoundTrip(header(WithoutBytes(request)));
  }

  /** A header of white space alone is passed over, unless a blob comes with it, and no other is. */
  lemma BlankFramesAreSkipped(wire: Wire, text: string, blob: seq<byte>)
    ensures Meaning(wire, Frame(Utf8(text), blob)).Skip? <==>
      blob == [] && forall i :: 0 <= i < |text| ==> IsWhitespace(text[i])
    ensures IsWhitespace(' ') && IsWhitespace('\t') && IsWhitespace('\n') && IsWhitespace('\r') && !IsWhitespace('{') && !IsWhitespace('0')
  {
    hide Utf8, FromUtf8;
    Utf8RoundTrip(text);
  }

  /** A compile request with a blob ends the connection. */
  lemma CompileTakesNoBlob(wire: Wire, header: Request -> string, request: Request, blob: seq<byte>)
    requires Understands(wire, header) && request.Compile?
    ensures Meaning(wire, Frame(Utf8(header(request)), blob)) == if blob == [] then Ask(request) else Bad
  {
    hide Utf8, FromUtf8, Blank;
    Utf8RoundTrip(header(request));
  }

  // ------------------------------------------------------------------ the whole run of a server

  /** What the server writes, the tables it is left with and whether it ended without an error. */
  datatype Served = Served(output: seq<byte>, tables: Tables, clean: bool)

  /** `draws` are what the requests of the run draw, and `n` of them were handled before. */
  function Serve(core: Core, wire: Wire, tables: Tables, input: seq<byte>, draws: nat -> Draw, n: nat): Served
    decreases |input|
  {
    if input == [] then Served([], tables, true)
    else if |input| < 8 || FromLE(input[..4]) + FromLE(input[4..8]) > MAX_REQUEST_FRAME_BYTES then Served([], tables, false)
    else
      match FirstFrame(input)
      case None => Served([], tables, false)
      case Some((frame, rest)) =>
        match Meaning(wire, frame)
        case Bad => Served([], tables, false)
        case Skip => Serve(core, wire, tables, rest, draws, n)
        case Ask(request) =>
          var outcome := Respond(core, tables, request, draws(n));
          var response := ResponseFrame(wire, outcome.response);
          if !Framable(response) then Served([], outcome.tables, false)
          else
            var later := Serve(core, wire, outcome.tables, rest, draws, n + 1);
            Served(FrameBytes(response) + later.output, later.tables, later.clean)
  }

  /** The outcome of reading one request frame. */
  datatype FrameRead = Got(frame: Frame) | AtEnd | Broken

  function FrameAt(input: seq<byte>): FrameRead {
    if input == [] then AtEnd
    else if |input| < 8 || FromLE(input[..4]) + FromLE(input[4..8]) > MAX_REQUEST_FRAME_BYTES then Broken
    else if FirstFrame(input).None? then Broken
    else Got(FirstFrame(input).value.0)
  }

  /** Which bytes are read as which frame: those of one whose header and blob together take at most a mebibyte,
      whatever follows; the stream ends cleanly only before a frame. */
  lemma FramesAreReadExactly(input: seq<byte>, frame: Frame)
    ensures FrameAt(input) == Got(frame) <==>
      && Framable(frame) && |frame.header| + |frame.blob| <= 1048576
      && |FrameBytes(frame)| <= |input| && input[..|FrameBytes(frame)|] == FrameBytes(frame)
    ensures FrameAt(input) == AtEnd <==> input == []
  {
    hide FrameBytes, FirstFrame;
    FirstFrameIsWritten(input);
    if FrameAt(input).Got? {
      var first, rest := FirstFrame(input).value.0, FirstFrame(input).value.1;
      LengthsOfBytes(first, rest);
      assert input[..|FrameBytes(first)|] == FrameBytes(first);
    }
    if Framable(frame) && |FrameBytes(frame)| <= |input| && input[..|FrameBytes(frame)|] == FrameBytes(frame) {
      var rest := input[|FrameBytes(frame)|..];
      assert input == FrameBytes(frame) + rest;
      FirstFrameOfBytes(frame, rest);
      LengthsOfBytes(frame, rest);
    }
  }

  /** The reading half of the loop body of `run_binary_transport`. */
  method ReadRequestFrame(source: ByteSource) returns (read: FrameRead)
    modifies source
    ensures read == FrameAt(old(source.remaining))
    ensures read.Got? ==> source.remaining == FirstFrame(old(source.remaining)).value.1
  {
    ghost var start := source.remaining;
    var headerLen := ReadU32OrEof(source);
    if headerLen.EndOfStream? {
      return AtEnd;
    }
    if headerLen.Truncated? {
      return Broken;
    }
    var blobLen := ReadU32OrEof(source);
    if !blobLen.Length? {
      return Broken;
    }
    assert start[4..][..4] == start[4..8] && start[4..][4..] == start[8..];
    if headerLen.length + blobLen.length > MAX_REQUEST_FRAME_BYTES {
      return Broken;
    }
    var h, b := headerLen.length, blobLen.length;
    var header := ReadExactVec(source, h);
    if header.None? {
      return Broken;
    }
    assert start[8..][..h] == start[8..8 + h] && start[8..][h..] == start[8 + h..];
    var blob := ReadExactVec(source, b);
    if blob.None? {
      return Broken;
    }
    assert start[8 + h..][..b] == start[8 + h..8 + h + b] && start[8 + h..][b..] == start[8 + h + b..];
    return Got(Frame(header.value, blob.value));
  }

  /** `run_binary_transport`; `clean` is false when it returns an error. */
  method RunBinaryTransport(source: ByteSource, wire: Wire, session: Session, draws: nat -> Draw)
    returns (stdout: seq<byte>, clean: bool)
    requires session.Valid()
    modifies source, session
    ensures session.Valid()
    ensures Served(stdout, session.Contents(), clean)
         == Serve(session.core, wire, old(session.Contents()), old(source.remaining), draws, 0)
  {
    hide Respond, FirstFrame, Meaning, FrameBytes, ResponseFrame, Framable;
    stdout, clean := [], true;
    var handled := 0;
    ghost var whole := Serve(session.core, wire, session.Contents(), source.remaining, draws, handled);
    while true
      invariant session.Valid() && clean
      invariant Continues(whole, stdout, Serve(session.core, wire, session.Contents(), source.remaining, draws, handled))
      decreases |source.remaining|
    {
      ghost var input := source.remaining;
      var read := ReadRequestFrame(source);
      if read.AtEnd? {
        break;
      }
      if read.Broken? {
        clean := false;
        break;
      }
      match Meaning(wire, read.frame) {
        case Bad =>
          clean := false;
          break;
        case Skip => continue;
        case Ask(request) =>
          var response := session.Handle(request, draws(handled));
          handled := handled + 1;
          var frame := ResponseFrame(wire, response);
          var bytes := EncodeFrame(frame.header, frame.blob);
          if bytes.None? {
            clean := false;
            break;
          }
          ghost var later := Serve(session.core, wire, session.Contents(), source.remaining, draws, handled);
          assert stdout + (bytes.value + later.output) == (stdout + bytes.value) + later.output;
          stdout := stdout + bytes.value;
      }
    }
    assert stdout + [] == stdout;
  }

  ghost predicate Continues(whole: Served, sofar: seq<byte>, later: Served) {
    whole == Served(sofar + later.output, later.tables, later.clean)
  }

  // ------------------------------------------------------------------ pipelining

  /** A frame a client may send: within the limit, with a header that parses. */
  predicate Sendable(wire: Wire, frame: Frame) {
    && Framable(frame) && |frame.header| + |frame.blob| <= MAX_REQUEST_FRAME_BYTES
    && Meaning(wire, frame).Ask?
  }

  predicate AllSendable(wire: Wire, frames: seq<Frame>) {
    forall i :: 0 <= i < |frames| ==> Sendable(wire, frames[i])
  }

  function Requests(wire: Wire, frames: seq<Frame>, draws: nat -> Draw, n: nat): (history: seq<Handled>)
    requires AllSendable(wire, frames)
    ensures |history| == |frames|
    ensures forall i :: 0 <= i < |frames| ==> history[i] == Handled(Meaning(wire, frames[i]).request, draws(n + i))
  {
    seq(|frames|, i requires 0 <= i < |frames| => Handled(Meaning(wire, frames[i]).request, draws(n + i)))
  }

  function ResponseFrames(core: Core, wire: Wire, tables: Tables, history: seq<Handled>): (frames: seq<Frame>)
    ensures |frames| == |history|
    ensures forall i :: 0 <= i < |history| ==> frames[i] == ResponseFrame(wire, ResponseAt(core, tables, history, i))
  {
    seq(|history|, i requires 0 <= i < |history| => ResponseFrame(wire, ResponseAt(core, tables, history, i)))
  }

  lemma FirstThenRest(core: Core, tables: Tables, history: seq<Handled>)
    requires history != []
    ensures var outcome := Respond(core, tables, history[0].request, history[0].draw);
      && ResponseAt(core, tables, history, 0) == outcome.response
      && (forall i :: 0 <= i < |history| - 1 ==>
            ResponseAt(core, tables, history, i + 1) == ResponseAt(core, outcome.tables, history[1..], i))
      && RunAll(core, tables, history) == RunAll(core, outcome.tables, history[1..])
  {
    hide Respond;
    var outcome := Respond(core, tables, history[0].request, history[0].draw);
    var first, rest := [history[0]], history[1..];
    assert history[..0] == [] && first[..0] == [];
    assert RunAll(core, tables, first) == outcome.tables;
    assert history == first + rest;
    RunSplits(core, tables, first, rest);
    forall i | 0 <= i < |history| - 1
      ensures ResponseAt(core, tables, history, i + 1) == ResponseAt(core, outcome.tables, rest, i)
    {
      assert history[..i + 1] == first + rest[..i];
      RunSplits(core, tables, first, rest[..i]);
    }
  }

  /** A server fed any run of sendable frames handles exactly what they mean, in order, and writes
      exactly the response frames, in order. */
  lemma {:induction false} FramesAreServedInOrder(core: Core, wire: Wire, tables: Tables, frames: seq<Frame>, draws: nat -> Draw, n: nat)
    requires AllSendable(wire, frames)
    requires forall i :: 0 <= i < |frames| ==> Framable(ResponseFrames(core, wire, tables, Requests(wire, frames, draws, n))[i])
    ensures var history := Requests(wire, frames, draws, n);
      Serve(core, wire, tables, FramesBytes(frames), draws, n) ==
      Served(FramesBytes(ResponseFrames(core, wire, tables, history)), RunAll(core, tables, history), true)
    decreases |frames|
  {
    hide Serve, Respond, Meaning, FrameBytes, ResponseFrame, Framable, ResponseAt, Sendable;
    if frames == [] {
      ServeNothing(core, wire, tables, draws, n);
    } else {
      var history := Requests(wire, frames, draws, n);
      var after := Respond(core, tables, history[0].request, draws(n)).tables;
      FirstThenRest(core, tables, history);
      assert history[1..] == Requests(wire, frames[1..], draws, n + 1);
      var responses := ResponseFrames(core, wire, tables, history);
      assert responses[1..] == ResponseFrames(core, wire, after, history[1..]);
      forall i | 0 <= i < |frames| - 1 ensures Framable(ResponseFrames(core, wire, after, history[1..])[i]) {
        assert Framable(responses[i + 1]);
      }
      assert Framable(responses[0]);
      ServeOne(core, wire, tables, frames[0], FramesBytes(frames[1..]), draws, n);
      FramesAreServedInOrder(core, wire, after, frames[1..], draws, n + 1);
    }
  }

  lemma ServeNothing(core: Core, wire: Wire, tables: Tables, draws: nat -> Draw, n: nat)
    ensures Serve(core, wire, tables, [], draws, n) == Served([], tables, true)
  {
  }

  /** One frame at the front of the input. */
  lemma ServeOne(core: Core, wire: Wire, tables: Tables, frame: Frame, rest: seq<byte>, draws: nat -> Draw, n: nat)
    requires Sendable(wire, frame)
    requires Framable(ResponseFrame(wire, Respond(core, tables, Meaning(wire, frame).request, draws(n)).response))
    ensures var outcome := Respond(core, tables, Meaning(wire, frame).request, draws(n));
      var later := Serve(core, wire, outcome.tables, rest, draws, n + 1);
      Serve(core, wire, tables, FrameBytes(frame) + rest, draws, n)
      == Served(FrameBytes(ResponseFrame(wire, outcome.response)) + later.output, later.tables, later.clean)
  {
    hide Respond, FirstFrame, Meaning, FrameBytes, ResponseFrame, Framable;
    FirstFrameOfBytes(frame, rest);
    LengthsOfBytes(frame, rest);
  }

  lemma LengthsOfBytes(frame: Frame, rest: seq<byte>)
    requires Framable(frame)
    ensures var bytes := FrameBytes(frame) + rest;
      |bytes| >= 8 && FromLE(bytes[..4]) == |frame.header| && FromLE(bytes[4..8]) == |frame.blob|
  {
    var bytes := FrameBytes(frame) + rest;
    FixedWidthLE(|frame.header|, []);
    FixedWidthLE(|frame.blob|, []);
    assert bytes[..4] == U32(|frame.header|) && bytes[4..8] == U32(|frame.blob|);
  }

  // What clients see of it, from the requests they meant.

  function RequestFrames(header: Request -> string, requests: seq<Request>): (frames: seq<Frame>)
    ensures |frames| == |requests| && forall i :: 0 <= i < |requests| ==> frames[i] == RequestFrame(header, requests[i])
  {
    seq(|requests|, i requires 0 <= i < |requests| => RequestFrame(header, requests[i]))
  }

  /** The requests as they are handled. */
  function Drawing(requests: seq<Request>, draws: nat -> Draw, n: nat): (history: seq<Handled>)
    ensures |history| == |requests| && forall i :: 0 <= i < |requests| ==> history[i] == Handled(requests[i], draws(n + i))
  {
    seq(|requests|, i requires 0 <= i < |requests| => Handled(requests[i], draws(n + i)))
  }

  /** Every request can be sent in one frame, and so can every response. */
  ghost predicate FramesFit(core: Core, wire: Wire, header: Request -> string, tables: Tables, requests: seq<Request>,
                            draws: nat -> Draw, n: nat)
  {
    forall i :: 0 <= i < |requests| ==>
      var frame := RequestFrame(header, requests[i]);
      && InlineBytes(requests[i]) != Some([]) && |frame.header| + |frame.blob| <= MAX_REQUEST_FRAME_BYTES
      && Framable(ResponseFrame(wire, ResponseAt(core, tables, Drawing(requests, draws, n), i)))
  }

  lemma RequestsAreSendable(core: Core, wire: Wire, header: Request -> string, tables: Tables, requests: seq<Request>,
                            draws: nat -> Draw, n: nat)
    requires Understands(wire, header) && FramesFit(core, wire, header, tables, requests, draws, n)
    ensures AllSendable(wire, RequestFrames(header, requests))
    ensures Requests(wire, RequestFrames(header, requests), draws, n) == Drawing(requests, draws, n)
  {
    hide Meaning, RequestFrame, ResponseAt, ResponseFrame;
    var frames := RequestFrames(header, requests);
    forall i | 0 <= i < |frames| ensures Sendable(wire, frames[i]) && Meaning(wire, frames[i]) == Ask(requests[i]) {
      RequestsAreUnderstood(wire, header, requests[i]);
    }
  }

  /** A server that clients send requests to handles exactly these requests, in order, and writes exactly their
      responses, in order. */
  lemma PipelineAnswersInOrder(core: Core, wire: Wire, header: Request -> string, tables: Tables, requests: seq<Request>,
                               draws: nat -> Draw, n: nat)
    requires Understands(wire, header) && FramesFit(core, wire, header, tables, requests, draws, n)
    ensures var history := Drawing(requests, draws, n);
      Serve(core, wire, tables, FramesBytes(RequestFrames(header, requests)), draws, n) ==
      Served(FramesBytes(ResponseFrames(core, wire, tables, history)), RunAll(core, tables, history), true)
  {
    hide Serve, RequestFrame, ResponseAt, ResponseFrame, Understands, Framable, Requests;
    RequestsAreSendable(core, wire, header, tables, requests, draws, n);
    FramesAreServedInOrder(core, wire, tables, RequestFrames(header, requests), draws, n);
  }

  /** However much of the server's output has arrived and however it was cut up, the promise of a `readFrame`
      call is pending or fulfilled with the response to the request with its number, and once all of it has
      arrived the promises of as many calls as there were requests are fulfilled. */
  lemma ClientsReadTheirResponses(core: Core, wire: Wire, header: Request -> string, tables: Tables, requests: seq<Request>,
                                  draws: nat -> Draw, n: nat, reader: FrameReader, rest: seq<byte>)
    requires Understands(wire, header) && FramesFit(core, wire, header, tables, requests, draws, n)
    requires reader.Valid() && !reader.ended && forall response: Response :: reader.parses(wire.printResponse(response))
    requires reader.received + rest == Serve(core, wire, tables, FramesBytes(RequestFrames(header, requests)), draws, n).output
    ensures var history := Drawing(requests, draws, n);
      forall i :: 0 <= i < |reader.outcomes| ==>
        if i < |requests| then
          (reader.PromiseOf(i).Pending? && rest != []) ||
          reader.PromiseOf(i) == Fulfilled(ResponseFrame(wire, ResponseAt(core, tables, history, i)))
        else reader.PromiseOf(i).Pending?
  {
    hide Serve, FirstFrame, FrameBytes, ResponseFrame, Framable, ResponseAt, Frames, Understands, RequestFrame;
    var history := Drawing(requests, draws, n);
    var responses := ResponseFrames(core, wire, tables, history);
    PipelineAnswersInOrder(core, wire, header, tables, requests, draws, n);
    assert FramesBytes(responses) + [] == FramesBytes(responses);
    NoFrameBelowEight([]);
    FramesRoundTrip(responses, []);
    FramesExtend(reader.received, rest);
    var arrived := Frames(reader.received);
    assert arrived == responses[..|arrived|];
    forall i | 0 <= i < |arrived| ensures i < |requests| && arrived[i] == responses[i] && reader.parses(arrived[i].header) {
      assert responses[..|arrived|][i] == responses[i];
      HeaderIsPrinted(wire, ResponseAt(core, tables, history, i));
    }
    if rest == [] {
      assert reader.received + rest == reader.received;
    }
    forall i | 0 <= i < |reader.outcomes|
      ensures reader.PromiseOf(i) == if i < |arrived| then Fulfilled(responses[i]) else Pending
    {
      CallsGetTheirFrames(reader, i);
    }
  }

  lemma HeaderIsPrinted(wire: Wire, response: Response)
    ensures ResponseFrame(wire, response).header == wire.printResponse(Stripped(response))
  {
  }
}
