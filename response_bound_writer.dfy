/** The response-bound writer (corporal/httphelp/response_bound_http_writer.go): a response writer
    that applies headers and status to an existing upstream response at once and buffers the body
    until `Commit`. */
module ResponseBoundWriter {
  import opened Hex
  import opened Http

  /** The writer's abstract state: the response it is bound to and the bytes written so far. */
  datatype BoundState = BoundState(response: Response, buffer: seq<byte>)

  function BoundSetHeader(s: BoundState, name: string, value: string): (t: BoundState)
    ensures t.response.header == s.response.header[name := value]
    ensures t.response.statusCode == s.response.statusCode && t.response.body == s.response.body
    ensures t.response.contentLength == s.response.contentLength && t.buffer == s.buffer
  {
    s.(response := s.response.(header := s.response.header[name := value]))
  }

  function BoundWriteHeader(s: BoundState, statusCode: int): (t: BoundState)
    ensures t.response.statusCode == statusCode
    ensures t.response.header == s.response.header && t.response.body == s.response.body
    ensures t.response.contentLength == s.response.contentLength && t.buffer == s.buffer
  {
    s.(response := s.response.(statusCode := statusCode))
  }

  function BoundWrite(s: BoundState, b: seq<byte>): (t: BoundState)
    ensures t.response == s.response
    ensures t.buffer == s.buffer + b
  {
    s.(buffer := s.buffer + b)
  }

  /** `Commit`: the buffered bytes become the body when there are any; the buffer is drained.
      The content length is left as it was. */
  function BoundCommit(s: BoundState): (t: BoundState)
    ensures t.buffer == []
    ensures t.response.body == (if |s.buffer| > 0 then s.buffer else s.response.body)
    ensures t.response.statusCode == s.response.statusCode && t.response.header == s.response.header
    ensures t.response.contentLength == s.response.contentLength
  {
    if |s.buffer| > 0 then BoundState(s.response.(body := s.buffer), [])
    else s.(buffer := [])
  }

  /** `RespondWithBytes` issued against the bound writer. */
  function BoundRespond(s: BoundState, reply: Reply): BoundState
  {
    BoundWrite(BoundWriteHeader(BoundSetHeader(BoundSetHeader(s, "Access-Control-Allow-Origin", "*"), "Content-Type", reply.contentType),
                      reply.statusCode), reply.payload)
  }

  /** A reply delivered through the bound writer and committed: its status and headers replace the
      response's, its payload becomes the body unless it is empty, and other headers stay. */
  lemma {:induction false} RespondThenCommit(response: Response, reply: Reply)
    ensures BoundCommit(BoundRespond(BoundState(response, []), reply)).response ==
      response.(statusCode := reply.statusCode,
                header := response.header + ReplyHeaders(reply),
                body := if |reply.payload| > 0 then reply.payload else response.body)
  {
    var s := BoundRespond(BoundState(response, []), reply);
    assert s.buffer == reply.payload;
    assert s.response.header == response.header + ReplyHeaders(reply);
  }

  /** A second commit with no writes in between changes nothing. */
  lemma CommitDrains(s: BoundState)
    ensures BoundCommit(BoundCommit(s)) == BoundCommit(s)
  {
  }

  /** Writes accumulate: committing after two writes gives their concatenation as the body, or the
      original body when both are empty. */
  lemma WritesConcatenate(s: BoundState, a: seq<byte>, b: seq<byte>)
    requires s.buffer == []
    ensures BoundCommit(BoundWrite(BoundWrite(s, a), b)).response.body == (if |a + b| > 0 then a + b else s.response.body)
  {
    assert BoundWrite(BoundWrite(s, a), b).buffer == [] + a + b;
    assert [] + a + b == a + b;
  }

  /** A mutable HTTP response, as the upstream hands it to the reverse proxy's modifier. */
  class HttpResponse {
    var statusCode: int
    var header: Header
    var body: seq<byte>
    var contentLength: int

    function Value(): Response
      reads this
    {
      Response(statusCode, header, body, contentLength)
    }

    constructor(r: Response)
      ensures Value() == r
    {
      statusCode := r.statusCode;
      header := r.header;
      body := r.body;
      contentLength := r.contentLength;
    }
  }

  class ResponseBoundHttpWriter {
    const response: HttpResponse
    var responseBytes: seq<byte>

    function State(): BoundState
      reads this, response
    {
      BoundState(response.Value(), responseBytes)
    }

    /** `NewResponseBoundHttpWriter`: bound to the response, with an empty buffer. */
    constructor(response: HttpResponse)
      ensures this.response == response
      ensures State() == BoundState(response.Value(), [])
    {
      this.response := response;
      responseBytes := [];
    }

    /** `w.Header().Set(name, value)`: the header map is the response's own, so the edit is on the
        response at once. */
    method SetHeader(name: string, value: string)
      modifies response
      ensures State() == BoundSetHeader(old(State()), name, value)
    {
      response.header := response.header[name := value];
    }

    method WriteHeader(statusCode: int)
      modifies response
      ensures State() == BoundWriteHeader(old(State()), statusCode)
    {
      response.statusCode := statusCode;
    }

    /** Appends to the buffer only; the response is not touched. */
    method Write(b: seq<byte>) returns (n: int)
      modifies this
      ensures State() == BoundWrite(old(State()), b)
      ensures n == |b|
    {
      responseBytes := responseBytes + b;
      return |b|;
    }

    method Commit()
      modifies this, response
      ensures State() == BoundCommit(old(State()))
    {
      var b := responseBytes;
      responseBytes := [];
      if |b| > 0 {
        response.body := b;
      }
    }
  }
}
