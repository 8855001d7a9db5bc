/** The two ways in which a body is held to its limit: buffered whole before it is forwarded
    (`src/http/mod.rs`), or cut off while it streams (`src/upstream/mod.rs`). */
module Bodies {
  import opened Common

  type Bytes = seq<bv8>

  /** What a body stream under an idle timeout can yield. */
  datatype BodyEvent = Chunk(bytes: Bytes) | ReadError | IdleTimeout

  datatype BufferError = TooLarge | TimedOut | ReadFailed {
    function Kind(): string {
      match this
      case TooLarge => "request_body_too_large"
      case TimedOut => "client_body_timeout"
      case ReadFailed => "client_request_body_read_failed"
    }

    function Status(): nat {
      match this
      case TooLarge => 413
      case TimedOut => 408
      case ReadFailed => 400
    }
  }

  datatype Buffered = Body(bytes: Bytes) | Rejected(error: BufferError)

  function Buffer(buffered: Bytes, events: seq<BodyEvent>, maxBytes: nat): Buffered
    decreases |events|
  {
    if events == [] then Body(buffered)
    else match events[0]
      case Chunk(bytes) =>
        if |buffered| + |bytes| > maxBytes then Rejected(TooLarge)
        else Buffer(buffered + bytes, events[1..], maxBytes)
      case ReadError => Rejected(ReadFailed)
      case IdleTimeout => Rejected(TimedOut)
  }

  method BufferRequestBody(events: seq<BodyEvent>, maxBytes: nat) returns (result: Buffered)
    ensures result == Buffer([], events, maxBytes)
    ensures result.Body? ==> |result.bytes| <= maxBytes
  {
    var buffered: Bytes := [];
    for i := 0 to |events|
      invariant |buffered| <= maxBytes
      invariant Buffer([], events, maxBytes) == Buffer(buffered, events[i..], maxBytes)
    {
      match events[i] {
        case Chunk(bytes) =>
          var nextLen := |buffered| + |bytes|;
          if nextLen > maxBytes {
            return Rejected(TooLarge);
          }
          buffered := buffered + bytes;
          assert events[i..][1..] == events[i + 1..];
        case ReadError =>
          return Rejected(ReadFailed);
        case IdleTimeout =>
          return Rejected(TimedOut);
      }
    }
    result := Body(buffered);
  }

  // ---------------------------------------------------------------------------------------------
  // The limited stream
  // ---------------------------------------------------------------------------------------------

  const REQUEST_BODY := "client request body"
  const RESPONSE_BODY := "upstream response body"

  function TimeoutKind(context: string): string {
    if context == REQUEST_BODY then "client_body_timeout"
    else if context == RESPONSE_BODY then "upstream_response_body_timeout"
    else "stream_timeout"
  }

  function ReadFailureKind(context: string): string {
    if context == REQUEST_BODY then "client_request_body_read_failed"
    else if context == RESPONSE_BODY then "upstream_response_body_read_failed"
    else "stream_read_failed"
  }

  function SizeLimitKind(context: string): string {
    if context == REQUEST_BODY then "request_body_too_large"
    else if context == RESPONSE_BODY then "response_body_too_large"
    else "stream_too_large"
  }

  /** A frame of the limited stream; an error is also notified under its kind. */
  datatype Item = Data(bytes: Bytes) | Failed(kind: string)

  /** The byte count after an event. It is a 64-bit counter, and it keeps counting after errors. */
  function Seen(seen: nat, e: BodyEvent): nat {
    if e.Chunk? then (seen + |e.bytes|) % TWO_64 else seen
  }

  function Emit(seen: nat, e: BodyEvent, maxBytes: nat, context: string): Item {
    match e
    case Chunk(bytes) =>
      if Seen(seen, e) > maxBytes then Failed(SizeLimitKind(context)) else Data(bytes)
    case ReadError => Failed(ReadFailureKind(context))
    case IdleTimeout => Failed(TimeoutKind(context))
  }

  function Stream(seen: nat, events: seq<BodyEvent>, maxBytes: nat, context: string): seq<Item>
    decreases |events|
  {
    if events == [] then []
    else [Emit(seen, events[0], maxBytes, context)] + Stream(Seen(seen, events[0]), events[1..], maxBytes, context)
  }

  class LimitedStream {
    const maxBytes: nat
    const context: string
    var seen: nat
    /** The kinds that the error hook was called with. */
    var notified: seq<string>

    constructor (maxBytes: nat, context: string)
      ensures this.maxBytes == maxBytes && this.context == context && seen == 0 && notified == []
    {
      this.maxBytes, this.context, seen, notified := maxBytes, context, 0, [];
    }

    method Next(e: BodyEvent) returns (item: Item)
      modifies this
      ensures item == Emit(old(seen), e, maxBytes, context)
      ensures seen == Seen(old(seen), e)
      ensures notified == old(notified) + if item.Failed? then [item.kind] else []
    {
      match e {
        case Chunk(bytes) =>
          seen := (seen + |bytes|) % TWO_64;
          item := if seen > maxBytes then Failed(SizeLimitKind(context)) else Data(bytes);
        case ReadError =>
          item := Failed(ReadFailureKind(context));
        case IdleTimeout =>
          item := Failed(TimeoutKind(context));
      }
      if item.Failed? {
        notified := notified + [item.kind];
      }
    }
  }

  /** The name of every error that a limited body can end with, on its way in and on its way out. */
  lemma {:induction false} StreamErrors(seen: nat, events: seq<BodyEvent>, maxBytes: nat, context: string, i: nat)
    requires i < |events|
    ensures |Stream(seen, events, maxBytes, context)| == |events|
    ensures var item := Stream(seen, events, maxBytes, context)[i];
            && (context == "client request body" ==>
                  match events[i]
                  case Chunk(bytes) => item == Data(bytes) || item == Failed("request_body_too_large")
                  case ReadError => item == Failed("client_request_body_read_failed")
                  case IdleTimeout => item == Failed("client_body_timeout"))
            && (context == "upstream response body" ==>
                  match events[i]
                  case Chunk(bytes) => item == Data(bytes) || item == Failed("response_body_too_large")
                  case ReadError => item == Failed("upstream_response_body_read_failed")
                  case IdleTimeout => item == Failed("upstream_response_body_timeout"))
            && (context != "client request body" && context != "upstream response body" ==>
                  match events[i]
                  case Chunk(bytes) => item == Data(bytes) || item == Failed("stream_too_large")
                  case ReadError => item == Failed("stream_read_failed")
                  case IdleTimeout => item == Failed("stream_timeout"))
    decreases |events|
  {
    StreamLength(seen, events, maxBytes, context);
    if i > 0 {
      StreamErrors(Seen(seen, events[0]), events[1..], maxBytes, context, i - 1);
    }
  }

  lemma {:induction false} StreamLength(seen: nat, events: seq<BodyEvent>, maxBytes: nat, context: string)
    ensures |Stream(seen, events, maxBytes, context)| == |events|
    decreases |events|
  {
    if events != [] {
      StreamLength(Seen(seen, events[0]), events[1..], maxBytes, context);
    }
  }

  // ---------------------------------------------------------------------------------------------
  // Totals
  // ---------------------------------------------------------------------------------------------

  function TotalBytes(events: seq<BodyEvent>): nat {
    if events == [] then 0
    else (if events[0].Chunk? then |events[0].bytes| else 0) + TotalBytes(events[1..])
  }

  function DataBytes(items: seq<Item>): nat {
    if items == [] then 0
    else (if items[0].Data? then |items[0].bytes| else 0) + DataBytes(items[1..])
  }

  /** The data frames in a row. */
  function Payload(items: seq<Item>): Bytes {
    if items == [] then []
    else (if items[0].Data? then items[0].bytes else []) + Payload(items[1..])
  }

  /** The kind of the first error, if there is any. */
  function FirstError(items: seq<Item>): Option<string> {
    if items == [] then None
    else if items[0].Failed? then Some(items[0].kind)
    else FirstError(items[1..])
  }

  lemma {:induction false} FirstErrorMeaning(items: seq<Item>)
    ensures FirstError(items).None? <==> forall i :: 0 <= i < |items| ==> items[i].Data?
  {
    if items != [] {
      FirstErrorMeaning(items[1..]);
      if FirstError(items).None? {
        forall i | 0 <= i < |items| ensures items[i].Data? {
          assert i > 0 ==> items[i] == items[1..][i - 1];
        }
      }
      if forall i :: 0 <= i < |items| ==> items[i].Data? {
        assert forall i :: 0 <= i < |items[1..]| ==> items[1..][i] == items[i + 1];
      }
    }
  }

  // ---------------------------------------------------------------------------------------------
  // Agreement
  // ---------------------------------------------------------------------------------------------

  /** As long as the limit holds, the stream's count does not wrap: what comes after the first chunk that
      passes the limit does not matter. */
  predicate CountHolds(seen: nat, events: seq<BodyEvent>, maxBytes: nat)
    decreases |events|
  {
    events == [] || !events[0].Chunk? ||
    var next := seen + |events[0].bytes|;
    next < TWO_64 && (next <= maxBytes ==> CountHolds(next, events[1..], maxBytes))
  }

  lemma {:induction false} BufferFollowsStream(buffered: Bytes, events: seq<BodyEvent>, maxBytes: nat)
    requires |buffered| <= maxBytes && CountHolds(|buffered|, events, maxBytes)
    ensures var items := Stream(|buffered|, events, maxBytes, REQUEST_BODY);
            match Buffer(buffered, events, maxBytes)
            case Body(bytes) => FirstError(items) == None && bytes == buffered + Payload(items)
            case Rejected(error) => FirstError(items) == Some(error.Kind())
    decreases |events|
  {
    if events != [] && events[0].Chunk? && |buffered| + |events[0].bytes| <= maxBytes {
      var more := buffered + events[0].bytes;
      BufferFollowsStream(more, events[1..], maxBytes);
      var rest := Stream(|more|, events[1..], maxBytes, REQUEST_BODY);
      assert Stream(|buffered|, events, maxBytes, REQUEST_BODY)[1..] == rest;
      assert more + Payload(rest) == buffered + (events[0].bytes + Payload(rest));
    }
  }

  /** The body is buffered, as the concatenation of the stream's data, exactly when the stream reports no
      error, and otherwise it is rejected for the stream's first reason. */
  ghost predicate Agree(events: seq<BodyEvent>, maxBytes: nat) {
    var items := Stream(0, events, maxBytes, REQUEST_BODY);
    var result := Buffer([], events, maxBytes);
    && (result.Body? <==> forall i :: 0 <= i < |items| ==> items[i].Data?)
    && (result.Body? ==> result.bytes == Payload(items))
    && (result.Rejected? ==> FirstError(items) == Some(result.error.Kind()))
  }

  /** Buffering and streaming agree on every body on which the count holds. */
  lemma BufferAgreesWithStream(events: seq<BodyEvent>, maxBytes: nat)
    requires CountHolds(0, events, maxBytes)
    ensures Agree(events, maxBytes)
  {
    BufferFollowsStream([], events, maxBytes);
    FirstErrorMeaning(Stream(0, events, maxBytes, REQUEST_BODY));
    assert [] + Payload(Stream(0, events, maxBytes, REQUEST_BODY)) == Payload(Stream(0, events, maxBytes, REQUEST_BODY));
  }

  /** The largest chunk: a slice of bytes has at most this length. */
  const MAX_CHUNK: nat := 0x7FFF_FFFF_FFFF_FFFF

  ghost predicate ChunksFit(events: seq<BodyEvent>) {
    forall e :: e in events && e.Chunk? ==> |e.bytes| <= MAX_CHUNK
  }

  lemma {:induction false} ShortBodiesCount(seen: nat, events: seq<BodyEvent>, maxBytes: nat)
    requires seen + TotalBytes(events) < TWO_64
    ensures CountHolds(seen, events, maxBytes)
    decreases |events|
  {
    if events != [] && events[0].Chunk? {
      ShortBodiesCount(seen + |events[0].bytes|, events[1..], maxBytes);
    }
  }

  lemma {:induction false} SmallLimitsCount(seen: nat, events: seq<BodyEvent>, maxBytes: nat)
    requires seen <= maxBytes <= MAX_CHUNK + 1 && ChunksFit(events)
    ensures CountHolds(seen, events, maxBytes)
    decreases |events|
  {
    if events != [] && events[0].Chunk? && seen + |events[0].bytes| <= maxBytes {
      SmallLimitsCount(seen + |events[0].bytes|, events[1..], maxBytes);
    }
  }

  /** A chunk of the largest size and two bytes stay within the limit; another such chunk then wraps the
      count to zero, so that the stream goes on where the buffer gives up. */
  function Wrapping(): seq<BodyEvent> {
    [Chunk(Zeros(MAX_CHUNK)), Chunk(Zeros(2)), Chunk(Zeros(MAX_CHUNK))]
  }

  lemma LargeLimitDisagrees(maxBytes: nat)
    requires MAX_CHUNK + 1 < maxBytes < TWO_64
    ensures ChunksFit(Wrapping()) && !Agree(Wrapping(), maxBytes)
  {
    var e0 := Wrapping();
    var e1, e2 := [Chunk(Zeros(2)), Chunk(Zeros(MAX_CHUNK))], [Chunk(Zeros(MAX_CHUNK))];
    assert e0[1..] == e1 && e1[1..] == e2 && e2[1..] == [];
    var b1 := [] + Zeros(MAX_CHUNK);
    assert Buffer([], e0, maxBytes) == Buffer(b1, e1, maxBytes)
        == Buffer(b1 + Zeros(2), e2, maxBytes) == Rejected(TooLarge);
    var items := Stream(0, e0, maxBytes, REQUEST_BODY);
    var i1 := Stream(MAX_CHUNK, e1, maxBytes, REQUEST_BODY);
    var i2 := Stream(MAX_CHUNK + 2, e2, maxBytes, REQUEST_BODY);
    assert items == [Data(Zeros(MAX_CHUNK))] + i1 && i1 == [Data(Zeros(2))] + i2 && i2 == [Data(Zeros(MAX_CHUNK))];
  }

  /** Buffering and streaming agree on every sequence of chunks, read errors and timeouts, of whatever
      length, exactly when the configured limit is at most 2^63. */
  lemma AgreementIff(maxBytes: nat)
    requires maxBytes < TWO_64
    ensures (forall events | ChunksFit(events) :: Agree(events, maxBytes)) <==> maxBytes <= MAX_CHUNK + 1
  {
    hide Agree;
    if maxBytes <= MAX_CHUNK + 1 {
      forall events | ChunksFit(events) ensures Agree(events, maxBytes) {
        SmallLimitsCount(0, events, maxBytes);
        BufferAgreesWithStream(events, maxBytes);
      }
    } else {
      LargeLimitDisagrees(maxBytes);
    }
  }

  /** A whole body as a stream: an empty one has no frame. */
  function WholeBody(bytes: Bytes): seq<BodyEvent> {
    if bytes == [] then [] else [Chunk(bytes)]
  }

  /** A buffered body then passes the limit of the stream that carries it, in one piece. */
  lemma BufferedBodyPasses(events: seq<BodyEvent>, maxBytes: nat)
    requires maxBytes < TWO_64 && Buffer([], events, maxBytes).Body?
    ensures var bytes := Buffer([], events, maxBytes).bytes;
            Stream(0, WholeBody(bytes), maxBytes, REQUEST_BODY) == if bytes == [] then [] else [Data(bytes)]
  {
    BufferIsBounded([], events, maxBytes);
  }

  lemma {:induction false} BufferIsBounded(buffered: Bytes, events: seq<BodyEvent>, maxBytes: nat)
    requires |buffered| <= maxBytes
    ensures var r := Buffer(buffered, events, maxBytes); r.Body? ==> |r.bytes| <= maxBytes
    decreases |events|
  {
    if events != [] && events[0].Chunk? && |buffered| + |events[0].bytes| <= maxBytes {
      BufferIsBounded(buffered + events[0].bytes, events[1..], maxBytes);
    }
  }

  // ---------------------------------------------------------------------------------------------
  // The limit itself
  // ---------------------------------------------------------------------------------------------

  lemma {:induction false} DataWithinLimit(seen: nat, events: seq<BodyEvent>, maxBytes: nat, context: string)
    requires seen + TotalBytes(events) < TWO_64
    ensures DataBytes(Stream(seen, events, maxBytes, context)) <= if seen <= maxBytes then maxBytes - seen else 0
    decreases |events|
  {
    if events != [] {
      var next := Seen(seen, events[0]);
      DataWithinLimit(next, events[1..], maxBytes, context);
      assert Stream(seen, events, maxBytes, context)[1..] == Stream(next, events[1..], maxBytes, context);
    }
  }

  ghost predicate LimitHolds(total: nat) {
    forall events: seq<BodyEvent>, maxBytes: nat, context: string | TotalBytes(events) == total ::
      DataBytes(Stream(0, events, maxBytes, context)) <= maxBytes
  }

  /** Bodies of a given total length are held to every limit, also by what is emitted after an error,
      exactly when that total fits the 64-bit counter. */
  lemma LimitHoldsBelowWrap(total: nat)
    ensures LimitHolds(total) <==> total < TWO_64
  {
    if total < TWO_64 {
      forall events: seq<BodyEvent>, maxBytes: nat, context: string | TotalBytes(events) == total
        ensures DataBytes(Stream(0, events, maxBytes, context)) <= maxBytes
      {
        DataWithinLimit(0, events, maxBytes, context);
      }
    } else {
      var events := Overlong(total);
      assert DataBytes(Stream(0, events, 1, "")) > 1;
    }
  }

  function Zeros(n: nat): (r: Bytes)
    ensures |r| == n
  {
    seq(n, i => 0)
  }

  /** Two chunks of the largest possible size, two bytes that wrap the counter to zero, and the rest. */
  lemma Overlong(total: nat) returns (events: seq<BodyEvent>)
    requires total >= TWO_64
    ensures TotalBytes(events) == total && DataBytes(Stream(0, events, 1, "")) > 1
  {
    var half := MAX_CHUNK;
    var e3 := [Chunk(Zeros(total - TWO_64))];
    var e2 := [Chunk(Zeros(2))] + e3;
    var e1 := [Chunk(Zeros(half))] + e2;
    events := [Chunk(Zeros(half))] + e1;
    assert e3[1..] == [] && e2[1..] == e3 && e1[1..] == e2 && events[1..] == e1;
    assert TotalBytes(e3) == total - TWO_64 && TotalBytes(e2) == total - TWO_64 + 2;
    assert TotalBytes(e1) == total - TWO_64 + 2 + half;
    var i2 := Stream(2 * half, e2, 1, "");
    var i1 := Stream(half, e1, 1, "");
    var i0 := Stream(0, events, 1, "");
    assert i0[1..] == i1 && i1[1..] == i2;
    assert i2[0] == Data(Zeros(2));
    assert DataBytes(i2) >= 2 && DataBytes(i1) >= DataBytes(i2) && DataBytes(i0) >= DataBytes(i1);
  }
}
