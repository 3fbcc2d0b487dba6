/**
  The per-request interceptor of lib/intercept.js. For one client request it wraps
  `request.write` and `request.end` so that every chunk is captured and the call is still
  passed on, taps `response.emit` so that every "data" payload is captured without being
  consumed, and on the response's "close" hands one record to the recorder.
 */
module Intercept {
  import opened Js
  import opened Events

  datatype Method = Write | End

  /** The arguments of a write or end call once the wrapper has sorted them out. */
  datatype Call = Call(chunk: Value, encoding: Value, callback: Value)

  /** A call as the original `write` or `end` received it. */
  datatype Forwarded = Forwarded(kind: Method, call: Call)

  /** One `response.emit(name, ...args)` call. */
  datatype Event = Event(name: string, args: seq<Value>)

  /** What the wrapper does with a chunk before it forwards the call. */
  datatype Captured = Skipped | Chunk(bytes: Bytes) | Threw(error: Error)

  /**
    The wrapper's argument shuffle: when the second argument is a function it is the
    callback, and the encoding passed on becomes null. The chunk is passed on as it came.
   */
  function Normalize(chunk: Value, encoding: Value, callback: Value): (c: Call)
    ensures c.chunk == chunk
    ensures !c.encoding.Fn?
    ensures encoding.Fn? ==> c.encoding == Null && c.callback == encoding
    ensures !encoding.Fn? ==> c.encoding == encoding && c.callback == callback
  {
    if encoding.Fn? then Call(chunk, Null, encoding) else Call(chunk, encoding, callback)
  }

  /** A call that has been normalised once is left alone by a second normalisation (Node's own write does one). */
  lemma NormalizeIdempotent(chunk: Value, encoding: Value, callback: Value)
    ensures var c := Normalize(chunk, encoding, callback);
            Normalize(c.chunk, c.encoding, c.callback) == c
  {
  }

  /**
    The capture step of the wrapper: a chunk that is falsy (undefined, null, "") or a
    function is skipped; otherwise it becomes `Buffer.from(chunk, encoding || "utf8")`,
    which may throw.
   */
  function Capture(c: Call, decode: Decoder): (r: Captured)
    ensures r.Skipped? <==> !Truthy(c.chunk) || c.chunk.Fn?
    ensures c.chunk.Buf? ==> r == Chunk(c.chunk.bytes)
    ensures c.chunk.Str? && c.chunk.s != "" ==>
              match decode(EncodingName(c.encoding), c.chunk.s)
              case Some(b) => r == Chunk(b)
              case None => r == Threw(UnknownEncoding(EncodingName(c.encoding)))
  {
    if Truthy(c.chunk) && !c.chunk.Fn? then
      match BufferFrom(c.chunk, OrElse(c.encoding, Str("utf8")), decode)
      case Ok(b) => Chunk(b)
      case Throw(e) => Threw(e)
    else
      Skipped
  }

  /** The chunks one forwarded call contributes to the request body: none or one. */
  function ChunksOf(f: Forwarded, decode: Decoder): seq<Bytes>
  {
    match Capture(f.call, decode)
    case Chunk(b) => [b]
    case _ => []
  }

  /** The request body captured from the given write and end calls, in call order: at most one chunk per call. */
  function RequestBody(fs: seq<Forwarded>, decode: Decoder): (r: seq<Bytes>)
    ensures |r| <= |fs|
    decreases |fs|
  {
    if fs == [] then [] else RequestBody(fs[..|fs| - 1], decode) + ChunksOf(fs[|fs| - 1], decode)
  }

  /** The body is empty exactly when no call captured anything. */
  lemma {:induction false} RequestBodyEmpty(fs: seq<Forwarded>, decode: Decoder)
    ensures RequestBody(fs, decode) == [] <==> forall i :: 0 <= i < |fs| ==> !Capture(fs[i].call, decode).Chunk?
    decreases |fs|
  {
    if fs != [] {
      var init, n := fs[..|fs| - 1], |fs| - 1;
      RequestBodyEmpty(init, decode);
      assert forall i :: 0 <= i < |init| ==> init[i] == fs[i];
      assert RequestBody(fs, decode) == RequestBody(init, decode) + ChunksOf(fs[n], decode);
    }
  }

  /** Every captured chunk is the capture of one of the calls. */
  lemma {:induction false} RequestBodyFromCalls(fs: seq<Forwarded>, decode: Decoder)
    ensures forall k :: 0 <= k < |RequestBody(fs, decode)| ==>
              exists i :: 0 <= i < |fs| && Capture(fs[i].call, decode) == Chunk(RequestBody(fs, decode)[k])
    decreases |fs|
  {
    if fs != [] {
      var init, n := fs[..|fs| - 1], |fs| - 1;
      RequestBodyFromCalls(init, decode);
      var rest, body := RequestBody(init, decode), RequestBody(fs, decode);
      assert body == rest + ChunksOf(fs[n], decode);
      forall k | 0 <= k < |body|
        ensures exists i :: 0 <= i < |fs| && Capture(fs[i].call, decode) == Chunk(body[k])
      {
        if k < |rest| {
          assert exists i :: 0 <= i < |init| && Capture(init[i].call, decode) == Chunk(RequestBody(init, decode)[k]);
          var i :| 0 <= i < |init| && Capture(init[i].call, decode) == Chunk(rest[k]);
          assert Capture(fs[i].call, decode) == Chunk(body[k]);
        } else {
          assert Capture(fs[n].call, decode) == Chunk(body[k]);
        }
      }
      assert forall k :: 0 <= k < |RequestBody(fs, decode)| ==>
               exists i :: 0 <= i < |fs| && Capture(fs[i].call, decode) == Chunk(RequestBody(fs, decode)[k]);
    } else {
      assert RequestBody(fs, decode) == [];
    }
  }

  /** One more call adds its own chunks at the end. */
  lemma RequestBodyStep(fs: seq<Forwarded>, f: Forwarded, decode: Decoder)
    ensures RequestBody(fs + [f], decode) == RequestBody(fs, decode) + ChunksOf(f, decode)
  {
    assert (fs + [f])[..|fs|] == fs;
  }

  /** Capturing is compositional: the body of two runs of calls is the two bodies one after the other. */
  lemma {:induction false} RequestBodyAppend(a: seq<Forwarded>, b: seq<Forwarded>, decode: Decoder)
    ensures RequestBody(a + b, decode) == RequestBody(a, decode) + RequestBody(b, decode)
    decreases |b|
  {
    if b == [] {
      assert a + b == a;
    } else {
      var init, last := b[..|b| - 1], b[|b| - 1];
      assert a + b == (a + init) + [last];
      RequestBodyAppend(a, init, decode);
    }
  }

  /** A call whose chunk is skipped leaves the captured body as it is, wherever it comes in the sequence. */
  lemma SkippedCallInvisible(a: seq<Forwarded>, f: Forwarded, b: seq<Forwarded>, decode: Decoder)
    requires !Truthy(f.call.chunk) || f.call.chunk.Fn?
    ensures RequestBody(a + [f] + b, decode) == RequestBody(a + b, decode)
  {
    TwoCalls(f, f, decode);
    assert RequestBody([f], decode) == [];
    RequestBodyAppend(a, [f], decode);
    assert RequestBody(a + [f], decode) == RequestBody(a, decode);
    RequestBodyAppend(a + [f], b, decode);
    RequestBodyAppend(a, b, decode);
  }

  /** A call as the wrapper passes it on to the original write or end. */
  function Wrapped(m: Method, chunk: Value, encoding: Value, callback: Value): Forwarded
  {
    Forwarded(m, Normalize(chunk, encoding, callback))
  }

  /** The body of one or two calls is what each call contributes, in order. */
  lemma TwoCalls(f: Forwarded, g: Forwarded, decode: Decoder)
    ensures RequestBody([f], decode) == ChunksOf(f, decode)
    ensures RequestBody([f, g], decode) == ChunksOf(f, decode) + ChunksOf(g, decode)
  {
    assert [f, g][..1] == [f];
  }

  /** A non-empty string chunk is captured as its decoding under the call's encoding, utf8 by default. */
  lemma TextChunk(m: Method, text: string, encoding: Value, callback: Value, decode: Decoder, bytes: Bytes)
    requires text != ""
    requires decode(EncodingName(encoding), text) == Some(bytes)
    ensures ChunksOf(Wrapped(m, Str(text), encoding, callback), decode) == [bytes]
  {
  }

  /**
    Under Node's codecs a non-empty string written with no encoding, a falsy one or a callback
    in its place is always captured, as its utf8 decoding.
   */
  lemma DefaultEncodingCaptures(m: Method, text: string, encoding: Value, callback: Value, decode: Decoder)
    requires NodeCodecs(decode)
    requires text != "" && (!Truthy(encoding) || encoding.Fn?)
    ensures ChunksOf(Wrapped(m, Str(text), encoding, callback), decode) == [decode("utf8", text).value]
  {
    TextChunk(m, text, encoding, callback, decode, decode("utf8", text).value);
  }

  /**
    The repository's tests write "Hello!" as `write(text)` then `end()`, as `end(text)`, as
    `write(text, callback)` then `end()`, as `write(text)` then `end(callback)`: each captures
    the one chunk, and the body concatenates to the decoded text.
   */
  lemma HelloScenarios(decode: Decoder, hello: Bytes, cb: FnRef)
    requires decode("utf8", "Hello!") == Some(hello)
    ensures var body := RequestBody([Wrapped(Write, Str("Hello!"), Undefined, Undefined),
                                     Wrapped(End, Undefined, Undefined, Undefined)], decode);
            body == [hello] && Concat(body) == hello
    ensures RequestBody([Wrapped(End, Str("Hello!"), Undefined, Undefined)], decode) == [hello]
    ensures RequestBody([Wrapped(Write, Str("Hello!"), Fn(cb), Undefined),
                         Wrapped(End, Undefined, Undefined, Undefined)], decode) == [hello]
    ensures RequestBody([Wrapped(Write, Str("Hello!"), Undefined, Undefined),
                         Wrapped(End, Fn(cb), Undefined, Undefined)], decode) == [hello]
  {
    var end := Wrapped(End, Undefined, Undefined, Undefined);
    var write := Wrapped(Write, Str("Hello!"), Undefined, Undefined);
    TextChunk(Write, "Hello!", Undefined, Undefined, decode, hello);
    TextChunk(End, "Hello!", Undefined, Undefined, decode, hello);
    TextChunk(Write, "Hello!", Fn(cb), Undefined, decode, hello);
    TwoCalls(write, end, decode);
    TwoCalls(Wrapped(End, Str("Hello!"), Undefined, Undefined), end, decode);
    TwoCalls(Wrapped(Write, Str("Hello!"), Fn(cb), Undefined), end, decode);
    TwoCalls(write, Wrapped(End, Fn(cb), Undefined, Undefined), decode);
    assert Concat([hello]) == Concat([]) + hello;
  }

  /** `write(base64Text, "base64")` captures the base64-decoded bytes, not the text. */
  lemma Base64Scenario(decode: Decoder, hello: Bytes)
    requires decode("base64", "SGVsbG8h") == Some(hello)
    ensures RequestBody([Wrapped(Write, Str("SGVsbG8h"), Str("base64"), Undefined),
                         Wrapped(End, Undefined, Undefined, Undefined)], decode) == [hello]
  {
    TextChunk(Write, "SGVsbG8h", Str("base64"), Undefined, decode, hello);
    TwoCalls(Wrapped(Write, Str("SGVsbG8h"), Str("base64"), Undefined), Wrapped(End, Undefined, Undefined, Undefined), decode);
  }

  /** The payload a "data" emit carries: `args[0]`, which is undefined when there is none. */
  function FirstArg(args: seq<Value>): Value
  {
    if args == [] then Undefined else args[0]
  }

  /** The response body the tap collects from the given emits, in order: at most one payload per emit. */
  function DataPayloads(events: seq<Event>): (r: seq<Value>)
    ensures |r| <= |events|
    decreases |events|
  {
    if events == [] then []
    else
      var e := events[|events| - 1];
      DataPayloads(events[..|events| - 1]) + (if e.name == "data" then [FirstArg(e.args)] else [])
  }

  /** The response body is empty exactly when there was no "data" emit. */
  lemma {:induction false} DataPayloadsEmpty(events: seq<Event>)
    ensures DataPayloads(events) == [] <==> forall i :: 0 <= i < |events| ==> events[i].name != "data"
    decreases |events|
  {
    if events != [] {
      var init := events[..|events| - 1];
      DataPayloadsEmpty(init);
      assert forall i :: 0 <= i < |init| ==> init[i] == events[i];
    }
  }

  /** Every collected payload is the first argument of a "data" emit. */
  lemma {:induction false} DataPayloadsFromData(events: seq<Event>)
    ensures forall k :: 0 <= k < |DataPayloads(events)| ==>
              exists i :: 0 <= i < |events| && events[i].name == "data" && FirstArg(events[i].args) == DataPayloads(events)[k]
    decreases |events|
  {
    if events != [] {
      var init, n := events[..|events| - 1], |events| - 1;
      DataPayloadsFromData(init);
      assert forall i :: 0 <= i < |init| ==> init[i] == events[i];
      var rest, body := DataPayloads(init), DataPayloads(events);
      assert body == rest + (if events[n].name == "data" then [FirstArg(events[n].args)] else []);
      forall k | 0 <= k < |body|
        ensures exists i :: 0 <= i < |events| && events[i].name == "data" && FirstArg(events[i].args) == body[k]
      {
        if k < |rest| {
          assert 0 <= k < |DataPayloads(init)|;
          var x := DataPayloads(init)[k];
          assert exists i :: 0 <= i < |init| && init[i].name == "data" && FirstArg(init[i].args) == x;
          var i :| 0 <= i < |init| && init[i].name == "data" && FirstArg(init[i].args) == rest[k];
          assert events[i].name == "data" && FirstArg(events[i].args) == body[k];
        } else {
          assert events[n].name == "data" && FirstArg(events[n].args) == body[k];
        }
      }
      assert forall k :: 0 <= k < |DataPayloads(events)| ==>
               exists i :: 0 <= i < |events| && events[i].name == "data" && FirstArg(events[i].args) == DataPayloads(events)[k];
    } else {
      assert DataPayloads(events) == [];
    }
  }

  /** The number of "close" emits among the given ones. */
  function CloseCount(events: seq<Event>): nat
    decreases |events|
  {
    if events == [] then 0
    else CloseCount(events[..|events| - 1]) + (if events[|events| - 1].name == "close" then 1 else 0)
  }

  lemma {:induction false} DataPayloadsAppend(a: seq<Event>, b: seq<Event>)
    ensures DataPayloads(a + b) == DataPayloads(a) + DataPayloads(b)
    decreases |b|
  {
    if b == [] {
      assert a + b == a;
    } else {
      var init, last := b[..|b| - 1], b[|b| - 1];
      assert a + b == (a + init) + [last];
      DataPayloadsAppend(a, init);
    }
  }

  /**
    An emit of any event other than "data" (such as "readable" or "end") can come anywhere
    in the sequence of emits without changing the captured response body.
   */
  lemma NonDataInvisible(a: seq<Event>, e: Event, b: seq<Event>)
    requires e.name != "data"
    ensures DataPayloads(a + [e] + b) == DataPayloads(a + b)
  {
    DataPayloadsAppend(a + [e], b);
    DataPayloadsAppend(a, [e]);
    DataPayloadsAppend(a, b);
    assert DataPayloads([e]) == DataPayloads([]) + [];
  }

  /** Every "data" emit contributes exactly one payload. */
  lemma {:induction false} DataPayloadsCount(events: seq<Event>)
    ensures |DataPayloads(events)| == |set i | 0 <= i < |events| && events[i].name == "data"|
    decreases |events|
  {
    if events != [] {
      var n := |events| - 1;
      var init := events[..n];
      DataPayloadsCount(init);
      var before := set i | 0 <= i < |init| && init[i].name == "data";
      var after := set i | 0 <= i < |events| && events[i].name == "data";
      if events[n].name == "data" {
        assert after == before + {n};
      } else {
        assert after == before;
      }
    }
  }

  /**
    What `intercept(request, recorder)` sets up for one request. The original `write`/`end`
    and `response.emit` are the transport's; each is modelled by the value it returns given
    every call it has received so far.
   */
  class Interception {
    const request: RequestRef
    /** The recorder's "record" listeners; `recorder.emit("record", ...)` goes here. */
    const recorder: RecordEmitter<Value>
    const decode: Decoder
    const originalMethod: seq<Forwarded> -> Value
    const originalEmit: seq<Event> -> Value

    /** requestBodyChunks */
    var requestBody: seq<Bytes>
    /** The calls the original write and end have received, in order. */
    var forwarded: seq<Forwarded>
    /** The response, once the request's "response" event has fired. */
    var response: Option<ResponseRef>
    /** responseBodyChunks */
    var responseBody: seq<Value>
    /** The emits the original response.emit has received, in order. */
    var dispatched: seq<Event>
    /** The records handed to the recorder, in order. */
    var emitted: seq<Record<Value>>

    ghost predicate Valid()
      reads this
    {
      && requestBody == RequestBody(forwarded, decode)
      && responseBody == DataPayloads(dispatched)
      && |emitted| == CloseCount(dispatched)
      && (response.None? ==> dispatched == [])
    }

    /** `intercept(request, recorder)`: nothing captured yet, no response yet. */
    constructor (request: RequestRef, recorder: RecordEmitter<Value>, decode: Decoder,
                 originalMethod: seq<Forwarded> -> Value, originalEmit: seq<Event> -> Value)
      requires NodeCodecs(decode)
      ensures Valid()
      ensures this.request == request && this.recorder == recorder && this.decode == decode
      ensures this.originalMethod == originalMethod && this.originalEmit == originalEmit
      ensures requestBody == [] && forwarded == [] && response.None? && responseBody == [] && emitted == []
    {
      this.request := request;
      this.recorder := recorder;
      this.decode := decode;
      this.originalMethod := originalMethod;
      this.originalEmit := originalEmit;
      requestBody := [];
      forwarded := [];
      response := None;
      responseBody := [];
      dispatched := [];
      emitted := [];
    }

    /**
      The wrapped `request.write(chunk, encoding, callback)` or `request.end(...)`. A chunk
      Buffer.from cannot convert throws before the original is reached; otherwise the
      original is called once with the normalised arguments and its value is returned.
     */
    method Invoke(m: Method, chunk: Value, encoding: Value, callback: Value) returns (r: Result<Value>)
      requires Valid()
      modifies this`requestBody, this`forwarded
      ensures Valid()
      ensures var c := Normalize(chunk, encoding, callback);
              Capture(c, decode).Threw? ==>
                r == Throw(Capture(c, decode).error) && requestBody == old(requestBody) && forwarded == old(forwarded)
      ensures var f := Forwarded(m, Normalize(chunk, encoding, callback));
              !Capture(f.call, decode).Threw? ==>
                && forwarded == old(forwarded) + [f]
                && requestBody == old(requestBody) + ChunksOf(f, decode)
                && r == Ok(originalMethod(forwarded))
    {
      var c := Normalize(chunk, encoding, callback);
      var captured := Capture(c, decode);
      if captured.Threw? {
        return Throw(captured.error);
      }
      var f := Forwarded(m, c);
      RequestBodyStep(forwarded, f, decode);
      requestBody := requestBody + ChunksOf(f, decode);
      forwarded := forwarded + [f];
      r := Ok(originalMethod(forwarded));
    }

    /** The request's "response" handler: `response.emit` is tapped from here on. */
    method OnResponse(res: ResponseRef)
      requires Valid() && response.None?
      modifies this`response
      ensures Valid()
      ensures response == Some(res)
    {
      response := Some(res);
    }

    /**
      The tapped `response.emit(name, ...args)`: a "data" payload is appended to the
      response body, the emit is passed on unchanged, and a "close" hands the recorder a
      record of both bodies as they are at that moment.
     */
    method Emit(name: string, args: seq<Value>) returns (r: Value)
      requires Valid() && response.Some?
      modifies this`responseBody, this`dispatched, this`emitted, recorder`deliveries
      ensures Valid()
      ensures dispatched == old(dispatched) + [Event(name, args)]
      ensures responseBody == old(responseBody) + (if name == "data" then [FirstArg(args)] else [])
      ensures r == originalEmit(dispatched)
      ensures name == "close" ==>
                var record := Record(request, requestBody, response.value, responseBody);
                && emitted == old(emitted) + [record]
                && recorder.deliveries == old(recorder.deliveries) + Fanout(recorder.listeners, record)
      ensures name != "close" ==> emitted == old(emitted) && recorder.deliveries == old(recorder.deliveries)
    {
      if name == "data" {
        responseBody := responseBody + [FirstArg(args)];
      }
      dispatched := dispatched + [Event(name, args)];
      r := originalEmit(dispatched);
      if name == "close" {
        var record := Record(request, requestBody, response.value, responseBody);
        emitted := emitted + [record];
        var _ := recorder.Emit(record);
      }
    }
  }
}
