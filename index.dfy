/**
  The older self-contained API of index.js: enable() saves `http.ClientRequest.prototype.onSocket`
  and installs a hook, disable() puts the saved one back, on/off accept only "record". The
  hook wraps `request.write` alone (not `end`) and collects the response by draining it.
 */
module Index {
  import opened Js
  import opened Events

  /** `http.ClientRequest.prototype.onSocket`: Node's own, or the hook around the one it saved. */
  datatype OnSocket = Native | IndexHook(inner: OnSocket)

  /** The prototype method and the module-level `origOnSocket` (None while it is undefined). */
  datatype PatchState = PatchState(onSocket: OnSocket, origOnSocket: Option<OnSocket>)

  /**
    While enabled, the installed hook wraps exactly the method that was saved, and that one is
    not a hook of this module; while disabled, no hook of this module is installed.
   */
  predicate Consistent(s: PatchState)
  {
    match s.origOnSocket
    case Some(saved) => s.onSocket == IndexHook(saved) && !saved.IndexHook?
    case None => !s.onSocket.IndexHook?
  }

  /** enable(): while enabled it returns early with undefined; otherwise it saves, installs and returns `this`. */
  function EnableStep(s: PatchState): (r: (PatchState, Chain))
    ensures s.origOnSocket.Some? ==> r == (s, ReturnsUndefined)
    ensures s.origOnSocket.None? ==> r.1 == ReturnsThis && r.0.origOnSocket == Some(s.onSocket)
    ensures Consistent(s) ==> Consistent(r.0)
  {
    if s.origOnSocket.Some? then (s, ReturnsUndefined)
    else (PatchState(IndexHook(s.onSocket), Some(s.onSocket)), ReturnsThis)
  }

  /** disable(): restores the saved method and forgets it; a no-op when not enabled. */
  function DisableStep(s: PatchState): (r: PatchState)
    ensures r.origOnSocket.None?
    ensures Consistent(s) ==> Consistent(r)
    ensures s.origOnSocket.None? ==> r == s
    ensures s.origOnSocket.Some? ==> r.onSocket == s.origOnSocket.value
  {
    if s.origOnSocket.Some? then PatchState(s.origOnSocket.value, None) else s
  }

  /** enable() then disable() leaves the prototype exactly as it was. */
  lemma EnableDisableRoundTrip(s: PatchState)
    requires s.origOnSocket.None?
    ensures DisableStep(EnableStep(s).0) == s
  {
  }

  /** A second enable() changes nothing and returns undefined, so there is never a second hook. */
  lemma EnableTwiceIsNoop(s: PatchState)
    ensures EnableStep(EnableStep(s).0) == (EnableStep(s).0, ReturnsUndefined)
  {
  }

  datatype Op = Enable | Disable

  function Step(s: PatchState, op: Op): PatchState
  {
    match op
    case Enable => EnableStep(s).0
    case Disable => DisableStep(s)
  }

  function Run(s: PatchState, ops: seq<Op>): PatchState
    decreases |ops|
  {
    if ops == [] then s else Run(Step(s, ops[0]), ops[1..])
  }

  /**
    Whatever enable() and disable() calls are made from a disabled state, the prototype holds
    either the method it started with or one hook around it: hooks never stack up.
   */
  lemma {:induction false} RunNeverStacks(s: PatchState, ops: seq<Op>)
    requires s.origOnSocket.None?
    ensures Run(s, ops) == s || Run(s, ops) == PatchState(IndexHook(s.onSocket), Some(s.onSocket))
    decreases |ops|
  {
    if ops != [] {
      var t := Step(s, ops[0]);
      if t.origOnSocket.None? {
        RunNeverStacks(t, ops[1..]);
      } else {
        RunFromEnabled(s.onSocket, ops[1..]);
      }
    }
  }

  lemma {:induction false} RunFromEnabled(o: OnSocket, ops: seq<Op>)
    ensures var e := PatchState(IndexHook(o), Some(o));
            Run(e, ops) == e || Run(e, ops) == PatchState(o, None)
    decreases |ops|
  {
    if ops != [] {
      if ops[0] == Enable {
        RunFromEnabled(o, ops[1..]);
      } else {
        RunNeverStacks(PatchState(o, None), ops[1..]);
      }
    }
  }

  /** The index.js write tap: `Buffer.from(chunk)`, with no encoding, whatever encoding the caller gave. */
  function TapChunk(chunk: Value, decode: Decoder): (r: Result<Bytes>)
    ensures chunk.Buf? ==> r == Ok(chunk.bytes)
    ensures chunk.Str? && decode("utf8", chunk.s).Some? ==> r == Ok(decode("utf8", chunk.s).value)
    ensures r.Throw? <==> !chunk.Buf? && !(chunk.Str? && decode("utf8", chunk.s).Some?)
  {
    BufferFrom(chunk, Undefined, decode)
  }

  /** Under Node's codecs every string write is captured, whatever encoding it names. */
  lemma StringWriteCaptured(text: string, decode: Decoder)
    requires NodeCodecs(decode)
    ensures TapChunk(Str(text), decode) == Ok(decode("utf8", text).value)
  {
  }

  /**
    The request body captured from the chunks the original write received, in order: one
    entry per chunk the tap accepts, each the tap's copy of some written chunk.
   */
  function WrittenBody(chunks: seq<Value>, decode: Decoder): (r: seq<Bytes>)
    ensures |r| <= |chunks|
    ensures (forall i :: 0 <= i < |chunks| ==> TapChunk(chunks[i], decode).Ok?) ==> |r| == |chunks|
    ensures forall k :: 0 <= k < |r| ==> exists i :: 0 <= i < |chunks| && TapChunk(chunks[i], decode) == Ok(r[k])
    decreases |chunks|
  {
    if chunks == [] then []
    else
      var rest := WrittenBody(chunks[..|chunks| - 1], decode);
      match TapChunk(chunks[|chunks| - 1], decode)
      case Ok(b) => rest + [b]
      case Throw(_) => rest
  }

  /**
    The `for await (const chunk of response)` loop: every chunk the response yields is pushed,
    as a copy made by `Buffer.from`, in arrival order.
   */
  method Drain(stream: seq<Bytes>) returns (chunks: seq<Bytes>)
    ensures chunks == stream
  {
    chunks := [];
    for i := 0 to |stream|
      invariant chunks == stream[..i]
    {
      chunks := chunks + [stream[i]];
    }
  }

  /** The per-request state the hook sets up: the write tap and the response handler. */
  class WriteTap {
    const request: RequestRef
    const emitter: RecordEmitter<Bytes>
    const decode: Decoder
    /** What the request's original write returns, given every chunk it has received. */
    const originalWrite: seq<Value> -> Value

    /** requestBodyChunks */
    var requestBody: seq<Bytes>
    /** The chunks the original write has received, in order. */
    var written: seq<Value>

    ghost predicate Valid()
      reads this
    {
      && NodeCodecs(decode)
      && requestBody == WrittenBody(written, decode)
      && (forall i :: 0 <= i < |written| ==> TapChunk(written[i], decode).Ok?)
    }

    constructor (request: RequestRef, emitter: RecordEmitter<Bytes>, decode: Decoder, originalWrite: seq<Value> -> Value)
      requires NodeCodecs(decode)
      ensures Valid()
      ensures this.request == request && this.emitter == emitter && this.decode == decode
      ensures this.originalWrite == originalWrite
      ensures requestBody == [] && written == []
    {
      this.request := request;
      this.emitter := emitter;
      this.decode := decode;
      this.originalWrite := originalWrite;
      requestBody := [];
      written := [];
    }

    /**
      The wrapped `request.write(chunk, ...)`: the chunk is captured, then only the chunk is
      passed on; an encoding or callback argument is dropped. A chunk Buffer.from refuses
      throws before the original write is reached.
     */
    method Write(chunk: Value, encoding: Value, callback: Value) returns (r: Result<Value>)
      requires Valid()
      modifies this`requestBody, this`written
      ensures Valid()
      ensures chunk.Str? ==> r.Ok?
      ensures match TapChunk(chunk, decode)
              case Throw(e) => r == Throw(e) && requestBody == old(requestBody) && written == old(written)
              case Ok(b) =>
                && requestBody == old(requestBody) + [b]
                && written == old(written) + [chunk]
                && r == Ok(originalWrite(written))
    {
      var copy := TapChunk(chunk, decode);
      if chunk.Str? {
        StringWriteCaptured(chunk.s, decode);
      }
      if copy.Throw? {
        return Throw(copy.error);
      }
      requestBody := requestBody + [copy.value];
      written := written + [chunk];
      r := Ok(originalWrite(written));
    }

    /**
      The request's "response" handler: once the response has yielded all of `stream`, one
      record with both bodies goes to every "record" listener.
     */
    method OnResponse(response: ResponseRef, stream: seq<Bytes>)
      modifies emitter`deliveries
      ensures emitter.deliveries ==
                old(emitter.deliveries) + Fanout(emitter.listeners, Record(request, requestBody, response, stream))
    {
      var responseBody := Drain(stream);
      var _ := emitter.Emit(Record(request, requestBody, response, responseBody));
    }
  }

  /** The default export of index.js together with its module-level state. */
  class HttpRecorder {
    var onSocket: OnSocket
    var origOnSocket: Option<OnSocket>
    const emitter: RecordEmitter<Bytes>
    /** The requests Node's own onSocket has been called for, in order. */
    var sockets: seq<RequestRef>
    /** What Node's own onSocket returns, given every request it has been called for. */
    const nativeOnSocket: seq<RequestRef> -> Value

    function Patch(): PatchState
      reads this
    {
      PatchState(onSocket, origOnSocket)
    }

    ghost predicate Valid()
      reads this
    {
      Consistent(Patch())
    }

    /** The module as loaded: nothing saved, the prototype untouched, no listener. */
    constructor (nativeOnSocket: seq<RequestRef> -> Value)
      ensures Valid()
      ensures Patch() == PatchState(Native, None) && sockets == []
      ensures fresh(emitter) && emitter.listeners == [] && emitter.deliveries == []
      ensures this.nativeOnSocket == nativeOnSocket
    {
      this.nativeOnSocket := nativeOnSocket;
      onSocket := Native;
      origOnSocket := None;
      emitter := new RecordEmitter();
      sockets := [];
    }

    method Enable() returns (r: Chain)
      requires Valid()
      modifies this`onSocket, this`origOnSocket
      ensures Valid()
      ensures (Patch(), r) == EnableStep(old(Patch()))
    {
      if origOnSocket.Some? {
        return ReturnsUndefined;
      }
      origOnSocket := Some(onSocket);
      onSocket := IndexHook(onSocket);
      r := ReturnsThis;
    }

    method Disable() returns (r: Chain)
      requires Valid()
      modifies this`onSocket, this`origOnSocket
      ensures Valid()
      ensures Patch() == DisableStep(old(Patch())) && r == ReturnsThis
    {
      if origOnSocket.Some? {
        onSocket := origOnSocket.value;
        origOnSocket := None;
      }
      r := ReturnsThis;
    }

    /** `on(eventName, callback)`: any event other than "record" throws and registers nothing. */
    method On(eventName: string, callback: Listener) returns (r: Result<Chain>)
      modifies emitter`listeners
      ensures eventName == "record" ==> r == Ok(ReturnsThis) && emitter.listeners == old(emitter.listeners) + [callback]
      ensures eventName != "record" ==> r == Throw(UnsupportedEvent) && emitter.listeners == old(emitter.listeners)
    {
      if eventName != "record" {
        return Throw(UnsupportedEvent);
      }
      emitter.AddListener(callback);
      r := Ok(ReturnsThis);
    }

    /** `off(eventName, callback)`: any event other than "record" throws and removes nothing. */
    method Off(eventName: string, callback: Listener) returns (r: Result<Chain>)
      modifies emitter`listeners
      ensures eventName == "record" ==> r == Ok(ReturnsThis) && emitter.listeners == RemoveLast(old(emitter.listeners), callback)
      ensures eventName != "record" ==> r == Throw(UnsupportedEvent) && emitter.listeners == old(emitter.listeners)
    {
      if eventName != "record" {
        return Throw(UnsupportedEvent);
      }
      emitter.RemoveListener(callback);
      r := Ok(ReturnsThis);
    }

    /** `removeAllListeners()`: no listener is left; the patch state is untouched. */
    method RemoveAllListeners() returns (r: Chain)
      modifies emitter`listeners
      ensures emitter.listeners == [] && r == ReturnsThis
    {
      emitter.RemoveAllListeners();
      r := ReturnsThis;
    }

    /**
      A request acquires its socket and `request.onSocket(socket)` runs. While enabled the hook
      sets up a write tap for the request; the saved onSocket is called either way.
     */
    method OnSocket(request: RequestRef, decode: Decoder, originalWrite: seq<Value> -> Value)
      returns (tap: WriteTap?, result: Value)
      requires Valid() && NodeCodecs(decode)
      modifies this`sockets
      ensures tap != null <==> origOnSocket.Some?
      ensures tap != null ==>
                && fresh(tap) && tap.Valid()
                && tap.request == request && tap.emitter == emitter
                && tap.decode == decode && tap.originalWrite == originalWrite
                && tap.requestBody == [] && tap.written == []
      ensures sockets == old(sockets) + [request] && result == nativeOnSocket(sockets)
    {
      tap := null;
      if onSocket.IndexHook? {
        tap := new WriteTap(request, emitter, decode, originalWrite);
      }
      sockets := sockets + [request];
      result := nativeOnSocket(sockets);
    }
  }
}
