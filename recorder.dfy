/**
  The recorder of lib/recorder.js: an event emitter that accepts only "record" listeners,
  and two module-level flags. The first start() replaces `http.ClientRequest.prototype.onSocket`
  with a hook that intercepts each new request while recording is on; later start() and
  stop() calls only switch the recording flag.
 */
module Recorder {
  import opened Js
  import opened Events
  import Intercept

  /** The module-level `isRecording` and `didPatchHttpClientRequest`. */
  datatype Flags = Flags(isRecording: bool, didPatch: bool)

  /** Recording is only ever on once the hook is installed. */
  predicate Inv(f: Flags)
  {
    f.isRecording ==> f.didPatch
  }

  /** Whether a start() from these flags installs the hook. */
  predicate Installs(f: Flags)
  {
    !f.isRecording && !f.didPatch
  }

  /** start(): the flags afterwards, and what it returns. */
  function StartStep(f: Flags): (r: (Flags, Chain))
    ensures r.0.isRecording
    ensures Inv(f) ==> Inv(r.0)
    ensures r.0.didPatch <==> f.didPatch || Installs(f)
    ensures f.isRecording ==> r.0 == f
    ensures r.1 == ReturnsThis <==> Installs(f)
  {
    if f.isRecording then (f, ReturnsUndefined)
    else if f.didPatch then (Flags(true, true), ReturnsUndefined)
    else (Flags(true, true), ReturnsThis)
  }

  /** stop(): recording off, the patch flag untouched. */
  function StopStep(f: Flags): (r: Flags)
    ensures !r.isRecording && Inv(r)
    ensures r.didPatch == f.didPatch
  {
    Flags(false, f.didPatch)
  }

  /** Whether the installed hook hands a request to `intercept`: there is a hook, and recording is on. */
  predicate Intercepts(f: Flags)
  {
    f.didPatch && f.isRecording
  }

  datatype Op = Start | Stop

  function Step(f: Flags, op: Op): Flags
  {
    match op
    case Start => StartStep(f).0
    case Stop => StopStep(f)
  }

  /** The flags after a sequence of start() and stop() calls. */
  function Run(f: Flags, ops: seq<Op>): Flags
    decreases |ops|
  {
    if ops == [] then f else Run(Step(f, ops[0]), ops[1..])
  }

  /** How many of the calls install the hook. */
  function InstallCount(f: Flags, ops: seq<Op>): nat
    decreases |ops|
  {
    if ops == [] then 0
    else (if ops[0] == Start && Installs(f) then 1 else 0) + InstallCount(Step(f, ops[0]), ops[1..])
  }

  /** isRecording ==> didPatchHttpClientRequest holds after any sequence of calls. */
  lemma {:induction false} RunKeepsInv(f: Flags, ops: seq<Op>)
    requires Inv(f)
    ensures Inv(Run(f, ops))
    decreases |ops|
  {
    if ops != [] {
      RunKeepsInv(Step(f, ops[0]), ops[1..]);
    }
  }

  /**
    The hook is installed at most once, never again once installed, and the patch flag is
    never reset: it is set at the end exactly when it was set at the start or one call installed.
   */
  lemma {:induction false} InstallAtMostOnce(f: Flags, ops: seq<Op>)
    ensures InstallCount(f, ops) <= 1
    ensures f.didPatch ==> InstallCount(f, ops) == 0
    ensures Run(f, ops).didPatch <==> f.didPatch || InstallCount(f, ops) == 1
    decreases |ops|
  {
    if ops != [] {
      var g := Step(f, ops[0]);
      InstallAtMostOnce(g, ops[1..]);
      assert ops[0] == Start && Installs(f) ==> g.didPatch;
      assert f.didPatch ==> g.didPatch;
    }
  }

  /** start() after stop() switches recording back on, installs nothing and returns undefined. */
  lemma RestartDoesNotRepatch(f: Flags)
    requires f.didPatch
    ensures StartStep(StopStep(f)) == (Flags(true, true), ReturnsUndefined)
  {
  }

  /** `http.ClientRequest.prototype.onSocket`: Node's own, or the recorder's hook around the one it replaced. */
  datatype OnSocket = Native | RecorderHook(inner: OnSocket)

  /** The state lib/recorder.js keeps at module level, and the prototype method it patches. */
  class RecorderModule {
    var isRecording: bool
    var didPatchHttpClientRequest: bool
    var onSocket: OnSocket
    /** The `recorder` the installed hook passes to `intercept`: the one whose start() installed it. */
    var hookRecorder: Recorder?
    /** The requests Node's own onSocket has been called for, in order. */
    var sockets: seq<RequestRef>
    /** What Node's own onSocket returns, given every request it has been called for. */
    const nativeOnSocket: seq<RequestRef> -> Value

    function CurrentFlags(): Flags
      reads this
    {
      Flags(isRecording, didPatchHttpClientRequest)
    }

    ghost predicate Valid()
      reads this
    {
      && Inv(CurrentFlags())
      && (didPatchHttpClientRequest <==> hookRecorder != null)
      && onSocket == if didPatchHttpClientRequest then RecorderHook(Native) else Native
    }

    /** The module as loaded: both flags false, the prototype untouched. */
    constructor (nativeOnSocket: seq<RequestRef> -> Value)
      ensures Valid()
      ensures CurrentFlags() == Flags(false, false) && onSocket == Native && sockets == []
      ensures this.nativeOnSocket == nativeOnSocket
    {
      this.nativeOnSocket := nativeOnSocket;
      isRecording := false;
      didPatchHttpClientRequest := false;
      onSocket := Native;
      hookRecorder := null;
      sockets := [];
    }

    /**
      A request acquires its socket and `request.onSocket(socket)` runs. Under the hook,
      `intercept` is called if and only if recording is on at that moment; Node's own
      onSocket is called either way.
     */
    method OnSocket(request: RequestRef, decode: Decoder,
                    originalMethod: seq<Intercept.Forwarded> -> Value,
                    originalEmit: seq<Intercept.Event> -> Value)
      returns (tap: Intercept.Interception?, result: Value)
      requires Valid() && NodeCodecs(decode)
      modifies this`sockets
      ensures Valid()
      ensures tap != null <==> isRecording
      ensures tap != null ==>
                && fresh(tap) && tap.Valid()
                && tap.request == request && tap.recorder == hookRecorder.emitter
                && tap.decode == decode && tap.originalMethod == originalMethod && tap.originalEmit == originalEmit
                && tap.requestBody == [] && tap.forwarded == [] && tap.response.None? && tap.emitted == []
      ensures sockets == old(sockets) + [request] && result == nativeOnSocket(sockets)
    {
      tap := null;
      if onSocket.RecorderHook? && isRecording {
        tap := new Intercept.Interception(request, hookRecorder.emitter, decode, originalMethod, originalEmit);
      }
      sockets := sockets + [request];
      result := nativeOnSocket(sockets);
    }
  }

  /** `new Recorder()`; `emitter` is the EventEmitter the class extends, restricted to "record". */
  class Recorder {
    const state: RecorderModule
    const emitter: RecordEmitter<Value>

    /** The constructor registers the newListener guard; no "record" listener yet. */
    constructor (state: RecorderModule)
      ensures this.state == state
      ensures fresh(emitter) && emitter.listeners == [] && emitter.deliveries == []
    {
      this.state := state;
      emitter := new RecordEmitter();
    }

    /**
      `recorder.on(eventName, listener)` (and addListener): the newListener guard throws for
      any event other than "record", before anything is registered.
     */
    method On(eventName: string, listener: Listener) returns (r: Result<Chain>)
      modifies emitter`listeners
      ensures eventName == "record" ==> r == Ok(ReturnsThis) && emitter.listeners == old(emitter.listeners) + [listener]
      ensures eventName != "record" ==> r == Throw(UnsupportedEvent) && emitter.listeners == old(emitter.listeners)
    {
      if eventName != "record" {
        return Throw(UnsupportedEvent);
      }
      emitter.AddListener(listener);
      r := Ok(ReturnsThis);
    }

    /** `recorder.off(eventName, listener)`: inherited as is, so an unknown event is a no-op, not an error. */
    method Off(eventName: string, listener: Listener) returns (r: Chain)
      modifies emitter`listeners
      ensures r == ReturnsThis
      ensures eventName == "record" ==> emitter.listeners == RemoveLast(old(emitter.listeners), listener)
      ensures eventName != "record" ==> emitter.listeners == old(emitter.listeners)
    {
      if eventName == "record" {
        emitter.RemoveListener(listener);
      }
      r := ReturnsThis;
    }

    /** `recorder.removeAllListeners()`: only the "record" listeners go; the guard and both flags stay. */
    method RemoveAllListeners() returns (r: Chain)
      modifies emitter`listeners
      ensures emitter.listeners == [] && r == ReturnsThis
    {
      emitter.RemoveAllListeners();
      r := ReturnsThis;
    }

    /**
      `recorder.start()`: a no-op while recording; otherwise recording goes on, and only the
      very first start installs the hook (with this recorder as its target) and returns `this`.
     */
    method Start() returns (r: Chain)
      requires state.Valid()
      modifies state
      ensures state.Valid()
      ensures (state.CurrentFlags(), r) == StartStep(old(state.CurrentFlags()))
      ensures state.sockets == old(state.sockets)
      ensures r == ReturnsThis ==> state.onSocket == RecorderHook(old(state.onSocket)) && state.hookRecorder == this
      ensures r != ReturnsThis ==> state.onSocket == old(state.onSocket) && state.hookRecorder == old(state.hookRecorder)
    {
      if state.isRecording {
        return ReturnsUndefined;
      }
      state.isRecording := true;
      if state.didPatchHttpClientRequest {
        return ReturnsUndefined;
      }
      state.didPatchHttpClientRequest := true;
      state.onSocket := RecorderHook(state.onSocket);
      state.hookRecorder := this;
      r := ReturnsThis;
    }

    /** `recorder.stop()`: recording off; the hook and the patch flag stay as they are. */
    method Stop() returns (r: Chain)
      requires state.Valid()
      modifies state`isRecording
      ensures state.Valid()
      ensures state.CurrentFlags() == StopStep(old(state.CurrentFlags()))
      ensures r == ReturnsThis
    {
      state.isRecording := false;
      r := ReturnsThis;
    }
  }
}
