# node-http-recorder, modelled in Dafny

node-http-recorder records every outgoing HTTP(S) request a Node process makes. It replaces
`http.ClientRequest.prototype.onSocket` with a hook. The hook wraps the request's `write`
(and, in the newer version, `end`) so that body chunks are captured and still passed on. In
`lib/intercept.js` it taps the response so that body chunks are captured without being
consumed; the index.js hook reads the response by draining it. Each finished
request/response pair is then delivered to the "record" listeners.

The repository holds two versions of the recorder. They are modelled separately:

- `lib/intercept.js` and `lib/recorder.js` hold the newer recorder. `intercept(request, recorder)`
  sorts out JavaScript's loose `write`/`end` argument shapes and captures the chunk. It always
  forwards the call. It taps `response.emit` so that every "data" payload is captured, and emits
  one record per response "close". `Recorder` is an EventEmitter that refuses any listener
  except "record". It has two module-level flags, `isRecording` and
  `didPatchHttpClientRequest`: the first `start()` installs the hook, and later
  `start()`/`stop()` calls only switch recording.
- `index.js` holds the older API. `enable()` saves and replaces `onSocket`, and `disable()`
  restores it. `on`/`off` refuse any event but "record". Its hook wraps only `write`, passes
  on just the chunk, and collects the response body by draining the response.

Files:

- `js.dfy` (module `Js`): the JavaScript values the wrappers receive (`undefined`, `null`,
  strings, Buffers and functions), truthiness, `||`, and `Buffer.from`. The text codecs
  are a parameter: a `Decoder` maps an encoding name and a string to bytes, or to nothing
  for an encoding Node does not know.
- `events.dfy` (module `Events`): the "record" listener list of an EventEmitter. It covers
  registration, `off` (Node removes the most recent matching registration), removing all
  listeners, and `emit`, which calls every registration once, in order.
- `intercept.dfy` (module `Intercept`): `lib/intercept.js`. There are specification functions
  for the argument normalisation (`Normalize`), the capture step (`Capture`), the captured
  request body of a sequence of calls (`RequestBody`) and the captured response body of a
  sequence of emits (`DataPayloads`). The class `Interception` holds the state one
  `intercept` call creates. Its methods are the wrapped `write`/`end`, the "response"
  handler and the tapped `emit`.
- `recorder.dfy` (module `Recorder`): `lib/recorder.js`. The pure functions `StartStep` and
  `StopStep` specify the flag state machine, and lemmas prove its properties. The class
  `RecorderModule` holds the module-level state: both flags, the patched prototype method and
  the recorder the hook captured. The class `Recorder` holds the emitter side.
- `index.dfy` (module `Index`): `index.js`. The pure functions `EnableStep` and `DisableStep`
  specify the patch state, and lemmas prove its properties. The class `HttpRecorder` is the
  default export with its module state. The class `WriteTap` holds the per-request write tap
  and response handler. `Drain` is the `for await` loop.

The original `write`/`end`, `response.emit` and Node's own `onSocket` belong to the
transport. Each is modelled as a function from the list of calls it has received so far to
the value it returns. A wrapper's contract says that the original was called once with the
expected arguments and that the wrapper returns exactly what the original returned.

Behaviour of the code that the model keeps as written:

- In `lib/recorder.js`, `start()` returns `this` only on the call that installs the hook. A
  `start()` while recording (line 27) returns `undefined`, and so does a restart after
  `stop()` (line 30). Likewise `enable()` in index.js returns `undefined` when already
  enabled (index.js:13), although index.d.ts:4 declares that it returns the recorder.
- The hook of `lib/recorder.js` passes requests to the recorder whose `start()` installed it
  (`RecorderModule.hookRecorder`). The flags are module-level, so a second `Recorder`
  instance that starts only switches the shared flag.
- `Recorder.off` is EventEmitter's own, so an unknown event name is a no-op there. The
  index.js `off` throws instead.
- index.js does not wrap `end`, so a chunk passed to `end(text)` is not captured. It passes
  `write` only its first argument, so an encoding or callback given to `write` never reaches
  Node. It captures string chunks as utf8 whatever encoding was given. The wrapper in
  `lib/intercept.js` does none of these three things.
- A chunk that `Buffer.from` refuses makes the wrapper throw before the original method is
  called. That is a string with an unknown encoding under `lib/intercept.js`, or anything
  other than a string or a Buffer under index.js. Nothing is captured or forwarded then.
- An empty Buffer is truthy, so `lib/intercept.js` captures it as an empty chunk. An empty
  string is falsy and is skipped.

## Model

| member | source | states |
|---|---|---|
| `Js.Utf8FallbackAgrees` | lib/intercept.js:22 | The fallback of the encoding to "utf8" is always truthy and selects the same codec Buffer.from would select for the encoding given |
| `Js.EncodingName` | lib/intercept.js:22 | The encoding `Buffer.from` applies to a string is never empty: the given name when it is a non-empty string, utf8 otherwise |
| `Js.BufferFromUnderNode` | lib/intercept.js:22 | Under Node's codecs a Buffer gives the same bytes whatever the encoding; a string with a falsy encoding never throws; a string throws exactly when its encoding's name is unknown, whatever the text |
| `Events.RemoveLast` | index.js:75 | `off(x)` shortens the listener list by one exactly when x is registered |
| `Events.RemoveLastAt` | index.js:75 | `off(x)` deletes exactly the most recent registration of x and keeps the order of the others; with no registration of x the list is unchanged |
| `Events.RemoveLastMultiset` | index.js:75 | `off(x)` removes one registration of x and no registration of any other listener |
| `Events.OffUndoesOn` | index.js:67-75 | `on(x)` followed by `off(x)` gives back the listener list as it was |
| `Events.OnThenOffSilences` | index.js:62-77 | A callback not registered before, registered with `on` and then removed again with `off`, receives no record |
| `Events.FanoutReaches` | lib/intercept.js:42-48 | An emitted record reaches a listener if and only if it is registered, once per registration |
| `Events.Fanout` | lib/intercept.js:42-48 | Emitting a record makes one delivery per registration, each carrying that record to a registered listener |
| `Events.RecordEmitter.constructor` | index.js:6 | A new emitter has no listener and has delivered nothing |
| `Events.RecordEmitter.AddListener` | index.js:67 | Registration appends the listener, duplicates kept |
| `Events.RecordEmitter.RemoveListener` | index.js:75 | The list after `off` is `RemoveLast` of the old one, one registration fewer of that listener |
| `Events.RecordEmitter.RemoveAllListeners` | index.js:79 | No "record" listener is left |
| `Events.RecordEmitter.Emit` | lib/intercept.js:42-48 | Every registration is called once with the record, in registration order; returns whether there was any |
| `Intercept.Normalize` | lib/intercept.js:17-20 | A function in the encoding position becomes the callback and the encoding passed on is null; the chunk is passed on as it came, and the encoding passed on is never a function |
| `Intercept.NormalizeIdempotent` | lib/intercept.js:17-20 | Normalising an already normalised call changes nothing |
| `Intercept.Capture` | lib/intercept.js:21-22 | A chunk is skipped exactly when it is falsy or a function; a Buffer chunk is captured as its own bytes; a non-empty string is captured as its decoding under the given encoding or utf8, or throws for an unknown encoding |
| `Intercept.RequestBody` | lib/intercept.js:10-25 | The captured request body has at most one chunk per write/end call |
| `Intercept.RequestBodyFromCalls` | lib/intercept.js:21-22 | Every chunk in the captured request body is the capture of one of the calls |
| `Intercept.RequestBodyEmpty` | lib/intercept.js:21-22 | The captured request body is empty exactly when no call's chunk was captured |
| `Intercept.RequestBodyAppend` | lib/intercept.js:10-25 | The captured body of two runs of calls is the first run's chunks followed by the second's, so chunks stay in call order |
| `Intercept.SkippedCallInvisible` | lib/intercept.js:21 | A call with a falsy or function chunk, such as `end()` or `end(cb)`, leaves the captured body unchanged wherever it occurs |
| `Intercept.TextChunk` | lib/intercept.js:17-22 | A non-empty string chunk contributes exactly its decoding under the call's encoding, utf8 when the encoding is falsy or a callback |
| `Intercept.DefaultEncodingCaptures` | lib/intercept.js:17-22 | Under Node's codecs, a non-empty string written with no encoding, a falsy one or a callback in its place is always captured as its utf8 decoding |
| `Intercept.HelloScenarios` | lib/intercept.js:12-25 | `write("Hello!")` then `end()`, `end("Hello!")`, `write("Hello!", cb)` then `end()`, and `write("Hello!")` then `end(cb)` each capture exactly the utf8 bytes of "Hello!" |
| `Intercept.Base64Scenario` | lib/intercept.js:22 | `write("SGVsbG8h", "base64")` then `end()` captures the base64-decoded bytes |
| `Intercept.DataPayloads` | lib/intercept.js:34-37 | The captured response body has at most one payload per emit |
| `Intercept.DataPayloadsFromData` | lib/intercept.js:35-37 | Every payload in the captured response body is the first argument of a "data" emit |
| `Intercept.DataPayloadsEmpty` | lib/intercept.js:35-37 | The captured response body is empty exactly when there was no "data" emit |
| `Intercept.DataPayloadsAppend` | lib/intercept.js:34-39 | The response body captured from two runs of emits is the first run's payloads followed by the second's |
| `Intercept.NonDataInvisible` | lib/intercept.js:35-37 | Inserting an emit of any event other than "data" anywhere in a sequence of emits leaves the captured response body unchanged |
| `Intercept.DataPayloadsCount` | lib/intercept.js:35-37 | There is exactly one captured payload per "data" emit |
| `Intercept.Interception.constructor` | lib/intercept.js:7-10 | `intercept` starts with an empty request body, no calls forwarded, no response and no record |
| `Intercept.Interception.Invoke` | lib/intercept.js:12-25 | A wrapped write/end captures `Capture` of the normalised call, calls the original exactly once with the normalised arguments and returns its value; a throwing capture forwards and captures nothing; the request body stays `RequestBody` of the forwarded calls |
| `Intercept.Interception.OnResponse` | lib/intercept.js:28-33 | The response is recorded and its body starts empty |
| `Intercept.Interception.Emit` | lib/intercept.js:34-49 | Each emit is passed on unchanged and its value returned; a "data" emit appends `args[0]`; a "close" emit hands the recorder one record of the request, the response and both bodies (empty lists when there was no body), delivered to every listener; the response body stays `DataPayloads` of the emits |
| `Recorder.StartStep` | lib/recorder.js:26-46 | After start() recording is on; start() while recording changes nothing; it returns `this` exactly when it installs the hook, which happens only when neither flag was set; it keeps `isRecording ==> didPatch` |
| `Recorder.StopStep` | lib/recorder.js:48-51 | stop() turns recording off and leaves the patch flag as it was |
| `Recorder.RunKeepsInv` | lib/recorder.js:26-51 | `isRecording ==> didPatchHttpClientRequest` holds after any sequence of start() and stop() calls |
| `Recorder.InstallAtMostOnce` | lib/recorder.js:30-37 | In any sequence of start() and stop() calls the hook is installed at most once, never once already installed, and the patch flag is never reset |
| `Recorder.RestartDoesNotRepatch` | lib/recorder.js:27-30 | start() after stop() turns recording back on without installing again, and returns undefined |
| `Recorder.RecorderModule.constructor` | lib/recorder.js:8-9 | Both flags start false and the prototype method is Node's own |
| `Recorder.RecorderModule.OnSocket` | lib/recorder.js:37-43 | `intercept` is called for the request, with the recorder that installed the hook, if and only if recording is on at that moment; the new interception wraps this request's own write/end and emit and uses the given codecs; Node's own onSocket is called every time and its value returned |
| `Recorder.Recorder.constructor` | lib/recorder.js:12-20 | A new recorder has no "record" listener |
| `Recorder.Recorder.On` | lib/recorder.js:16-19 | Registering for any event other than "record" throws and registers nothing; "record" listeners are appended |
| `Recorder.Recorder.Off` | lib/recorder.js:11 | The inherited off removes the most recent registration for "record" and is a no-op for any other name |
| `Recorder.Recorder.RemoveAllListeners` | lib/recorder.js:22-24 | Only the "record" listeners are removed; the flags and the prototype are untouched |
| `Recorder.Recorder.Start` | lib/recorder.js:26-46 | The flags and return value follow `StartStep`; the hook is installed, with this recorder as its target, exactly when start() returns `this`, and is otherwise untouched |
| `Recorder.Recorder.Stop` | lib/recorder.js:48-51 | The flags follow `StopStep`; the hook is untouched; returns `this` |
| `Index.EnableStep` | index.js:10-54 | enable() while enabled changes nothing and returns undefined; otherwise it saves the current onSocket, installs one hook around it and returns `this` |
| `Index.DisableStep` | index.js:55-61 | disable() restores the saved onSocket and clears it; a no-op when not enabled |
| `Index.EnableDisableRoundTrip` | index.js:10-61 | enable() then disable() leaves the prototype and the saved method exactly as before |
| `Index.EnableTwiceIsNoop` | index.js:11-14 | A second enable() changes nothing and returns undefined |
| `Index.RunNeverStacks` | index.js:10-61 | After any sequence of enable() and disable() calls from a disabled state, the prototype holds the original method or one hook around it |
| `Index.RunFromEnabled` | index.js:10-61 | From an enabled state any sequence of calls ends either still enabled with the same hook or disabled with the original method restored |
| `Index.TapChunk` | index.js:28 | The tap captures a Buffer's own bytes and a string's utf8 decoding, whatever encoding the caller gave; anything else throws |
| `Index.StringWriteCaptured` | index.js:28 | Under Node's codecs every string write is captured as its utf8 decoding, whatever encoding the caller gave |
| `Index.WrittenBody` | index.js:25-28 | The request body has at most one entry per written chunk, one for every chunk when the tap accepts them all, and each entry is the tap's copy of some written chunk |
| `Index.Drain` | index.js:34-37 | The drained response body is exactly the chunks the response yielded, in arrival order |
| `Index.WriteTap.constructor` | index.js:25-26 | The request body starts empty |
| `Index.WriteTap.Write` | index.js:27-30 | The captured chunk is appended, then the original write is called with the chunk alone and its value returned; a string write never throws; a chunk Buffer.from refuses throws and nothing is captured or written |
| `Index.WriteTap.OnResponse` | index.js:32-46 | After the response is drained, one record with the written chunks and the response chunks in order reaches every listener |
| `Index.HttpRecorder.constructor` | index.js:6-7 | Nothing saved, the prototype untouched, no listener |
| `Index.HttpRecorder.Enable` | index.js:10-54 | The patch state and return value follow `EnableStep` |
| `Index.HttpRecorder.Disable` | index.js:55-61 | The patch state follows `DisableStep`; returns `this` |
| `Index.HttpRecorder.On` | index.js:62-69 | Any event other than "record" throws and leaves the listeners unchanged; a "record" listener is appended |
| `Index.HttpRecorder.Off` | index.js:70-77 | Any event other than "record" throws and leaves the listeners unchanged; for "record" the most recent registration is removed |
| `Index.HttpRecorder.RemoveAllListeners` | index.js:78-81 | No listener is left; returns `this` |
| `Index.HttpRecorder.OnSocket` | index.js:20-51 | While enabled every request gets a fresh write tap bound to the shared emitter, wrapping this request's own write and using the given codecs; Node's own onSocket is called every time and its value returned |

## Left out

- Node's transport (sockets, TLS, header parsing) is not modelled. The request, the response and
  the native methods are opaque: identities plus functions from call history to return value.
- The `elapsedTime` field of a record (lib/intercept.js:47) is left out. It reads the wall clock and uses floating-point division.
- The text codecs behind `Buffer.from` are a `Decoder` parameter, not real utf8 or base64.
  Where a decoder enters a class it must satisfy `NodeCodecs`: utf8 decodes every string, and
  whether an encoding is unknown depends on its name alone.
  The scenario lemmas take as hypotheses the decodings of "Hello!" and "SGVsbG8h".
- Numbers, booleans and other objects as chunks are left out, and so is Node's own validation of arguments inside the original `write`/`end`.
- How Node's stream turns arriving bytes into "data" emits is not modelled: the interception takes
  the sequence of emits as given. Paused-mode `response.read()` emits one "data" event for all the
  buffered bytes, flowing mode one per chunk, so the captured lists can differ between the two
  while their concatenations agree.
- EventEmitter internals are left out: `once`, `prependListener`, the "newListener"/"removeListener" events other than the guard's effect, the listener limit, and listener exceptions. A listener that throws stops the remaining ones in Node. The model delivers to all of them. Asynchronous listeners are not modelled.
- Aliasing of the record's arrays is left out. The record holds the live `requestBodyChunks`/`responseBodyChunks` arrays, so chunks added after a "close" would show up in an already delivered record. The model delivers a snapshot.
- Both modules replace the same `http.ClientRequest.prototype.onSocket`. Each model keeps its own copy, so using `index.js` and `lib/recorder.js` together in one process is not modelled.
- index.js: the `for await` loop is modelled as "all chunks arrived, then emit". A response that errors while draining makes the handler reject and emit nothing. That case, and responses read as strings after `setEncoding`, are not modelled.
- `Intercept.Interception.OnResponse`: requires that no response has arrived yet, as Node fires "response" once per request; a second "response" event would stack a second emit tap, which is not modelled.
