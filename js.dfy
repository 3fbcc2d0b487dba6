/**
  The JavaScript values that reach the recorder's wrappers, and the two pieces of
  Node behaviour the wrappers lean on: truthiness and `Buffer.from`.
 */
module Js {

  newtype byte = x: int | 0 <= x < 256

  type Bytes = seq<byte>

  /** The identity of a JavaScript function value (a callback or a listener). */
  type FnRef = nat

  datatype Option<T> = None | Some(value: T)

  /** An argument as a wrapper receives it. A Buffer is an object, so even an empty one is truthy. */
  datatype Value = Undefined | Null | Str(s: string) | Buf(bytes: Bytes) | Fn(f: FnRef)

  /** What a JavaScript operation throws. */
  datatype Error =
    | TypeError            // Buffer.from given something that is neither a string nor a Buffer
    | UnknownEncoding(name: string)
    | UnsupportedEvent     // "Only 'record' events are supported"

  /** A call either returns a value or throws. */
  datatype Result<T> = Ok(value: T) | Throw(error: Error)

  /** What the chainable API methods return: the object itself, or `undefined` after a bare `return;`. */
  datatype Chain = ReturnsThis | ReturnsUndefined

  /** JavaScript truthiness of the values above. */
  predicate Truthy(v: Value) {
    match v
    case Undefined => false
    case Null => false
    case Str(s) => s != ""
    case Buf(_) => true
    case Fn(_) => true
  }

  /** JavaScript `a || b`. */
  function OrElse(a: Value, b: Value): (r: Value)
    ensures Truthy(a) ==> r == a
    ensures !Truthy(a) ==> r == b
    ensures Truthy(b) ==> Truthy(r)
  {
    if Truthy(a) then a else b
  }

  /**
    Decoding a string under a named encoding, as `Buffer.from(text, encoding)` does it.
    The codecs themselves are not modelled: a Decoder is any function, and None stands for
    an encoding name Node does not know.
   */
  type Decoder = (string, string) -> Option<Bytes>

  /**
    What Node's codecs guarantee: utf8 decodes every string, and whether an encoding is
    unknown depends on its name alone, never on the text.
   */
  ghost predicate NodeCodecs(decode: Decoder)
  {
    && (forall s :: decode("utf8", s).Some?)
    && (forall n, s :: decode(n, s).None? == decode(n, "").None?)
  }

  /** The encoding Buffer.from applies to a string: the given name if it is a non-empty string, utf8 otherwise. */
  function EncodingName(encoding: Value): (name: string)
    ensures name != ""
    ensures Truthy(encoding) && encoding.Str? ==> name == encoding.s
    ensures !(encoding.Str? && encoding.s != "") ==> name == "utf8"
  {
    if encoding.Str? && encoding.s != "" then encoding.s else "utf8"
  }

  /**
    `Buffer.from(v, encoding)`: a Buffer is copied and the encoding ignored, a string is
    decoded, anything else is a TypeError.
   */
  function BufferFrom(v: Value, encoding: Value, decode: Decoder): (r: Result<Bytes>)
    ensures v.Buf? ==> r == Ok(v.bytes)
    ensures v.Str? ==> match decode(EncodingName(encoding), v.s)
                       case Some(b) => r == Ok(b)
                       case None => r == Throw(UnknownEncoding(EncodingName(encoding)))
    ensures !v.Buf? && !v.Str? ==> r == Throw(TypeError)
  {
    match v
    case Buf(b) => Ok(b)
    case Str(s) =>
      var name := EncodingName(encoding);
      (match decode(name, s)
       case Some(b) => Ok(b)
       case None => Throw(UnknownEncoding(name)))
    case _ => Throw(TypeError)
  }

  /**
    The `encoding || "utf8"` fallback selects the codec Buffer.from would select anyway:
    only a non-empty string names an encoding, and everything else means utf8.
   */
  lemma Utf8FallbackAgrees(encoding: Value)
    ensures Truthy(OrElse(encoding, Str("utf8")))
    ensures EncodingName(OrElse(encoding, Str("utf8"))) == EncodingName(encoding)
  {
  }

  /**
    What callers of Buffer.from can rely on under Node's codecs: a Buffer comes out the same
    whatever the encoding, a string with no encoding (or a falsy one) never throws, and a
    string throws exactly when its encoding's name is unknown, whatever the text.
   */
  lemma BufferFromUnderNode(v: Value, encoding: Value, other: Value, decode: Decoder)
    requires NodeCodecs(decode)
    ensures v.Buf? ==> BufferFrom(v, encoding, decode) == BufferFrom(v, other, decode)
    ensures v.Str? && !Truthy(encoding) ==> BufferFrom(v, encoding, decode).Ok?
    ensures v.Str? ==> (BufferFrom(v, encoding, decode).Throw? <==> decode(EncodingName(encoding), "").None?)
  {
  }
}
