/**
 * The codec handle (`PyCodec`): a tuple of exactly four callables
 * (encode, decode, incremental encoder factory, incremental decoder factory),
 * validated once at construction, plus the 2-tuple check applied to what the
 * encode and decode callables return.
 */
module CodecHandle {
  import opened Wrappers
  import opened Values

  /**
   * A validated codec tuple. The four slots are opaque objects; the optional
   * `_is_text_encoding` attribute of the tuple travels with it.
   */
  datatype Codec = Codec(
    encodeFunc: Value,
    decodeFunc: Value,
    incrementalEncoder: Value,
    incrementalDecoder: Value,
    isTextEncoding: Option<bool>)

  /** `PyCodec::from_tuple`: accepts a tuple of length four, hands any other tuple back. */
  function FromTuple(tuple: Value): (r: Result<Codec, Value>)
    requires tuple.Tuple?
    ensures r.Success? <==> |tuple.items| == 4
    ensures r.Failure? ==> r.error == tuple
    ensures r.Success? ==>
      && r.value.encodeFunc == tuple.items[0]
      && r.value.decodeFunc == tuple.items[1]
      && r.value.isTextEncoding == tuple.isTextEncoding
  {
    if |tuple.items| == 4 then
      Success(Codec(tuple.items[0], tuple.items[1], tuple.items[2], tuple.items[3], tuple.isTextEncoding))
    else
      Failure(tuple)
  }

  /** `PyCodec::into_tuple`: the tuple the codec was built from. */
  function AsTuple(c: Codec): (t: Value)
    ensures t.Tuple? && |t.items| == 4
  {
    Tuple([c.encodeFunc, c.decodeFunc, c.incrementalEncoder, c.incrementalDecoder], c.isTextEncoding)
  }

  /** Building a codec from its own tuple gives the codec back. */
  lemma FromAsTuple(c: Codec)
    ensures FromTuple(AsTuple(c)) == Success(c)
  {
  }

  /** A tuple accepted by `FromTuple` is the tuple of the codec built from it. */
  lemma AsFromTuple(tuple: Value)
    requires tuple.Tuple? && |tuple.items| == 4
    ensures FromTuple(tuple).Success? && AsTuple(FromTuple(tuple).value) == tuple
  {
    assert AsTuple(FromTuple(tuple).value).items == tuple.items;
  }

  const SEARCH_RESULT_ERROR: string := "codec search functions must return 4-tuples"

  /**
   * What a search function's return value means: `None` is no match, a
   * 4-tuple is a codec, anything else is a type error
   * (`<Option<PyCodec>>::try_from_object`).
   */
  function OptionCodecFromObject(v: Value): (r: Result<Option<Codec>, Exception>)
    ensures r == Success(None) <==> v.NoneValue?
    ensures r.Failure? <==> !v.NoneValue? && !(v.Tuple? && |v.items| == 4)
    ensures r.Failure? ==> r.error == TypeError(SEARCH_RESULT_ERROR)
    ensures r.Success? && r.value.Some? ==> v.Tuple? && AsTuple(r.value.value) == v
  {
    if v.NoneValue? then
      Success(None)
    else if v.Tuple? then
      match FromTuple(v)
      case Success(c) =>
        AsFromTuple(v);
        Success(Some(c))
      case Failure(_) => Failure(TypeError(SEARCH_RESULT_ERROR))
    else
      Failure(TypeError(SEARCH_RESULT_ERROR))
  }

  /** `is_text_codec`: the `_is_text_encoding` marker, `true` when absent. */
  function IsTextCodec(c: Codec): (r: bool)
    ensures r <==> c.isTextEncoding != Some(false)
  {
    match c.isTextEncoding
    case None => true
    case Some(b) => b
  }

  /** The positional arguments of an encode or decode call: the object, then the error policy if given. */
  function CallArgs(obj: Value, errors: Option<string>): (args: seq<Value>)
    ensures 1 <= |args| <= 2 && args[0] == obj
    ensures |args| == 2 <==> errors.Some?
    ensures errors.Some? ==> args[1] == Str(errors.value)
  {
    match errors
    case Some(e) => [obj, Str(e)]
    case None => [obj]
  }

  /**
   * The result of an encode or decode call: an exception propagates; a
   * 2-tuple yields its first element; anything else is a type error
   * carrying `msg`.
   */
  function FirstOfPair(res: CallResult, msg: string): Result<Value, Exception>
  {
    match res
    case Threw(e) => Failure(e)
    case Returned(v) =>
      if v.Tuple? && |v.items| == 2 then Success(v.items[0]) else Failure(TypeError(msg))
  }

  const ENCODER_RESULT_ERROR: string := "encoder must return a tuple (object, integer)"
  const DECODER_RESULT_ERROR: string := "decoder must return a tuple (object,integer)"

  /**
   * `PyCodec::encode`: call slot 0 with the object and the optional error
   * policy. It succeeds exactly when the call returns a pair, and then yields
   * the pair's first element, ignoring the consumed length beside it.
   */
  function Encode(vm: Vm, c: Codec, obj: Value, errors: Option<string>): (r: Result<Value, Exception>)
    ensures var res := vm.invoke(c.encodeFunc, CallArgs(obj, errors));
      && (r.Success? <==> res.Returned? && res.value.Tuple? && |res.value.items| == 2)
      && (r.Success? ==> r.value == res.value.items[0])
      && (res.Threw? ==> r == Failure(res.exception))
      && (res.Returned? && r.Failure? ==> r.error == TypeError(ENCODER_RESULT_ERROR))
  {
    FirstOfPair(vm.invoke(c.encodeFunc, CallArgs(obj, errors)), ENCODER_RESULT_ERROR)
  }

  /** `PyCodec::decode`: as `Encode`, with slot 1 and the decoder's message. */
  function Decode(vm: Vm, c: Codec, obj: Value, errors: Option<string>): (r: Result<Value, Exception>)
    ensures var res := vm.invoke(c.decodeFunc, CallArgs(obj, errors));
      && (r.Success? <==> res.Returned? && res.value.Tuple? && |res.value.items| == 2)
      && (r.Success? ==> r.value == res.value.items[0])
      && (res.Threw? ==> r == Failure(res.exception))
      && (res.Returned? && r.Failure? ==> r.error == TypeError(DECODER_RESULT_ERROR))
  {
    FirstOfPair(vm.invoke(c.decodeFunc, CallArgs(obj, errors)), DECODER_RESULT_ERROR)
  }
}
