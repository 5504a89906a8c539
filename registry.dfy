/**
 * The codec registry (`CodecsRegistry`): an ordered list of search
 * functions, a cache from normalised encoding name to codec, and the table
 * of named error handlers. The registry is modelled sequentially; the lock
 * that guards it in the source leaves one observable trace, the
 * keep-the-existing-entry insert at the end of a lookup (`OrInsert`).
 */
module Registry {
  import opened Wrappers
  import opened Values
  import opened Normalize
  import opened CodecHandle
  import opened ErrorHandlers

  /** An error handler bound in the table: one of the built-ins, or a user object. */
  datatype Handler = Builtin(policy: Policy) | UserHandler(obj: Value)

  const BUILTIN_HANDLER_NAMES: set<string> :=
    {"strict", "ignore", "replace", "xmlcharrefreplace", "backslashreplace"}

  /** The error table of a fresh registry: each built-in policy under its name. */
  function BuiltinErrors(): map<string, Handler>
  {
    map[
      PolicyName(Strict) := Builtin(Strict),
      PolicyName(Ignore) := Builtin(Ignore),
      PolicyName(Replace) := Builtin(Replace),
      PolicyName(XmlCharRefReplace) := Builtin(XmlCharRefReplace),
      PolicyName(BackslashReplace) := Builtin(BackslashReplace)]
  }

  /** A fresh error table holds exactly the five built-in names, each bound to its own policy. */
  lemma BuiltinErrorTable()
    ensures BuiltinErrors().Keys == BUILTIN_HANDLER_NAMES
    ensures forall p: Policy :: PolicyName(p) in BuiltinErrors() && BuiltinErrors()[PolicyName(p)] == Builtin(p)
  {
    forall p: Policy
      ensures PolicyName(p) in BuiltinErrors() && BuiltinErrors()[PolicyName(p)] == Builtin(p)
    {
      match p
      case Strict =>
      case Ignore =>
      case Replace =>
      case XmlCharRefReplace =>
      case BackslashReplace =>
    }
  }

  function UnknownEncoding(name: string): string
  {
    "unknown encoding: " + name
  }

  function UnknownErrorHandler(name: string): string
  {
    "unknown error handler name '" + name + "'"
  }

  /** What asking one search function, or the whole search path, about a name yields. */
  datatype SearchOutcome = Found(codec: Codec) | NotFound | Failed(exception: Exception)

  /**
   * One search function's answer for a normalised name: an exception it
   * raises propagates, `None` is no match, a 4-tuple is a codec, anything
   * else is a type error.
   */
  function ProviderAnswer(vm: Vm, provider: Value, name: string): (r: SearchOutcome)
    ensures vm.invoke(provider, [Str(name)]).Threw? ==>
      r == Failed(vm.invoke(provider, [Str(name)]).exception)
    ensures vm.invoke(provider, [Str(name)]).Returned? ==>
      var v := vm.invoke(provider, [Str(name)]).value;
      && (r.NotFound? <==> v.NoneValue?)
      && (r.Found? <==> v.Tuple? && |v.items| == 4)
      && (r.Found? ==> AsTuple(r.codec) == v)
      && (r.Failed? ==> r.exception == TypeError(SEARCH_RESULT_ERROR))
  {
    match vm.invoke(provider, [Str(name)])
    case Threw(e) => Failed(e)
    case Returned(v) =>
      match OptionCodecFromObject(v)
      case Failure(e) => Failed(e)
      case Success(None) => NotFound
      case Success(Some(c)) => Found(c)
  }

  /** Moves a decisive answer found in the tail of the path one position along. */
  lemma SearchShift(vm: Vm, path: seq<Value>, name: string, r: SearchOutcome)
    requires path != [] && ProviderAnswer(vm, path[0], name).NotFound?
    requires !r.NotFound? ==>
      exists i :: 0 <= i < |path[1..]| && r == ProviderAnswer(vm, path[1..][i], name) &&
        forall j :: 0 <= j < i ==> ProviderAnswer(vm, path[1..][j], name).NotFound?
    ensures !r.NotFound? ==>
      exists i :: 0 <= i < |path| && r == ProviderAnswer(vm, path[i], name) &&
        forall j :: 0 <= j < i ==> ProviderAnswer(vm, path[j], name).NotFound?
  {
    if !r.NotFound? {
      var i :| 0 <= i < |path[1..]| && r == ProviderAnswer(vm, path[1..][i], name) &&
        forall j :: 0 <= j < i ==> ProviderAnswer(vm, path[1..][j], name).NotFound?;
      assert path[1..][i] == path[i + 1];
      forall j | 0 <= j < i + 1
        ensures ProviderAnswer(vm, path[j], name).NotFound?
      {
        if j > 0 {
          assert path[j] == path[1..][j - 1];
        }
      }
    }
  }

  /**
   * The search functions asked in order; the first answer other than no
   * match decides, and every function before it answered no match.
   */
  function Search(vm: Vm, path: seq<Value>, name: string): (r: SearchOutcome)
    ensures path == [] ==> r.NotFound?
    ensures !r.NotFound? ==>
      exists i :: 0 <= i < |path| && r == ProviderAnswer(vm, path[i], name) &&
        forall j :: 0 <= j < i ==> ProviderAnswer(vm, path[j], name).NotFound?
  {
    if path == [] then NotFound
    else
      var answer := ProviderAnswer(vm, path[0], name);
      if answer.NotFound? then
        var r := Search(vm, path[1..], name);
        SearchShift(vm, path, name, r);
        r
      else answer
  }

  /** The search finds nothing exactly when no search function matches. */
  lemma {:induction false} SearchNotFound(vm: Vm, path: seq<Value>, name: string)
    ensures Search(vm, path, name).NotFound? <==>
      forall j :: 0 <= j < |path| ==> ProviderAnswer(vm, path[j], name).NotFound?
  {
    if path != [] {
      SearchNotFound(vm, path[1..], name);
      if Search(vm, path, name).NotFound? {
        forall j | 0 <= j < |path|
          ensures ProviderAnswer(vm, path[j], name).NotFound?
        {
          if j > 0 {
            assert path[j] == path[1..][j - 1];
          }
        }
      } else if ProviderAnswer(vm, path[0], name).NotFound? {
        var j :| 0 <= j < |path| - 1 && !ProviderAnswer(vm, path[1..][j], name).NotFound?;
        assert path[1..][j] == path[j + 1];
      }
    }
  }

  /** Earlier search functions take priority: the first one that answers decides. */
  lemma {:induction false} SearchFirstAnswerWins(vm: Vm, path: seq<Value>, name: string, i: nat)
    requires i < |path|
    requires forall j :: 0 <= j < i ==> ProviderAnswer(vm, path[j], name).NotFound?
    requires !ProviderAnswer(vm, path[i], name).NotFound?
    ensures Search(vm, path, name) == ProviderAnswer(vm, path[i], name)
  {
    if i > 0 {
      assert ProviderAnswer(vm, path[0], name).NotFound?;
      forall j | 0 <= j < i - 1
        ensures ProviderAnswer(vm, path[1..][j], name).NotFound?
      {
        assert path[1..][j] == path[j + 1];
      }
      SearchFirstAnswerWins(vm, path[1..], name, i - 1);
    }
  }

  /** Appending a search function only matters for names no earlier one answers. */
  lemma {:induction false} SearchAppend(vm: Vm, path: seq<Value>, provider: Value, name: string)
    ensures Search(vm, path + [provider], name) ==
      if Search(vm, path, name).NotFound? then ProviderAnswer(vm, provider, name)
      else Search(vm, path, name)
  {
    if path == [] {
      assert [] + [provider] == [provider];
      assert [provider][1..] == [];
    } else {
      assert (path + [provider])[0] == path[0];
      assert (path + [provider])[1..] == path[1..] + [provider];
      SearchAppend(vm, path[1..], provider, name);
    }
  }

  /** The outcome of resolving a normalised name from the search path alone, ignoring any cache. */
  function Resolve(vm: Vm, path: seq<Value>, name: string): Result<Codec, Exception>
  {
    match Search(vm, path, name)
    case Found(c) => Success(c)
    case NotFound => Failure(LookupError(UnknownEncoding(name)))
    case Failed(e) => Failure(e)
  }

  /**
   * `entry(key).or_insert(codec)`: an entry already present is kept (another
   * thread got there first) and is what the caller receives.
   */
  function OrInsert(cache: map<string, Codec>, key: string, codec: Codec): (r: (map<string, Codec>, Codec))
    ensures key in r.0 && r.1 == r.0[key]
    ensures key in cache ==> r.0 == cache
    ensures key !in cache ==> r.0 == cache[key := codec]
  {
    if key in cache then (cache, cache[key]) else (cache[key := codec], codec)
  }

  /**
   * Several lookups of one name that each found a codec, inserting in the
   * order they took the write lock: the final cache and the codec each one
   * returns.
   */
  function RaceInserts(cache: map<string, Codec>, key: string, codecs: seq<Codec>): (map<string, Codec>, seq<Codec>)
    decreases |codecs|
  {
    if codecs == [] then (cache, [])
    else
      var first := OrInsert(cache, key, codecs[0]);
      var rest := RaceInserts(first.0, key, codecs[1..]);
      (rest.0, [first.1] + rest.1)
  }

  /**
   * Racing first lookups converge: all of them return the same codec, the
   * one already cached or else the first inserted, and that codec is what
   * the cache holds afterwards.
   */
  lemma {:induction false} RacingInsertsConverge(cache: map<string, Codec>, key: string, codecs: seq<Codec>)
    requires |codecs| > 0
    ensures var winner := if key in cache then cache[key] else codecs[0];
      var race := RaceInserts(cache, key, codecs);
      && race.0 == cache[key := winner]
      && |race.1| == |codecs|
      && forall j :: 0 <= j < |race.1| ==> race.1[j] == winner
    decreases |codecs|
  {
    var winner := if key in cache then cache[key] else codecs[0];
    var first := OrInsert(cache, key, codecs[0]);
    assert first.0 == cache[key := winner] && first.1 == winner;
    if |codecs| > 1 {
      RacingInsertsConverge(first.0, key, codecs[1..]);
    }
  }

  /**
   * The effect of `lookup` on a normalised key: the result and the new
   * cache. A cached entry is returned as it is; otherwise the search path
   * decides and a found codec is inserted.
   */
  function LookupSpec(vm: Vm, path: seq<Value>, cache: map<string, Codec>, key: string)
    : (Result<Codec, Exception>, map<string, Codec>)
  {
    if key in cache then (Success(cache[key]), cache)
    else match Search(vm, path, key)
      case Found(c) =>
        var inserted := OrInsert(cache, key, c);
        (Success(inserted.1), inserted.0)
      case NotFound => (Failure(LookupError(UnknownEncoding(key))), cache)
      case Failed(e) => (Failure(e), cache)
  }

  /**
   * A cache hit consults no search function: the outcome is the cached codec
   * whatever the interpreter and the search path, and nothing changes.
   */
  lemma LookupHitIgnoresSearch(vm: Vm, other: Vm, path: seq<Value>, otherPath: seq<Value>,
                               cache: map<string, Codec>, key: string)
    requires key in cache
    ensures LookupSpec(vm, path, cache, key) == (Success(cache[key]), cache)
    ensures LookupSpec(vm, path, cache, key) == LookupSpec(other, otherPath, cache, key)
  {
  }

  /**
   * On a miss, a found codec is stored under the key and returned; a failed
   * search leaves the cache as it was.
   */
  lemma LookupMiss(vm: Vm, path: seq<Value>, cache: map<string, Codec>, key: string)
    requires key !in cache
    ensures var (r, cache') := LookupSpec(vm, path, cache, key);
      && (r.Success? <==> Search(vm, path, key).Found?)
      && (r.Success? ==> r.value == Search(vm, path, key).codec && cache' == cache[key := r.value])
      && (r.Failure? ==> cache' == cache)
      && (Search(vm, path, key).NotFound? ==> r == Failure(LookupError(UnknownEncoding(key))))
  {
  }

  /** After a successful lookup, looking the name up again returns the same codec and changes nothing. */
  lemma LookupTwice(vm: Vm, other: Vm, path: seq<Value>, otherPath: seq<Value>,
                    cache: map<string, Codec>, key: string)
    requires LookupSpec(vm, path, cache, key).0.Success?
    ensures var (r, cache') := LookupSpec(vm, path, cache, key);
      LookupSpec(other, otherPath, cache', key) == (r, cache')
  {
  }

  /** After `forget`, a lookup of the name asks the search path again from its start. */
  lemma ForgetThenLookup(vm: Vm, path: seq<Value>, cache: map<string, Codec>, key: string)
    ensures LookupSpec(vm, path, cache - {key}, key).0 == Resolve(vm, path, key)
  {
  }

  /**
   * The cache agrees with the search path: every cached codec is the one a
   * fresh search for its key would find (it was never fabricated).
   */
  ghost predicate Coherent(vm: Vm, path: seq<Value>, cache: map<string, Codec>)
  {
    forall k :: k in cache ==> Search(vm, path, k) == Found(cache[k])
  }

  /** With a coherent cache, a lookup returns exactly what resolving from the search path gives, and the cache stays coherent. */
  lemma LookupIsTransparent(vm: Vm, path: seq<Value>, cache: map<string, Codec>, key: string)
    requires Coherent(vm, path, cache)
    ensures LookupSpec(vm, path, cache, key).0 == Resolve(vm, path, key)
    ensures Coherent(vm, path, LookupSpec(vm, path, cache, key).1)
  {
  }

  /** Registering a search function keeps the cache coherent: it only answers names nobody answered. */
  lemma RegisterKeepsCoherent(vm: Vm, path: seq<Value>, cache: map<string, Codec>, provider: Value)
    requires Coherent(vm, path, cache)
    ensures Coherent(vm, path + [provider], cache)
  {
    forall k | k in cache
      ensures Search(vm, path + [provider], k) == Found(cache[k])
    {
      SearchAppend(vm, path, provider, k);
    }
  }

  /**
   * `_lookup_text_encoding`'s check on a looked-up codec: it must be a text
   * codec, else a lookup error pointing at the generic entry point.
   */
  function RequireTextCodec(looked: Result<Codec, Exception>, encoding: string, genericFunc: string)
    : (r: Result<Codec, Exception>)
    ensures r.Success? <==> looked.Success? && IsTextCodec(looked.value)
    ensures r.Success? ==> r.value == looked.value
    ensures looked.Failure? ==> r == looked
    ensures looked.Success? && !IsTextCodec(looked.value) ==>
      r == Failure(LookupError("'" + encoding + "' is not a text encoding; use " + genericFunc
                               + " to handle arbitrary codecs"))
  {
    match looked
    case Failure(e) => Failure(e)
    case Success(c) =>
      if IsTextCodec(c) then Success(c)
      else Failure(LookupError("'" + encoding + "' is not a text encoding; use " + genericFunc
                               + " to handle arbitrary codecs"))
  }

  /** `encode_text`'s check of the encoder's result: it must be bytes. */
  function ExpectBytes(v: Value, encoding: string): (r: Result<seq<byte>, Exception>)
    ensures r.Success? <==> v.Bytes?
    ensures r.Success? ==> r.value == v.data
    ensures r.Failure? ==> r.error == TypeError("'" + encoding + "' encoder returned '" + TypeName(v)
                                                + "' instead of 'bytes'; use codecs.encode() to encode arbitrary types")
  {
    if v.Bytes? then Success(v.data)
    else Failure(TypeError("'" + encoding + "' encoder returned '" + TypeName(v)
                           + "' instead of 'bytes'; use codecs.encode() to encode arbitrary types"))
  }

  /** `decode_text`'s check of the decoder's result: it must be a string. */
  function ExpectStr(v: Value, encoding: string): (r: Result<string, Exception>)
    ensures r.Success? <==> v.Str?
    ensures r.Success? ==> r.value == v.text
    ensures r.Failure? ==> r.error == TypeError("'" + encoding + "' decoder returned '" + TypeName(v)
                                                + "' instead of 'str'; use codecs.decode() to encode arbitrary types")
  {
    if v.Str? then Success(v.text)
    else Failure(TypeError("'" + encoding + "' decoder returned '" + TypeName(v)
                           + "' instead of 'str'; use codecs.decode() to encode arbitrary types"))
  }

  class CodecsRegistry {
    /** The search functions, in registration order. */
    var searchPath: seq<Value>
    /** Normalised encoding name to codec. */
    var searchCache: map<string, Codec>
    /** Error-handler name to handler. */
    var errors: map<string, Handler>

    /** Every cache key is a normalised name. */
    ghost predicate Valid()
      reads this
    {
      forall k :: k in searchCache ==> NormalizedName(k) == k
    }

    /** `CodecsRegistry::new`: no search functions, an empty cache, the five built-in handlers. */
    constructor ()
      ensures Valid()
      ensures searchPath == [] && searchCache == map[] && errors == BuiltinErrors()
    {
      searchPath := [];
      searchCache := map[];
      errors := BuiltinErrors();
    }

    /** `register`: appends a callable search function; refuses anything else. */
    method Register(vm: Vm, searchFunction: Value) returns (r: Result<(), Exception>)
      requires Valid()
      modifies this
      ensures Valid()
      ensures !vm.isCallable(searchFunction) ==>
        r == Failure(TypeError("argument must be callable")) && searchPath == old(searchPath)
      ensures vm.isCallable(searchFunction) ==>
        r == Success(()) && searchPath == old(searchPath) + [searchFunction]
      ensures searchCache == old(searchCache) && errors == old(errors)
      ensures old(Coherent(vm, searchPath, searchCache)) ==> Coherent(vm, searchPath, searchCache)
    {
      if !vm.isCallable(searchFunction) {
        return Failure(TypeError("argument must be callable"));
      }
      if Coherent(vm, searchPath, searchCache) {
        RegisterKeepsCoherent(vm, searchPath, searchCache, searchFunction);
      }
      searchPath := searchPath + [searchFunction];
      return Success(());
    }

    /**
     * `lookup`: normalise the name, return a cached codec, else ask the search
     * functions of a snapshot of the path in order and cache the first codec
     * found, keeping an entry that is already there.
     */
    method Lookup(vm: Vm, encoding: string) returns (r: Result<Codec, Exception>)
      requires Valid()
      modifies this
      ensures Valid()
      ensures searchPath == old(searchPath) && errors == old(errors)
      ensures (r, searchCache) == LookupSpec(vm, searchPath, old(searchCache), NormalizedName(encoding))
      ensures encoding in old(searchCache) ==>
        r == Success(old(searchCache)[encoding]) && searchCache == old(searchCache)
      ensures old(Coherent(vm, searchPath, searchCache)) ==>
        Coherent(vm, searchPath, searchCache) && r == Resolve(vm, searchPath, NormalizedName(encoding))
    {
      ghost var cache0 := searchCache;
      if Coherent(vm, searchPath, searchCache) {
        LookupIsTransparent(vm, searchPath, searchCache, NormalizedName(encoding));
      }
      var key := NormalizeEncodingName(encoding);
      NormalizedNameIdempotent(encoding);
      if key in searchCache {
        return Success(searchCache[key]);
      }
      var path := searchPath;
      var i := 0;
      while i < |path|
        invariant 0 <= i <= |path|
        invariant Search(vm, path, key) == Search(vm, path[i..], key)
        invariant searchCache == cache0 && searchPath == path
      {
        assert path[i..][0] == path[i] && path[i..][1..] == path[i + 1..];
        var res := vm.invoke(path[i], [Str(key)]);
        if res.Threw? {
          return Failure(res.exception);
        }
        var found := OptionCodecFromObject(res.value);
        if found.Failure? {
          return Failure(found.error);
        }
        if found.value.Some? {
          var inserted := OrInsert(searchCache, key, found.value.value);
          searchCache := inserted.0;
          return Success(inserted.1);
        }
        i := i + 1;
      }
      return Failure(LookupError(UnknownEncoding(key)));
    }

    /** `_lookup_text_encoding`: a lookup whose codec must be a text codec. */
    method LookupTextEncoding(vm: Vm, encoding: string, genericFunc: string) returns (r: Result<Codec, Exception>)
      requires Valid()
      modifies this
      ensures Valid()
      ensures searchPath == old(searchPath) && errors == old(errors)
      ensures var (looked, cache') := LookupSpec(vm, searchPath, old(searchCache), NormalizedName(encoding));
        searchCache == cache' && r == RequireTextCodec(looked, encoding, genericFunc)
    {
      var looked := Lookup(vm, encoding);
      r := RequireTextCodec(looked, encoding, genericFunc);
    }

    /** `forget`: drops the cache entry of the normalised name and returns it. */
    method Forget(encoding: string) returns (r: Option<Codec>)
      requires Valid()
      modifies this
      ensures Valid()
      ensures var key := NormalizedName(encoding);
        && r == (if key in old(searchCache) then Some(old(searchCache)[key]) else None)
        && searchCache == old(searchCache) - {key}
      ensures searchPath == old(searchPath) && errors == old(errors)
    {
      var key := NormalizeEncodingName(encoding);
      if key in searchCache {
        r := Some(searchCache[key]);
      } else {
        r := None;
      }
      searchCache := searchCache - {key};
    }

    /** `encode`: look the codec up, then call its encode function. */
    method Encode(vm: Vm, obj: Value, encoding: string, errorPolicy: Option<string>)
      returns (r: Result<Value, Exception>)
      requires Valid()
      modifies this
      ensures Valid()
      ensures searchPath == old(searchPath) && errors == old(errors)
      ensures var (looked, cache') := LookupSpec(vm, searchPath, old(searchCache), NormalizedName(encoding));
        && searchCache == cache'
        && r == match looked
                case Failure(e) => Failure(e)
                case Success(c) => CodecHandle.Encode(vm, c, obj, errorPolicy)
    {
      var looked := Lookup(vm, encoding);
      if looked.Failure? {
        return Failure(looked.error);
      }
      r := CodecHandle.Encode(vm, looked.value, obj, errorPolicy);
    }

    /** `decode`: look the codec up, then call its decode function. */
    method Decode(vm: Vm, obj: Value, encoding: string, errorPolicy: Option<string>)
      returns (r: Result<Value, Exception>)
      requires Valid()
      modifies this
      ensures Valid()
      ensures searchPath == old(searchPath) && errors == old(errors)
      ensures var (looked, cache') := LookupSpec(vm, searchPath, old(searchCache), NormalizedName(encoding));
        && searchCache == cache'
        && r == match looked
                case Failure(e) => Failure(e)
                case Success(c) => CodecHandle.Decode(vm, c, obj, errorPolicy)
    {
      var looked := Lookup(vm, encoding);
      if looked.Failure? {
        return Failure(looked.error);
      }
      r := CodecHandle.Decode(vm, looked.value, obj, errorPolicy);
    }

    /** `encode_text`: a text codec's encoder, whose result must be bytes. */
    method EncodeText(vm: Vm, obj: string, encoding: string, errorPolicy: Option<string>)
      returns (r: Result<seq<byte>, Exception>)
      requires Valid()
      modifies this
      ensures Valid()
      ensures searchPath == old(searchPath) && errors == old(errors)
      ensures var (looked, cache') := LookupSpec(vm, searchPath, old(searchCache), NormalizedName(encoding));
        && searchCache == cache'
        && r == match RequireTextCodec(looked, encoding, "codecs.encode()")
                case Failure(e) => Failure(e)
                case Success(c) =>
                  match CodecHandle.Encode(vm, c, Str(obj), errorPolicy)
                  case Failure(e) => Failure(e)
                  case Success(v) => ExpectBytes(v, encoding)
    {
      var codec := LookupTextEncoding(vm, encoding, "codecs.encode()");
      if codec.Failure? {
        return Failure(codec.error);
      }
      var encoded := CodecHandle.Encode(vm, codec.value, Str(obj), errorPolicy);
      if encoded.Failure? {
        return Failure(encoded.error);
      }
      r := ExpectBytes(encoded.value, encoding);
    }

    /** `decode_text`: a text codec's decoder, whose result must be a string. */
    method DecodeText(vm: Vm, obj: Value, encoding: string, errorPolicy: Option<string>)
      returns (r: Result<string, Exception>)
      requires Valid()
      modifies this
      ensures Valid()
      ensures searchPath == old(searchPath) && errors == old(errors)
      ensures var (looked, cache') := LookupSpec(vm, searchPath, old(searchCache), NormalizedName(encoding));
        && searchCache == cache'
        && r == match RequireTextCodec(looked, encoding, "codecs.decode()")
                case Failure(e) => Failure(e)
                case Success(c) =>
                  match CodecHandle.Decode(vm, c, obj, errorPolicy)
                  case Failure(e) => Failure(e)
                  case Success(v) => ExpectStr(v, encoding)
    {
      var codec := LookupTextEncoding(vm, encoding, "codecs.decode()");
      if codec.Failure? {
        return Failure(codec.error);
      }
      var decoded := CodecHandle.Decode(vm, codec.value, obj, errorPolicy);
      if decoded.Failure? {
        return Failure(decoded.error);
      }
      r := ExpectStr(decoded.value, encoding);
    }

    /** `register_error`: binds the name, returning what it was bound to before. */
    method RegisterError(name: string, handler: Handler) returns (previous: Option<Handler>)
      requires Valid()
      modifies this
      ensures Valid()
      ensures previous == (if name in old(errors) then Some(old(errors)[name]) else None)
      ensures errors == old(errors)[name := handler]
      ensures searchPath == old(searchPath) && searchCache == old(searchCache)
    {
      previous := if name in errors then Some(errors[name]) else None;
      errors := errors[name := handler];
    }

    /** `lookup_error_opt`: the handler bound to the name, if any. */
    method LookupErrorHandlerOpt(name: string) returns (r: Option<Handler>)
      ensures r.Some? <==> name in errors
      ensures r.Some? ==> r.value == errors[name]
    {
      r := if name in errors then Some(errors[name]) else None;
    }

    /** `lookup_error`: the handler bound to the name, or a lookup error naming it. */
    method LookupErrorHandler(name: string) returns (r: Result<Handler, Exception>)
      ensures r.Success? <==> name in errors
      ensures r.Success? ==> r.value == errors[name]
      ensures r.Failure? ==> r.error == LookupError(UnknownErrorHandler(name))
    {
      var found := LookupErrorHandlerOpt(name);
      if found.None? {
        return Failure(LookupError(UnknownErrorHandler(name)));
      }
      return Success(found.value);
    }
  }
}
