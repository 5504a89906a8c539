# Codec registry and Unicode error handlers

A Dafny model of the codec core of a Python runtime (`vm/src/codecs.rs`).
The core has three parts:

- **The encoding-name normaliser.** It turns a name such as `"Latin 1"` into the cache key `"latin-1"`.
- **The codec registry.** It holds an ordered list of search functions, a cache from normalised name to codec, and a table of named error handlers.
- **The five built-in error handlers.** These are `strict`, `ignore`, `replace`, `xmlcharrefreplace` and `backslashreplace`. Each one turns a failed encode, decode or translate into a replacement string and a resume offset, or into an exception.

Modules:

- `Wrappers`: the `Option` and `Result` types.
- `Values`: the runtime objects the core inspects, its exceptions, and the interpreter `Vm`. The `Vm` invokes callables and answers whether a value is callable, and it is passed to every operation that needs it, as in the source.
- `Normalize`: the normaliser. A loop method rewrites a buffer in place, and it is proved against the function `NormalizedName`.
- `CodecHandle`: the validated 4-slot codec, and the pair check on encode and decode results.
- `Formatting`: decimal and zero-padded lowercase hex output, each with a parser that reads it back.
- `ErrorHandlers`: the built-in handlers. `xmlcharrefreplace` and `backslashreplace` are loop methods proved against their output functions.
- `Registry`: the search specification, the effect of a lookup as a function (`LookupSpec`), and the class `CodecsRegistry` with its three fields.

Main results:

- **Normalisation.** The normalised name has the input's length and keeps the prefix before the first space or uppercase letter. The rest is folded. The result contains no trigger, and normalising is idempotent. Keeping the prefix turns out to be only an optimisation: the result equals folding the whole name.
- **Search order.** Search functions are tried in order, and the first one that answers decides. Registering a new search function only affects names that no earlier one answers.
- **Cache coherence.** If every cached codec is the one a fresh search would find, then a lookup returns exactly what searching the path gives, and the cache keeps that property.
- **Racing lookups.** Insert-if-absent makes lookups that race on the same name all return one codec.
- **Handler outputs.** Every handler resumes at `end`. The `&#N;` and `\x`/`\u`/`\U` outputs parse back to the original code points or bytes.

Names are modelled as strings of characters. The source rewrites UTF-8 bytes, but only ASCII bytes, which encode themselves, so the two views agree.

## Model

| member | source | states |
|---|---|---|
| `Normalize.FirstTrigger` | vm/src/codecs.rs:307 | `None` exactly when the name has no space and no ASCII uppercase letter. Otherwise it gives the index of the first such character, with none before it. |
| `Normalize.AsciiLower` | vm/src/codecs.rs:313 | Only `A`..`Z` change, each to its lowercase letter. |
| `Normalize.FoldChar` | vm/src/codecs.rs:310-314 | The per-character rewrite never yields a trigger. It changes a character exactly when that character is a trigger. |
| `Normalize.NormalizeEncodingName` | vm/src/codecs.rs:306-320 | The in-place buffer rewrite from the first trigger onward yields `NormalizedName` of the input. A name without a trigger is returned unchanged. |
| `Normalize.NormalizedNameShape` | vm/src/codecs.rs:307-318 | Same length as the input, and the prefix before the first trigger is kept. From the trigger on, each character is folded (space to `-`, uppercase to lowercase). With no trigger, the name is unchanged. |
| `Normalize.NormalizedNameIsFoldAll` | vm/src/codecs.rs:306-320 | The normalised name equals folding every character, so keeping the prefix is an optimisation only. |
| `Normalize.NormalizedNameHasNoTrigger` | vm/src/codecs.rs:309-315 | The result contains no space and no ASCII uppercase letter. |
| `Normalize.NormalizedNameFixedPoint` | vm/src/codecs.rs:306-320 | A name is its own normal form if and only if it has no trigger. |
| `Normalize.NormalizedNameIdempotent` | vm/src/codecs.rs:306-320 | Normalising twice equals normalising once. |
| `Normalize.DefaultEncodingIsNormal` | vm/src/codecs.rs:21 | The default encoding `"utf-8"` normalises to itself. |
| `Normalize.NormalizedNameExamples` | vm/src/codecs.rs:306-320 | `"UTF8"` becomes `"utf8"`, and `"Latin 1"` becomes `"latin-1"`. |
| `CodecHandle.FromTuple` | vm/src/codecs.rs:28-34 | Succeeds exactly for a tuple of length 4. The slots are taken in order, and any other tuple is handed back. |
| `CodecHandle.AsTuple` | vm/src/codecs.rs:36-42 | The codec's tuple has 4 elements. |
| `CodecHandle.FromAsTuple` | vm/src/codecs.rs:28-42 | Building a codec from its own tuple gives the codec back. |
| `CodecHandle.AsFromTuple` | vm/src/codecs.rs:28-42 | A 4-tuple is the tuple of the codec built from it. |
| `CodecHandle.OptionCodecFromObject` | vm/src/codecs.rs:127-135 | A search function's `None` means no match, and a 4-tuple means a codec whose tuple is that value. Anything else is the type error "codec search functions must return 4-tuples". |
| `CodecHandle.IsTextCodec` | vm/src/codecs.rs:53-56 | A codec is a text codec unless its `_is_text_encoding` marker is present and false. |
| `CodecHandle.CallArgs` | vm/src/codecs.rs:64-67 | The call arguments are the object, then the error-policy name as a string, if one is given. |
| `CodecHandle.Encode` | vm/src/codecs.rs:58-78 | Succeeds exactly when the encode slot returns a 2-tuple, and then yields its element 0, ignoring the length. A raised exception propagates. Any other return is the encoder's type error. |
| `CodecHandle.Decode` | vm/src/codecs.rs:80-100 | The same as `Encode`, using slot 1 and the decoder's type-error message. |
| `Formatting.Decimal` | vm/src/codecs.rs:394 | Decimal output is a non-empty run of digits that starts with `0` only for zero. |
| `Formatting.ParseDecimalOfDecimal` | vm/src/codecs.rs:394 | Reading the decimal form back gives the number. |
| `Formatting.Hex` | vm/src/codecs.rs:406 | `{:0wx}` output is exactly `w` lowercase hex digits. |
| `Formatting.ParseHexOfHex` | vm/src/codecs.rs:422-426 | For a number below 16^w, reading the padded hex back gives the number. |
| `ErrorHandlers.StrictErrors` | vm/src/codecs.rs:348-353 | Always fails. An exception is re-raised unchanged, and a non-exception gives the type error "codec must pass exception instance". |
| `ErrorHandlers.IgnoreErrors` | vm/src/codecs.rs:355-362 | Decode, encode and translate errors give `("", end)`. Any other kind gives the "don't know how to handle" type error. |
| `ErrorHandlers.ReplaceErrors` | vm/src/codecs.rs:364-380 | A decode error gives one U+FFFD. An encode error gives `end-start` copies of `?`, and a translate error gives `end-start` copies of U+FFFD. All resume at `end`, and other kinds are a type error. |
| `ErrorHandlers.IgnoreReplaceExamples` | vm/src/codecs.rs:355-380 | Ignoring a decode error over [2,5) gives `("", 5)`. Replacing an encode error over [0,3) gives `("???", 3)`. |
| `ErrorHandlers.CharsInRange` | vm/src/codecs.rs:388-392 | The visited characters start at character index `start` and are at most `end-start` of them. There are none when `start` is past the text or `end <= start`. |
| `ErrorHandlers.XmlCharRefReplaceErrors` | vm/src/codecs.rs:382-397 | Refuses anything but encode and translate errors with a type error. Otherwise it returns one `&#N;` per visited character, resuming at `end`. |
| `ErrorHandlers.XmlCharRefsRoundTrip` | vm/src/codecs.rs:392-395 | The character references parse back to exactly the code points replaced. |
| `ErrorHandlers.XmlCharRefExample` | vm/src/codecs.rs:392-395 | U+00E9 becomes `&#233;`. |
| `ErrorHandlers.EscapeBytes` | vm/src/codecs.rs:403-407 | The decode branch's loop appends `\xhh` for each byte. |
| `ErrorHandlers.BackslashReplaceErrors` | vm/src/codecs.rs:399-430 | A decode error gives `\xhh` for each byte of `bytes[start..end]`. Encode and translate errors give one escape per visited character. Both resume at `end`, and other kinds are a type error. |
| `ErrorHandlers.CharEscapeWidth` | vm/src/codecs.rs:418-428 | An escape is 10 characters for code points of at least 0x10000, 6 for at least 0x100, and 4 otherwise. |
| `ErrorHandlers.ByteEscapesLength` | vm/src/codecs.rs:403-407 | A decode replacement is 4 characters per byte. |
| `ErrorHandlers.ByteEscapesRoundTrip` | vm/src/codecs.rs:404-407 | The byte escapes parse back to exactly the bytes replaced: the same count, and each parsed value equals the byte at that position. |
| `ErrorHandlers.BadErrType` | vm/src/codecs.rs:341-346 | The result is a type error that reads "don't know how to handle ", then the error's class name, then " in error callback". |
| `ErrorHandlers.CharEscapesRoundTrip` | vm/src/codecs.rs:418-428 | The character escapes parse back to exactly the code points replaced. |
| `ErrorHandlers.ByteEscapesExample` | vm/src/codecs.rs:404-407 | The bytes FF FE become `\xff\xfe`. |
| `Registry.BuiltinErrorTable` | vm/src/codecs.rs:146-170 | A fresh error table has exactly the keys strict, ignore, replace, xmlcharrefreplace and backslashreplace. Each is bound to its own built-in handler. |
| `Registry.ProviderAnswer` | vm/src/codecs.rs:194-195 | An exception raised by the search function propagates. `None` means no match. A 4-tuple becomes the codec built from it. Any other value is the type error "codec search functions must return 4-tuples". |
| `Registry.Search` | vm/src/codecs.rs:193-205 | An empty path matches nothing. Any other outcome is the answer of some function i on the path, and every function before i answered "no match". |
| `Registry.SearchNotFound` | vm/src/codecs.rs:193-206 | The search finds nothing if and only if every search function answers "no match". |
| `Registry.SearchFirstAnswerWins` | vm/src/codecs.rs:193-205 | If the first i functions answer "no match" and function i answers, function i's answer is the outcome. This holds whether the answer is a codec or an error. |
| `Registry.SearchAppend` | vm/src/codecs.rs:176-182 | An appended search function decides only names that the earlier path leaves unanswered. |
| `Registry.OrInsert` | vm/src/codecs.rs:197-203 | The key ends up present, and the caller gets what is stored. An existing entry is kept; otherwise the new codec is inserted. |
| `Registry.RacingInsertsConverge` | vm/src/codecs.rs:197-203 | Lookups that race on one name and insert in turn all return the same codec. That codec is the one already cached, or else the first inserted, and it is what the cache holds afterwards. |
| `Registry.LookupHitIgnoresSearch` | vm/src/codecs.rs:186-189 | A cache hit returns the cached codec and leaves the cache unchanged, whatever the interpreter and search path. So no search function is consulted. |
| `Registry.LookupMiss` | vm/src/codecs.rs:190-206 | On a miss, a lookup succeeds exactly when the search finds a codec. The codec is stored under the key and returned. A failure leaves the cache unchanged, and "no match" is the error "unknown encoding: <name>". |
| `Registry.LookupTwice` | vm/src/codecs.rs:184-207 | After a successful lookup, a second lookup returns the same codec and changes nothing. |
| `Registry.ForgetThenLookup` | vm/src/codecs.rs:226-229 | After the entry is removed, a lookup resolves the name from the search path again. |
| `Registry.LookupIsTransparent` | vm/src/codecs.rs:184-207 | With a coherent cache, a lookup returns exactly what the search path resolves, and the cache stays coherent. |
| `Registry.RegisterKeepsCoherent` | vm/src/codecs.rs:176-182 | Appending a search function keeps a coherent cache coherent. |
| `Registry.RequireTextCodec` | vm/src/codecs.rs:215-223 | Succeeds exactly for a text codec. A non-text codec gives the lookup error naming the raw encoding and the generic entry point. |
| `Registry.ExpectBytes` | vm/src/codecs.rs:261-271 | The encoder's result must be bytes. Otherwise it is a type error naming the encoding and the result's type. |
| `Registry.ExpectStr` | vm/src/codecs.rs:282-289 | The decoder's result must be a string. Otherwise it is a type error naming the encoding and the result's type. |
| `Registry.CodecsRegistry.constructor` | vm/src/codecs.rs:146-174 | A fresh registry has an empty search path, an empty cache and the built-in error table. |
| `Registry.CodecsRegistry.Register` | vm/src/codecs.rs:176-182 | A non-callable value is a type error that changes nothing. A callable value is appended to the end of the path, and nothing else changes. Coherence is kept. |
| `Registry.CodecsRegistry.Lookup` | vm/src/codecs.rs:184-207 | The result and new cache are `LookupSpec` of the normalised name. The search path and error table are unchanged. With a coherent cache, the result is the search path's resolution. A name already cached (and cache keys are always normalised) returns its cached codec and leaves the cache as it was. |
| `Registry.CodecsRegistry.LookupTextEncoding` | vm/src/codecs.rs:209-224 | A lookup, then the text-codec check. |
| `Registry.CodecsRegistry.Forget` | vm/src/codecs.rs:226-229 | Removes only the normalised key from the cache and returns the removed codec, if any. |
| `Registry.CodecsRegistry.Encode` | vm/src/codecs.rs:231-240 | A lookup, then the codec's encode function. |
| `Registry.CodecsRegistry.Decode` | vm/src/codecs.rs:242-251 | A lookup, then the codec's decode function. |
| `Registry.CodecsRegistry.EncodeText` | vm/src/codecs.rs:253-272 | A text lookup with `codecs.encode()`, then encoding, then the bytes check. Each failure propagates. |
| `Registry.CodecsRegistry.DecodeText` | vm/src/codecs.rs:274-290 | A text lookup with `codecs.decode()`, then decoding, then the str check. Each failure propagates. |
| `Registry.CodecsRegistry.RegisterError` | vm/src/codecs.rs:292-294 | Overwrites the binding and returns the previous one, if any. The search path and cache are unchanged. |
| `Registry.CodecsRegistry.LookupErrorHandlerOpt` | vm/src/codecs.rs:296-298 | Returns the bound handler if the name is bound, and nothing otherwise. |
| `Registry.CodecsRegistry.LookupErrorHandler` | vm/src/codecs.rs:300-303 | Returns the bound handler, or the lookup error "unknown error handler name '<name>'". |

The model keeps these details of the code:

- `xmlcharrefreplace` and `backslashreplace` visit at most `end-start` characters from character index `start`. They visit fewer if the text is shorter, and none if `start` is past the text or `end <= start`.
- `decode_text`'s error message says "to encode arbitrary types", and the model keeps that wording.
- The "not a text encoding" message names the encoding as the caller wrote it, not its normalised form.

## Left out

- Concurrency: the reader/writer lock and threads interleaving (vm/src/codecs.rs:12, 186-191, 197). The registry is sequential. Its one observable trace, the keep-existing insert, is `OrInsert`, and `RacingInsertsConverge` covers racing inserts.
- Re-entrant and stateful search functions. A search function is a value that `Vm.invoke` maps to an answer, so it is a pure function of the name. A search function that calls back into the registry, or that changes its answers over time, is not modelled. That is why cache coherence is stated as an invariant that is preserved, not as something that always holds.
- `get_incremental_encoder` and `get_incremental_decoder` (vm/src/codecs.rs:102-124). They only call a method on an opaque object, which this core does not define.
- `IntoPyObject for PyCodec` (vm/src/codecs.rs:138-143) is `AsTuple` and has no separate member.
- Attribute probing and conversions that belong to the host runtime:
  - `_is_text_encoding` is an optional boolean, so a failing truthiness conversion is not modelled.
  - `start` and `end` are naturals, so a failed or negative integer conversion in `extract_unicode_error_range` is not modelled.
  - Each error's `object` has the type its kind implies, so a failed `object` conversion is not modelled.
- Class checks (`isinstance`, `downcast`) are constructors of `ErrorObject` and `Value`. User subclasses of the Unicode error classes, and of `bytes`, `str` and `tuple`, are not modelled.
- `String::from_utf8(..).unwrap()` (vm/src/codecs.rs:316) cannot fail, because only ASCII characters are rewritten.
- ErrorHandlers.ReplaceErrors requires `start <= end` for encode and translate errors. In the source, `end - start` is an unsigned subtraction that panics otherwise. That panic is a precondition here, not an error result.
- ErrorHandlers.BackslashReplaceErrors requires `start <= end <= |bytes|` for decode errors. In the source, slicing the bytes panics otherwise. That panic is a precondition here, not an error result.
- Formatting.Hex gives the low `w` digits of a larger number, where `{:0wx}` would print more. The handlers only call it with numbers that fit, which `CharEscapeWidth` and `ParseHexOfHex` rely on.
