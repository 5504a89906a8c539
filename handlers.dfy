/**
 * The five built-in Unicode error handlers. Each receives the exception
 * raised by a failed encode, decode or translate and either raises or
 * returns the replacement text together with the offset to resume at, which
 * is always the end of the faulty span.
 */
module ErrorHandlers {
  import opened Wrappers
  import opened Values
  import opened Formatting

  /** The built-in policies, bound in a fresh registry under `PolicyName`. */
  datatype Policy = Strict | Ignore | Replace | XmlCharRefReplace | BackslashReplace

  function PolicyName(p: Policy): string
  {
    match p
    case Strict => "strict"
    case Ignore => "ignore"
    case Replace => "replace"
    case XmlCharRefReplace => "xmlcharrefreplace"
    case BackslashReplace => "backslashreplace"
  }

  /** What a handler returns: the replacement text and the offset to resume at. */
  datatype Replacement = Replacement(text: string, resume: nat)

  predicate IsDecodeErr(err: ErrorObject)
  {
    err.UnicodeDecodeError?
  }

  /** An encode or a translate error: both carry the text being processed. */
  predicate IsEncodeIshErr(err: ErrorObject)
  {
    err.UnicodeEncodeError? || err.UnicodeTranslateError?
  }

  /** The type error for an exception kind a handler does not support, naming its class. */
  function BadErrType(err: ErrorObject): (r: Exception)
    ensures r.TypeError? && |r.msg| == 25 + |ClassName(err)| + 18
    ensures r.msg[..25] == "don't know how to handle "
    ensures r.msg[25..25 + |ClassName(err)|] == ClassName(err)
    ensures r.msg[25 + |ClassName(err)|..] == " in error callback"
  {
    TypeError("don't know how to handle " + ClassName(err) + " in error callback")
  }

  const REPLACEMENT_CHARACTER: char := '\U{FFFD}'

  /** `strict_errors`: raises the exception it was given, or a type error for a non-exception. */
  function StrictErrors(err: ErrorObject): (r: Result<Replacement, Exception>)
    ensures r.Failure?
    ensures err.NotAnException? ==> r.error == TypeError("codec must pass exception instance")
    ensures !err.NotAnException? ==> r.error == Raised(err)
  {
    if err.NotAnException? then
      Failure(TypeError("codec must pass exception instance"))
    else
      Failure(Raised(err))
  }

  /** `ignore_errors`: drops the faulty span. */
  function IgnoreErrors(err: ErrorObject): (r: Result<Replacement, Exception>)
    ensures r.Success? <==> IsDecodeErr(err) || IsEncodeIshErr(err)
    ensures r.Success? ==> r.value.text == "" && r.value.resume == err.end
    ensures r.Failure? ==> r.error == BadErrType(err)
  {
    if IsEncodeIshErr(err) || IsDecodeErr(err) then
      Success(Replacement("", err.end))
    else
      Failure(BadErrType(err))
  }

  /** `str::repeat` of a one-character string. */
  function Repeat(c: char, n: nat): string
  {
    seq(n, _ => c)
  }

  /**
   * `replace_errors`: one U+FFFD for a decode error, one '?' per faulty
   * character for an encode error, one U+FFFD per faulty character for a
   * translate error. The width `end - start` is an unsigned subtraction in
   * the source, so encode and translate errors need `start <= end`.
   */
  function ReplaceErrors(err: ErrorObject): (r: Result<Replacement, Exception>)
    requires IsEncodeIshErr(err) ==> err.start <= err.end
    ensures r.Success? <==> IsDecodeErr(err) || IsEncodeIshErr(err)
    ensures r.Success? ==> r.value.resume == err.end
    ensures IsDecodeErr(err) ==> r.value.text == [REPLACEMENT_CHARACTER]
    ensures IsEncodeIshErr(err) ==>
      && |r.value.text| == err.end - err.start
      && forall k :: 0 <= k < |r.value.text| ==>
           r.value.text[k] == (if err.UnicodeEncodeError? then '?' else REPLACEMENT_CHARACTER)
    ensures r.Failure? ==> r.error == BadErrType(err)
  {
    match err
    case UnicodeEncodeError(start, end, _) => Success(Replacement(Repeat('?', end - start), end))
    case UnicodeDecodeError(_, end, _) => Success(Replacement([REPLACEMENT_CHARACTER], end))
    case UnicodeTranslateError(start, end, _) =>
      Success(Replacement(Repeat(REPLACEMENT_CHARACTER, end - start), end))
    case _ => Failure(BadErrType(err))
  }

  /** Ignoring a decode error over [2, 5) gives "" and resumes at 5; replacing an encode error over [0, 3) gives "???". */
  lemma IgnoreReplaceExamples(bytes: seq<byte>, text: string)
    ensures IgnoreErrors(UnicodeDecodeError(2, 5, bytes)) == Success(Replacement("", 5))
    ensures ReplaceErrors(UnicodeEncodeError(0, 3, text)) == Success(Replacement("???", 3))
  {
    assert Repeat('?', 3) == "???";
  }

  /**
   * The characters an encode-ish handler visits: those from character index
   * `start` on (none when `start` is past the text), at most
   * `end - start` of them (none when `end <= start`).
   */
  function CharsInRange(s: string, start: nat, end: nat): (r: string)
    ensures start < end && start < |s| ==> r == s[start..if end < |s| then end else |s|]
    ensures end <= start || |s| <= start ==> r == ""
  {
    if end <= start || |s| <= start then "" else s[start..if end < |s| then end else |s|]
  }

  function CodePoints(s: string): (r: seq<int>)
    ensures |r| == |s| && forall k :: 0 <= k < |s| ==> r[k] == s[k] as int
  {
    seq(|s|, k requires 0 <= k < |s| => s[k] as int)
  }

  // ---------------------------------------------------------------------
  // xmlcharrefreplace

  /** `&#N;`, the decimal character reference of section 4.1 of XML 1.0. */
  function XmlCharRef(c: char): string
  {
    "&#" + Decimal(c as int) + ";"
  }

  function XmlCharRefs(s: string): string
  {
    if s == [] then "" else XmlCharRef(s[0]) + XmlCharRefs(s[1..])
  }

  lemma {:induction false} XmlCharRefsAppend(a: string, b: string)
    ensures XmlCharRefs(a + b) == XmlCharRefs(a) + XmlCharRefs(b)
  {
    if a == [] {
      assert a + b == b;
    } else {
      assert (a + b)[0] == a[0];
      assert (a + b)[1..] == a[1..] + b;
      XmlCharRefsAppend(a[1..], b);
    }
  }

  /**
   * `xmlcharrefreplace_errors`: a decimal character reference for each
   * character of the faulty span; decode errors are refused.
   */
  method XmlCharRefReplaceErrors(err: ErrorObject) returns (r: Result<Replacement, Exception>)
    ensures !IsEncodeIshErr(err) ==> r == Failure(BadErrType(err))
    ensures IsEncodeIshErr(err) ==>
      r == Success(Replacement(XmlCharRefs(CharsInRange(err.text, err.start, err.end)), err.end))
  {
    if !IsEncodeIshErr(err) {
      return Failure(BadErrType(err));
    }
    var s := err.text;
    var afterStart := if err.start <= |s| then s[err.start..] else "";
    var numChars := if err.start <= err.end then err.end - err.start else 0;
    var out := "";
    var i := 0;
    while i < numChars && i < |afterStart|
      invariant 0 <= i <= |afterStart| && i <= numChars
      invariant out == XmlCharRefs(afterStart[..i])
    {
      XmlCharRefsAppend(afterStart[..i], [afterStart[i]]);
      assert afterStart[..i + 1] == afterStart[..i] + [afterStart[i]];
      out := out + XmlCharRef(afterStart[i]);
      i := i + 1;
    }
    if err.end <= err.start || |s| <= err.start {
      assert afterStart[..i] == "";
    } else {
      assert afterStart[..i] == s[err.start..if err.end < |s| then err.end else |s|];
    }
    assert afterStart[..i] == CharsInRange(s, err.start, err.end);
    return Success(Replacement(out, err.end));
  }

  /** The length of the leading run of decimal digits. */
  function DigitRun(s: string): (n: nat)
    ensures n <= |s| && AllDigits(s[..n])
    ensures n < |s| ==> !IsDigit(s[n])
  {
    if s == [] || !IsDigit(s[0]) then 0
    else
      var n := DigitRun(s[1..]);
      assert s[..n + 1] == [s[0]] + s[1..][..n];
      1 + n
  }

  /** Reads a sequence of `&#N;` references back into code points. */
  function ParseXmlCharRefs(s: string): Option<seq<int>>
    decreases |s|
  {
    if s == [] then Some([])
    else if |s| < 2 || s[0] != '&' || s[1] != '#' then None
    else
      var n := DigitRun(s[2..]);
      if n == 0 || |s| <= 2 + n || s[2 + n] != ';' then None
      else
        assert s[2..][..n] == s[2..2 + n];
        match ParseXmlCharRefs(s[3 + n..])
        case None => None
        case Some(rest) => Some([ParseDecimal(s[2..2 + n])] + rest)
  }

  lemma {:induction false} DigitRunOfDigits(d: string, rest: string)
    requires AllDigits(d)
    requires rest != [] && !IsDigit(rest[0])
    ensures DigitRun(d + rest) == |d|
  {
    if d != [] {
      assert (d + rest)[1..] == d[1..] + rest;
      DigitRunOfDigits(d[1..], rest);
    } else {
      assert d + rest == rest;
    }
  }

  /** One reference followed by more text parses as its number followed by the rest. */
  lemma ParseXmlCharRefsStep(n: nat, rest: string)
    ensures ParseXmlCharRefs("&#" + Decimal(n) + ";" + rest) ==
      match ParseXmlCharRefs(rest)
      case None => None
      case Some(ns) => Some([n] + ns)
  {
    var d := Decimal(n);
    var s := "&#" + d + ";" + rest;
    assert s[0] == '&' && s[1] == '#';
    assert s[2..] == d + (";" + rest);
    DigitRunOfDigits(d, ";" + rest);
    assert s[2 + |d|] == ';';
    assert s[2..2 + |d|] == d;
    assert s[3 + |d|..] == rest;
    ParseDecimalOfDecimal(n);
  }

  /** The references are unambiguous: reading them back gives the code points replaced. */
  lemma {:induction false} XmlCharRefsRoundTrip(s: string)
    ensures ParseXmlCharRefs(XmlCharRefs(s)) == Some(CodePoints(s))
  {
    if s != [] {
      ParseXmlCharRefsStep(s[0] as int, XmlCharRefs(s[1..]));
      XmlCharRefsRoundTrip(s[1..]);
      assert CodePoints(s) == [s[0] as int] + CodePoints(s[1..]);
    }
  }

  /** The reference for U+00E9 is `&#233;`. */
  lemma XmlCharRefExample()
    ensures XmlCharRefs("\U{E9}") == "&#233;"
  {
    assert Decimal(233) == "233";
  }

  // ---------------------------------------------------------------------
  // backslashreplace

  /** `\xhh` for a byte. */
  function ByteEscape(b: byte): string
  {
    "\\x" + Hex(b as int, 2)
  }

  function ByteEscapes(bs: seq<byte>): string
  {
    if bs == [] then "" else ByteEscape(bs[0]) + ByteEscapes(bs[1..])
  }

  /** `\Uhhhhhhhh` above U+FFFF, `\uhhhh` above U+00FF, `\xhh` otherwise. */
  function CharEscape(c: char): string
  {
    var n := c as int;
    if n >= 0x10000 then "\\U" + Hex(n, 8)
    else if n >= 0x100 then "\\u" + Hex(n, 4)
    else "\\x" + Hex(n, 2)
  }

  function CharEscapes(s: string): string
  {
    if s == [] then "" else CharEscape(s[0]) + CharEscapes(s[1..])
  }

  lemma {:induction false} ByteEscapesAppend(a: seq<byte>, b: seq<byte>)
    ensures ByteEscapes(a + b) == ByteEscapes(a) + ByteEscapes(b)
  {
    if a == [] {
      assert a + b == b;
    } else {
      assert (a + b)[0] == a[0];
      assert (a + b)[1..] == a[1..] + b;
      ByteEscapesAppend(a[1..], b);
    }
  }

  lemma {:induction false} CharEscapesAppend(a: string, b: string)
    ensures CharEscapes(a + b) == CharEscapes(a) + CharEscapes(b)
  {
    if a == [] {
      assert a + b == b;
    } else {
      assert (a + b)[0] == a[0];
      assert (a + b)[1..] == a[1..] + b;
      CharEscapesAppend(a[1..], b);
    }
  }

  /** The decode branch of `backslashreplace_errors`: `\xhh` appended for each byte. */
  method EscapeBytes(b: seq<byte>) returns (replace: string)
    ensures replace == ByteEscapes(b)
  {
    replace := "";
    var i := 0;
    while i < |b|
      invariant 0 <= i <= |b|
      invariant replace == ByteEscapes(b[..i])
    {
      ByteEscapesAppend(b[..i], [b[i]]);
      assert b[..i + 1] == b[..i] + [b[i]];
      replace := replace + ByteEscape(b[i]);
      i := i + 1;
    }
    assert b[..i] == b;
  }

  /**
   * `backslashreplace_errors`: `\xhh` for each byte of a decode error's span
   * (the span is a slice of the bytes, so it must lie within them); for an
   * encode or translate error, an escape sized to each character's code
   * point.
   */
  method BackslashReplaceErrors(err: ErrorObject) returns (r: Result<Replacement, Exception>)
    requires err.UnicodeDecodeError? ==> err.start <= err.end <= |err.bytes|
    ensures err.UnicodeDecodeError? ==>
      r == Success(Replacement(ByteEscapes(err.bytes[err.start..err.end]), err.end))
    ensures IsEncodeIshErr(err) ==>
      r == Success(Replacement(CharEscapes(CharsInRange(err.text, err.start, err.end)), err.end))
    ensures !IsDecodeErr(err) && !IsEncodeIshErr(err) ==> r == Failure(BadErrType(err))
  {
    if IsDecodeErr(err) {
      var replace := EscapeBytes(err.bytes[err.start..err.end]);
      return Success(Replacement(replace, err.end));
    } else if !IsEncodeIshErr(err) {
      return Failure(BadErrType(err));
    }
    var s := err.text;
    var afterStart := if err.start <= |s| then s[err.start..] else "";
    var numChars := if err.start <= err.end then err.end - err.start else 0;
    var out := "";
    var i := 0;
    while i < numChars && i < |afterStart|
      invariant 0 <= i <= |afterStart| && i <= numChars
      invariant out == CharEscapes(afterStart[..i])
    {
      CharEscapesAppend(afterStart[..i], [afterStart[i]]);
      assert afterStart[..i + 1] == afterStart[..i] + [afterStart[i]];
      var c := afterStart[i] as int;
      var escape;
      if c >= 0x10000 {
        escape := "\\U" + Hex(c, 8);
      } else if c >= 0x100 {
        escape := "\\u" + Hex(c, 4);
      } else {
        escape := "\\x" + Hex(c, 2);
      }
      assert escape == CharEscape(afterStart[i]);
      out := out + escape;
      i := i + 1;
    }
    if err.end <= err.start || |s| <= err.start {
      assert afterStart[..i] == "";
    } else {
      assert afterStart[..i] == s[err.start..if err.end < |s| then err.end else |s|];
    }
    assert afterStart[..i] == CharsInRange(s, err.start, err.end);
    return Success(Replacement(out, err.end));
  }

  /** Each escape is 4, 6 or 10 characters, by the size of the code point. */
  lemma CharEscapeWidth(c: char)
    ensures c as int >= 0x10000 ==> |CharEscape(c)| == 10
    ensures 0x100 <= c as int < 0x10000 ==> |CharEscape(c)| == 6
    ensures c as int < 0x100 ==> |CharEscape(c)| == 4
  {
  }

  /** A decode error's replacement is four characters per byte. */
  lemma {:induction false} ByteEscapesLength(bs: seq<byte>)
    ensures |ByteEscapes(bs)| == 4 * |bs|
  {
    if bs != [] {
      ByteEscapesLength(bs[1..]);
    }
  }

  /** The width named by the letter after the backslash: x, u or U. */
  function EscapeWidth(c: char): nat
  {
    if c == 'x' then 2 else if c == 'u' then 4 else if c == 'U' then 8 else 0
  }

  /** Reads a sequence of `\x`, `\u` and `\U` escapes back into numbers. */
  function ParseEscapes(s: string): Option<seq<int>>
    decreases |s|
  {
    if s == [] then Some([])
    else if |s| < 2 || s[0] != '\\' then None
    else
      var w := EscapeWidth(s[1]);
      if w == 0 || |s| < 2 + w || !AllLowerHex(s[2..2 + w]) then None
      else match ParseEscapes(s[2 + w..])
        case None => None
        case Some(rest) => Some([ParseHex(s[2..2 + w])] + rest)
  }

  /** One escape followed by more text parses as its number followed by the rest. */
  lemma ParseEscapesStep(letter: char, n: nat, w: nat, rest: string)
    requires EscapeWidth(letter) == w && w > 0 && n < Pow16(w)
    ensures ParseEscapes("\\" + [letter] + Hex(n, w) + rest) ==
      match ParseEscapes(rest)
      case None => None
      case Some(ns) => Some([n] + ns)
  {
    var s := "\\" + [letter] + Hex(n, w) + rest;
    assert s[0] == '\\' && s[1] == letter;
    assert s[2..2 + w] == Hex(n, w);
    assert s[2 + w..] == rest;
    ParseHexOfHex(n, w);
  }

  /** The byte escapes are unambiguous: reading them back gives the bytes. */
  lemma {:induction false} ByteEscapesRoundTrip(bs: seq<byte>)
    ensures ParseEscapes(ByteEscapes(bs)).Some?
    ensures |ParseEscapes(ByteEscapes(bs)).value| == |bs|
    ensures forall k :: 0 <= k < |bs| ==> ParseEscapes(ByteEscapes(bs)).value[k] == bs[k] as int
  {
    if bs != [] {
      assert ByteEscapes(bs) == "\\" + ['x'] + Hex(bs[0] as int, 2) + ByteEscapes(bs[1..]);
      ParseEscapesStep('x', bs[0] as int, 2, ByteEscapes(bs[1..]));
      ByteEscapesRoundTrip(bs[1..]);
    }
  }

  /** One character's escape followed by more text parses as its code point followed by the rest. */
  lemma CharEscapeStep(c: char, rest: string)
    ensures ParseEscapes(CharEscape(c) + rest) ==
      match ParseEscapes(rest)
      case None => None
      case Some(ns) => Some([c as int] + ns)
  {
    var n := c as int;
    if n >= 0x10000 {
      assert n < Pow16(8);
      ParseEscapesStep('U', n, 8, rest);
    } else if n >= 0x100 {
      ParseEscapesStep('u', n, 4, rest);
    } else {
      ParseEscapesStep('x', n, 2, rest);
    }
  }

  /** The character escapes are unambiguous: reading them back gives the code points. */
  lemma {:induction false} CharEscapesRoundTrip(s: string)
    ensures ParseEscapes(CharEscapes(s)) == Some(CodePoints(s))
  {
    if s != [] {
      CharEscapeStep(s[0], CharEscapes(s[1..]));
      CharEscapesRoundTrip(s[1..]);
      assert CodePoints(s) == [s[0] as int] + CodePoints(s[1..]);
    }
  }

  /** Bytes FF FE become `\xff\xfe`. */
  lemma ByteEscapesExample()
    ensures ByteEscapes([0xff, 0xfe]) == "\\xff\\xfe"
  {
  }
}
