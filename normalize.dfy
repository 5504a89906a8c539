/**
 * Encoding-name normalisation (`normalize_encoding_name`): the cache key
 * under which a codec is stored. From the first space or ASCII upper-case
 * letter on, spaces become hyphens and ASCII upper-case letters become lower
 * case; the characters before it are kept as they are.
 *
 * Names are modelled as strings of characters. The source rewrites the UTF-8
 * bytes of the name, but it only ever touches ASCII bytes, which stand for
 * themselves, so the character-level rewrite is the same function.
 */
module Normalize {
  import opened Wrappers

  /** The process-wide default encoding name. */
  const DEFAULT_ENCODING: string := "utf-8"

  /** A character that starts the rewrite: a space or an ASCII upper-case letter. */
  predicate IsTrigger(c: char)
  {
    c == ' ' || 'A' <= c <= 'Z'
  }

  predicate NoTrigger(s: string)
  {
    forall k :: 0 <= k < |s| ==> !IsTrigger(s[k])
  }

  /** `make_ascii_lowercase`: only 'A'..'Z' change. */
  function AsciiLower(c: char): (r: char)
    ensures 'A' <= c <= 'Z' ==> 'a' <= r <= 'z' && r as int == c as int + 32
    ensures !('A' <= c <= 'Z') ==> r == c
  {
    if 'A' <= c <= 'Z' then (c as int + 32) as char else c
  }

  /** The rewrite applied to every character from the first trigger on. */
  function FoldChar(c: char): (r: char)
    ensures !IsTrigger(r)
    ensures !IsTrigger(c) ==> r == c
    ensures IsTrigger(c) ==> r != c
  {
    if c == ' ' then '-' else AsciiLower(c)
  }

  /** `encoding.find(|c| c == ' ' || c.is_ascii_uppercase())`. */
  function FirstTrigger(s: string): (r: Option<nat>)
    ensures r.None? <==> NoTrigger(s)
    ensures r.Some? ==> r.value < |s| && IsTrigger(s[r.value]) && NoTrigger(s[..r.value])
  {
    if s == [] then None
    else if IsTrigger(s[0]) then Some(0)
    else match FirstTrigger(s[1..])
      case None => None
      case Some(i) =>
        assert s[..i + 1] == [s[0]] + s[1..][..i];
        Some(i + 1)
  }

  /** The normalised name: the prefix before the first trigger kept, the rest folded. */
  function NormalizedName(s: string): string
  {
    match FirstTrigger(s)
    case None => s
    case Some(i) => seq(|s|, k requires 0 <= k < |s| => if k < i then s[k] else FoldChar(s[k]))
  }

  /** Every character folded, with no special treatment of a prefix. */
  function FoldAll(s: string): (r: string)
    ensures |r| == |s|
  {
    seq(|s|, k requires 0 <= k < |s| => FoldChar(s[k]))
  }

  /**
   * The normaliser as the source runs it: copy the name into a buffer and
   * rewrite the buffer in place from the first trigger on. A name without a
   * trigger is returned as it is.
   */
  method NormalizeEncodingName(encoding: string) returns (out: string)
    ensures out == NormalizedName(encoding)
  {
    var first := FirstTrigger(encoding);
    if first.None? {
      return encoding;
    }
    var i := first.value;
    var buf := new char[|encoding|](k requires 0 <= k < |encoding| => encoding[k]);
    var j := i;
    while j < buf.Length
      invariant i <= j <= buf.Length
      invariant forall k :: 0 <= k < buf.Length ==>
        buf[k] == (if i <= k < j then FoldChar(encoding[k]) else encoding[k])
    {
      if buf[j] == ' ' {
        buf[j] := '-';
      } else {
        buf[j] := AsciiLower(buf[j]);
      }
      j := j + 1;
    }
    out := buf[..];
  }

  /** The shape of the result: same length, prefix before the first trigger kept, the rest folded. */
  lemma NormalizedNameShape(s: string)
    ensures |NormalizedName(s)| == |s|
    ensures FirstTrigger(s).None? ==> NormalizedName(s) == s
    ensures FirstTrigger(s).Some? ==>
      var i := FirstTrigger(s).value;
      && NormalizedName(s)[..i] == s[..i]
      && forall k :: i <= k < |s| ==> NormalizedName(s)[k] == FoldChar(s[k])
  {
  }

  /**
   * Keeping the prefix is an optimisation only: the characters before the
   * first trigger are exactly those folding leaves alone, so the normalised
   * name is the whole name folded.
   */
  lemma NormalizedNameIsFoldAll(s: string)
    ensures NormalizedName(s) == FoldAll(s)
  {
    match FirstTrigger(s)
    case None =>
    case Some(i) =>
      forall k | 0 <= k < i
        ensures FoldChar(s[k]) == s[k]
      {
        assert s[k] == s[..i][k];
      }
  }

  /** The result contains no space and no ASCII upper-case letter. */
  lemma NormalizedNameHasNoTrigger(s: string)
    ensures NoTrigger(NormalizedName(s))
  {
    NormalizedNameIsFoldAll(s);
  }

  /** A name is its own normal form exactly when it has no trigger. */
  lemma NormalizedNameFixedPoint(s: string)
    ensures NormalizedName(s) == s <==> NoTrigger(s)
  {
    if NormalizedName(s) == s {
      NormalizedNameHasNoTrigger(s);
    }
  }

  /** Normalising twice is normalising once. */
  lemma NormalizedNameIdempotent(s: string)
    ensures NormalizedName(NormalizedName(s)) == NormalizedName(s)
  {
    NormalizedNameHasNoTrigger(s);
    NormalizedNameFixedPoint(NormalizedName(s));
  }

  /** The default encoding name is already normal. */
  lemma DefaultEncodingIsNormal()
    ensures NormalizedName(DEFAULT_ENCODING) == DEFAULT_ENCODING
  {
    NormalizedNameFixedPoint(DEFAULT_ENCODING);
  }

  /** Worked examples: "UTF8" becomes "utf8", "Latin 1" becomes "latin-1". */
  lemma NormalizedNameExamples()
    ensures NormalizedName("UTF8") == "utf8"
    ensures NormalizedName("Latin 1") == "latin-1"
  {
    NormalizedNameIsFoldAll("UTF8");
    NormalizedNameIsFoldAll("Latin 1");
  }
}
