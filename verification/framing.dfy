/** The Content-Length framing both ends of the runner pipe use: a header
    `Content-Length: <n>`, a blank line, then the body. Streams are the
    characters the peer writes before closing its end; lengths count
    characters, as String#length does. */
module Framing {
  import opened Outcomes
  import opened Text

  const LengthField: string := "Content-Length: "
  const Terminator: string := "\r\n\r\n"

  /** The frame `send_message` (and the worker) writes for a body. */
  function EncodeFrame(body: string): (frame: string)
    ensures StartsWith(frame, LengthField) && EndsWith(frame, Terminator + body)
  {
    LengthField + ShowNat(|body|) + Terminator + body
  }

  predicate OccursAt(s: string, pat: string, i: nat) {
    i + |pat| <= |s| && s[i..i + |pat|] == pat
  }

  /** The first position at or after `from` where `pat` occurs in `s`. */
  function FindFrom(s: string, pat: string, from: nat): (r: Option<nat>)
    requires |pat| > 0 && from <= |s|
    ensures r.Some? ==> from <= r.value && OccursAt(s, pat, r.value)
    ensures r.Some? ==> forall j :: from <= j < r.value ==> !OccursAt(s, pat, j)
    ensures r.None? ==> forall j :: from <= j <= |s| ==> !OccursAt(s, pat, j)
    decreases |s| - from
  {
    if from + |pat| > |s| then None
    else if s[from..from + |pat|] == pat then Some(from)
    else FindFrom(s, pat, from + 1)
  }

  /** IO#gets("\r\n\r\n") on a stream holding s: nil at end of stream;
      otherwise everything up to and including the first terminator, or the
      whole remaining stream when no terminator ever arrives. */
  function Gets(s: string): (r: Option<(string, string)>)
    ensures r.None? <==> s == []
    ensures r.Some? ==> r.value.0 + r.value.1 == s
    ensures r.Some? && r.value.1 != [] ==> EndsWith(r.value.0, Terminator)
    ensures r.Some? && (exists j :: OccursAt(s, Terminator, j)) ==> EndsWith(r.value.0, Terminator)
    ensures r.Some? ==> forall j :: 0 <= j < |r.value.0| - |Terminator| ==> !OccursAt(s, Terminator, j)
  {
    if s == [] then None
    else match FindFrom(s, Terminator, 0)
      case Some(i) => Some((s[..i + |Terminator|], s[i + |Terminator|..]))
      case None => Some((s, []))
  }

  /** One more than the largest count IO#read accepts: the count is
      converted to a C long (NUM2LONG), taken here to be 64 bits wide as on
      Linux and macOS; on 64-bit Windows it is 32 bits. */
  const LongLimit: nat := 0x8000_0000_0000_0000

  /** IO#read(n) on a stream holding s: RangeError when n does not fit a
      long, "" when n is zero, nil at end of stream, otherwise up to n
      characters (fewer when the stream ends first). */
  function Read(s: string, n: nat): (r: Result<Option<(string, string)>>)
    ensures r.Raised? <==> n >= LongLimit
    ensures r.Raised? ==> r.error == RangeError
    ensures r.Ok? ==> (r.value.None? <==> n > 0 && s == [])
    ensures r.Ok? && r.value.Some? ==> r.value.value.0 + r.value.value.1 == s
    ensures r.Ok? && r.value.Some? ==> |r.value.value.0| == if n <= |s| then n else |s|
  {
    if n >= LongLimit then Raised(RangeError)
    else if n == 0 then Ok(Some(([], s)))
    else if s == [] then Ok(None)
    else if n <= |s| then Ok(Some((s[..n], s[n..])))
    else Ok(Some((s, [])))
  }

  /** Whether /Content-Length: (\d+)/i matches at position i of the header. */
  predicate LengthMatchAt(h: string, i: nat) {
    i + |LengthField| < |h|
    && CaseInsensitiveEqual(h[i..i + |LengthField|], LengthField)
    && IsDigit(h[i + |LengthField|])
  }

  /** The digits of the leftmost match at or after i, or 0 when none. */
  function LengthFrom(h: string, i: nat): nat
    decreases |h| - i
  {
    if i >= |h| then 0
    else if LengthMatchAt(h, i) then ParseDigits(DigitRun(h[i + |LengthField|..]))
    else LengthFrom(h, i + 1)
  }

  /** `headers[/Content-Length: (\d+)/i, 1].to_i`: the digits of the leftmost
      match, or 0 (nil.to_i) when nothing matches. */
  function ContentLength(h: string): nat {
    LengthFrom(h, 0)
  }

  lemma {:induction false} LengthFromLeftmost(h: string, i: nat, k: nat)
    requires i <= k < |h| && LengthMatchAt(h, k)
    requires forall j :: i <= j < k ==> !LengthMatchAt(h, j)
    ensures LengthFrom(h, i) == ParseDigits(DigitRun(h[k + |LengthField|..]))
    decreases k - i
  {
    if i < k {
      LengthFromLeftmost(h, i + 1, k);
    }
  }

  lemma {:induction false} LengthFromNoMatch(h: string, i: nat)
    requires forall j :: i <= j < |h| ==> !LengthMatchAt(h, j)
    ensures LengthFrom(h, i) == 0
    decreases |h| - i
  {
    if i < |h| {
      LengthFromNoMatch(h, i + 1);
    }
  }

  /** `headers[/Content-Length: (\d+)/i, 1].to_i` takes the digits of the
      leftmost match, and is 0 (nil.to_i) when nothing matches. */
  lemma ContentLengthIsLeftmostMatch(h: string)
    ensures (forall j :: 0 <= j < |h| ==> !LengthMatchAt(h, j)) ==> ContentLength(h) == 0
    ensures forall k :: 0 <= k < |h| && LengthMatchAt(h, k) && (forall j :: 0 <= j < k ==> !LengthMatchAt(h, j))
              ==> ContentLength(h) == ParseDigits(DigitRun(h[k + |LengthField|..]))
  {
    if forall j :: 0 <= j < |h| ==> !LengthMatchAt(h, j) {
      LengthFromNoMatch(h, 0);
    }
    forall k | 0 <= k < |h| && LengthMatchAt(h, k) && (forall j :: 0 <= j < k ==> !LengthMatchAt(h, j))
      ensures ContentLength(h) == ParseDigits(DigitRun(h[k + |LengthField|..]))
    {
      LengthFromLeftmost(h, 0, k);
    }
  }

  /** What reading one frame from a stream yields. */
  datatype Decoded =
    | Decoded(body: string, rest: string)  // the (possibly short) body and the unread rest
    | EndOfStream                          // gets answered nil
    | BodyMissing                          // read answered nil: a positive length and nothing left
    | LengthOutOfRange(rest: string)       // read raised RangeError; rest is what followed the header

  /** The header read followed by the body read, as `read_response` and the
      worker's loop perform them. */
  function DecodeFrame(s: string): (d: Decoded)
    ensures d == EndOfStream <==> s == []
    ensures d.LengthOutOfRange? <==> s != [] && ContentLength(Gets(s).value.0) >= LongLimit
    ensures d.LengthOutOfRange? ==> d.rest == Gets(s).value.1
    ensures d == BodyMissing <==>
              s != [] && 0 < ContentLength(Gets(s).value.0) < LongLimit && Gets(s).value.1 == []
    ensures d.Decoded? ==>
              |d.body| == Min(ContentLength(Gets(s).value.0), |Gets(s).value.1|)
    ensures d.Decoded? ==> s == Gets(s).value.0 + d.body + d.rest
  {
    match Gets(s)
    case None => EndOfStream
    case Some((header, afterHeader)) =>
      match Read(afterHeader, ContentLength(header))
      case Raised(_) => LengthOutOfRange(afterHeader)
      case Ok(None) => BodyMissing
      case Ok(Some((body, rest))) => Decoded(body, rest)
  }

  function Min(a: nat, b: nat): nat {
    if a <= b then a else b
  }

  /** The header a frame announcing n characters starts with declares n. */
  lemma LengthOfEncodedHeader(n: nat, t: string)
    requires t == [] || !IsDigit(t[0])
    ensures ContentLength(LengthField + ShowNat(n) + t) == n
  {
    LengthFieldIgnoresCase(LengthField, n, t);
  }

  /** A header written by EncodeFrame ends at its own terminator. */
  lemma GetsOfEncodedHeader(n: nat, tail: string)
    ensures Gets(LengthField + ShowNat(n) + Terminator + tail)
         == Some((LengthField + ShowNat(n) + Terminator, tail))
  {
    var a := LengthField + ShowNat(n);
    var s := a + Terminator + tail;
    assert OccursAt(s, Terminator, |a|);
    forall j | 0 <= j < |a|
      ensures !OccursAt(s, Terminator, j)
    {
      assert s[j] == a[j];
      if j < |LengthField| {
        assert a[j] == LengthField[j];
      } else {
        assert a[j] == ShowNat(n)[j - |LengthField|];
      }
    }
    assert s[..|a| + |Terminator|] == a + Terminator;
    assert s[|a| + |Terminator|..] == tail;
  }

  /** Framing round trip: reading a frame EncodeFrame wrote gives back exactly
      its body and leaves whatever follows unread. */
  lemma DecodeEncode(body: string, rest: string)
    requires |body| < LongLimit
    ensures DecodeFrame(EncodeFrame(body) + rest) == Decoded(body, rest)
  {
    var header := LengthField + ShowNat(|body|) + Terminator;
    assert EncodeFrame(body) + rest == header + (body + rest);
    GetsOfEncodedHeader(|body|, body + rest);
    LengthOfEncodedHeader(|body|, Terminator);
    assert (body + rest)[..|body|] == body;
    assert (body + rest)[|body|..] == rest;
  }

  /** A header declaring more characters than the stream still holds yields
      the short remainder as the body, not an error, as IO#read does. */
  lemma ShortBodyIsReturned(n: nat, partial: string)
    requires 0 < |partial| < n < LongLimit
    ensures DecodeFrame(LengthField + ShowNat(n) + Terminator + partial) == Decoded(partial, [])
  {
    GetsOfEncodedHeader(n, partial);
    LengthOfEncodedHeader(n, Terminator);
  }

  /** A header declaring a positive length with nothing after it yields no body at all. */
  lemma NothingAfterHeader(n: nat)
    requires 0 < n < LongLimit
    ensures DecodeFrame(LengthField + ShowNat(n) + Terminator) == BodyMissing
  {
    GetsOfEncodedHeader(n, []);
    assert LengthField + ShowNat(n) + Terminator + [] == LengthField + ShowNat(n) + Terminator;
    LengthOfEncodedHeader(n, Terminator);
  }

  /** Without a terminator the whole stream is taken as the header and no
      body can follow: the frame has an empty body when no length is
      declared, and none otherwise. */
  lemma UnterminatedHeader(s: string)
    requires s != []
    requires forall j :: 0 <= j <= |s| ==> !OccursAt(s, Terminator, j)
    ensures ContentLength(s) == 0 ==> DecodeFrame(s) == Decoded([], [])
    ensures 0 < ContentLength(s) < LongLimit ==> DecodeFrame(s) == BodyMissing
    ensures ContentLength(s) >= LongLimit ==> DecodeFrame(s) == LengthOutOfRange([])
  {
  }

  /** A declared length that does not fit a long makes the body read raise
      RangeError before anything after the header is consumed. */
  lemma LengthBeyondLongRaises(n: nat, tail: string)
    requires n >= LongLimit
    ensures DecodeFrame(LengthField + ShowNat(n) + Terminator + tail) == LengthOutOfRange(tail)
  {
    GetsOfEncodedHeader(n, tail);
    LengthOfEncodedHeader(n, Terminator);
  }

  /** The length field is matched regardless of letter case: any spelling
      of `Content-Length: ` that folds to it, followed by the digits of n and
      a non-digit, declares n. */
  lemma LengthFieldIgnoresCase(h: string, n: nat, t: string)
    requires CaseInsensitiveEqual(h, LengthField)
    requires t == [] || !IsDigit(t[0])
    ensures ContentLength(h + ShowNat(n) + t) == n
  {
    var s := h + ShowNat(n) + t;
    assert s[..|LengthField|] == h;
    assert s[|LengthField|] == ShowNat(n)[0];
    assert LengthMatchAt(s, 0);
    assert s[|LengthField|..] == ShowNat(n) + t;
    DigitRunOfDigits(ShowNat(n), t);
    ParseShowNat(n);
  }
}
