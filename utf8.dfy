/**
 * UTF-8 as `bytes.decode('utf-8')` (strict errors) sees it: the byte grammar
 * of section 4 of RFC 3629 ("Syntax of UTF-8 Byte Sequences"), a decoder that
 * stops at the first ill-formed sequence the way CPython reports it, and the
 * encoder that decoding inverts.
 */
module Utf8 {
  import opened Wrappers
  import opened Text

  newtype byte = b: int | 0 <= b < 0x100

  // ---------------------------------------------------------------------------
  // The grammar of section 4 of RFC 3629
  // ---------------------------------------------------------------------------

  /** UTF8-tail = %x80-BF */
  predicate IsTail(b: byte)
  {
    0x80 <= b <= 0xBF
  }

  /** UTF8-char = UTF8-1 / UTF8-2 / UTF8-3 / UTF8-4, one alternative of the ABNF per line. */
  predicate IsUtf8Char(c: seq<byte>)
  {
    (|c| == 1 && c[0] <= 0x7F) ||
    (|c| == 2 && 0xC2 <= c[0] <= 0xDF && IsTail(c[1])) ||
    (|c| == 3 && IsTail(c[2]) &&
      ((c[0] == 0xE0 && 0xA0 <= c[1] <= 0xBF) ||
       (0xE1 <= c[0] <= 0xEC && IsTail(c[1])) ||
       (c[0] == 0xED && 0x80 <= c[1] <= 0x9F) ||
       (0xEE <= c[0] <= 0xEF && IsTail(c[1])))) ||
    (|c| == 4 && IsTail(c[2]) && IsTail(c[3]) &&
      ((c[0] == 0xF0 && 0x90 <= c[1] <= 0xBF) ||
       (0xF1 <= c[0] <= 0xF3 && IsTail(c[1])) ||
       (c[0] == 0xF4 && 0x80 <= c[1] <= 0x8F)))
  }

  /** UTF8-octets = *( UTF8-char ) */
  ghost predicate WellFormed(s: seq<byte>)
    decreases |s|
  {
    s == [] ||
    exists n :: 1 <= n <= 4 && n <= |s| && IsUtf8Char(s[..n]) && WellFormed(s[n..])
  }

  // ---------------------------------------------------------------------------
  // Code points
  // ---------------------------------------------------------------------------

  /** The code point a UTF8-char stands for: the payload bits of its bytes, most significant first. */
  function CodePoint(c: seq<byte>): int
    requires 1 <= |c| <= 4
  {
    if |c| == 1 then c[0] as int
    else if |c| == 2 then (c[0] as int - 0xC0) * 0x40 + (c[1] as int - 0x80)
    else if |c| == 3 then
      (c[0] as int - 0xE0) * 0x1000 + (c[1] as int - 0x80) * 0x40 + (c[2] as int - 0x80)
    else
      (c[0] as int - 0xF0) * 0x40000 + (c[1] as int - 0x80) * 0x1000 +
      (c[2] as int - 0x80) * 0x40 + (c[3] as int - 0x80)
  }

  /** The grammar admits exactly the Unicode scalar values: no surrogates, nothing above U+10FFFF. */
  lemma CodePointIsScalar(c: seq<byte>)
    requires 1 <= |c| <= 4
    ensures IsUtf8Char(c) ==> 0 <= CodePoint(c) < 0xD800 || 0xE000 <= CodePoint(c) < 0x11_0000
  {
  }

  /** The character a UTF8-char stands for; the grammar keeps the fallback branch unreachable. */
  function ToChar(c: seq<byte>): (r: char)
    requires 1 <= |c| <= 4
    ensures IsUtf8Char(c) ==> r as int == CodePoint(c)
  {
    CodePointIsScalar(c);
    var x := CodePoint(c);
    if 0 <= x < 0xD800 || 0xE000 <= x < 0x11_0000 then x as char else '?'
  }

  // ---------------------------------------------------------------------------
  // The strict decoder
  // ---------------------------------------------------------------------------

  /** The three reasons CPython's UTF-8 decoder gives. */
  datatype Reason = InvalidStartByte | InvalidContinuationByte | UnexpectedEndOfData

  /**
   * A `UnicodeDecodeError`: the bytes `start .. end-1` of the input are the
   * maximal ill-formed part that starts at `start`, whose first byte is `firstByte`.
   */
  datatype DecodeFailure = DecodeFailure(start: nat, end: nat, firstByte: byte, reason: Reason)

  /** What the decoder makes of the bytes at the front: the length of one character, or an ill-formed part. */
  datatype Step = Char(len: nat) | Bad(len: nat, reason: Reason)

  /** Bytes a character starting with `lead` occupies; 0 when no character starts with it. */
  function SequenceLength(lead: byte): nat
  {
    if lead <= 0x7F then 1
    else if 0xC2 <= lead <= 0xDF then 2
    else if 0xE0 <= lead <= 0xEF then 3
    else if 0xF0 <= lead <= 0xF4 then 4
    else 0
  }

  /** The second byte after `lead`: narrower than UTF8-tail after E0, ED, F0 and F4. */
  predicate SecondByteOk(lead: byte, b: byte)
  {
    if lead == 0xE0 then 0xA0 <= b <= 0xBF
    else if lead == 0xED then 0x80 <= b <= 0x9F
    else if lead == 0xF0 then 0x90 <= b <= 0xBF
    else if lead == 0xF4 then 0x80 <= b <= 0x8F
    else IsTail(b)
  }

  /**
   * One step of the decoder at the front of `s`. Every byte is checked before
   * running out of input is reported, so a bad byte wins over a short input.
   */
  function FirstStep(s: seq<byte>): (r: Step)
    requires s != []
    ensures 1 <= r.len <= |s| && r.len <= 4
    ensures r.Bad? && r.reason == UnexpectedEndOfData ==> r.len == |s|
  {
    var n := SequenceLength(s[0]);
    if n == 0 then Bad(1, InvalidStartByte)
    else if n == 1 then Char(1)
    else if |s| < 2 then Bad(1, UnexpectedEndOfData)
    else if !SecondByteOk(s[0], s[1]) then Bad(1, InvalidContinuationByte)
    else if n == 2 then Char(2)
    else if |s| < 3 then Bad(2, UnexpectedEndOfData)
    else if !IsTail(s[2]) then Bad(2, InvalidContinuationByte)
    else if n == 3 then Char(3)
    else if |s| < 4 then Bad(3, UnexpectedEndOfData)
    else if !IsTail(s[3]) then Bad(3, InvalidContinuationByte)
    else Char(4)
  }

  /** `s.decode('utf-8')`: the text, or the first ill-formed part with its position in `s`. */
  function Decode(s: seq<byte>): (r: Result<string, DecodeFailure>)
    ensures r.Ok? ==> |r.value| <= |s|
    ensures r.Err? ==> r.error.start < r.error.end <= |s| && r.error.firstByte == s[r.error.start]
    decreases |s|
  {
    if s == [] then Ok([])
    else
      match FirstStep(s)
      case Bad(len, reason) => Err(DecodeFailure(0, len, s[0], reason))
      case Char(len) =>
        match Decode(s[len..])
        case Ok(t) => Ok([ToChar(s[..len])] + t)
        case Err(e) => Err(DecodeFailure(e.start + len, e.end + len, e.firstByte, e.reason))
  }

  // ---------------------------------------------------------------------------
  // The encoder
  // ---------------------------------------------------------------------------

  /** The shortest UTF-8 form of one character. */
  function EncodeChar(c: char): (r: seq<byte>)
    ensures 1 <= |r| <= 4
  {
    var x := c as int;
    if x < 0x80 then [x as byte]
    else if x < 0x800 then [(0xC0 + x / 0x40) as byte, (0x80 + x % 0x40) as byte]
    else if x < 0x1_0000 then
      var q := x / 0x40;
      [(0xE0 + q / 0x40) as byte, (0x80 + q % 0x40) as byte, (0x80 + x % 0x40) as byte]
    else
      var q := x / 0x40;
      var p := q / 0x40;
      [(0xF0 + p / 0x40) as byte, (0x80 + p % 0x40) as byte,
       (0x80 + q % 0x40) as byte, (0x80 + x % 0x40) as byte]
  }

  /** `t.encode('utf-8')` */
  function Encode(t: string): seq<byte>
  {
    if t == [] then [] else EncodeChar(t[0]) + Encode(t[1..])
  }

  // ---------------------------------------------------------------------------
  // The decoder against the grammar
  // ---------------------------------------------------------------------------

  /** The decoder takes one character of `n` bytes exactly when the first `n` bytes form a UTF8-char. */
  lemma FirstStepMatchesGrammar(s: seq<byte>, n: nat)
    requires 1 <= n <= |s|
    ensures IsUtf8Char(s[..n]) <==> FirstStep(s).Char? && FirstStep(s).len == n
  {
  }

  /** After a first good character, `s` decodes exactly when the rest does. */
  lemma DecodeCharStep(s: seq<byte>)
    requires s != [] && FirstStep(s).Char?
    ensures Decode(s).Ok? <==> Decode(s[FirstStep(s).len..]).Ok?
  {
  }

  /** When the decoder rejects the first bytes, no UTF8-char starts the sequence. */
  lemma BadStepNotWellFormed(s: seq<byte>)
    requires s != [] && FirstStep(s).Bad?
    ensures !WellFormed(s)
  {
    forall n | 1 <= n <= 4 && n <= |s|
      ensures !IsUtf8Char(s[..n])
    {
      FirstStepMatchesGrammar(s, n);
    }
  }

  /** `bytes.decode('utf-8')` succeeds exactly on the byte sequences the grammar generates. */
  lemma {:induction false} DecodeSucceedsIffWellFormed(s: seq<byte>)
    ensures Decode(s).Ok? <==> WellFormed(s)
    decreases |s|
  {
    if s != [] {
      var st := FirstStep(s);
      if st.Char? {
        var rest := s[st.len..];
        DecodeSucceedsIffWellFormed(rest);
        DecodeCharStep(s);
        if WellFormed(s) {
          WellFormedUnfold(s);
        } else if WellFormed(rest) {
          FirstStepMatchesGrammar(s, st.len);
          WellFormedCons(s, st.len);
        }
      } else {
        BadStepNotWellFormed(s);
      }
    }
  }

  /** How the slices of a prefix and of a suffix fit together. */
  lemma SliceParts(s: seq<byte>, n: nat, k: nat)
    requires n + k <= |s|
    ensures s[..n + k][..n] == s[..n]
    ensures s[..n + k][n..] == s[n..][..k]
    ensures s[n..][k..] == s[n + k..]
  {
  }

  /** A UTF8-char followed by a well-formed sequence is well formed. */
  lemma WellFormedCons(s: seq<byte>, n: nat)
    requires 1 <= n <= 4 && n <= |s| && IsUtf8Char(s[..n]) && WellFormed(s[n..])
    ensures WellFormed(s)
  {
  }

  /** A non-empty well-formed sequence starts with the character the decoder reads first. */
  lemma WellFormedUnfold(s: seq<byte>)
    requires WellFormed(s) && s != []
    ensures FirstStep(s).Char? && WellFormed(s[FirstStep(s).len..])
  {
    var n :| 1 <= n <= 4 && n <= |s| && IsUtf8Char(s[..n]) && WellFormed(s[n..]);
    FirstStepMatchesGrammar(s, n);
  }

  /** The decoder reads the same first character from a sequence as from any prefix holding it. */
  lemma PrefixFirstChar(s: seq<byte>, p: seq<byte>)
    requires p != [] && p <= s && FirstStep(p).Char?
    ensures FirstStep(s).Char? && FirstStep(s).len == FirstStep(p).len
  {
    var m := FirstStep(p).len;
    assert p[..m] == s[..m];
    FirstStepMatchesGrammar(p, m);
    FirstStepMatchesGrammar(s, m);
  }

  /** A failure after a first good character lies in the rest, shifted by that character's length. */
  lemma DecodeErrUnfold(s: seq<byte>)
    requires s != [] && Decode(s).Err? && FirstStep(s).Char?
    ensures Decode(s[FirstStep(s).len..]).Err?
    ensures Decode(s).error.start == FirstStep(s).len + Decode(s[FirstStep(s).len..]).error.start
  {
  }

  /** No UTF8-char, of any length, starts at position `i` of `s`. */
  ghost predicate NoCharStartsAt(s: seq<byte>, i: nat)
  {
    forall j :: i < j <= i + 4 && j <= |s| ==> !IsUtf8Char(s[i..j])
  }

  /**
   * The reported position is the first ill-formed one: no UTF8-char of any
   * length starts there. With `FailurePrefixWellFormed`, this pins the
   * position the error message names.
   */
  lemma FailureAtFirstBadPosition(s: seq<byte>, e: DecodeFailure)
    requires Decode(s) == Err(e)
    ensures NoCharStartsAt(s, e.start)
  {
    FailureStartsBadStepAt(s, e);
    BadStepStartsNoChar(s, e.start);
  }

  /** `FailureStartsBadStep`, for a failure `e` named by the caller. */
  lemma FailureStartsBadStepAt(s: seq<byte>, e: DecodeFailure)
    requires Decode(s) == Err(e)
    ensures e.start < |s| && FirstStep(s[e.start..]).Bad?
  {
    FailureStartsBadStep(s);
    assert Decode(s).error == e;
    assert s[Decode(s).error.start..] == s[e.start..];
  }

  /** The decoder's first step at the reported position is a rejection. */
  lemma {:induction false} FailureStartsBadStep(s: seq<byte>)
    requires Decode(s).Err?
    ensures s[Decode(s).error.start..] != [] && FirstStep(s[Decode(s).error.start..]).Bad?
    decreases |s|
  {
    assert s != [];
    if FirstStep(s).Bad? {
      assert s[0..] == s;
    } else {
      var m := FirstStep(s).len;
      DecodeErrUnfold(s);
      FailureStartsBadStep(s[m..]);
      var k := Decode(s[m..]).error.start;
      assert s[m + k..] == s[m..][k..];
    }
  }

  /** Where the decoder rejects the bytes from `i` on, no UTF8-char starts at `i`. */
  lemma BadStepStartsNoChar(s: seq<byte>, i: nat)
    requires i < |s| && FirstStep(s[i..]).Bad?
    ensures NoCharStartsAt(s, i)
  {
    if i + 1 <= |s| { BadStepStartsNoCharOfLength(s, i, 1); }
    if i + 2 <= |s| { BadStepStartsNoCharOfLength(s, i, 2); }
    if i + 3 <= |s| { BadStepStartsNoCharOfLength(s, i, 3); }
    if i + 4 <= |s| { BadStepStartsNoCharOfLength(s, i, 4); }
  }

  /** `BadStepStartsNoChar` for one length `n`. */
  lemma BadStepStartsNoCharOfLength(s: seq<byte>, i: nat, n: nat)
    requires i < |s| && FirstStep(s[i..]).Bad? && 1 <= n && i + n <= |s|
    ensures !IsUtf8Char(s[i..i + n])
  {
    FirstStepMatchesGrammar(s[i..], n);
    assert s[i..][..n] == s[i..i + n];
  }

  /** The bytes before a decode failure are well-formed UTF-8. */
  lemma {:induction false} FailurePrefixWellFormed(s: seq<byte>)
    requires Decode(s).Err?
    ensures WellFormed(s[..Decode(s).error.start])
    decreases |s|
  {
    assert s != [];
    var st := FirstStep(s);
    if st.Bad? {
      assert Decode(s).error.start == 0;
      assert s[..0] == [];
    } else {
      var n, rest := st.len, s[st.len..];
      DecodeErrUnfold(s);
      FailurePrefixWellFormed(rest);
      var k := Decode(rest).error.start;
      var p := s[..n + k];
      SliceParts(s, n, k);
      WellFormedCons(p, n);
    }
  }

  /** After a successful decode's first character, the rest decodes too. */
  lemma DecodeOkRest(s: seq<byte>)
    requires s != [] && Decode(s).Ok?
    ensures FirstStep(s).Char? && Decode(s[FirstStep(s).len..]).Ok?
  {
  }

  /** A decodable prefix of a decodable sequence holds the sequence's first character. */
  lemma DecodablePrefixStep(s: seq<byte>, k: nat)
    requires 0 < k <= |s| && Decode(s).Ok? && Decode(s[..k]).Ok?
    ensures FirstStep(s).len <= k && Decode(s[FirstStep(s).len..]).Ok?
    ensures Decode(s[FirstStep(s).len..][..k - FirstStep(s).len]).Ok?
    ensures s[FirstStep(s).len..][k - FirstStep(s).len..] == s[k..]
  {
    var p := s[..k];
    DecodeOkRest(p);
    var m := FirstStep(p).len;
    assert m <= k;
    PrefixFirstChar(s, p);
    assert FirstStep(s).len == m;
    DecodeOkRest(s);
    SliceParts(s, m, k - m);
    assert p[m..] == s[m..][..k - m];
  }

  /** The decoder's view of the next lemma: a prefix that decodes ends on a character boundary. */
  lemma {:induction false} DecodeSuffix(s: seq<byte>, k: nat)
    requires k <= |s| && Decode(s).Ok? && Decode(s[..k]).Ok?
    ensures Decode(s[k..]).Ok?
    decreases k
  {
    if k > 0 {
      DecodablePrefixStep(s, k);
      var m := FirstStep(s).len;
      DecodeSuffix(s[m..], k - m);
    }
  }

  /** A well-formed sequence can only be cut into two well-formed halves at a character boundary. */
  lemma WellFormedSuffix(s: seq<byte>, k: nat)
    requires k <= |s| && WellFormed(s) && WellFormed(s[..k])
    ensures WellFormed(s[k..])
  {
    DecodeSucceedsIffWellFormed(s);
    DecodeSucceedsIffWellFormed(s[..k]);
    DecodeSucceedsIffWellFormed(s[k..]);
    DecodeSuffix(s, k);
  }

  /** A well-formed sequence never starts with a UTF8-tail byte. */
  lemma WellFormedStartsWithLead(s: seq<byte>)
    requires WellFormed(s) && s != []
    ensures !IsTail(s[0])
  {
    var n :| 1 <= n <= 4 && n <= |s| && IsUtf8Char(s[..n]) && WellFormed(s[n..]);
    assert s[..n][0] == s[0];
  }

  /**
   * Cutting a well-formed sequence inside a multi-byte character (the byte
   * after the cut is a UTF8-tail) leaves a prefix that does not decode.
   */
  lemma CutInsideCharacter(s: seq<byte>, k: nat)
    requires WellFormed(s) && k < |s| && IsTail(s[k])
    ensures !WellFormed(s[..k])
    ensures Decode(s[..k]).Err?
  {
    if WellFormed(s[..k]) {
      WellFormedSuffix(s, k);
      WellFormedStartsWithLead(s[k..]);
    }
    DecodeSucceedsIffWellFormed(s[..k]);
  }

  // ---------------------------------------------------------------------------
  // Decoding and encoding are inverse
  // ---------------------------------------------------------------------------

  /** Every character's encoding is a UTF8-char that stands for that character. */
  lemma EncodeCharIsUtf8Char(c: char)
    ensures IsUtf8Char(EncodeChar(c)) && ToChar(EncodeChar(c)) == c
  {
    var x := c as int;
    if x < 0x80 {
    } else if x < 0x800 {
      assert |EncodeChar(c)| == 2;
    } else if x < 0x1_0000 {
      assert |EncodeChar(c)| == 3;
    } else {
      assert |EncodeChar(c)| == 4;
    }
  }

  /** Splitting off the low six bits of `a * 64 + b`. */
  lemma DivMod64(a: int, b: int)
    requires 0 <= a && 0 <= b < 0x40
    ensures (a * 0x40 + b) / 0x40 == a && (a * 0x40 + b) % 0x40 == b
  {
  }

  lemma TwoByteCharIsEncoding(c: seq<byte>)
    requires IsUtf8Char(c) && |c| == 2
    ensures EncodeChar(ToChar(c)) == c
  {
    var b0, b1 := c[0] as int - 0xC0, c[1] as int - 0x80;
    var x := CodePoint(c);
    assert x == b0 * 0x40 + b1;
    assert ToChar(c) as int == x;
    DivMod64(b0, b1);
    var e := EncodeChar(ToChar(c));
    assert e == [(0xC0 + b0) as byte, (0x80 + b1) as byte];
    assert e[0] == c[0] && e[1] == c[1];
  }

  lemma ThreeByteCharIsEncoding(c: seq<byte>)
    requires IsUtf8Char(c) && |c| == 3
    ensures EncodeChar(ToChar(c)) == c
  {
    var b0, b1, b2 := c[0] as int - 0xE0, c[1] as int - 0x80, c[2] as int - 0x80;
    var q := b0 * 0x40 + b1;
    var x := CodePoint(c);
    assert x == q * 0x40 + b2;
    assert ToChar(c) as int == x;
    assert 0x800 <= x < 0x1_0000;
    DivMod64(q, b2);
    DivMod64(b0, b1);
    var e := EncodeChar(ToChar(c));
    assert e == [(0xE0 + b0) as byte, (0x80 + b1) as byte, (0x80 + b2) as byte];
    assert e[0] == c[0] && e[1] == c[1] && e[2] == c[2];
  }

  lemma FourByteCharIsEncoding(c: seq<byte>)
    requires IsUtf8Char(c) && |c| == 4
    ensures EncodeChar(ToChar(c)) == c
  {
    var b0, b1, b2, b3 := c[0] as int - 0xF0, c[1] as int - 0x80, c[2] as int - 0x80, c[3] as int - 0x80;
    var p := b0 * 0x40 + b1;
    var q := p * 0x40 + b2;
    var x := CodePoint(c);
    assert x == q * 0x40 + b3;
    assert ToChar(c) as int == x;
    assert 0x1_0000 <= x;
    DivMod64(q, b3);
    DivMod64(p, b2);
    DivMod64(b0, b1);
    var e := EncodeChar(ToChar(c));
    assert e == [(0xF0 + b0) as byte, (0x80 + b1) as byte, (0x80 + b2) as byte, (0x80 + b3) as byte];
    assert e[0] == c[0] && e[1] == c[1] && e[2] == c[2] && e[3] == c[3];
  }

  /** A UTF8-char is the encoding of the character it stands for. */
  lemma Utf8CharIsEncoding(c: seq<byte>)
    requires IsUtf8Char(c)
    ensures EncodeChar(ToChar(c)) == c
  {
    if |c| == 2 {
      TwoByteCharIsEncoding(c);
    } else if |c| == 3 {
      ThreeByteCharIsEncoding(c);
    } else if |c| == 4 {
      FourByteCharIsEncoding(c);
    }
  }

  /** Decoding the encoding of a text gives the text back. */
  lemma {:induction false} DecodeEncode(t: string)
    ensures Decode(Encode(t)) == Ok(t)
    decreases |t|
  {
    if t != [] {
      var e, rest := EncodeChar(t[0]), Encode(t[1..]);
      var s := e + rest;
      EncodeCharIsUtf8Char(t[0]);
      assert s[..|e|] == e;
      FirstStepMatchesGrammar(s, |e|);
      assert s[|e|..] == rest;
      DecodeEncode(t[1..]);
      assert t == [t[0]] + t[1..];
    }
  }

  /** A successful decode is the first character followed by the decode of the rest. */
  lemma DecodeOkUnfold(s: seq<byte>)
    requires s != [] && Decode(s).Ok?
    ensures FirstStep(s).Char? && Decode(s[FirstStep(s).len..]).Ok?
    ensures Decode(s).value == [ToChar(s[..FirstStep(s).len])] + Decode(s[FirstStep(s).len..]).value
  {
  }

  lemma EncodeUnfold(c: char, t: string)
    ensures Encode([c] + t) == EncodeChar(c) + Encode(t)
  {
    assert ([c] + t)[0] == c && ([c] + t)[1..] == t;
  }

  /** The encoding of the first decoded character is the bytes it was decoded from. */
  lemma FirstCharEncoding(s: seq<byte>)
    requires s != [] && FirstStep(s).Char?
    ensures EncodeChar(ToChar(s[..FirstStep(s).len])) == s[..FirstStep(s).len]
  {
    Utf8CharIsEncoding(s[..FirstStep(s).len]);
  }

  /** A cut at `n` leaves nothing out. */
  lemma PrefixAndRest(s: seq<byte>, n: nat)
    requires n <= |s|
    ensures s[..n] + s[n..] == s
  {
  }

  /** One step of the next lemma: a decoded first character re-encodes to the bytes it came from. */
  lemma EncodeDecodeStep(s: seq<byte>)
    requires s != [] && Decode(s).Ok?
    requires Encode(Decode(s[FirstStep(s).len..]).value) == s[FirstStep(s).len..]
    ensures Encode(Decode(s).value) == s
  {
    var n := FirstStep(s).len;
    var head, tail := s[..n], s[n..];
    var c, t := ToChar(head), Decode(tail).value;
    calc {
      Encode(Decode(s).value);
      { DecodeOkUnfold(s); }
      Encode([c] + t);
      { EncodeUnfold(c, t); }
      EncodeChar(c) + Encode(t);
      { FirstCharEncoding(s); }
      head + tail;
      { PrefixAndRest(s, n); }
      s;
    }
  }

  /** Encoding the text a decode produced gives back exactly the bytes decoded. */
  lemma {:induction false} EncodeDecode(s: seq<byte>)
    requires Decode(s).Ok?
    ensures Encode(Decode(s).value) == s
    decreases |s|
  {
    if s != [] {
      DecodeOkRest(s);
      EncodeDecode(s[FirstStep(s).len..]);
      EncodeDecodeStep(s);
    }
  }

  // ---------------------------------------------------------------------------
  // Error text
  // ---------------------------------------------------------------------------

  function HexDigit(d: int): char
    requires 0 <= d < 16
  {
    "0123456789abcdef"[d]
  }

  function ReasonText(r: Reason): string
  {
    match r
    case InvalidStartByte => "invalid start byte"
    case InvalidContinuationByte => "invalid continuation byte"
    case UnexpectedEndOfData => "unexpected end of data"
  }

  /** `str(e)` of the `UnicodeDecodeError` for `f`: one byte is named by value, a longer part by its range. */
  function Describe(f: DecodeFailure): string
  {
    if f.end <= f.start + 1 then
      "'utf-8' codec can't decode byte 0x" +
      [HexDigit(f.firstByte as int / 16), HexDigit(f.firstByte as int % 16)] +
      " in position " + Decimal(f.start) + ": " + ReasonText(f.reason)
    else
      "'utf-8' codec can't decode bytes in position " + Decimal(f.start) + "-" +
      Decimal(f.end - 1) + ": " + ReasonText(f.reason)
  }
}
