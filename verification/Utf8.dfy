/** Incremental UTF-8 decoding of the chat stream (gmrag_api/src/chat/deepseek.rs).

    Bytes arrive in arbitrary pieces. `IncrementalUtf8` keeps an unfinished sequence back and
    joins it with the next piece. The well-formed sequences are those of Table 3-7 of the Unicode
    Standard (section 3.9), which is also the syntax of section 4 of RFC 3629. */
module Utf8 {
  import opened Wrappers

  type Byte = b: int | 0 <= b < 256

  const REPLACEMENT: char := '\U{FFFD}'

  // ----- The standard: Table 3-7, and the encoder of RFC 3629 -----

  predicate Continuation(b: Byte) {
    0x80 <= b <= 0xBF
  }

  /** One row of Table 3-7 per disjunct. */
  predicate WellFormed(s: seq<Byte>) {
    || (|s| == 1 && s[0] <= 0x7F)
    || (|s| == 2 && 0xC2 <= s[0] <= 0xDF && Continuation(s[1]))
    || (|s| == 3 && s[0] == 0xE0 && 0xA0 <= s[1] <= 0xBF && Continuation(s[2]))
    || (|s| == 3 && 0xE1 <= s[0] <= 0xEC && Continuation(s[1]) && Continuation(s[2]))
    || (|s| == 3 && s[0] == 0xED && 0x80 <= s[1] <= 0x9F && Continuation(s[2]))
    || (|s| == 3 && 0xEE <= s[0] <= 0xEF && Continuation(s[1]) && Continuation(s[2]))
    || (|s| == 4 && s[0] == 0xF0 && 0x90 <= s[1] <= 0xBF && Continuation(s[2]) && Continuation(s[3]))
    || (|s| == 4 && 0xF1 <= s[0] <= 0xF3 && Continuation(s[1]) && Continuation(s[2]) && Continuation(s[3]))
    || (|s| == 4 && s[0] == 0xF4 && 0x80 <= s[1] <= 0x8F && Continuation(s[2]) && Continuation(s[3]))
  }

  /** `s` begins some well-formed sequence without finishing it. */
  ghost predicate Unfinished(s: seq<Byte>) {
    exists w: seq<Byte> :: WellFormed(w) && s < w
  }

  /** The maximal subpart at the start of `b` (Unicode Standard, section 3.9): the longest prefix
      that begins a well-formed sequence, or one byte when not even the first byte does. */
  ghost predicate MaximalSubpart(b: seq<Byte>, n: nat) {
    && 1 <= n <= |b|
    && (n == 1 || Unfinished(b[..n]))
    && forall m | n < m <= |b| :: !Unfinished(b[..m]) && !WellFormed(b[..m])
  }

  function Encode(c: char): (s: seq<Byte>) {
    var v := c as int;
    if v < 0x80 then [v]
    else if v < 0x800 then [0xC0 + v / 64, 0x80 + v % 64]
    else if v < 0x10000 then [0xE0 + v / 4096, 0x80 + v / 64 % 64, 0x80 + v % 64]
    else [0xF0 + v / 262144, 0x80 + v / 4096 % 64, 0x80 + v / 64 % 64, 0x80 + v % 64]
  }

  function EncodeAll(text: string): (s: seq<Byte>) {
    if text == [] then [] else Encode(text[0]) + EncodeAll(text[1..])
  }

  // ----- from_utf8 -----

  datatype Scan = Scalar(len: nat) | Malformed(len: nat) | Truncated

  /** Number of bytes the first byte announces; 0 when it starts no sequence. */
  function Width(b: Byte): nat {
    if b <= 0x7F then 1
    else if 0xC2 <= b <= 0xDF then 2
    else if 0xE0 <= b <= 0xEF then 3
    else if 0xF0 <= b <= 0xF4 then 4
    else 0
  }

  predicate SecondOk(first: Byte, second: Byte) {
    if first == 0xE0 then 0xA0 <= second <= 0xBF
    else if first == 0xED then 0x80 <= second <= 0x9F
    else if first == 0xF0 then 0x90 <= second <= 0xBF
    else if first == 0xF4 then 0x80 <= second <= 0x8F
    else Continuation(second)
  }

  /** What the validator finds at the front of `b`, reading one byte at a time. */
  function ScanFirst(b: seq<Byte>): (r: Scan)
    requires b != []
    ensures r.Scalar? ==> 1 <= r.len <= |b| && WellFormed(b[..r.len])
    ensures r.Malformed? ==> 1 <= r.len <= |b| && r.len <= 3
  {
    var w := Width(b[0]);
    if w == 0 then Malformed(1)
    else if w == 1 then Scalar(1)
    else if |b| == 1 then Truncated
    else if !SecondOk(b[0], b[1]) then Malformed(1)
    else if w == 2 then Scalar(2)
    else if |b| == 2 then Truncated
    else if !Continuation(b[2]) then Malformed(2)
    else if w == 3 then Scalar(3)
    else if |b| == 3 then Truncated
    else if !Continuation(b[3]) then Malformed(3)
    else Scalar(4)
  }

  function Scalar2(b0: int, b1: int): int { (b0 - 0xC0) * 64 + (b1 - 0x80) }
  function Scalar3(b0: int, b1: int, b2: int): int { (b0 - 0xE0) * 4096 + (b1 - 0x80) * 64 + (b2 - 0x80) }
  function Scalar4(b0: int, b1: int, b2: int, b3: int): int {
    (b0 - 0xF0) * 262144 + (b1 - 0x80) * 4096 + (b2 - 0x80) * 64 + (b3 - 0x80)
  }

  /** The scalar value that a well-formed sequence encodes. */
  function Value(w: seq<Byte>): (c: char)
    requires WellFormed(w)
  {
    (if |w| == 1 then w[0] as int
     else if |w| == 2 then Scalar2(w[0], w[1])
     else if |w| == 3 then Scalar3(w[0], w[1], w[2])
     else Scalar4(w[0], w[1], w[2], w[3])) as char
  }

  /** Bytes that the scan consumes; a truncated sequence takes all there is. */
  function Consumed(b: seq<Byte>): (n: nat)
    requires b != []
    ensures 1 <= n <= |b|
  {
    match ScanFirst(b)
    case Scalar(n) => n
    case Malformed(n) => n
    case Truncated => |b|
  }

  function FirstChar(b: seq<Byte>): char
    requires b != []
  {
    if ScanFirst(b).Scalar? then Value(b[..ScanFirst(b).len]) else REPLACEMENT
  }

  datatype Utf8Error = Utf8Error(validUpTo: nat, errorLen: Option<nat>)

  /** `std::str::from_utf8`: the text, or how far the bytes are valid and how long the fault is. */
  function FromUtf8(b: seq<Byte>): (r: Result<string, Utf8Error>)
    ensures r.Err? ==> r.error.validUpTo < |b|
    ensures r.Err? && r.error.errorLen.Some? ==>
              1 <= r.error.errorLen.value <= |b| - r.error.validUpTo
  {
    if b == [] then Ok("")
    else
      match ScanFirst(b)
      case Malformed(n) => Err(Utf8Error(0, Some(n)))
      case Truncated => Err(Utf8Error(0, None))
      case Scalar(n) =>
        match FromUtf8(b[n..])
        case Ok(text) => Ok([Value(b[..n])] + text)
        case Err(e) => Err(Utf8Error(n + e.validUpTo, e.errorLen))
  }

  // ----- The decoder's specification -----

  /** One-shot decoding of a whole byte string, one U+FFFD for each maximal subpart. */
  function Lossy(b: seq<Byte>): (text: string)
    decreases |b|
  {
    if b == [] then ""
    else
      [FirstChar(b)] + Lossy(b[Consumed(b)..])
  }

  datatype Drained = Drained(text: string, rest: seq<Byte>)

  /** Decoding as far as the bytes at hand decide it. */
  function Drain(b: seq<Byte>): (d: Drained)
    decreases |b|
  {
    if b == [] || ScanFirst(b).Truncated? then Drained("", b)
    else
      var tail := Drain(b[Consumed(b)..]);
      Drained([FirstChar(b)] + tail.text, tail.rest)
  }

  // ----- The decoder -----

  class IncrementalUtf8 {
    var pending: seq<Byte>

    constructor ()
      ensures pending == []
    {
      pending := [];
    }

    method Push(incoming: seq<Byte>) returns (output: string)
      modifies this
      ensures Drained(output, pending) == Drain(old(pending) + incoming)
    {
      pending := pending + incoming;
      output := TakeValid(false);
    }

    method Flush() returns (output: string)
      modifies this
      ensures output == Lossy(old(pending)) && pending == []
    {
      output := TakeValid(true);
    }

    method TakeValid(flushIncomplete: bool) returns (output: string)
      modifies this
      ensures !flushIncomplete ==> Drained(output, pending) == Drain(old(pending))
      ensures flushIncomplete ==> output == Lossy(old(pending)) && pending == []
    {
      hide FromUtf8, Drain, Lossy, WellFormed;
      output := "";
      while true
        invariant output + Drain(pending).text == Drain(old(pending)).text
        invariant Drain(pending).rest == Drain(old(pending)).rest
        invariant output + Lossy(pending) == Lossy(old(pending))
        decreases |pending|
      {
        match FromUtf8(pending) {
          case Ok(valid) =>
            ValidIsDrained(pending);
            output := output + valid;
            pending := [];
            return;
          case Err(err) =>
            if err.validUpTo > 0 {
              FromUtf8ReportsFault(pending);
              ValidPrefixIsDrained(pending, err.validUpTo);
              output := output + FromUtf8(pending[..err.validUpTo]).value;
              pending := pending[err.validUpTo..];
              continue;
            }
            FaultIsDrained(pending);
            match err.errorLen {
              case Some(errorLen) =>
                output := output + [REPLACEMENT];
                pending := pending[errorLen..];
              case None =>
                if flushIncomplete {
                  output := output + [REPLACEMENT];
                  pending := [];
                }
                return;
            }
        }
      }
    }
  }

  /** What one stream of pieces yields: the outputs of every push, then of the flush. */
  function Outputs(pieces: seq<seq<Byte>>, pending: seq<Byte>): string {
    if pieces == [] then Lossy(pending)
    else
      var d := Drain(pending + pieces[0]);
      d.text + Outputs(pieces[1..], d.rest)
  }

  /** What is held back after the pieces have been pushed. */
  function HeldBack(pieces: seq<seq<Byte>>, pending: seq<Byte>): seq<Byte> {
    if pieces == [] then pending
    else HeldBack(pieces[1..], Drain(pending + pieces[0]).rest)
  }

  function Joined<T>(pieces: seq<seq<T>>): seq<T> {
    if pieces == [] then [] else pieces[0] + Joined(pieces[1..])
  }

  // ----- from_utf8 against the standard -----

  /** Base-64 digits of a scalar value, as the continuation bytes carry them. */
  lemma Digits(hi: nat, d2: nat, d1: nat, d0: nat)
    requires d2 < 64 && d1 < 64 && d0 < 64
    ensures var v := hi * 262144 + d2 * 4096 + d1 * 64 + d0;
            v / 262144 == hi && v / 4096 % 64 == d2 && v / 64 % 64 == d1 && v % 64 == d0
            && v / 4096 == hi * 64 + d2 && v / 64 == hi * 4096 + d2 * 64 + d1
  {
  }

  lemma TwoDigits(b0: Byte, b1: Byte)
    requires WellFormed([b0, b1])
    ensures var v := Scalar2(b0, b1);
            0x80 <= v < 0x800 && b0 == 0xC0 + v / 64 && b1 == 0x80 + v % 64
  {
    Digits(0, 0, b0 - 0xC0, b1 - 0x80);
  }

  lemma ThreeDigits(b0: Byte, b1: Byte, b2: Byte)
    requires WellFormed([b0, b1, b2])
    ensures var v := Scalar3(b0, b1, b2);
            0x800 <= v < 0x10000 && b0 == 0xE0 + v / 4096 && b1 == 0x80 + v / 64 % 64 && b2 == 0x80 + v % 64
  {
    Digits(0, b0 - 0xE0, b1 - 0x80, b2 - 0x80);
  }

  lemma FourDigits(b0: Byte, b1: Byte, b2: Byte, b3: Byte)
    requires WellFormed([b0, b1, b2, b3])
    ensures var v := Scalar4(b0, b1, b2, b3);
            && 0x10000 <= v && b0 == 0xF0 + v / 262144
            && b1 == 0x80 + v / 4096 % 64 && b2 == 0x80 + v / 64 % 64 && b3 == 0x80 + v % 64
  {
    Digits(b0 - 0xF0, b1 - 0x80, b2 - 0x80, b3 - 0x80);
  }

  lemma EncodeInvertsValue(w: seq<Byte>)
    requires WellFormed(w)
    ensures Encode(Value(w)) == w
  {
    if |w| == 2 {
      assert w == [w[0], w[1]];
      TwoDigits(w[0], w[1]);
    } else if |w| == 3 {
      assert w == [w[0], w[1], w[2]];
      ThreeDigits(w[0], w[1], w[2]);
    } else if |w| == 4 {
      assert w == [w[0], w[1], w[2], w[3]];
      FourDigits(w[0], w[1], w[2], w[3]);
    }
  }

  lemma OneByte(v: nat)
    requires v < 0x80
    ensures WellFormed([v])
  {
  }

  lemma TwoBytes(v: nat)
    requires 0x80 <= v < 0x800
    ensures WellFormed([0xC0 + v / 64, 0x80 + v % 64]) && Scalar2(0xC0 + v / 64, 0x80 + v % 64) == v
  {
  }

  lemma ThreeBytes(v: nat)
    requires 0x800 <= v < 0xD800 || 0xE000 <= v < 0x10000
    ensures WellFormed([0xE0 + v / 4096, 0x80 + v / 64 % 64, 0x80 + v % 64])
    ensures Scalar3(0xE0 + v / 4096, 0x80 + v / 64 % 64, 0x80 + v % 64) == v
  {
    var lead, mid := v / 4096, v / 64 % 64;
    assert v / 64 == lead * 64 + mid;
    assert lead == 0 ==> mid >= 32;
    assert lead == 13 ==> mid < 32;
  }

  lemma FourBytes(v: nat)
    requires 0x10000 <= v < 0x110000
    ensures WellFormed([0xF0 + v / 262144, 0x80 + v / 4096 % 64, 0x80 + v / 64 % 64, 0x80 + v % 64])
    ensures Scalar4(0xF0 + v / 262144, 0x80 + v / 4096 % 64, 0x80 + v / 64 % 64, 0x80 + v % 64) == v
  {
    var lead, next, mid := v / 262144, v / 4096 % 64, v / 64 % 64;
    assert v / 4096 == lead * 64 + next;
    assert v / 64 == v / 4096 * 64 + mid;
    assert lead == 0 ==> next >= 16;
    assert lead == 4 ==> next < 16;
  }

  lemma ValueInvertsEncode(c: char)
    ensures WellFormed(Encode(c)) && |Encode(c)| >= 1 && Value(Encode(c)) == c
  {
    hide WellFormed;
    var v := c as int;
    if v < 0x80 {
      OneByte(v);
    } else if v < 0x800 {
      TwoBytes(v);
    } else if v < 0x10000 {
      ThreeBytes(v);
    } else {
      FourBytes(v);
    }
  }

  lemma WellFormedScans(w: seq<Byte>, rest: seq<Byte>)
    requires WellFormed(w)
    ensures ScanFirst(w + rest).Scalar? && ScanFirst(w + rest).len == |w|
  {
  }

  lemma NotWellFormedUnlessScalar(b: seq<Byte>, m: nat)
    requires 1 <= m <= |b|
    ensures WellFormed(b[..m]) ==> ScanFirst(b) == Scalar(m)
  {
    if WellFormed(b[..m]) {
      WellFormedScans(b[..m], b[m..]);
      assert b[..m] + b[m..] == b;
    }
  }

  /** A well-formed sequence with its last bytes cut off scans as truncated, and nothing else does. */
  lemma TruncatedIsUnfinished(b: seq<Byte>)
    requires b != []
    ensures ScanFirst(b).Truncated? <==> Unfinished(b)
  {
    if ScanFirst(b).Truncated? {
      var second := if b[0] == 0xE0 then 0xA0 else if b[0] == 0xF0 then 0x90 else 0x80;
      var w := if |b| == 1 then [b[0], second] else b[..2];
      if Width(b[0]) > 2 { w := w + [if |b| > 2 then b[2] else 0x80]; }
      if Width(b[0]) > 3 { w := w + [0x80]; }
      assert WellFormed(w) && b < w;
    }
    if Unfinished(b) {
      var w :| WellFormed(w) && b < w;
      assert b == w[..|b|];
    }
  }

  lemma MalformedIsMaximalSubpart(b: seq<Byte>)
    requires b != [] && ScanFirst(b).Malformed?
    ensures MaximalSubpart(b, ScanFirst(b).len)
    ensures forall m | 1 <= m <= |b| :: !WellFormed(b[..m])
  {
    var n := ScanFirst(b).len;
    if n > 1 { TruncatedIsUnfinished(b[..n]); }
    forall m | n < m <= |b| ensures !Unfinished(b[..m]) {
      TruncatedIsUnfinished(b[..m]);
    }
    forall m | 1 <= m <= |b| ensures !WellFormed(b[..m]) {
      NotWellFormedUnlessScalar(b, m);
    }
  }

  lemma {:induction false} EncodeAllDecodes(text: string)
    ensures FromUtf8(EncodeAll(text)) == Ok(text)
  {
    hide ScanFirst, WellFormed, Value, Encode;
    if text != [] {
      var w := Encode(text[0]);
      ValueInvertsEncode(text[0]);
      WellFormedScans(w, EncodeAll(text[1..]));
      assert EncodeAll(text) == w + EncodeAll(text[1..]);
      assert EncodeAll(text)[..|w|] == w;
      assert EncodeAll(text)[|w|..] == EncodeAll(text[1..]);
      EncodeAllDecodes(text[1..]);
      assert text == [text[0]] + text[1..];
    }
  }

  lemma {:induction false} DecodedIsEncoding(b: seq<Byte>)
    requires FromUtf8(b).Ok?
    ensures b == EncodeAll(FromUtf8(b).value)
  {
    hide ScanFirst, WellFormed, Value, Encode;
    if b != [] {
      var n := ScanFirst(b).len;
      EncodeInvertsValue(b[..n]);
      DecodedIsEncoding(b[n..]);
      assert FromUtf8(b).value[1..] == FromUtf8(b[n..]).value;
      assert b == b[..n] + b[n..];
    }
  }

  /** `from_utf8` accepts exactly the encodings of text, and returns that text. */
  lemma FromUtf8InvertsEncoding(b: seq<Byte>, text: string)
    ensures FromUtf8(b) == Ok(text) <==> b == EncodeAll(text)
  {
    EncodeAllDecodes(text);
    if FromUtf8(b).Ok? { DecodedIsEncoding(b); }
  }

  /** No well-formed sequence starts at the front of `b`; `errorLen` is absent exactly when more
      input could still finish one, and otherwise spans the maximal subpart. */
  ghost predicate Fault(b: seq<Byte>, errorLen: Option<nat>) {
    && (forall m | 1 <= m <= |b| :: !WellFormed(b[..m]))
    && (errorLen.None? <==> Unfinished(b))
    && (errorLen.Some? ==> MaximalSubpart(b, errorLen.value))
  }

  lemma UnscannableIsFault(b: seq<Byte>)
    requires b != [] && !ScanFirst(b).Scalar?
    ensures Fault(b, if ScanFirst(b).Malformed? then Some(ScanFirst(b).len) else None)
  {
    hide ScanFirst, WellFormed;
    TruncatedIsUnfinished(b);
    if ScanFirst(b).Malformed? { MalformedIsMaximalSubpart(b); }
    forall m | 1 <= m <= |b| ensures !WellFormed(b[..m]) {
      NotWellFormedUnlessScalar(b, m);
    }
  }

  /** The reported error: everything before `validUpTo` is text, and there the fault lies. */
  lemma {:induction false} FromUtf8ReportsFault(b: seq<Byte>)
    requires FromUtf8(b).Err?
    ensures var e := FromUtf8(b).error;
            FromUtf8(b[..e.validUpTo]).Ok? && Fault(b[e.validUpTo..], e.errorLen)
  {
    hide ScanFirst, WellFormed, Value, Fault;
    var v := FromUtf8(b).error.validUpTo;
    assert b[0..] == b;
    if ScanFirst(b).Scalar? {
      var n := ScanFirst(b).len;
      FromUtf8ReportsFault(b[n..]);
      assert b[v..] == b[n..][v - n..];
      ValidPrefixExtends(b, v);
    } else {
      UnscannableIsFault(b);
    }
  }

  lemma ValidPrefixExtends(b: seq<Byte>, v: nat)
    requires b != [] && ScanFirst(b).Scalar? && ScanFirst(b).len <= v <= |b|
    requires FromUtf8(b[ScanFirst(b).len..][..v - ScanFirst(b).len]).Ok?
    ensures FromUtf8(b[..v]).Ok?
  {
    hide WellFormed, Value;
    var n := ScanFirst(b).len;
    ScanFrontOnly(b);
    ScanExtends(b[..n], b[n..v]);
    assert b[..n] + b[n..v] == b[..v];
    assert b[..v][n..] == b[n..][..v - n];
  }

  /** One step of a decoder that follows the standard: `n` bytes are a well-formed sequence that
      encodes `c`, or they are a maximal subpart where none starts and `c` is U+FFFD. */
  ghost predicate StandardStep(b: seq<Byte>, n: nat, c: char) {
    && 1 <= n <= |b|
    && ((WellFormed(b[..n]) && Encode(c) == b[..n])
        || (c == '\U{FFFD}' && MaximalSubpart(b, n) && exists errorLen :: Fault(b, errorLen)))
  }

  lemma FirstStepIsStandard(b: seq<Byte>)
    requires b != []
    ensures StandardStep(b, Consumed(b), FirstChar(b))
  {
    hide ScanFirst, WellFormed, Encode;
    if ScanFirst(b).Scalar? {
      EncodeInvertsValue(b[..Consumed(b)]);
    } else {
      UnscannableIsFault(b);
      assert b[..|b|] == b;
    }
  }

  /** The one-shot decoding obeys the standard at every step. */
  lemma LossyFollowsStandard(b: seq<Byte>)
    requires b != []
    ensures exists n: nat, c: char :: StandardStep(b, n, c) && Lossy(b) == [c] + Lossy(b[n..])
  {
    hide ScanFirst, StandardStep;
    FirstStepIsStandard(b);
    assert Lossy(b) == [FirstChar(b)] + Lossy(b[Consumed(b)..]);
  }

  // ----- The streaming decoder against the one-shot decoder -----

  /** A decided scan does not look past the bytes it consumes and the one after them. */
  lemma ScanExtends(a: seq<Byte>, b: seq<Byte>)
    requires a != [] && !ScanFirst(a).Truncated?
    ensures ScanFirst(a + b) == ScanFirst(a)
  {
  }

  lemma ScanFrontOnly(b: seq<Byte>)
    requires b != [] && ScanFirst(b).Scalar?
    ensures ScanFirst(b[..ScanFirst(b).len]) == ScanFirst(b)
  {
  }

  lemma {:induction false} ValidIsDrained(b: seq<Byte>)
    requires FromUtf8(b).Ok?
    ensures Drain(b) == Drained(FromUtf8(b).value, []) && Lossy(b) == FromUtf8(b).value
  {
    if b != [] { ValidIsDrained(b[ScanFirst(b).len..]); }
  }

  lemma DrainUnfolds(a: seq<Byte>, b: seq<Byte>)
    requires a != [] && !ScanFirst(a).Truncated?
    ensures var tail := Drain(a[Consumed(a)..] + b);
            Drain(a + b) == Drained([FirstChar(a)] + tail.text, tail.rest)
  {
    hide WellFormed, Value;
    ScanExtends(a, b);
    assert (a + b)[Consumed(a)..] == a[Consumed(a)..] + b;
    assert (a + b)[..Consumed(a)] == a[..Consumed(a)];
  }

  lemma {:induction false} DrainSplits(a: seq<Byte>, b: seq<Byte>)
    ensures var d := Drain(a);
            Drain(a + b) == Drained(d.text + Drain(d.rest + b).text, Drain(d.rest + b).rest)
    decreases |a|
  {
    hide ScanFirst, WellFormed, Value, Drain;
    if a == [] || ScanFirst(a).Truncated? {
      assert Drain(a) == Drained("", a) by { NothingDrains(a); }
    } else {
      assert a + [] == a && a[Consumed(a)..] + [] == a[Consumed(a)..];
      DrainUnfolds(a, []);
      DrainUnfolds(a, b);
      DrainSplits(a[Consumed(a)..], b);
    }
  }

  lemma NothingDrains(a: seq<Byte>)
    requires a == [] || ScanFirst(a).Truncated?
    ensures Drain(a) == Drained("", a)
  {
  }

  lemma {:induction false} LossyIsDrainedAndFlushed(b: seq<Byte>)
    ensures Lossy(b) == Drain(b).text + (if Drain(b).rest == [] then "" else [REPLACEMENT])
    decreases |b|
  {
    if b != [] {
      if ScanFirst(b).Truncated? {
        assert b[Consumed(b)..] == [];
      } else {
        LossyIsDrainedAndFlushed(b[Consumed(b)..]);
      }
    }
  }

  lemma ValidPrefixIsDrained(b: seq<Byte>, v: nat)
    requires v <= |b| && FromUtf8(b[..v]).Ok?
    ensures var valid := FromUtf8(b[..v]).value;
            && Drain(b) == Drained(valid + Drain(b[v..]).text, Drain(b[v..]).rest)
            && Lossy(b) == valid + Lossy(b[v..])
  {
    hide ScanFirst, WellFormed, Value, Drain, Lossy, FromUtf8;
    assert b[..v] + b[v..] == b && [] + b[v..] == b[v..];
    ValidIsDrained(b[..v]);
    DrainSplits(b[..v], b[v..]);
    LossyIsDrainedAndFlushed(b);
    LossyIsDrainedAndFlushed(b[v..]);
  }

  lemma FaultIsDrained(b: seq<Byte>)
    requires FromUtf8(b).Err? && FromUtf8(b).error.validUpTo == 0
    ensures match FromUtf8(b).error.errorLen
            case Some(n) =>
              && Drain(b) == Drained([REPLACEMENT] + Drain(b[n..]).text, Drain(b[n..]).rest)
              && Lossy(b) == [REPLACEMENT] + Lossy(b[n..])
            case None =>
              Drain(b) == Drained("", b) && Lossy(b) == [REPLACEMENT] && Lossy([]) == "" && Drain([]) == Drained("", [])
  {
    hide ScanFirst, WellFormed, Value;
    assert b[|b|..] == [];
  }

  /** What is held back is nothing, or up to three bytes that begin a well-formed sequence. */
  lemma {:induction false} HeldBackIsUnfinished(b: seq<Byte>)
    ensures Drain(b).rest == [] || (Unfinished(Drain(b).rest) && |Drain(b).rest| <= 3)
    decreases |b|
  {
    if b != [] {
      if ScanFirst(b).Truncated? {
        TruncatedIsUnfinished(b);
      } else {
        HeldBackIsUnfinished(b[Consumed(b)..]);
      }
    }
  }

  /** Draining again what was held back yields nothing. */
  lemma {:induction false} HeldBackIsStuck(b: seq<Byte>)
    ensures Drain(Drain(b).rest) == Drained("", Drain(b).rest)
    decreases |b|
  {
    if b != [] && !ScanFirst(b).Truncated? { HeldBackIsStuck(b[Consumed(b)..]); }
  }

  /** Holding back what `front` leaves undecided does not change what the whole decodes to. */
  lemma DrainedFrontDecodes(front: seq<Byte>, rest: seq<Byte>)
    ensures Lossy(front + rest) == Drain(front).text + Lossy(Drain(front).rest + rest)
  {
    hide Drain, Lossy;
    DrainSplits(front, rest);
    LossyIsDrainedAndFlushed(front + rest);
    LossyIsDrainedAndFlushed(Drain(front).rest + rest);
  }

  lemma {:induction false} PiecesDrainAsOne(pieces: seq<seq<Byte>>, pending: seq<Byte>)
    requires Drain(pending) == Drained("", pending)
    ensures Outputs(pieces, pending) == Lossy(pending + Joined(pieces))
    ensures HeldBack(pieces, pending) == Drain(pending + Joined(pieces)).rest
  {
    hide Drain, Lossy;
    if pieces == [] {
      assert pending + Joined(pieces) == pending;
    } else {
      var front, rest := pending + pieces[0], Joined(pieces[1..]);
      assert pending + Joined(pieces) == front + rest;
      HeldBackIsStuck(front);
      PiecesDrainAsOne(pieces[1..], Drain(front).rest);
      DrainSplits(front, rest);
      DrainedFrontDecodes(front, rest);
    }
  }

  /** However the bytes are cut into pieces, the pushed outputs and the flush spell the one-shot
      decoding of the whole, and what is held back at the end is at most an unfinished sequence. */
  lemma StreamingIsOneShot(pieces: seq<seq<Byte>>)
    ensures Outputs(pieces, []) == Lossy(Joined(pieces))
    ensures HeldBack(pieces, []) == Drain(Joined(pieces)).rest
    ensures HeldBack(pieces, []) == [] || (Unfinished(HeldBack(pieces, [])) && |HeldBack(pieces, [])| <= 3)
  {
    assert [] + Joined(pieces) == Joined(pieces);
    PiecesDrainAsOne(pieces, []);
    HeldBackIsUnfinished(Joined(pieces));
  }

  /** Text that is cut anywhere, even inside a character, comes out unchanged. */
  lemma SplitTextSurvives(text: string, pieces: seq<seq<Byte>>)
    requires Joined(pieces) == EncodeAll(text)
    ensures Outputs(pieces, []) == text
  {
    StreamingIsOneShot(pieces);
    EncodeAllDecodes(text);
    ValidIsDrained(EncodeAll(text));
  }

  /** The stream loop of a reader: push every piece as it arrives, then flush. */
  method DecodePieces(pieces: seq<seq<Byte>>) returns (text: string)
    ensures text == Lossy(Joined(pieces))
  {
    hide Drain, Lossy, Joined;
    var decoder := new IncrementalUtf8();
    text := "";
    for i := 0 to |pieces|
      invariant text + Outputs(pieces[i..], decoder.pending) == Outputs(pieces, [])
    {
      assert pieces[i..][0] == pieces[i] && pieces[i..][1..] == pieces[i + 1..];
      var output := decoder.Push(pieces[i]);
      text := text + output;
    }
    var output := decoder.Flush();
    text := text + output;
    StreamingIsOneShot(pieces);
  }
}
