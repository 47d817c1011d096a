/** Relaying a close (packages/actors-gateway/src/ws.ts): `sendableCloseCode` and `closeReason`,
    over the real UTF-8 encoding and the replacement-character decoding of `Buffer.toString`. */
module CloseReason {

  /** A Unicode scalar value: what a JavaScript string decoded from bytes consists of. */
  type Scalar = c: int | 0 <= c < 0x110000 && !(0xD800 <= c < 0xE000)

  type Byte = b: int | 0 <= b < 256

  const REPLACEMENT: Scalar := 0xFFFD
  const MAX_REASON_BYTES: nat := 123

  // ---- close codes ----------------------------------------------------------------------

  /** The codes that may appear in a close frame: section 7.4 of RFC 6455 with the codes
      registered since (1012 to 1014); 1004, 1005, 1006 and 1015 never may. */
  predicate Sendable(code: int) {
    (1000 <= code <= 1014 && code != 1004 && code != 1005 && code != 1006) || 3000 <= code <= 4999
  }

  function SendableCloseCode(code: int): int {
    if code == 1005 then 1000
    else if code == 1006 then 1001
    else if (code >= 1000 && code <= 1014 && code != 1004) || (code >= 3000 && code <= 4999) then code
    else 1011
  }

  /** Any code becomes one that may be sent; a sendable code is relayed as it is. */
  lemma SendableCloseCodeIsSendable(code: int)
    ensures Sendable(SendableCloseCode(code))
    ensures Sendable(code) <==> SendableCloseCode(code) == code
    ensures SendableCloseCode(1005) == 1000 && SendableCloseCode(1006) == 1001
    ensures !Sendable(code) && code !in {1005, 1006} ==> SendableCloseCode(code) == 1011
  {
  }

  // ---- UTF-8 ----------------------------------------------------------------------------

  function EncodeOne(c: Scalar): seq<Byte> {
    if c < 0x80 then [c]
    else if c < 0x800 then [0xC0 + c / 64, 0x80 + c % 64]
    else if c < 0x10000 then [0xE0 + c / 4096, 0x80 + c / 64 % 64, 0x80 + c % 64]
    else [0xF0 + c / 262144, 0x80 + c / 4096 % 64, 0x80 + c / 64 % 64, 0x80 + c % 64]
  }

  function Encode(text: seq<Scalar>): seq<Byte> {
    if text == [] then [] else EncodeOne(text[0]) + Encode(text[1..])
  }

  function ByteLength(text: seq<Scalar>): nat {
    if text == [] then 0 else |EncodeOne(text[0])| + ByteLength(text[1..])
  }

  function Ascii(s: string): seq<Scalar> {
    if s == "" then [] else [if s[0] < 128 as char then s[0] as int else REPLACEMENT] + Ascii(s[1..])
  }

  lemma AsciiLength(s: string)
    ensures ByteLength(Ascii(s)) <= 3 * |s|
    ensures (forall i :: 0 <= i < |s| ==> s[i] < 128 as char) ==> ByteLength(Ascii(s)) == |s|
  {
  }

  /** How many continuation bytes a lead byte asks for; 0 for a byte that leads nothing. */
  function Needed(b: Byte): nat {
    if 0xC2 <= b <= 0xDF then 1 else if 0xE0 <= b <= 0xEF then 2 else if 0xF0 <= b <= 0xF4 then 3 else 0
  }

  /** The range of the byte after the lead, narrowed against overlong forms and surrogates. */
  predicate SecondOk(lead: Byte, b: Byte) {
    && 0x80 <= b <= 0xBF
    && (lead == 0xE0 ==> b >= 0xA0) && (lead == 0xED ==> b <= 0x9F)
    && (lead == 0xF0 ==> b >= 0x90) && (lead == 0xF4 ==> b <= 0x8F)
  }

  /** Length of the longest start of `bytes` that could begin one character (at least 1). */
  function Taken(bytes: seq<Byte>): (n: nat)
    requires bytes != []
    ensures 1 <= n <= |bytes| && n <= 1 + Needed(bytes[0])
  {
    var k := Needed(bytes[0]);
    if k == 0 || |bytes| < 2 || !SecondOk(bytes[0], bytes[1]) then 1
    else if k == 1 || |bytes| < 3 || !(0x80 <= bytes[2] <= 0xBF) then 2
    else if k == 2 || |bytes| < 4 || !(0x80 <= bytes[3] <= 0xBF) then 3
    else 4
  }

  /** The character a complete sequence stands for. */
  function Value(bytes: seq<int>): int
    requires bytes != []
  {
    if |bytes| == 1 then bytes[0]
    else if |bytes| == 2 then (bytes[0] - 0xC0) * 64 + (bytes[1] - 0x80)
    else if |bytes| == 3 then (bytes[0] - 0xE0) * 4096 + (bytes[1] - 0x80) * 64 + (bytes[2] - 0x80)
    else (bytes[0] - 0xF0) * 262144 + (bytes[1] - 0x80) * 4096 + (bytes[2] - 0x80) * 64 + (bytes[3] - 0x80)
  }

  function Restrict(v: int): Scalar {
    if 0 <= v < 0x110000 && !(0xD800 <= v < 0xE000) then v else REPLACEMENT
  }

  /** `toString('utf8')`: each maximal ill-formed start becomes one replacement character. */
  function Decode(bytes: seq<Byte>): seq<Scalar> {
    if bytes == [] then []
    else
      var n := Taken(bytes);
      var complete := bytes[0] < 0x80 || (Needed(bytes[0]) > 0 && n == 1 + Needed(bytes[0]));
      [if complete then Restrict(Value(bytes[..n])) else REPLACEMENT] + Decode(bytes[n..])
  }

  // ---- decoding undoes encoding, also when cut short ------------------------------------

  /** The arithmetic of one encoding: its digits base 64 give the character back, and its bytes
      are what the decoder expects of a character of that length. */
  lemma EncodingIsWellFormed(c: Scalar)
    ensures var b := EncodeOne(c);
            && Value(b) == c
            && |b| == (if c < 0x80 then 1 else 1 + Needed(b[0])) && (c >= 0x80 ==> |b| >= 2)
            && (|b| >= 2 ==> SecondOk(b[0], b[1]))
            && (forall i :: 1 <= i < |b| ==> 0x80 <= b[i] <= 0xBF)
  {
    if 0x800 <= c < 0x10000 {
      assert c / 4096 == c / 64 / 64 && c == c / 64 * 64 + c % 64;
    } else if c >= 0x10000 {
      assert c / 262144 == c / 64 / 64 / 64 && c / 4096 == c / 64 / 64 && c == c / 64 * 64 + c % 64;
    }
  }

  lemma DecodeWhole(c: Scalar, rest: seq<Byte>)
    ensures Decode(EncodeOne(c) + rest) == [c] + Decode(rest)
  {
    EncodingIsWellFormed(c);
    var b := EncodeOne(c);
    var bytes := b + rest;
    assert bytes[0] == b[0] && (|b| >= 2 ==> bytes[1] == b[1]) && (|b| >= 3 ==> bytes[2] == b[2]) && (|b| >= 4 ==> bytes[3] == b[3]);
    assert Taken(bytes) == |b|;
    assert bytes[..|b|] == b && bytes[|b|..] == rest;
  }

  lemma DecodeCut(c: Scalar, n: nat)
    requires 0 < n < |EncodeOne(c)|
    ensures Decode(EncodeOne(c)[..n]) == [REPLACEMENT]
  {
    EncodingIsWellFormed(c);
    var cut := EncodeOne(c)[..n];
    assert Taken(cut) == n;
    assert cut[n..] == [];
  }

  /** How many whole characters fit into `n` bytes. */
  function Fit(text: seq<Scalar>, n: nat): (k: nat)
    ensures k <= |text|
  {
    if text == [] || |EncodeOne(text[0])| > n then 0
    else 1 + Fit(text[1..], n - |EncodeOne(text[0])|)
  }

  lemma {:induction false} FitIsGreatest(text: seq<Scalar>, n: nat)
    ensures var k := Fit(text, n);
            ByteLength(text[..k]) <= n && (k < |text| ==> ByteLength(text[..k + 1]) > n)
  {
    if text != [] {
      var k, m := Fit(text, n), |EncodeOne(text[0])|;
      if m <= n {
        FitIsGreatest(text[1..], n - m);
        assert text[..k][1..] == text[1..][..k - 1];
        if k < |text| { assert text[..k + 1][1..] == text[1..][..k]; }
      } else {
        assert text[..1][1..] == [];
      }
    }
  }

  /** Decoding the first `n` bytes of a text gives its whole characters, followed by one
      replacement character exactly when the cut splits a character. */
  lemma {:induction false} DecodeOfPrefix(text: seq<Scalar>, n: nat)
    requires n <= ByteLength(text)
    ensures |Encode(text)| == ByteLength(text)
    ensures var k := Fit(text, n);
            Decode(Encode(text)[..n]) == text[..k] + (if ByteLength(text[..k]) < n then [REPLACEMENT] else [])
  {
    hide EncodeOne, Value, Taken, Needed, Restrict;
    if text != [] {
      var b, k := EncodeOne(text[0]), Fit(text, n);
      var rest := text[1..];
      if |b| <= n {
        DecodeOfPrefix(rest, n - |b|);
        assert Encode(text)[..n] == b + Encode(rest)[..n - |b|];
        DecodeWhole(text[0], Encode(rest)[..n - |b|]);
        assert text[..k][1..] == rest[..k - 1] && text[..k] == [text[0]] + rest[..k - 1];
      } else {
        DecodeOfPrefix(rest, 0);
        assert Encode(text)[..n] == b[..n];
        if n > 0 { DecodeCut(text[0], n); }
      }
    }
  }

  lemma {:induction false} DecodeUndoesEncode(text: seq<Scalar>)
    ensures Decode(Encode(text)) == text
  {
    hide EncodeOne, Value, Taken, Needed, Restrict;
    if text != [] {
      DecodeWhole(text[0], Encode(text[1..]));
      DecodeUndoesEncode(text[1..]);
    }
  }

  lemma EncodedLength(c: Scalar)
    ensures 1 <= |EncodeOne(c)| <= 4 && (c < 0x80 ==> |EncodeOne(c)| == 1) && |EncodeOne(REPLACEMENT)| == 3
  {
  }

  /** Arbitrary bytes decoded and encoded again take at most three times their room: an
      ill-formed byte becomes a replacement character. */
  lemma {:induction false} DecodedIsAtMostTriple(bytes: seq<Byte>)
    ensures ByteLength(Decode(bytes)) <= 3 * |bytes|
  {
    hide EncodeOne, Value, Restrict, SecondOk;
    if bytes != [] {
      var n := Taken(bytes);
      var first := Decode(bytes)[0];
      assert Decode(bytes)[1..] == Decode(bytes[n..]);
      EncodedLength(first);
      if n == 1 { FirstByte(bytes); }
      DecodedIsAtMostTriple(bytes[n..]);
    }
  }

  lemma FirstByte(bytes: seq<Byte>)
    requires bytes != [] && Taken(bytes) == 1
    ensures Decode(bytes)[0] == if bytes[0] < 0x80 then bytes[0] else REPLACEMENT
  {
    hide SecondOk;
    assert bytes[..1] == [bytes[0]];
  }

  /** Bytes that begin no character. */
  function IllFormed(n: nat): (r: seq<Byte>)
    ensures |r| == n && forall i :: 0 <= i < n ==> r[i] == 0xFF
  {
    seq(n, _ => 0xFF)
  }

  lemma {:induction false} IllFormedTriples(n: nat)
    ensures ByteLength(Decode(IllFormed(n))) == 3 * n
  {
    if n > 0 {
      var bytes := IllFormed(n);
      assert Taken(bytes) == 1;
      FirstByte(bytes);
      assert bytes[1..] == IllFormed(n - 1);
      assert Decode(bytes)[1..] == Decode(IllFormed(n - 1));
      IllFormedTriples(n - 1);
    }
  }

  // ---- the reason -----------------------------------------------------------------------

  function DropTrailingReplacement(text: seq<Scalar>): seq<Scalar> {
    if text != [] && text[|text| - 1] == REPLACEMENT then text[..|text| - 1] else text
  }

  /** `closeReason` on a decoded reason. */
  function ReasonToRelay(text: seq<Scalar>): seq<Scalar> {
    if ByteLength(text) <= MAX_REASON_BYTES then text
    else
      EncodeLength(text);
      DropTrailingReplacement(Decode(Encode(text)[..MAX_REASON_BYTES]))
  }

  lemma EncodeLength(text: seq<Scalar>)
    ensures |Encode(text)| == ByteLength(text)
  {
  }

  /** `closeReason` on the bytes of a close frame. */
  function RelayedReason(frame: seq<Byte>): seq<Scalar> {
    ReasonToRelay(Decode(frame))
  }

  lemma {:induction false} PrefixIsShorter(text: seq<Scalar>, k: nat)
    requires k <= |text|
    ensures ByteLength(text[..k]) <= ByteLength(text)
  {
    if k > 0 {
      PrefixIsShorter(text[1..], k - 1);
      assert text[..k][1..] == text[1..][..k - 1];
    }
  }

  /** The relayed reason is the longest whole-character prefix that fits in 123 bytes; the one
      exception is a text whose cut falls between characters right after a replacement character
      of its own, which is dropped too. */
  lemma ReasonIsLongestFittingPrefix(text: seq<Scalar>)
    ensures var k := Fit(text, MAX_REASON_BYTES);
            var extra := ByteLength(text) > MAX_REASON_BYTES && ByteLength(text[..k]) == MAX_REASON_BYTES
                         && k > 0 && text[k - 1] == REPLACEMENT;
            ReasonToRelay(text) == text[..if extra then k - 1 else k]
  {
    hide Decode, Encode, EncodeOne, Fit, ByteLength;
    var n := MAX_REASON_BYTES;
    var k := Fit(text, n);
    FitIsGreatest(text, n);
    if ByteLength(text) <= n {
      if k < |text| { PrefixIsShorter(text, k + 1); }
      assert text[..|text|] == text;
    } else {
      DecodeOfPrefix(text, n);
      if ByteLength(text[..k]) < n {
        assert DropTrailingReplacement(text[..k] + [REPLACEMENT]) == text[..k];
      } else if k > 0 {
        assert text[..k] + [] == text[..k] && text[..k][..k - 1] == text[..k - 1];
      }
    }
  }

  /** A control frame carries at most 125 bytes (section 5.5 of RFC 6455): the code and this. */
  lemma ReasonFits(text: seq<Scalar>)
    ensures ReasonToRelay(text) <= text && ByteLength(ReasonToRelay(text)) <= MAX_REASON_BYTES
  {
    var k := Fit(text, MAX_REASON_BYTES);
    ReasonIsLongestFittingPrefix(text);
    FitIsGreatest(text, MAX_REASON_BYTES);
    if k > 0 {
      PrefixIsShorter(text[..k], k - 1);
      assert text[..k][..k - 1] == text[..k - 1];
    }
  }

  /** So does the reason relayed for the bytes of a close frame, whatever they are. */
  lemma RelayedReasonFits(frame: seq<Byte>)
    ensures RelayedReason(frame) <= Decode(frame) && ByteLength(RelayedReason(frame)) <= MAX_REASON_BYTES
  {
    ReasonFits(Decode(frame));
  }

  function Replacements(n: nat): (r: seq<Scalar>)
    ensures |r| == n && forall i :: 0 <= i < n ==> r[i] == REPLACEMENT
  {
    seq(n, _ => REPLACEMENT)
  }

  lemma {:induction false} ReplacementsLength(n: nat, more: seq<Scalar>)
    ensures ByteLength(Replacements(n) + more) == 3 * n + ByteLength(more)
  {
    hide EncodeOne;
    EncodedLength(REPLACEMENT);
    if n == 0 {
      assert Replacements(0) + more == more;
    } else {
      ReplacementsLength(n - 1, more);
      assert (Replacements(n) + more)[1..] == Replacements(n - 1) + more;
    }
  }

  /** The exceptional case: 41 replacement characters fill the 123 bytes exactly, and with one
      more letter behind them only 40 are relayed. */
  lemma OwnReplacementIsLost(letter: Scalar)
    ensures var text := Replacements(41) + [letter];
      ByteLength(text[..41]) == MAX_REASON_BYTES && ReasonToRelay(text) == text[..40]
  {
    hide EncodeOne, Decode, Encode, ReasonToRelay;
    var text := Replacements(41) + [letter];
    ReplacementsLength(41, []);
    ReplacementsLength(41, [letter]);
    EncodedLength(letter);
    assert text[..41] == Replacements(41) + [] && text[..42] == text;
    FitsIn(text, 41);
    ReasonIsLongestFittingPrefix(text);
  }

  lemma FitsIn(text: seq<Scalar>, k: nat)
    requires k < |text| && ByteLength(text[..k]) <= MAX_REASON_BYTES < ByteLength(text[..k + 1])
    ensures Fit(text, MAX_REASON_BYTES) == k
  {
    hide EncodeOne, Fit, ByteLength;
    var j := Fit(text, MAX_REASON_BYTES);
    FitIsGreatest(text, MAX_REASON_BYTES);
    if j < k { PrefixesGrow(text, j + 1, k); } else if j > k { PrefixesGrow(text, k + 1, j); }
  }

  lemma PrefixesGrow(text: seq<Scalar>, i: nat, j: nat)
    requires i <= j <= |text|
    ensures ByteLength(text[..i]) <= ByteLength(text[..j])
  {
    PrefixIsShorter(text[..j], i);
    assert text[..j][..i] == text[..i];
  }
}
