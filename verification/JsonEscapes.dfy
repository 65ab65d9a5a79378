/**
 The scanner that rejects JSON payloads with lone UTF-16 surrogate escapes (section 7 of RFC 8259),
 compared with the string tokens such a payload is made of.
 */
module JsonEscapes {
  import opened Options

  type Byte = b: int | 0 <= b < 256

  const QUOTE: Byte := 34
  const BACKSLASH: Byte := 92
  const U: Byte := 117

  predicate High(v: int) { 0xd800 <= v <= 0xdbff }
  predicate Low(v: int) { 0xdc00 <= v <= 0xdfff }

  /** The value of a hex digit in either letter case. */
  function Digit(b: Byte): (d: Option<int>)
    ensures d.Some? ==> 0 <= d.value < 16
  {
    if 48 <= b <= 57 then Some(b - 48)
    else if 97 <= b <= 102 then Some(b - 97 + 10)
    else if 65 <= b <= 70 then Some(b - 65 + 10)
    else None
  }

  predicate AllHex(h: seq<Byte>) {
    forall k | 0 <= k < |h| :: Digit(h[k]).Some?
  }

  predicate IsQuad(h: seq<Byte>) {
    |h| == 4 && AllHex(h)
  }

  function Power16(n: nat): nat {
    if n == 0 then 1 else 16 * Power16(n - 1)
  }

  /** The number a run of hex digits spells; a run of `n` digits spells less than 16 to the `n`. */
  function Value(h: seq<Byte>): (v: nat)
    requires AllHex(h)
    ensures v < Power16(|h|)
  {
    if h == [] then 0 else Value(h[..|h| - 1]) * 16 + Digit(h[|h| - 1]).value
  }

  /** Up to four digits fit a 16-bit register. */
  lemma FitsRegister(n: nat)
    requires n <= 4
    ensures Power16(n) <= 0x1_0000
    ensures n < 4 ==> Power16(n) <= 0x1000
  {
    assert Power16(1) == 0x10 && Power16(2) == 0x100 && Power16(3) == 0x1000 && Power16(4) == 0x1_0000;
  }

  /** Shifting one more digit into the register loses nothing. */
  lemma ShiftIn(v: nat, d: nat)
    requires v < 0x1000 && d < 16
    ensures v * 16 % 0x1_0000 == v * 16 && (v * 16 + d) % 0x1_0000 == v * 16 + d
  {
  }

  /** The last digit can be split off again. */
  lemma SplitOff(v: nat, d: nat)
    requires d < 16
    ensures (v * 16 + d) / 16 == v && (v * 16 + d) % 16 == d
  {
  }

  /** The four hex digits at the front of `s`. */
  function Quad(s: seq<Byte>): Option<int> {
    if |s| >= 4 && IsQuad(s[..4]) then Some(Value(s[..4])) else None
  }

  lemma QuadInFront(h: seq<Byte>, rest: seq<Byte>)
    requires IsQuad(h)
    ensures Quad(h + rest) == Some(Value(h))
  {
    assert (h + rest)[..4] == h;
  }

  /**
   The accumulator loop, with the 16-bit register written out: it never loses a bit, and it rejects
   exactly the inputs that are not four hex digits.
   */
  method DecodeHexQuad(payload: seq<Byte>, start: nat) returns (value: int, ok: bool)
    requires start <= |payload|
    ensures ok <==> Quad(payload[start..]).Some?
    ensures ok ==> Quad(payload[start..]) == Some(value)
  {
    if start + 4 > |payload| { return 0, false; }
    var digits := payload[start..start + 4];
    assert digits == payload[start..][..4];
    value := 0;
    for k := 0 to 4
      invariant AllHex(digits[..k]) && value == Value(digits[..k])
    {
      var digit := Digit(digits[k]);
      ghost var before := value;
      FitsRegister(k);
      value := (value * 16) % 0x1_0000;
      if digit.None? {
        assert !AllHex(digits);
        return 0, false;
      }
      ShiftIn(before, digit.value);
      value := (value + digit.value) % 0x1_0000;
      assert digits[..k + 1][..k] == digits[..k];
    }
    assert digits[..4] == digits;
    return value, true;
  }

  /** The hex digit of `n` in the chosen letter case. */
  function HexDigit(n: int, upper: bool): (b: Byte)
    requires 0 <= n < 16
    ensures Digit(b) == Some(n)
  {
    if n < 10 then 48 + n else if upper then 65 + n - 10 else 97 + n - 10
  }

  /** The low `|upper|` hex digits of `v`, each in its own letter case. */
  function EncodeHex(v: nat, upper: seq<bool>): (h: seq<Byte>)
    ensures |h| == |upper|
    ensures AllHex(h)
  {
    if upper == [] then []
    else EncodeHex(v / 16, upper[..|upper| - 1]) + [HexDigit(v % 16, upper[|upper| - 1])]
  }

  /** Decoding inverts encoding, whatever the letter case of each digit. */
  lemma {:induction false} DecodeInvertsEncode(v: nat, upper: seq<bool>)
    requires v < Power16(|upper|)
    ensures Value(EncodeHex(v, upper)) == v
  {
    if upper != [] {
      var n := |upper| - 1;
      DecodeInvertsEncode(v / 16, upper[..n]);
      var h := EncodeHex(v, upper);
      assert h[..n] == EncodeHex(v / 16, upper[..n]);
    }
  }

  /** The letter case each digit has. */
  function Cases(h: seq<Byte>): (upper: seq<bool>)
    ensures |upper| == |h|
  {
    if h == [] then [] else Cases(h[..|h| - 1]) + [h[|h| - 1] < 97]
  }

  /** Encoding inverts decoding: the digits are those of the value, in the letter case they have. */
  lemma {:induction false} EncodeInvertsDecode(h: seq<Byte>)
    requires AllHex(h)
    ensures EncodeHex(Value(h), Cases(h)) == h
  {
    if h != [] {
      var n := |h| - 1;
      EncodeInvertsDecode(h[..n]);
      SplitOff(Value(h[..n]), Digit(h[n]).value);
      assert Cases(h)[..n] == Cases(h[..n]);
      assert HexDigit(Digit(h[n]).value, h[n] < 97) == h[n];
      assert h == h[..n] + [h[n]];
    }
  }

  /** For an escape: any 16-bit value, any letter case of the four digits, whatever follows them. */
  lemma QuadRoundTrip(v: nat, upper: seq<bool>, rest: seq<Byte>)
    requires v < 0x1_0000 && |upper| == 4
    ensures Quad(EncodeHex(v, upper) + rest) == Some(v)
  {
    assert Power16(1) == 0x10 && Power16(2) == 0x100 && Power16(3) == 0x1000 && Power16(4) == 0x1_0000;
    DecodeInvertsEncode(v, upper);
    QuadInFront(EncodeHex(v, upper), rest);
  }

  // What the scanner does with the bytes still ahead of it, outside and inside a string.

  predicate Outside(s: seq<Byte>) {
    if s == [] then true
    else if s[0] == QUOTE then Inside(s[1..])
    else Outside(s[1..])
  }

  predicate Inside(s: seq<Byte>) {
    if s == [] then true
    else if s[0] == QUOTE then Outside(s[1..])
    else if s[0] != BACKSLASH then Inside(s[1..])
    else if |s| == 1 then true
    else if s[1] != U then Inside(s[2..])
    else
      match Quad(s[2..])
      case None => true
      case Some(v) =>
        if High(v) then StartsLow(s[6..]) && Inside(s[12..]) else !Low(v) && Inside(s[6..])
  }

  /** A low-surrogate escape comes next. */
  predicate StartsLow(s: seq<Byte>)
    ensures StartsLow(s) ==> |s| >= 6
  {
    && |s| >= 6
    && s[0] == BACKSLASH
    && s[1] == U
    && match Quad(s[2..]) { case None => false case Some(v) => Low(v) }
  }

  /** The index loop of the scanner: one index moves over the payload, in and out of strings. */
  method ValidJsonUnicodeEscapes(payload: seq<Byte>) returns (ok: bool)
    ensures ok <==> Outside(payload)
  {
    var index := 0;
    while index < |payload|
      invariant 0 <= index
      invariant Outside(payload) == (index < |payload| ==> Outside(payload[index..]))
      decreases |payload| - index
    {
      assert payload[index..][1..] == payload[index + 1..];
      if payload[index] != QUOTE { index := index + 1; continue; }
      index := index + 1;
      while index < |payload| && payload[index] != QUOTE
        invariant 0 < index
        invariant Outside(payload) == (index < |payload| ==> Inside(payload[index..]))
        decreases |payload| - index
      {
        var next, verdict := ScanStringByte(payload, index);
        if verdict.Some? { return verdict.value; }
        index := next;
      }
      if index < |payload| { assert payload[index..][1..] == payload[index + 1..]; }
      index := index + 1;
    }
    return true;
  }

  /** One pass of the inner loop: a verdict, or the index from which the scan of the string goes on. */
  method ScanStringByte(payload: seq<Byte>, index: nat) returns (next: nat, verdict: Option<bool>)
    requires index < |payload| && payload[index] != QUOTE
    ensures index < next
    ensures verdict.Some? ==> Inside(payload[index..]) == verdict.value
    ensures verdict.None? ==> next <= |payload| && Inside(payload[index..]) == Inside(payload[next..])
  {
    var ahead := payload[index..];
    next, verdict := index + 1, None;
    assert ahead[1..] == payload[index + 1..];
    if payload[index] != BACKSLASH { return; }
    if index + 1 >= |payload| { return next, Some(true); }
    assert ahead[2..] == payload[index + 2..];
    if payload[index + 1] != U { return index + 2, None; }
    var value, ok := DecodeHexQuad(payload, index + 2);
    if !ok { return next, Some(true); }
    assert ahead[6..] == payload[index + 6..];
    if High(value) {
      var paired := ScanLowSurrogate(payload, index + 6);
      if !paired { return next, Some(false); }
      assert ahead[12..] == payload[index + 12..];
      return index + 12, None;
    }
    if Low(value) { return next, Some(false); }
    return index + 6, None;
  }

  method ScanLowSurrogate(payload: seq<Byte>, index: nat) returns (found: bool)
    requires index <= |payload|
    ensures found <==> StartsLow(payload[index..])
  {
    if index + 6 > |payload| || payload[index] != BACKSLASH || payload[index + 1] != U { return false; }
    assert payload[index..][2..] == payload[index + 2..];
    var low, ok := DecodeHexQuad(payload, index + 2);
    return ok && Low(low);
  }

  // String tokens, and the payloads made of them.

  /** A byte as it is, a backslash and one byte, or a backslash, `u` and four hex digits. */
  datatype Piece = Plain(byte: Byte) | Simple(byte: Byte) | Unicode(digits: seq<Byte>)

  predicate IsPiece(p: Piece) {
    match p
    case Plain(b) => b != QUOTE && b != BACKSLASH
    case Simple(b) => b != U
    case Unicode(h) => IsQuad(h)
  }

  type Text = t: seq<Piece> | forall p | p in t :: IsPiece(p)

  /** Bytes without a quote, then a string token. */
  datatype Item = Item(gap: seq<Byte>, text: Text)

  predicate IsGap(gap: seq<Byte>) {
    QUOTE !in gap
  }

  function PieceBytes(p: Piece): seq<Byte> {
    match p
    case Plain(b) => [b]
    case Simple(b) => [BACKSLASH, b]
    case Unicode(h) => [BACKSLASH, U] + h
  }

  function TextBytes(t: seq<Piece>): seq<Byte> {
    if t == [] then [] else PieceBytes(t[0]) + TextBytes(t[1..])
  }

  function ItemBytes(item: Item): seq<Byte> {
    item.gap + [QUOTE] + TextBytes(item.text) + [QUOTE]
  }

  /** The payload: every item in order, then the bytes after the last string. */
  function Payload(items: seq<Item>, tail: seq<Byte>): seq<Byte> {
    if items == [] then tail
    else ItemBytes(items[0]) + Payload(items[1..], tail)
  }

  predicate IsHigh(p: Piece) {
    p.Unicode? && IsQuad(p.digits) && High(Value(p.digits))
  }

  predicate IsLow(p: Piece) {
    p.Unicode? && IsQuad(p.digits) && Low(Value(p.digits))
  }

  /** A high surrogate escape stands immediately before a low one, and a low one immediately after a high one. */
  predicate Paired(t: seq<Piece>) {
    && (forall i | 0 <= i < |t| && IsHigh(t[i]) :: i + 1 < |t| && IsLow(t[i + 1]))
    && (forall i | 0 <= i < |t| && IsLow(t[i]) :: 0 < i && IsHigh(t[i - 1]))
  }

  /** Pairing read from the left. */
  predicate PairedFromLeft(t: seq<Piece>) {
    if t == [] then true
    else if IsHigh(t[0]) then |t| > 1 && IsLow(t[1]) && PairedFromLeft(t[2..])
    else !IsLow(t[0]) && PairedFromLeft(t[1..])
  }

  lemma {:induction false} PairedFromLeftIsPaired(t: seq<Piece>)
    ensures PairedFromLeft(t) <==> Paired(t)
  {
    if t == [] {
    } else if IsHigh(t[0]) {
      if |t| > 1 && IsLow(t[1]) {
        PairedFromLeftIsPaired(t[2..]);
        PairedShift(t, 2);
      }
    } else if !IsLow(t[0]) {
      PairedFromLeftIsPaired(t[1..]);
      PairedShift(t, 1);
    }
  }

  /** Dropping a front part that is complete in itself changes nothing. */
  lemma PairedShift(t: seq<Piece>, n: nat)
    requires (n == 1 <= |t| && !IsHigh(t[0]) && !IsLow(t[0])) || (n == 2 <= |t| && IsHigh(t[0]) && IsLow(t[1]))
    ensures Paired(t) <==> Paired(t[n..])
  {
    var u := t[n..];
    if Paired(t) {
      forall i | 0 <= i < |u| && IsLow(u[i]) ensures 0 < i && IsHigh(u[i - 1]) {
        assert IsLow(t[i + n]) && IsHigh(t[i + n - 1]);
      }
      forall i | 0 <= i < |u| && IsHigh(u[i]) ensures i + 1 < |u| && IsLow(u[i + 1]) {
        assert IsHigh(t[i + n]) && IsLow(t[i + n + 1]);
      }
    }
    if Paired(u) {
      forall i | 0 <= i < |t| && IsLow(t[i]) ensures 0 < i && IsHigh(t[i - 1]) {
        if i >= n { assert IsLow(u[i - n]) && IsHigh(u[i - n - 1]); }
      }
      forall i | 0 <= i < |t| && IsHigh(t[i]) ensures i + 1 < |t| && IsLow(t[i + 1]) {
        if i >= n { assert IsHigh(u[i - n]) && IsLow(u[i - n + 1]); }
      }
    }
  }

  lemma {:induction false} GapIsSkipped(gap: seq<Byte>, rest: seq<Byte>)
    requires IsGap(gap)
    ensures Outside(gap + rest) == Outside(rest)
  {
    if gap == [] {
      assert gap + rest == rest;
    } else {
      assert (gap + rest)[1..] == gap[1..] + rest;
      GapIsSkipped(gap[1..], rest);
    }
  }

  /** Inside a string the scanner reads off the pieces one by one. */
  lemma {:induction false} TextIsRead(t: Text, rest: seq<Byte>)
    ensures Inside(TextBytes(t) + [QUOTE] + rest) <==> PairedFromLeft(t) && Outside(rest)
    decreases |t|
  {
    var s := TextBytes(t) + [QUOTE] + rest;
    if t == [] {
      assert s == [QUOTE] + rest;
      assert s[1..] == rest;
    } else {
      var first, more: Text := t[0], t[1..];
      var after := TextBytes(more) + [QUOTE] + rest;
      assert s == PieceBytes(first) + after;
      TextIsRead(more, rest);
      match first
      case Plain(b) => assert s[1..] == after;
      case Simple(b) => assert s[2..] == after;
      case Unicode(h) => UnicodeIsRead(t, rest, after);
    }
  }

  /** One `\u` escape, whatever bytes follow it. */
  lemma EscapeIsRead(h: seq<Byte>, after: seq<Byte>)
    requires IsQuad(h)
    ensures Inside(PieceBytes(Unicode(h)) + after) <==>
            if High(Value(h)) then StartsLow(after) && Inside(after[6..]) else !Low(Value(h)) && Inside(after)
  {
    var s := PieceBytes(Unicode(h)) + after;
    assert s[2..] == h + after && s[6..] == after;
    QuadInFront(h, after);
    if |after| >= 6 { assert s[12..] == after[6..]; }
  }

  lemma UnicodeIsRead(t: Text, rest: seq<Byte>, after: seq<Byte>)
    requires t != [] && t[0].Unicode? && after == TextBytes(t[1..]) + [QUOTE] + rest
    requires Inside(after) <==> PairedFromLeft(t[1..]) && Outside(rest)
    ensures Inside(PieceBytes(t[0]) + after) <==> PairedFromLeft(t) && Outside(rest)
    decreases |t|, 0
  {
    EscapeIsRead(t[0].digits, after);
    if IsHigh(t[0]) {
      LowIsRead(t[1..], rest);
      if |t| > 1 && IsLow(t[1]) {
        assert t[1..][1..] == t[2..];
        EscapeIsSixBytes(t[1..], rest);
        TextIsRead(t[2..], rest);
      }
    }
  }

  lemma EscapeIsSixBytes(t: Text, rest: seq<Byte>)
    requires t != [] && t[0].Unicode?
    ensures |TextBytes(t)| >= 6
    ensures (TextBytes(t) + [QUOTE] + rest)[6..] == TextBytes(t[1..]) + [QUOTE] + rest
  {
    var far := TextBytes(t[1..]) + [QUOTE] + rest;
    assert TextBytes(t) + [QUOTE] + rest == PieceBytes(t[0]) + far;
  }

  /** The scanner sees a low surrogate escape next exactly when the next piece is one. */
  lemma LowIsRead(t: Text, rest: seq<Byte>)
    ensures StartsLow(TextBytes(t) + [QUOTE] + rest) <==> t != [] && IsLow(t[0])
  {
    var s := TextBytes(t) + [QUOTE] + rest;
    if t == [] {
      assert s[0] == QUOTE;
    } else {
      var after := TextBytes(t[1..]) + [QUOTE] + rest;
      assert s == PieceBytes(t[0]) + after;
      FirstPieceIsLow(t[0], after);
    }
  }

  lemma FirstPieceIsLow(p: Piece, after: seq<Byte>)
    requires IsPiece(p)
    ensures StartsLow(PieceBytes(p) + after) <==> IsLow(p)
  {
    var s := PieceBytes(p) + after;
    if p.Unicode? {
      assert s[2..] == p.digits + after;
      QuadInFront(p.digits, after);
    }
  }

  /** One string token with the bytes before it. */
  lemma ItemIsRead(item: Item, rest: seq<Byte>)
    requires IsGap(item.gap)
    ensures Outside(ItemBytes(item) + rest) <==> Paired(item.text) && Outside(rest)
  {
    var text := TextBytes(item.text) + [QUOTE] + rest;
    assert ItemBytes(item) + rest == item.gap + ([QUOTE] + text);
    GapIsSkipped(item.gap, [QUOTE] + text);
    assert ([QUOTE] + text)[1..] == text;
    TextIsRead(item.text, rest);
    PairedFromLeftIsPaired(item.text);
  }

  /**
   The scanner accepts the payload of any string tokens exactly when every surrogate escape in every
   one of them is paired.
   */
  lemma {:induction false} AcceptsExactlyPaired(items: seq<Item>, tail: seq<Byte>)
    requires IsGap(tail) && forall item | item in items :: IsGap(item.gap)
    ensures Outside(Payload(items, tail)) <==> forall item | item in items :: Paired(item.text)
  {
    if items == [] {
      GapIsSkipped(tail, []);
      assert tail + [] == tail;
    } else {
      ItemIsRead(items[0], Payload(items[1..], tail));
      AcceptsExactlyPaired(items[1..], tail);
      assert items == [items[0]] + items[1..];
    }
  }
}
