/** chat_message.hpp: messages framed by a four-character decimal length. */
module ChatFraming {
  import opened Bytes

  const HEADER_LENGTH := 4
  const MAX_BODY_LENGTH := 512
  const SIZE_T := 0x1_0000_0000_0000_0000

  // ---------- The C library on short strings ----------

  /** What strncat appends: everything before the first NUL. */
  function UntilNul(s: seq<Byte>): (t: seq<Byte>)
    ensures |t| <= |s|
  {
    if s == [] || s[0] == 0 then [] else [s[0]] + UntilNul(s[1..])
  }

  predicate IsSpace(b: Byte) {
    b == 32 || 9 <= b <= 13
  }

  predicate IsDigit(b: Byte) {
    48 <= b <= 57
  }

  /** The decimal digits at the front of s, read on from `acc`. */
  function Digits(s: seq<Byte>, acc: nat): nat {
    if s != [] && IsDigit(s[0]) then Digits(s[1..], 10 * acc + (s[0] - 48)) else acc
  }

  /** atoi: white space, a sign, digits; anything else ends the number. */
  function Atoi(s: seq<Byte>): int {
    if s == [] then 0
    else if IsSpace(s[0]) then Atoi(s[1..])
    else if s[0] == 45 then 0 - Digits(s[1..], 0)
    else if s[0] == 43 then Digits(s[1..], 0)
    else Digits(s, 0)
  }

  function Decimal(n: nat): (s: seq<Byte>)
    ensures |s| >= 1 && forall k | 0 <= k < |s| :: IsDigit(s[k])
  {
    if n < 10 then [48 + n] else Decimal(n / 10) + [48 + n % 10]
  }

  function PadLeft(s: seq<Byte>, width: nat): (t: seq<Byte>)
    ensures |t| == if |s| < width then width else |s|
    decreases width - |s|
  {
    if |s| >= width then s else PadLeft([32] + s, width)
  }

  /** sprintf with "%4d". */
  function Format(n: nat): seq<Byte> {
    PadLeft(Decimal(n), HEADER_LENGTH)
  }

  // ---------- Headers ----------

  function LengthField(header: seq<Byte>): int {
    Atoi(UntilNul(header))
  }

  /** A negative number becomes a huge std::size_t. */
  function AsSize(i: int): int {
    if i < 0 then i + SIZE_T else i
  }

  predicate Accepts(header: seq<Byte>) {
    0 <= LengthField(header) <= MAX_BODY_LENGTH
  }

  lemma {:induction false} DigitsRange(s: seq<Byte>, acc: nat, bound: nat)
    requires acc < bound
    ensures Digits(s, acc) < Scaled(bound, |s|)
    decreases |s|
  {
    ScaledGrows(bound, |s|);
    if s != [] && IsDigit(s[0]) { DigitsRange(s[1..], 10 * acc + (s[0] - 48), 10 * bound); }
  }

  function Scaled(bound: nat, k: nat): nat
    decreases k
  {
    if k == 0 then bound else Scaled(10 * bound, k - 1)
  }

  lemma {:induction false} ScaledGrows(bound: nat, k: nat)
    ensures Scaled(bound, k) >= bound
    decreases k
  {
    if k > 0 { ScaledGrows(10 * bound, k - 1); }
  }

  lemma {:induction false} ScaledMonotone(bound: nat, k: nat, l: nat)
    requires k <= l
    ensures Scaled(bound, k) <= Scaled(bound, l)
    decreases l
  {
    if k > 0 { ScaledMonotone(10 * bound, k - 1, l - 1); } else { ScaledGrows(bound, l); }
  }

  lemma {:induction false} AtoiRange(s: seq<Byte>, k: nat)
    requires |s| <= k
    ensures 0 - Scaled(1, k) < Atoi(s) < Scaled(1, k)
    decreases |s|
  {
    ScaledGrows(1, k);
    if s != [] {
      if IsSpace(s[0]) { AtoiRange(s[1..], k); }
      ScaledMonotone(1, |s|, k);
      ScaledMonotone(1, |s| - 1, k);
      DigitsRange(s, 0, 1);
      DigitsRange(s[1..], 0, 1);
    }
  }

  /** Whatever the four bytes are, atoi stays within int, and the comparison with 512 after the
      conversion to std::size_t accepts exactly the numbers from 0 to 512. */
  lemma AcceptedExactly(header: seq<Byte>)
    requires |header| == HEADER_LENGTH
    ensures -9999 <= LengthField(header) <= 9999
    ensures AsSize(LengthField(header)) <= MAX_BODY_LENGTH <==> Accepts(header)
  {
    AtoiRange(UntilNul(header), HEADER_LENGTH);
    assert Scaled(1, 4) == Scaled(10, 3) == Scaled(100, 2) == Scaled(1000, 1) == 10000;
  }

  lemma {:induction false} DigitsAppend(s: seq<Byte>, d: Byte, acc: nat)
    requires forall k | 0 <= k < |s| :: IsDigit(s[k])
    requires IsDigit(d)
    ensures Digits(s + [d], acc) == 10 * Digits(s, acc) + (d - 48)
    decreases |s|
  {
    if s == [] {
      assert s + [d] == [d] && [d][1..] == [];
    } else {
      assert (s + [d])[1..] == s[1..] + [d];
      DigitsAppend(s[1..], d, 10 * acc + (s[0] - 48));
    }
  }

  lemma {:induction false} DigitsOfDecimal(n: nat)
    ensures Digits(Decimal(n), 0) == n
  {
    if n < 10 {
      assert [48 + n][1..] == [];
    } else {
      DigitsOfDecimal(n / 10);
      DigitsAppend(Decimal(n / 10), 48 + n % 10, 0);
    }
  }

  lemma {:induction false} PaddingIsSkipped(s: seq<Byte>, width: nat)
    ensures Atoi(PadLeft(s, width)) == Atoi(s)
    ensures 0 !in s ==> 0 !in PadLeft(s, width)
    decreases width - |s|
  {
    if |s| < width {
      PaddingIsSkipped([32] + s, width);
      assert ([32] + s)[1..] == s;
    }
  }

  lemma {:induction false} NoNul(s: seq<Byte>)
    requires 0 !in s
    ensures UntilNul(s) == s
  {
    if s != [] { NoNul(s[1..]); }
  }

  lemma {:induction false} DecimalLength(n: nat, k: nat)
    requires k > 0 && n < Scaled(1, k)
    ensures |Decimal(n)| <= k
    decreases k
  {
    ScaledTen(1, k - 1);
    if n >= 10 {
      assert k > 1;
      DecimalLength(n / 10, k - 1);
    }
  }

  lemma {:induction false} ScaledTen(bound: nat, k: nat)
    ensures Scaled(bound, k + 1) == 10 * Scaled(bound, k)
    decreases k
  {
    if k > 0 { ScaledTen(10 * bound, k - 1); }
  }

  /** decode_header undoes encode_header. */
  lemma DecodesEncoded(n: nat)
    requires n <= MAX_BODY_LENGTH
    ensures |Format(n)| == HEADER_LENGTH && LengthField(Format(n)) == n && Accepts(Format(n))
  {
    assert Scaled(1, 3) == Scaled(10, 2) == Scaled(100, 1) == 1000;
    DecimalLength(n, 3);
    PaddingIsSkipped(Decimal(n), HEADER_LENGTH);
    NoNul(Format(n));
    DigitsOfDecimal(n);
  }

  // ---------- Which headers are accepted, and which the encoder writes ----------

  function SkipSpaces(s: seq<Byte>): seq<Byte> {
    if s != [] && IsSpace(s[0]) then SkipSpaces(s[1..]) else s
  }

  predicate Signed(s: seq<Byte>) {
    s != [] && (s[0] == 43 || s[0] == 45)
  }

  /** The digits that count: up to a NUL, after white space and a sign, and before anything else. */
  function Number(header: seq<Byte>): nat {
    var t := SkipSpaces(UntilNul(header));
    Digits(if Signed(t) then t[1..] else t, 0)
  }

  predicate Negative(header: seq<Byte>) {
    var t := SkipSpaces(UntilNul(header));
    t != [] && t[0] == 45
  }

  lemma {:induction false} AtoiSkips(s: seq<Byte>)
    ensures Atoi(s) == Atoi(SkipSpaces(s))
  {
    if s != [] && IsSpace(s[0]) { AtoiSkips(s[1..]); }
  }

  lemma {:induction false} NoSpaceLeft(s: seq<Byte>)
    ensures SkipSpaces(s) != [] ==> !IsSpace(SkipSpaces(s)[0])
  {
    if s != [] && IsSpace(s[0]) { NoSpaceLeft(s[1..]); }
  }

  /** White space of any kind, a plus sign, leading zeros, no digits at all, and anything after the
      digits are all accepted; a minus sign only before a zero. */
  lemma AcceptedHeaders(header: seq<Byte>)
    ensures LengthField(header) == if Negative(header) then 0 - Number(header) else Number(header)
    ensures Accepts(header) <==> Number(header) <= MAX_BODY_LENGTH && (Negative(header) ==> Number(header) == 0)
  {
    AtoiSkips(UntilNul(header));
    NoSpaceLeft(UntilNul(header));
  }

  predicate Blank(s: seq<Byte>) {
    forall k | 0 <= k < |s| :: s[k] == 32
  }

  /** The decimal digits of a body length, without leading zeros. */
  predicate Canonical(ds: seq<Byte>) {
    && ds != [] && (forall k | 0 <= k < |ds| :: IsDigit(ds[k]))
    && (|ds| > 1 ==> ds[0] != 48) && Digits(ds, 0) <= MAX_BODY_LENGTH
  }

  ghost predicate EncoderWrites(header: seq<Byte>) {
    exists k: nat :: k <= |header| && Blank(header[..k]) && Canonical(header[k..])
  }

  lemma {:induction false} DigitsNotZero(ds: seq<Byte>)
    requires ds != [] && (forall k | 0 <= k < |ds| :: IsDigit(ds[k])) && ds[0] != 48
    ensures Digits(ds, 0) > 0
  {
    var n := |ds| - 1;
    if n == 0 {
      assert ds[1..] == [];
    } else {
      DigitsNotZero(ds[..n]);
      assert ds == ds[..n] + [ds[n]];
      DigitsAppend(ds[..n], ds[n], 0);
    }
  }

  lemma {:induction false} DecimalOfDigits(ds: seq<Byte>)
    requires ds != [] && (forall k | 0 <= k < |ds| :: IsDigit(ds[k])) && (|ds| > 1 ==> ds[0] != 48)
    ensures Decimal(Digits(ds, 0)) == ds
  {
    var n := |ds| - 1;
    if n == 0 {
      assert ds[1..] == [] && ds == [ds[0]];
    } else {
      assert ds == ds[..n] + [ds[n]];
      DigitsAppend(ds[..n], ds[n], 0);
      DigitsNotZero(ds[..n]);
      DecimalOfDigits(ds[..n]);
    }
  }

  lemma {:induction false} NoLeadingZero(n: nat)
    ensures |Decimal(n)| > 1 ==> Decimal(n)[0] != 48
  {
    if n >= 10 {
      NoLeadingZero(n / 10);
      if n / 10 < 10 { assert Decimal(n / 10) == [48 + n / 10]; }
    }
  }

  lemma {:induction false} PaddedIsBlank(s: seq<Byte>, width: nat)
    ensures var p := PadLeft(s, width); Blank(p[..|p| - |s|]) && p[|p| - |s|..] == s
    decreases width - |s|
  {
    if |s| < width {
      PaddedIsBlank([32] + s, width);
      var p := PadLeft(s, width);
      var q := p[|p| - |s| - 1..];
      assert q == [32] + s;
      assert p[|p| - |s|..] == q[1..];
      assert forall k | 0 <= k < |p| - |s| :: p[k] == if k < |p| - |s| - 1 then p[..|p| - |s| - 1][k] else q[0];
    }
  }

  lemma BlankUnique(p: seq<Byte>, q: seq<Byte>)
    requires |p| == |q| && Blank(p) && Blank(q)
    ensures p == q
  {
  }

  /** Of all headers that are accepted the encoder writes those, and only those, in which blanks are
      followed by the digits of the length up to the end: every other one is kept as it came when
      the message is passed on. */
  lemma EncodersHeaders(header: seq<Byte>)
    requires |header| == HEADER_LENGTH
    ensures EncoderWrites(header) <==> Accepts(header) && header == Format(LengthField(header))
  {
    if k: nat :| k <= |header| && Blank(header[..k]) && Canonical(header[k..]) { WrittenIsFormat(header, k); }
    if Accepts(header) && header == Format(LengthField(header)) { FormatIsWritten(LengthField(header)); }
  }

  lemma WrittenIsFormat(header: seq<Byte>, k: nat)
    requires |header| == HEADER_LENGTH && k <= |header| && Blank(header[..k]) && Canonical(header[k..])
    ensures Accepts(header) && header == Format(LengthField(header))
  {
    var ds := header[k..];
    var n := Digits(ds, 0);
    DecimalOfDigits(ds);
    DecodesEncoded(n);
    PaddedIsBlank(ds, HEADER_LENGTH);
    BlankUnique(header[..k], Format(n)[..k]);
    assert header == header[..k] + ds && Format(n) == Format(n)[..k] + ds;
  }

  lemma FormatIsWritten(n: nat)
    requires n <= MAX_BODY_LENGTH
    ensures EncoderWrites(Format(n))
  {
    var p := Format(n);
    PaddedIsBlank(Decimal(n), HEADER_LENGTH);
    NoLeadingZero(n);
    DigitsOfDecimal(n);
    assert Canonical(p[|p| - |Decimal(n)|..]);
  }

  // ---------- Streams ----------

  function Encoded(body: seq<Byte>): seq<Byte> {
    Format(|body|) + body
  }

  function Join(wires: seq<seq<Byte>>): seq<Byte> {
    if wires == [] then [] else wires[0] + Join(wires[1..])
  }

  /** Whether a whole message, header and body, is at the front of the stream. */
  predicate Whole(stream: seq<Byte>) {
    && HEADER_LENGTH <= |stream| && Accepts(stream[..HEADER_LENGTH])
    && HEADER_LENGTH + LengthField(stream[..HEADER_LENGTH]) <= |stream|
  }

  function FrontLength(stream: seq<Byte>): nat
    requires Whole(stream)
  {
    HEADER_LENGTH + LengthField(stream[..HEADER_LENGTH])
  }

  /** What the read loop delivers: header and body of every message up to the first bad header or
      the end of the stream. */
  function Frames(stream: seq<Byte>): seq<seq<Byte>> {
    if Whole(stream) then [stream[..FrontLength(stream)]] + Frames(stream[FrontLength(stream)..]) else []
  }

  function AllEncoded(bodies: seq<seq<Byte>>): (wires: seq<seq<Byte>>)
    ensures |wires| == |bodies| && forall k | 0 <= k < |bodies| :: wires[k] == Encoded(bodies[k])
  {
    if bodies == [] then [] else [Encoded(bodies[0])] + AllEncoded(bodies[1..])
  }

  lemma FrontOf(wire: seq<Byte>, rest: seq<Byte>)
    requires Whole(wire) && FrontLength(wire) == |wire|
    ensures Frames(wire + rest) == [wire] + Frames(rest)
  {
    var stream := wire + rest;
    assert stream[..HEADER_LENGTH] == wire[..HEADER_LENGTH];
    assert stream[..|wire|] == wire && stream[|wire|..] == rest;
  }

  lemma EncodedIsWhole(body: seq<Byte>)
    requires |body| <= MAX_BODY_LENGTH
    ensures Whole(Encoded(body)) && FrontLength(Encoded(body)) == |Encoded(body)|
    ensures Encoded(body)[HEADER_LENGTH..] == body
  {
    DecodesEncoded(|body|);
    assert Encoded(body)[..HEADER_LENGTH] == Format(|body|);
  }

  lemma JoinPrepends(first: seq<Byte>, others: seq<seq<Byte>>, rest: seq<Byte>)
    ensures Join([first] + others) + rest == first + (Join(others) + rest)
  {
    assert ([first] + others)[1..] == others;
  }

  lemma {:induction false} WholeFramesAgain(wires: seq<seq<Byte>>, rest: seq<Byte>)
    requires forall k | 0 <= k < |wires| :: Whole(wires[k]) && FrontLength(wires[k]) == |wires[k]|
    ensures Frames(Join(wires) + rest) == wires + Frames(rest)
  {
    if wires == [] {
      assert Join(wires) + rest == rest;
    } else {
      assert wires == [wires[0]] + wires[1..];
      JoinPrepends(wires[0], wires[1..], rest);
      WholeFramesAgain(wires[1..], rest);
      FrontOf(wires[0], Join(wires[1..]) + rest);
    }
  }

  /** Decoding the concatenation of encoded messages gives the messages back, and then goes on
      with whatever follows them. */
  lemma StreamRoundTrip(bodies: seq<seq<Byte>>, rest: seq<Byte>)
    requires forall k | 0 <= k < |bodies| :: |bodies[k]| <= MAX_BODY_LENGTH
    ensures Frames(Join(AllEncoded(bodies)) + rest) == AllEncoded(bodies) + Frames(rest)
    ensures forall k | 0 <= k < |bodies| :: AllEncoded(bodies)[k][HEADER_LENGTH..] == bodies[k]
  {
    forall k | 0 <= k < |bodies|
      ensures var w := AllEncoded(bodies)[k]; Whole(w) && FrontLength(w) == |w| && w[HEADER_LENGTH..] == bodies[k]
    {
      EncodedIsWhole(bodies[k]);
    }
    WholeFramesAgain(AllEncoded(bodies), rest);
  }

  lemma {:induction false} FramesAreWhole(stream: seq<Byte>)
    ensures forall k | 0 <= k < |Frames(stream)| ::
              Whole(Frames(stream)[k]) && FrontLength(Frames(stream)[k]) == |Frames(stream)[k]|
    decreases |stream|
  {
    if Whole(stream) {
      var n := FrontLength(stream);
      assert stream[..n][..HEADER_LENGTH] == stream[..HEADER_LENGTH];
      FramesAreWhole(stream[n..]);
    }
  }

  /** The messages accepted from any stream are the bytes received, in order, and what is left
      over does not start with a whole message. */
  lemma {:induction false} FramesArePrefix(stream: seq<Byte>)
    ensures Join(Frames(stream)) <= stream && !Whole(stream[|Join(Frames(stream))|..])
    decreases |stream|
  {
    if Whole(stream) {
      var n := FrontLength(stream);
      var others := stream[n..];
      FramesArePrefix(others);
      JoinPrepends(stream[..n], Frames(others), []);
      assert Join(Frames(stream)) == stream[..n] + Join(Frames(others));
      assert stream[|Join(Frames(stream))|..] == others[|Join(Frames(others))|..];
    }
  }

  /** Messages accepted from any stream at all, whatever their headers look like, have bodies of
      at most 512 bytes; passed on verbatim they decode to the same messages again. */
  lemma RelayedVerbatim(stream: seq<Byte>, rest: seq<Byte>)
    ensures Frames(Join(Frames(stream)) + rest) == Frames(stream) + Frames(rest)
    ensures forall k | 0 <= k < |Frames(stream)| :: |Frames(stream)[k]| <= HEADER_LENGTH + MAX_BODY_LENGTH
  {
    FramesAreWhole(stream);
    WholeFramesAgain(Frames(stream), rest);
  }

  /** Why a message is relayed and not encoded again: other headers than the encoder's are
      accepted, four NULs for example, or a sign. */
  lemma OtherHeadersAccepted()
    ensures Accepts([0, 0, 0, 0]) && LengthField([0, 0, 0, 0]) == 0 && Format(0) != [0, 0, 0, 0]
    ensures Accepts([43, 55, 120, 57]) && LengthField([43, 55, 120, 57]) == 7
    ensures !Accepts([32, 32, 45, 49]) && !Accepts([32, 53, 49, 51])
  {
    assert UntilNul([0, 0, 0, 0]) == [];
    assert Decimal(0) == [48];
    DecodesEncoded(0);
    NoNul(Format(0)) by { PaddingIsSkipped([48], HEADER_LENGTH); }
    DecodesNegative();
    DecodesNumber513();
  }

  lemma DecodesNegative()
    ensures LengthField([32, 32, 45, 49]) == -1
  {
    NoNul([32, 32, 45, 49]);
    assert [32, 32, 45, 49][1..] == [32, 45, 49] && [32, 45, 49][1..] == [45, 49];
    assert [45, 49][1..] == [49] && [49][1..] == [];
  }

  lemma DecodesNumber513()
    ensures LengthField([32, 53, 49, 51]) == 513
  {
    NoNul([32, 53, 49, 51]);
    assert [32, 53, 49, 51][1..] == [53, 49, 51];
    assert [53, 49] + [51] == [53, 49, 51] && [53] + [49] == [53, 49] && [53][1..] == [];
    DigitsAppend([53, 49], 51, 0);
    DigitsAppend([53], 49, 0);
  }

  // ---------- The class ----------

  class ChatMessage {
    const data: array<Byte>
    var bodyLength: int

    ghost predicate Valid()
      reads this
    {
      data.Length == HEADER_LENGTH + MAX_BODY_LENGTH && 0 <= bodyLength <= MAX_BODY_LENGTH
    }

    constructor ()
      ensures Valid() && fresh(data) && bodyLength == 0
    {
      data := new Byte[HEADER_LENGTH + MAX_BODY_LENGTH];
      bodyLength := 0;
    }

    /** data() up to length(): what do_write sends. */
    function Wire(): seq<Byte>
      requires Valid()
      reads this, data
    {
      data[..HEADER_LENGTH + bodyLength]
    }

    method SetBodyLength(newLength: nat)
      requires data.Length == HEADER_LENGTH + MAX_BODY_LENGTH
      modifies this`bodyLength
      ensures Valid() && bodyLength == if newLength > MAX_BODY_LENGTH then MAX_BODY_LENGTH else newLength
    {
      bodyLength := newLength;
      if bodyLength > MAX_BODY_LENGTH {
        bodyLength := MAX_BODY_LENGTH;
      }
    }

    method DecodeHeader() returns (ok: bool)
      requires Valid()
      modifies this`bodyLength
      ensures Valid() && ok == Accepts(data[..HEADER_LENGTH])
      ensures bodyLength == if ok then LengthField(data[..HEADER_LENGTH]) else 0
    {
      AcceptedExactly(data[..HEADER_LENGTH]);
      bodyLength := AsSize(Atoi(UntilNul(data[..HEADER_LENGTH])));
      if bodyLength > MAX_BODY_LENGTH {
        bodyLength := 0;
        return false;
      }
      return true;
    }

    method EncodeHeader()
      requires Valid()
      modifies data
      ensures data[..HEADER_LENGTH] == Format(bodyLength) && data[HEADER_LENGTH..] == old(data[HEADER_LENGTH..])
      ensures Wire() == Encoded(old(data[HEADER_LENGTH..HEADER_LENGTH + bodyLength]))
    {
      DecodesEncoded(bodyLength);
      ghost var body := data[HEADER_LENGTH..HEADER_LENGTH + bodyLength];
      assert body == data[HEADER_LENGTH..][..bodyLength];
      Fill(0, Format(bodyLength));
      assert data[HEADER_LENGTH..HEADER_LENGTH + bodyLength] == data[HEADER_LENGTH..][..bodyLength];
      assert |body| == bodyLength && Wire() == data[..HEADER_LENGTH] + data[HEADER_LENGTH..HEADER_LENGTH + bodyLength];
    }

    /** memcpy, or a completed async_read. */
    method Fill(from: nat, bytes: seq<Byte>)
      requires from + |bytes| <= data.Length
      modifies data
      ensures data[from..from + |bytes|] == bytes
      ensures data[..from] == old(data[..from]) && data[from + |bytes|..] == old(data[from + |bytes|..])
    {
      forall k | 0 <= k < |bytes| { data[from + k] := bytes[k]; }
    }

    /** do_read_header and do_read_body in turn, until an error. */
    method ReadLoop(stream: seq<Byte>) returns (delivered: seq<seq<Byte>>)
      requires Valid()
      modifies this`bodyLength, data
      ensures Valid() && delivered == Frames(stream)
    {
      delivered := [];
      var left := stream;
      while HEADER_LENGTH <= |left|
        invariant Valid() && delivered + Frames(left) == Frames(stream)
        decreases |left|
      {
        Fill(0, left[..HEADER_LENGTH]);
        var ok := DecodeHeader();
        if !ok || |left| < HEADER_LENGTH + bodyLength {
          return;
        }
        Fill(HEADER_LENGTH, left[HEADER_LENGTH..HEADER_LENGTH + bodyLength]);
        assert Wire() == data[..HEADER_LENGTH] + data[HEADER_LENGTH..HEADER_LENGTH + bodyLength] ==
            left[..HEADER_LENGTH + bodyLength];
        delivered := delivered + [Wire()];
        left := left[HEADER_LENGTH + bodyLength..];
      }
    }
  }
}
