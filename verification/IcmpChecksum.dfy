/** icmp_header.hpp: the ICMP header and the Internet checksum of RFC 792 and RFC 1071. */
module IcmpChecksum {
  import opened Bytes

  type Short = w: int | 0 <= w < 0x1_0000

  const WRAP := 0x1_0000_0000
  const MAX_BODY := 131068

  function Word(hi: Byte, lo: Byte): Short {
    hi * 256 + lo
  }

  // ---------- The ones' complement sum of RFC 1071, section 1 ----------

  /** 16-bit addition with end-around carry. */
  function OnesAdd(a: Short, b: Short): Short {
    if a + b < 0x1_0000 then a + b else a + b - 0xFFFF
  }

  /** The sum of the 16-bit words of a message, an odd last byte padded with a zero. */
  function OnesSum(message: seq<Byte>): Short {
    if message == [] then 0
    else if |message| == 1 then Word(message[0], 0)
    else OnesAdd(Word(message[0], message[1]), OnesSum(message[2..]))
  }

  predicate ChecksumHolds(message: seq<Byte>) {
    OnesSum(message) == 0xFFFF
  }

  // ---------- What the loop adds up ----------

  /** The same words added without any bound. */
  function PlainSum(message: seq<Byte>): nat {
    if message == [] then 0
    else if |message| == 1 then Word(message[0], 0)
    else Word(message[0], message[1]) + PlainSum(message[2..])
  }

  /** All words but the checksum field. */
  function Total(rep: seq<Byte>, body: seq<Byte>): nat
    requires |rep| == 8
  {
    Word(rep[0], rep[1]) + Word(rep[4], rep[5]) + Word(rep[6], rep[7]) + PlainSum(body)
  }

  /** How often the 32-bit sum wraps round. */
  function Wraps(rep: seq<Byte>, body: seq<Byte>): nat
    requires |rep| == 8
  {
    Total(rep, body) / WRAP
  }

  /** Zero is kept apart from its other representation 0xFFFF. */
  function Residue(x: nat): Short {
    if x == 0 then 0 else (x - 1) % 0xFFFF + 1
  }

  lemma {:induction false} SameResidue(x: nat, k: nat)
    requires x == 0 ==> k == 0
    ensures Residue(x + 0xFFFF * k) == Residue(x)
  {
    if k > 0 { SameResidue(x, k - 1); }
  }

  /** How many times 0xFFFF is taken off. */
  function Multiples(x: nat): (k: nat)
    ensures x == Residue(x) + 0xFFFF * k && (x == 0 ==> k == 0)
  {
    if x == 0 then 0 else (x - 1) / 0xFFFF
  }

  lemma OnesAddResidue(w: Short, x: nat)
    ensures OnesAdd(w, Residue(x)) == Residue(w + x)
  {
    var a, k := OnesAdd(w, Residue(x)), Multiples(x);
    SameResidue(a, if w + Residue(x) < 0x1_0000 then k else k + 1);
  }

  lemma FullIff(w: nat, k: nat)
    requires k > 0
    ensures Residue(w + 0xFFFF * k) == 0xFFFF <==> w % 0xFFFF == 0
  {
    if w == 0 { SameResidue(0xFFFF, k - 1); } else { SameResidue(w, k); }
  }

  lemma {:induction false} OnesSumIsResidue(message: seq<Byte>)
    ensures OnesSum(message) == Residue(PlainSum(message))
  {
    if |message| > 1 {
      OnesSumIsResidue(message[2..]);
      OnesAddResidue(Word(message[0], message[1]), PlainSum(message[2..]));
    }
  }

  lemma {:induction false} PlainSumJoins(head: seq<Byte>, rest: seq<Byte>)
    requires |head| % 2 == 0
    ensures PlainSum(head + rest) == PlainSum(head) + PlainSum(rest)
  {
    if head == [] {
      assert head + rest == rest;
    } else {
      assert (head + rest)[2..] == head[2..] + rest;
      PlainSumJoins(head[2..], rest);
    }
  }

  lemma {:induction false} PlainSumBound(message: seq<Byte>)
    ensures 2 * PlainSum(message) <= (|message| + 1) * 0xFFFF
    ensures |message| % 2 == 0 ==> 2 * PlainSum(message) <= |message| * 0xFFFF
  {
    if |message| > 1 { PlainSumBound(message[2..]); }
  }

  /** The message with `checksum` in its checksum field. */
  function WithChecksum(rep: seq<Byte>, checksum: Short): seq<Byte>
    requires |rep| == 8
  {
    rep[2 := checksum / 256][3 := checksum % 256]
  }

  lemma MessageSum(rep: seq<Byte>, body: seq<Byte>, checksum: Short)
    requires |rep| == 8
    ensures PlainSum(WithChecksum(rep, checksum) + body) == Total(rep, body) + checksum
  {
    var h := WithChecksum(rep, checksum);
    PlainSumJoins(h, body);
    assert PlainSum(h) == Word(h[0], h[1]) + PlainSum(h[2..]);
    assert PlainSum(h[2..]) == Word(h[2], h[3]) + PlainSum(h[4..]) by { assert h[2..][2..] == h[4..]; }
    assert PlainSum(h[4..]) == Word(h[4], h[5]) + PlainSum(h[6..]) by { assert h[4..][2..] == h[6..]; }
    assert PlainSum(h[6..]) == Word(h[6], h[7]) by { assert h[6..][2..] == []; }
  }

  /** The stored field is the complement of the folded 32-bit sum. */
  function Checksum(rep: seq<Byte>, body: seq<Byte>): Short
    requires |rep| == 8
  {
    0xFFFF - Residue(Total(rep, body) % WRAP)
  }

  /** The finished message is a valid one exactly when the number of wraps is a multiple of
      0xFFFF: every wrap loses 2^32, which is 1 in ones' complement. */
  lemma ValidIffNoWrapLost(rep: seq<Byte>, body: seq<Byte>)
    requires |rep| == 8
    ensures ChecksumHolds(WithChecksum(rep, Checksum(rep, body)) + body) <==> Wraps(rep, body) % 0xFFFF == 0
  {
    var total, wraps := Total(rep, body), Wraps(rep, body);
    var low, k := total % WRAP, Multiples(total % WRAP);
    MessageSum(rep, body, Checksum(rep, body));
    OnesSumIsResidue(WithChecksum(rep, Checksum(rep, body)) + body);
    assert total + Checksum(rep, body) == wraps + 0xFFFF * (0x1_0001 * wraps + k + 1);
    FullIff(wraps, 0x1_0001 * wraps + k + 1);
  }

  /** RFC 792: the complement of the ones' complement sum of the message with a zero in the field. The
      program stores it exactly when the wraps lose nothing and do not leave 0 for 0xFFFF. */
  lemma ChecksumIsComplement(rep: seq<Byte>, body: seq<Byte>)
    requires |rep| == 8
    ensures Checksum(rep, body) == 0xFFFF - OnesSum(WithChecksum(rep, 0) + body)
            <==> Wraps(rep, body) % 0xFFFF == 0 && (Total(rep, body) % WRAP == 0 ==> Total(rep, body) == 0)
  {
    var total, wraps := Total(rep, body), Wraps(rep, body);
    var low := total % WRAP;
    MessageSum(rep, body, 0);
    OnesSumIsResidue(WithChecksum(rep, 0) + body);
    assert total == low + wraps + 0xFFFF * (0x1_0001 * wraps);
    SameResidue(low + wraps, 0x1_0001 * wraps);
    ShiftedResidue(low, wraps);
  }

  lemma ShiftedResidue(low: nat, w: nat)
    ensures Residue(low + w) == Residue(low) <==> w % 0xFFFF == 0 && (low == 0 ==> w == 0)
  {
    var k, r := w / 0xFFFF, w % 0xFFFF;
    assert w == r + 0xFFFF * k;
    if low > 0 {
      SameResidue(low + r, k);
      var q := (low - 1) / 0xFFFF;
      assert low == Residue(low) + 0xFFFF * q;
      SameResidue(Residue(low) + r, q);
    }
  }

  /** No 32-bit sum wraps for a body of at most 131068 bytes, whatever the header. */
  lemma ShortBodiesNeverWrap(rep: seq<Byte>, body: seq<Byte>)
    requires |rep| == 8 && |body| <= 131068
    ensures Total(rep, body) < WRAP
    ensures ChecksumHolds(WithChecksum(rep, Checksum(rep, body)) + body)
  {
    PlainSumBound(body);
    assert PlainSum(body) <= 65534 * 0xFFFF;
    assert Wraps(rep, body) == 0;
    ValidIffNoWrapLost(rep, body);
  }

  function Filled(n: nat): (bytes: seq<Byte>)
    ensures |bytes| == n && forall k | 0 <= k < n :: bytes[k] == 0xFF
  {
    if n == 0 then [] else [0xFF] + Filled(n - 1)
  }

  lemma {:induction false} FilledSum(message: seq<Byte>)
    requires forall k | 0 <= k < |message| :: message[k] == 0xFF
    ensures PlainSum(message) == (|message| / 2) * 0xFFFF + (|message| % 2) * 0xFF00
  {
    if |message| > 1 { FilledSum(message[2..]); }
  }

  /** The bound is exact: one byte more, and a header and body of 0xFF bytes get a checksum that
      does not hold. */
  lemma OneByteMoreCanFail(rep: seq<Byte>, body: seq<Byte>)
    requires rep == Filled(8) && body == Filled(MAX_BODY + 1)
    ensures Wraps(rep, body) == 1
    ensures !ChecksumHolds(WithChecksum(rep, Checksum(rep, body)) + body)
  {
    FilledSum(body);
    ValidIffNoWrapLost(rep, body);
  }

  // ---------- The program ----------

  class IcmpHeader {
    const rep: array<Byte>

    ghost predicate Valid() {
      rep.Length == 8
    }

    constructor ()
      ensures Valid() && fresh(rep) && forall k | 0 <= k < 8 :: rep[k] == 0
    {
      rep := new Byte[8](_ => 0);
    }

    function Decode(a: nat, b: nat): Short
      requires a < rep.Length && b < rep.Length
      reads rep
    {
      Word(rep[a], rep[b])
    }

    method Encode(a: nat, b: nat, n: Short)
      requires a < rep.Length && b < rep.Length && a != b
      modifies rep
      ensures rep[..] == old(rep[..])[a := n / 256][b := n % 256]
      ensures Decode(a, b) == n
    {
      rep[a] := n / 256;
      rep[b] := n % 256;
    }

    function TypeField(): Byte requires Valid() reads rep { rep[0] }
    function Code(): Byte requires Valid() reads rep { rep[1] }
    function ChecksumField(): Short requires Valid() reads rep { Decode(2, 3) }
    function Identifier(): Short requires Valid() reads rep { Decode(4, 5) }
    function SequenceNumber(): Short requires Valid() reads rep { Decode(6, 7) }

    method SetType(n: Byte)
      requires Valid()
      modifies rep
      ensures TypeField() == n && rep[0] == n && rep[1..] == old(rep[1..])
    {
      rep[0] := n;
    }

    method SetCode(n: Byte)
      requires Valid()
      modifies rep
      ensures Code() == n && rep[1] == n && rep[..1] == old(rep[..1]) && rep[2..] == old(rep[2..])
    {
      rep[1] := n;
    }

    method SetChecksum(n: Short)
      requires Valid()
      modifies rep
      ensures rep[..] == WithChecksum(old(rep[..]), n) && ChecksumField() == n
    {
      Encode(2, 3, n);
    }

    method SetIdentifier(n: Short)
      requires Valid()
      modifies rep
      ensures Identifier() == n && rep[4] == n / 256 && rep[5] == n % 256
      ensures rep[..4] == old(rep[..4]) && rep[6..] == old(rep[6..])
    {
      Encode(4, 5, n);
    }

    method SetSequenceNumber(n: Short)
      requires Valid()
      modifies rep
      ensures SequenceNumber() == n && rep[6] == n / 256 && rep[7] == n % 256 && rep[..6] == old(rep[..6])
    {
      Encode(6, 7, n);
    }
  }

  function Add32(sum: nat, x: nat): nat {
    (sum + x) % WRAP
  }

  lemma AddWraps(exact: nat, x: nat)
    ensures Add32(exact % WRAP, x) == (exact + x) % WRAP
  {
  }

  function Folded(sum: nat): nat {
    sum / 0x1_0000 + sum % 0x1_0000
  }

  /** Two folds are enough for any 32-bit sum: the second leaves no carry behind. */
  lemma TwoFoldsSuffice(sum: nat)
    requires sum < WRAP
    ensures var once := Folded(sum); (once + once / 0x1_0000) % 0x1_0000 == Residue(sum)
  {
    var once := Folded(sum);
    assert sum == once + 0xFFFF * (sum / 0x1_0000);
    SameResidue(once, sum / 0x1_0000);
    SecondFold(once);
  }

  lemma SecondFold(once: nat)
    requires once <= 0x1_FFFE
    ensures (once + once / 0x1_0000) % 0x1_0000 == Residue(once)
  {
    if once >= 0x1_0000 { assert once / 0x1_0000 == 1; }
  }

  /** The last three statements of compute_checksum: fold, fold, complement. */
  method FoldAndComplement(unfolded: nat) returns (checksum: Short)
    requires unfolded < WRAP
    ensures checksum == 0xFFFF - Residue(unfolded)
  {
    TwoFoldsSuffice(unfolded);
    var sum := unfolded / 0x1_0000 + unfolded % 0x1_0000;
    sum := sum + sum / 0x1_0000;
    checksum := (WRAP - 1 - sum) % 0x1_0000;
  }

  /** The loop of compute_checksum: `sum` is an unsigned 32-bit variable. */
  method SumBody(start: nat, body: seq<Byte>) returns (sum: nat)
    requires start < WRAP
    ensures sum == (start + PlainSum(body)) % WRAP
  {
    sum := start;
    ghost var exact: nat := start;
    var i := 0;
    while i < |body|
      invariant i <= |body| && sum == exact % WRAP
      invariant exact + PlainSum(body[i..]) == start + PlainSum(body)
    {
      ghost var left := body[i..];
      AddWraps(exact, Word(body[i], 0));
      sum, exact := Add32(sum, Word(body[i], 0)), exact + Word(body[i], 0);
      i := i + 1;
      if i < |body| {
        AddWraps(exact, body[i]);
        sum, exact := Add32(sum, body[i]), exact + body[i];
        i := i + 1;
        assert left[2..] == body[i..];
      }
    }
  }

  method SumWords(header: IcmpHeader, body: seq<Byte>) returns (sum: nat)
    requires header.Valid()
    ensures sum == Total(header.rep[..], body) % WRAP
  {
    var start := Word(header.TypeField(), header.Code()) + header.Identifier() + header.SequenceNumber();
    sum := SumBody(start, body);
  }

  method ComputeChecksum(header: IcmpHeader, body: seq<Byte>)
    requires header.Valid()
    modifies header.rep
    ensures header.rep[..] == WithChecksum(old(header.rep[..]), Checksum(old(header.rep[..]), body))
    ensures ChecksumHolds(header.rep[..] + body) <==> Wraps(old(header.rep[..]), body) % 0xFFFF == 0
    ensures header.rep[..2] == old(header.rep[..2]) && header.rep[4..] == old(header.rep[4..])
    ensures |body| <= 131068 ==> ChecksumHolds(header.rep[..] + body)
    ensures |body| <= 131068 ==>
              var sum := OnesSum(old(header.rep[..])[2 := 0][3 := 0] + body);
              header.rep[2] == (0xFFFF - sum) / 256 && header.rep[3] == (0xFFFF - sum) % 256
  {
    ghost var rep := header.rep[..];
    ValidIffNoWrapLost(rep, body);
    if |body| <= MAX_BODY {
      ShortBodiesNeverWrap(rep, body);
      ChecksumIsComplement(rep, body);
    }
    var sum := SumWords(header, body);
    var checksum := FoldAndComplement(sum);
    header.SetChecksum(checksum);
  }
}
