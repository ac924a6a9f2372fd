/** The Internet checksum, section 1 of RFC 1071 (`internet_checksum` and `build_echo_request` in
    `crates/ntk-neighborhood/src/rtt.rs`). */
module Checksum {
  import opened Registration

  const ICMP_ECHO_REQUEST: Byte := 8
  const TWO32: nat := 0x1_0000_0000

  function Word(hi: Byte, lo: Byte): (w: nat)
    ensures w < 0x1_0000
  {
    0x100 * hi + lo
  }

  /** The sum of the first `k` words. */
  function WordsUpTo(data: seq<Byte>, k: nat): nat
    requires 2 * k <= |data|
  {
    if k == 0 then 0 else WordsUpTo(data, k - 1) + Word(data[2 * k - 2], data[2 * k - 1])
  }

  /** The sum of all words, an odd last byte counting as the high half of one. */
  function WordSum(data: seq<Byte>): nat {
    WordsUpTo(data, |data| / 2) + if |data| % 2 == 1 then Word(data[|data| - 1], 0) else 0
  }

  /** The one's-complement value of a sum: zero only for zero, otherwise from 1 to 65535. */
  function Fold(x: nat): (r: nat)
    ensures r < 0x1_0000
  {
    if x == 0 then 0 else 1 + (x - 1) % 0xFFFF
  }

  /** The checksum of data whose sum is kept in 32 bits. */
  function ChecksumOf(data: seq<Byte>): (c: nat)
    ensures c < 0x1_0000
  {
    0xFFFF - Fold(WordSum(data) % TWO32)
  }

  /** Folding the carries once keeps the one's-complement value. */
  lemma FoldStep(x: nat)
    ensures Fold(x % 0x1_0000 + x / 0x1_0000) == Fold(x)
  {
    var q, r := x / 0x1_0000, x % 0x1_0000;
    assert x == 0x1_0000 * q + r;
    if x > 0 {
      assert x - 1 == 0xFFFF * q + (q + r - 1);
      ModShift(q + r - 1, q);
    }
  }

  lemma ModShift(a: nat, q: nat)
    ensures (0xFFFF * q + a) % 0xFFFF == a % 0xFFFF
  {
    var n := 0xFFFF;
    assert a == n * (a / n) + a % n;
    assert 0xFFFF * q + a == n * (q + a / n) + a % n;
  }

  /** `internet_checksum`. Additions wrap at 32 bits. */
  method InternetChecksum(data: seq<Byte>) returns (c: nat)
    ensures c == ChecksumOf(data)
  {
    var sum: nat := 0;
    for k := 0 to |data| / 2
      invariant sum == WordsUpTo(data, k) % TWO32
    {
      AddWraps(WordsUpTo(data, k), Word(data[2 * k], data[2 * k + 1]));
      sum := (sum + Word(data[2 * k], data[2 * k + 1])) % TWO32;
    }
    if |data| % 2 == 1 {
      AddWraps(WordsUpTo(data, |data| / 2), Word(data[|data| - 1], 0));
      sum := (sum + Word(data[|data| - 1], 0)) % TWO32;
    }
    while sum / 0x1_0000 != 0
      invariant Fold(sum) == Fold(WordSum(data) % TWO32)
      decreases sum
    {
      FoldStep(sum);
      sum := sum % 0x1_0000 + sum / 0x1_0000;
    }
    c := 0xFFFF - sum;
  }

  lemma AddWraps(a: nat, b: nat)
    ensures (a % TWO32 + b) % TWO32 == (a + b) % TWO32
  {}

  // ---------------------------------------------------------------- inserting the checksum

  function Inserted(data: seq<Byte>, i: nat, w: nat): (r: seq<Byte>)
    requires i + 1 < |data| && w < 0x1_0000
    ensures |r| == |data|
  {
    data[i := w / 0x100][i + 1 := w % 0x100]
  }

  /** A word put into a zeroed aligned field adds itself to the sum. */
  lemma {:induction false} InsertedWords(data: seq<Byte>, i: nat, w: nat, k: nat)
    requires i % 2 == 0 && i + 1 < |data| && w < 0x1_0000 && 2 * k <= |data|
    requires data[i] == 0 && data[i + 1] == 0
    ensures WordsUpTo(Inserted(data, i, w), k) == WordsUpTo(data, k) + if i < 2 * k then w else 0
  {
    if k > 0 {
      InsertedWords(data, i, w, k - 1);
    }
  }

  lemma InsertedSum(data: seq<Byte>, i: nat, w: nat)
    requires i % 2 == 0 && i + 1 < |data| && w < 0x1_0000
    requires data[i] == 0 && data[i + 1] == 0
    ensures WordSum(Inserted(data, i, w)) == WordSum(data) + w
  {
    InsertedWords(data, i, w, |data| / 2);
  }

  lemma FoldFull(x: nat)
    ensures Fold(x) == 0xFFFF <==> x > 0 && x % 0xFFFF == 0
  {
    if x > 0 {
      var q, r := (x - 1) / 0xFFFF, (x - 1) % 0xFFFF;
      assert x - 1 == 0xFFFF * q + r;
      ModShift(r + 1, q);
    }
  }

  /** A sum and the complement of its fold make a multiple of 65535. */
  lemma FoldComplement(x: nat)
    ensures Fold(x + (0xFFFF - Fold(x))) == 0xFFFF
  {
    var y := x + (0xFFFF - Fold(x));
    if x > 0 {
      var q := (x - 1) / 0xFFFF;
      assert x - 1 == 0xFFFF * q + (x - 1) % 0xFFFF;
      assert y == 0xFFFF * (q + 1) + 0;
      ModShift(0, q + 1);
    }
    FoldFull(y);
  }

  /** For data of any length, the inserted checksum verifies if and only if adding it does not carry
      out of the 32-bit sum. */
  lemma VerifiesIff(data: seq<Byte>, i: nat)
    requires i % 2 == 0 && i + 1 < |data| && data[i] == 0 && data[i + 1] == 0
    ensures ChecksumOf(Inserted(data, i, ChecksumOf(data))) == 0
      <==> WordSum(data) % TWO32 + ChecksumOf(data) < TWO32
  {
    var sum, c := WordSum(data) % TWO32, ChecksumOf(data);
    InsertedSum(data, i, c);
    AddWraps(WordSum(data), c);
    FoldComplement(sum);
    FoldFull((sum + c) % TWO32);
    if sum + c >= TWO32 {
      assert (sum + c) % TWO32 == sum + c - TWO32;
    }
  }

  // ---------------------------------------------------------------- no carry is lost

  lemma {:induction false} WordsBound(data: seq<Byte>, k: nat)
    requires 2 * k <= |data|
    ensures WordsUpTo(data, k) <= 0xFFFF * k
  {
    if k > 0 {
      WordsBound(data, k - 1);
    }
  }

  function AllOnes(n: nat): seq<Byte> {
    seq(n, _ => 0xFF)
  }

  lemma {:induction false} WordsOfOnes(n: nat, k: nat)
    requires 2 * k <= n
    ensures WordsUpTo(AllOnes(n), k) == 0xFFFF * k
  {
    if k > 0 {
      WordsOfOnes(n, k - 1);
    }
  }

  /** The 32-bit sum is exact for all data of a length if and only if the length is at most 131074. */
  lemma SumExactIff(n: nat)
    ensures n <= 131074 <==> forall data: seq<Byte> :: |data| == n ==> WordSum(data) < TWO32
  {
    if n <= 131074 {
      forall data: seq<Byte> | |data| == n ensures WordSum(data) < TWO32 {
        WordsBound(data, n / 2);
      }
    } else {
      WordsOfOnes(n, n / 2);
      assert |AllOnes(n)| == n && WordSum(AllOnes(n)) >= TWO32;
    }
  }

  lemma {:induction false} WordsWithGap(data: seq<Byte>, i: nat, k: nat)
    requires i % 2 == 0 && i + 1 < |data| && 2 * k <= |data| && data[i] == 0 && data[i + 1] == 0
    ensures WordsUpTo(data, k) <= 0xFFFF * k - if i < 2 * k then 0xFFFF else 0
  {
    if k > 0 {
      WordsWithGap(data, i, k - 1);
    }
  }

  /** Up to that length the inserted checksum always verifies. */
  lemma InsertedVerifies(data: seq<Byte>, i: nat)
    requires |data| <= 131074
    requires i % 2 == 0 && i + 1 < |data| && data[i] == 0 && data[i + 1] == 0
    ensures ChecksumOf(Inserted(data, i, ChecksumOf(data))) == 0
  {
    WordsWithGap(data, i, |data| / 2);
    VerifiesIff(data, i);
  }

  /** `build_echo_request`: the packet carries its arguments and verifies. */
  method BuildEchoRequest(ident: U16, sequence: U16) returns (packet: seq<Byte>)
    ensures |packet| == 8
    ensures packet[0] == ICMP_ECHO_REQUEST && packet[1] == 0
    ensures Word(packet[4], packet[5]) == ident && Word(packet[6], packet[7]) == sequence
    ensures ChecksumOf(packet) == 0
  {
    var buffer := new Byte[8](_ => 0);
    buffer[0] := ICMP_ECHO_REQUEST;
    buffer[4], buffer[5] := ident / 0x100, ident % 0x100;
    buffer[6], buffer[7] := sequence / 0x100, sequence % 0x100;
    ghost var zeroed := buffer[..];
    var checksum := InternetChecksum(buffer[..]);
    buffer[2], buffer[3] := checksum / 0x100, checksum % 0x100;
    packet := buffer[..];
    assert packet == Inserted(zeroed, 2, checksum);
    InsertedVerifies(zeroed, 2);
  }
}
