/**
  The byte string an owner signs (`encode_target` and `signing_bytes` in
  `crates/ntk-andna/src/record.rs`), with the decoder that shows it is unambiguous.
 */
module SigningBytes {
  import opened Prelude
  import opened Registration

  // ---------------------------------------------------------------- integers

  // `to_le_bytes` of each width, least significant byte first.

  function U16Bytes(x: U16): (s: seq<Byte>)
    ensures |s| == 2
  {
    [x % 0x100, x / 0x100]
  }

  function U32Bytes(x: U32): (s: seq<Byte>)
    ensures |s| == 4
  {
    U16Bytes(x % 0x1_0000) + U16Bytes(x / 0x1_0000)
  }

  function U64Bytes(x: U64): (s: seq<Byte>)
    ensures |s| == 8
  {
    U32Bytes(x % 0x1_0000_0000) + U32Bytes(x / 0x1_0000_0000)
  }

  /** A length cast to `u32`: only its low 32 bits are kept. */
  function CountBytes(n: nat): (s: seq<Byte>) { U32Bytes(n % 0x1_0000_0000) }

  // ---------------------------------------------------------------- the encoding

  function EncodeU32s(xs: seq<U32>): seq<Byte> {
    if xs == [] then [] else U32Bytes(xs[0]) + EncodeU32s(xs[1..])
  }

  function EncodeAddress(a: Naddr): seq<Byte> {
    CountBytes(|a.positions|) + (EncodeU32s(a.gsizes) + EncodeU32s(a.positions))
  }

  function EncodeName(h: Hostname): seq<Byte> {
    CountBytes(|h|) + h
  }

  function EncodeTarget(t: Target): seq<Byte> {
    match t
    case Address(a) => [0] + EncodeAddress(a)
    case Alias(h) => [1] + EncodeName(h)
  }

  function EncodeRecord(r: SnsdRecord): seq<Byte> {
    U16Bytes(r.service) + ([r.priority, r.weight] + EncodeTarget(r.target))
  }

  function EncodeRecords(rs: seq<SnsdRecord>): seq<Byte> {
    if rs == [] then [] else EncodeRecord(rs[0]) + EncodeRecords(rs[1..])
  }

  /** The name, the key and the address. */
  function EncodeHead(c: Claim): seq<Byte> {
    EncodeName(c.hostname) + (c.ownerKey + EncodeTarget(Address(c.ownerNaddr)))
  }

  /** The sequence number, the timestamp and the zero record's numbers. */
  function EncodeNumbers(c: Claim): seq<Byte> {
    U64Bytes(c.sequence) + (U64Bytes(c.timestamp) + [c.zeroPriority, c.zeroWeight])
  }

  function EncodeList(rs: seq<SnsdRecord>): seq<Byte> {
    CountBytes(|rs|) + EncodeRecords(rs)
  }

  function Encode(c: Claim): seq<Byte> {
    EncodeHead(c) + (EncodeNumbers(c) + EncodeList(c.snsdRecords))
  }

  lemma Regroup(a: seq<Byte>, b: seq<Byte>, c: seq<Byte>)
    ensures (a + b) + c == a + (b + c)
  {}

  method AppendU32s(out: seq<Byte>, xs: seq<U32>) returns (r: seq<Byte>)
    ensures r == out + EncodeU32s(xs)
  {
    r := out;
    for k := 0 to |xs|
      invariant r + EncodeU32s(xs[k..]) == out + EncodeU32s(xs)
    {
      assert xs[k..][1..] == xs[k + 1..];
      Regroup(r, U32Bytes(xs[k]), EncodeU32s(xs[k + 1..]));
      r := r + U32Bytes(xs[k]);
    }
  }

  /** `encode_target`. */
  method AppendTarget(out: seq<Byte>, target: Target) returns (r: seq<Byte>)
    ensures r == out + EncodeTarget(target)
  {
    match target {
      case Address(a) =>
        r := out + [0];
        r := r + CountBytes(|a.positions|);
        r := AppendU32s(r, a.gsizes);
        r := AppendU32s(r, a.positions);
      case Alias(h) =>
        r := out + [1];
        r := r + CountBytes(|h|);
        r := r + h;
    }
  }

  method AppendRecord(out: seq<Byte>, record: SnsdRecord) returns (r: seq<Byte>)
    ensures r == out + EncodeRecord(record)
  {
    r := out + U16Bytes(record.service);
    r := r + [record.priority];
    r := r + [record.weight];
    assert r == out + (U16Bytes(record.service) + [record.priority, record.weight]);
    r := AppendTarget(r, record.target);
  }

  method AppendRecords(out: seq<Byte>, records: seq<SnsdRecord>) returns (r: seq<Byte>)
    ensures r == out + EncodeRecords(records)
  {
    r := out;
    for k := 0 to |records|
      invariant r + EncodeRecords(records[k..]) == out + EncodeRecords(records)
    {
      assert records[k..][1..] == records[k + 1..];
      Regroup(r, EncodeRecord(records[k]), EncodeRecords(records[k + 1..]));
      r := AppendRecord(r, records[k]);
    }
  }

  /** `signing_bytes`. */
  method BuildSigningBytes(c: Claim) returns (out: seq<Byte>)
    ensures out == Encode(c)
  {
    out := CountBytes(|c.hostname|) + c.hostname;
    Regroup(out, c.ownerKey, EncodeTarget(Address(c.ownerNaddr)));
    out := out + c.ownerKey;
    out := AppendTarget(out, Address(c.ownerNaddr));
    ghost var head := EncodeHead(c);
    ghost var sequence, timestamp := U64Bytes(c.sequence), U64Bytes(c.timestamp);
    out := out + U64Bytes(c.sequence);
    out := out + U64Bytes(c.timestamp);
    out := out + [c.zeroPriority];
    out := out + [c.zeroWeight];
    ghost var numbers := EncodeNumbers(c);
    Numbers(head, sequence, timestamp, c.zeroPriority, c.zeroWeight);
    out := out + CountBytes(|c.snsdRecords|);
    Regroup(head + numbers, CountBytes(|c.snsdRecords|), EncodeRecords(c.snsdRecords));
    out := AppendRecords(out, c.snsdRecords);
    Regroup(head, numbers, EncodeList(c.snsdRecords));
  }

  lemma Numbers(head: seq<Byte>, a: seq<Byte>, b: seq<Byte>, x: Byte, y: Byte)
    ensures head + a + b + [x] + [y] == head + (a + (b + [x, y]))
  {}

  // ---------------------------------------------------------------- the decoder

  /** A decoded value and the bytes after it. */
  type Decoded<T> = Option<(T, seq<Byte>)>

  function TakeBytes(s: seq<Byte>, n: nat): Decoded<seq<Byte>> {
    if |s| < n then None else Some((s[..n], s[n..]))
  }

  function U16Of(s: seq<Byte>): U16
    requires |s| == 2
  {
    (s[0] as int) + 0x100 * (s[1] as int)
  }

  function U32Of(s: seq<Byte>): U32
    requires |s| == 4
  {
    (U16Of(s[..2]) as int) + 0x1_0000 * (U16Of(s[2..]) as int)
  }

  function U64Of(s: seq<Byte>): U64
    requires |s| == 8
  {
    (U32Of(s[..4]) as int) + 0x1_0000_0000 * (U32Of(s[4..]) as int)
  }

  function TakeU16(s: seq<Byte>): Decoded<U16> {
    if |s| < 2 then None else Some((U16Of(s[..2]), s[2..]))
  }

  function TakeU32(s: seq<Byte>): Decoded<U32> {
    if |s| < 4 then None else Some((U32Of(s[..4]), s[4..]))
  }

  function TakeU64(s: seq<Byte>): Decoded<U64> {
    if |s| < 8 then None else Some((U64Of(s[..8]), s[8..]))
  }

  function TakeU32s(s: seq<Byte>, count: nat): (r: Decoded<seq<U32>>)
    ensures r.Some? ==> |r.value.0| == count
  {
    if count == 0 then Some(([], s))
    else match TakeU32(s)
      case None => None
      case Some((x, rest)) =>
        match TakeU32s(rest, count - 1)
        case None => None
        case Some((xs, rest')) => Some(([x] + xs, rest'))
  }

  function TakeAddress(s: seq<Byte>): Decoded<Naddr> {
    match TakeU32(s)
    case None => None
    case Some((n, s1)) =>
      match TakeU32s(s1, n)
      case None => None
      case Some((gsizes, s2)) =>
        match TakeU32s(s2, n)
        case None => None
        case Some((positions, s3)) => Some((NaddrData(gsizes, positions), s3))
  }

  function TakeName(s: seq<Byte>): Decoded<Hostname> {
    match TakeU32(s)
    case None => None
    case Some((n, rest)) => TakeBytes(rest, n)
  }

  function TakeTarget(s: seq<Byte>): Decoded<Target> {
    if s == [] then None
    else if s[0] == 0 then
      match TakeAddress(s[1..]) case None => None case Some((a, rest)) => Some((Address(a), rest))
    else if s[0] == 1 then
      match TakeName(s[1..]) case None => None case Some((h, rest)) => Some((Alias(h), rest))
    else None
  }

  function TakeRecord(s: seq<Byte>): Decoded<SnsdRecord> {
    match TakeU16(s)
    case None => None
    case Some((service, s1)) =>
      match TakeBytes(s1, 2)
      case None => None
      case Some((numbers, s2)) =>
        match TakeTarget(s2)
        case None => None
        case Some((target, rest)) => Some((SnsdRecord(service, numbers[0], numbers[1], target), rest))
  }

  function TakeRecords(s: seq<Byte>, count: nat): Decoded<seq<SnsdRecord>>
    decreases count
  {
    if count == 0 then Some(([], s))
    else match TakeRecord(s)
      case None => None
      case Some((r, rest)) =>
        match TakeRecords(rest, count - 1)
        case None => None
        case Some((rs, rest')) => Some(([r] + rs, rest'))
  }

  function TakeList(s: seq<Byte>): Decoded<seq<SnsdRecord>> {
    match TakeU32(s) case None => None case Some((n, rest)) => TakeRecords(rest, n)
  }

  datatype Head = Head(hostname: Hostname, ownerKey: KeyBytes, ownerNaddr: Naddr)

  function TakeHead(s: seq<Byte>): Decoded<Head> {
    match TakeName(s)
    case None => None
    case Some((hostname, s1)) =>
      match TakeBytes(s1, 32)
      case None => None
      case Some((key, s2)) =>
        match TakeTarget(s2)
        case Some((Address(naddr), s3)) => Some((Head(hostname, key, naddr), s3))
        case _ => None
  }

  datatype Numbered = Numbered(sequence: U64, timestamp: U64, zeroPriority: Byte, zeroWeight: Byte)

  function TakeNumbers(s: seq<Byte>): Decoded<Numbered> {
    match TakeU64(s)
    case None => None
    case Some((sequence, s1)) =>
      match TakeU64(s1)
      case None => None
      case Some((timestamp, s2)) =>
        match TakeBytes(s2, 2)
        case None => None
        case Some((zero, rest)) => Some((Numbered(sequence, timestamp, zero[0], zero[1]), rest))
  }

  function Decode(s: seq<Byte>): Decoded<Claim> {
    match TakeHead(s)
    case None => None
    case Some((h, s1)) =>
      match TakeNumbers(s1)
      case None => None
      case Some((n, s2)) =>
        match TakeList(s2)
        case None => None
        case Some((records, rest)) =>
          Some((Claim(h.hostname, h.ownerKey, h.ownerNaddr, n.sequence, n.timestamp,
                      n.zeroPriority, n.zeroWeight, records), rest))
  }

  // ---------------------------------------------------------------- the round trip

  predicate TargetFits(t: Target) {
    match t
    case Address(a) => |a.positions| < 0x1_0000_0000
    case Alias(h) => |h| < 0x1_0000_0000
  }

  /** No length is cut by its cast to `u32`. */
  predicate Fits(c: Claim) {
    && |c.hostname| < 0x1_0000_0000
    && TargetFits(Address(c.ownerNaddr))
    && |c.snsdRecords| < 0x1_0000_0000
    && forall r :: r in c.snsdRecords ==> TargetFits(r.target)
  }

  lemma U32Inverts(x: U32)
    ensures U32Of(U32Bytes(x)) == x
  {
    var s := U32Bytes(x);
    assert s[..2] == U16Bytes(x % 0x1_0000) && s[2..] == U16Bytes(x / 0x1_0000);
  }

  lemma U64Inverts(x: U64)
    ensures U64Of(U64Bytes(x)) == x
  {
    var s := U64Bytes(x);
    assert s[..4] == U32Bytes(x % 0x1_0000_0000) && s[4..] == U32Bytes(x / 0x1_0000_0000);
    U32Inverts(x % 0x1_0000_0000);
    U32Inverts(x / 0x1_0000_0000);
  }

  lemma TakeU16Inverts(x: U16, rest: seq<Byte>)
    ensures TakeU16(U16Bytes(x) + rest) == Some((x, rest))
  {
    assert (U16Bytes(x) + rest)[2..] == rest;
  }

  lemma TakeU32Inverts(x: U32, rest: seq<Byte>)
    ensures TakeU32(U32Bytes(x) + rest) == Some((x, rest))
  {
    U32Inverts(x);
    assert (U32Bytes(x) + rest)[..4] == U32Bytes(x) && (U32Bytes(x) + rest)[4..] == rest;
  }

  lemma TakeCountInverts(n: nat, rest: seq<Byte>)
    requires n < 0x1_0000_0000
    ensures TakeU32(CountBytes(n) + rest) == Some((n, rest))
  {
    TakeU32Inverts(n, rest);
  }

  lemma TakeU64Inverts(x: U64, rest: seq<Byte>)
    ensures TakeU64(U64Bytes(x) + rest) == Some((x, rest))
  {
    U64Inverts(x);
    assert (U64Bytes(x) + rest)[..8] == U64Bytes(x) && (U64Bytes(x) + rest)[8..] == rest;
  }

  lemma {:induction false} TakeU32sInverts(xs: seq<U32>, rest: seq<Byte>)
    ensures TakeU32s(EncodeU32s(xs) + rest, |xs|) == Some((xs, rest))
  {
    if xs == [] {
      assert EncodeU32s(xs) + rest == rest;
    } else {
      var tail := EncodeU32s(xs[1..]) + rest;
      assert EncodeU32s(xs) + rest == U32Bytes(xs[0]) + tail;
      TakeU32Inverts(xs[0], tail);
      TakeU32sInverts(xs[1..], rest);
      assert xs == [xs[0]] + xs[1..];
    }
  }

  lemma TakeAddressInverts(a: Naddr, rest: seq<Byte>)
    requires |a.positions| < 0x1_0000_0000
    ensures TakeAddress(EncodeAddress(a) + rest) == Some((a, rest))
  {
    var count, gsizes, positions := CountBytes(|a.positions|), EncodeU32s(a.gsizes), EncodeU32s(a.positions);
    Regroup(count, gsizes + positions, rest);
    Regroup(gsizes, positions, rest);
    TakeCountInverts(|a.positions|, gsizes + (positions + rest));
    TakeU32sInverts(a.gsizes, positions + rest);
    TakeU32sInverts(a.positions, rest);
  }

  lemma TakeBytesInverts(s: seq<Byte>, rest: seq<Byte>)
    ensures TakeBytes(s + rest, |s|) == Some((s, rest))
  {
    assert (s + rest)[..|s|] == s && (s + rest)[|s|..] == rest;
  }

  lemma TakeNameInverts(h: Hostname, rest: seq<Byte>)
    requires |h| < 0x1_0000_0000
    ensures TakeName(EncodeName(h) + rest) == Some((h, rest))
  {
    Regroup(CountBytes(|h|), h, rest);
    TakeCountInverts(|h|, h + rest);
    TakeBytesInverts(h, rest);
  }

  lemma SkipTag(tag: Byte, body: seq<Byte>, rest: seq<Byte>)
    ensures (([tag] + body) + rest)[1..] == body + rest
  {}

  lemma TakeTargetInverts(t: Target, rest: seq<Byte>)
    requires TargetFits(t)
    ensures TakeTarget(EncodeTarget(t) + rest) == Some((t, rest))
  {
    match t {
      case Address(a) =>
        TakeAddressInverts(a, rest);
        SkipTag(0, EncodeAddress(a), rest);
      case Alias(h) =>
        TakeNameInverts(h, rest);
        SkipTag(1, EncodeName(h), rest);
    }
  }

  lemma TakeRecordInverts(r: SnsdRecord, rest: seq<Byte>)
    requires TargetFits(r.target)
    ensures TakeRecord(EncodeRecord(r) + rest) == Some((r, rest))
  {
    var service, numbers, target := U16Bytes(r.service), [r.priority, r.weight], EncodeTarget(r.target);
    Regroup(service, numbers + target, rest);
    Regroup(numbers, target, rest);
    TakeU16Inverts(r.service, numbers + (target + rest));
    TakeBytesInverts(numbers, target + rest);
    TakeTargetInverts(r.target, rest);
  }

  lemma {:induction false} TakeRecordsInverts(rs: seq<SnsdRecord>, rest: seq<Byte>)
    requires forall r :: r in rs ==> TargetFits(r.target)
    ensures TakeRecords(EncodeRecords(rs) + rest, |rs|) == Some((rs, rest))
    decreases rs
  {
    if rs == [] {
      assert EncodeRecords(rs) + rest == rest;
    } else {
      var tail := EncodeRecords(rs[1..]);
      Regroup(EncodeRecord(rs[0]), tail, rest);
      TakeRecordInverts(rs[0], tail + rest);
      TakeRecordsInverts(rs[1..], rest);
      assert rs == [rs[0]] + rs[1..];
    }
  }

  lemma TakeListInverts(rs: seq<SnsdRecord>, rest: seq<Byte>)
    requires |rs| < 0x1_0000_0000
    requires forall r :: r in rs ==> TargetFits(r.target)
    ensures TakeList(EncodeList(rs) + rest) == Some((rs, rest))
  {
    Regroup(CountBytes(|rs|), EncodeRecords(rs), rest);
    TakeCountInverts(|rs|, EncodeRecords(rs) + rest);
    TakeRecordsInverts(rs, rest);
  }

  lemma TakeHeadInverts(c: Claim, rest: seq<Byte>)
    requires Fits(c)
    ensures TakeHead(EncodeHead(c) + rest) == Some((Head(c.hostname, c.ownerKey, c.ownerNaddr), rest))
  {
    var name, key, address := EncodeName(c.hostname), c.ownerKey, EncodeTarget(Address(c.ownerNaddr));
    Regroup(name, key + address, rest);
    Regroup(key, address, rest);
    TakeNameInverts(c.hostname, key + (address + rest));
    TakeBytesInverts(key, address + rest);
    TakeTargetInverts(Address(c.ownerNaddr), rest);
  }

  lemma TakeNumbersInverts(c: Claim, rest: seq<Byte>)
    ensures TakeNumbers(EncodeNumbers(c) + rest)
      == Some((Numbered(c.sequence, c.timestamp, c.zeroPriority, c.zeroWeight), rest))
  {
    var sequence, timestamp, zero := U64Bytes(c.sequence), U64Bytes(c.timestamp), [c.zeroPriority, c.zeroWeight];
    Regroup(sequence, timestamp + zero, rest);
    Regroup(timestamp, zero, rest);
    TakeU64Inverts(c.sequence, timestamp + (zero + rest));
    TakeU64Inverts(c.timestamp, zero + rest);
    TakeBytesInverts(zero, rest);
  }

  /** The decoder reads back every claim, whatever follows it. */
  lemma RoundTrip(c: Claim, rest: seq<Byte>)
    requires Fits(c)
    ensures Decode(Encode(c) + rest) == Some((c, rest))
  {
    var head, numbers, list := EncodeHead(c), EncodeNumbers(c), EncodeList(c.snsdRecords);
    Regroup(head, numbers + list, rest);
    Regroup(numbers, list, rest);
    TakeHeadInverts(c, numbers + (list + rest));
    TakeNumbersInverts(c, list + rest);
    TakeListInverts(c.snsdRecords, rest);
  }

  /** The encoding is injective and prefix-free: a signature speaks about one claim only. */
  lemma Unambiguous(a: Claim, b: Claim, x: seq<Byte>, y: seq<Byte>)
    requires Fits(a) && Fits(b)
    requires Encode(a) + x == Encode(b) + y
    ensures a == b && x == y
  {
    RoundTrip(a, x);
    RoundTrip(b, y);
  }
}
