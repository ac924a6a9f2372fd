/** The values of a name registration (`crates/ntk-andna/src/record.rs`, `crates/ntk-andna/src/snsd.rs`). */
module Registration {
  import opened Prelude

  type Byte = x: int | 0 <= x < 0x100

  type U16 = x: int | 0 <= x < 0x1_0000

  type U64 = x: int | 0 <= x < 0x1_0000_0000_0000_0000

  const MAX_U64: nat := 0xFFFF_FFFF_FFFF_FFFF

  /** A name, as its bytes. */
  type Hostname = seq<Byte>

  datatype NaddrData = NaddrData(gsizes: seq<U32>, positions: seq<U32>)

  /** An address has one position for each level of its topology. */
  type Naddr = a: NaddrData | |a.gsizes| == |a.positions| witness NaddrData([], [])

  datatype Target = Address(naddr: Naddr) | Alias(hostname: Hostname)

  datatype SnsdRecord = SnsdRecord(service: U16, priority: Byte, weight: Byte, target: Target)

  type KeyBytes = k: seq<Byte> | |k| == 32 witness seq(32, _ => 0)

  /** What the owner signs: every field of a request but its signature. */
  datatype Claim = Claim(
    hostname: Hostname, ownerKey: KeyBytes, ownerNaddr: Naddr, sequence: U64, timestamp: U64,
    zeroPriority: Byte, zeroWeight: Byte, snsdRecords: seq<SnsdRecord>)
}
