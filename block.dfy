/** One hash-linked record of the ledger (`Block` in the source).
    SHA-256 is not modelled: every operation takes the digest function as a
    value, so what is proved holds for any function from bytes to 32-byte
    digests. */
module Blocks {
  import opened Wrappers
  import opened Bincode

  type Digest = d: seq<byte> | |d| == 32 witness seq(32, i => 0)

  /** Stands for SHA-256. */
  type Sha256 = seq<byte> -> Digest

  /** The lowercase hex digits, `0`-`9` then `a`-`f`. */
  predicate IsLowerHexDigit(c: char) {
    '0' <= c <= '9' || 'a' <= c <= 'f'
  }

  function HexDigit(k: nat): (c: char)
    requires k < 16
    ensures IsLowerHexDigit(c)
  {
    if k < 10 then ('0' as int + k) as char else ('a' as int + k - 10) as char
  }

  /** `format!("{:x}", digest)`: two lowercase hex digits per byte, high
      nibble first. */
  function LowerHex(bytes: seq<byte>): (r: string)
    ensures |r| == 2 * |bytes|
    ensures forall i :: 0 <= i < |r| ==> IsLowerHexDigit(r[i])
  {
    if bytes == [] then ""
    else [HexDigit(bytes[0] / 16), HexDigit(bytes[0] % 16)] + LowerHex(bytes[1..])
  }

  /** The value of a lowercase hex digit, or None for any other character. */
  function HexDigitValue(c: char): (r: Option<nat>)
    ensures r.Some? <==> IsLowerHexDigit(c)
    ensures r.Some? ==> r.value < 16 && HexDigit(r.value) == c
  {
    if '0' <= c <= '9' then Some(c as int - '0' as int)
    else if 'a' <= c <= 'f' then Some(c as int - 'a' as int + 10)
    else None
  }

  function ParseLowerHex(s: string): Option<seq<byte>>
    decreases |s|
  {
    if s == [] then Some([])
    else if |s| == 1 then None
    else
      var hi :- HexDigitValue(s[0]);
      var lo :- HexDigitValue(s[1]);
      var rest :- ParseLowerHex(s[2..]);
      Some([hi * 16 + lo] + rest)
  }

  lemma {:induction false} ParseLowerHexInverse(bytes: seq<byte>)
    ensures ParseLowerHex(LowerHex(bytes)) == Some(bytes)
  {
    if bytes != [] {
      var s := LowerHex(bytes);
      assert s[2..] == LowerHex(bytes[1..]);
      ParseLowerHexInverse(bytes[1..]);
      assert [bytes[0]] + bytes[1..] == bytes;
    }
  }

  /** The rendering loses nothing: distinct digests give distinct strings. */
  lemma LowerHexInjective(a: seq<byte>, b: seq<byte>)
    requires LowerHex(a) == LowerHex(b)
    ensures a == b
  {
    ParseLowerHexInverse(a);
    ParseLowerHexInverse(b);
  }

  /** `calculate_hash`: SHA-256 over the bincode serialisation of the
      field tuple, rendered as lowercase hex. */
  function CalculateHash(sha256: Sha256, index: u64, timestamp: u128, voterId: string,
                         electionId: string, voteOptionId: string, previousHash: string): (r: string)
    ensures |r| == 64
    ensures forall i :: 0 <= i < |r| ==> IsLowerHexDigit(r[i])
  {
    LowerHex(sha256(Serialize(HashInput(index, timestamp, voterId, electionId, voteOptionId, previousHash))))
  }

  datatype Block = Block(
    index: u64,
    timestamp: u128,
    voterId: string,
    electionId: string,
    voteOptionId: string,
    previousHash: string,
    hash: string)

  /** The hashed fields of a block, in serialisation order. */
  function Fields(b: Block): HashInput {
    HashInput(b.index, b.timestamp, b.voterId, b.electionId, b.voteOptionId, b.previousHash)
  }

  /** The stored hash is the hash recomputed from the stored fields. */
  predicate HashMatches(b: Block, sha256: Sha256) {
    b.hash == CalculateHash(sha256, b.index, b.timestamp, b.voterId, b.electionId, b.voteOptionId, b.previousHash)
  }

  /** `Block::new`, with the clock reading passed in as `timestamp`. */
  function NewBlock(sha256: Sha256, index: u64, timestamp: u128, voterId: string,
                    electionId: string, voteOptionId: string, previousHash: string): (b: Block)
    ensures b.index == index && b.timestamp == timestamp && b.voterId == voterId
    ensures b.electionId == electionId && b.voteOptionId == voteOptionId && b.previousHash == previousHash
    ensures HashMatches(b, sha256)
    ensures |b.hash| == 64
  {
    var hash := CalculateHash(sha256, index, timestamp, voterId, electionId, voteOptionId, previousHash);
    Block(index, timestamp, voterId, electionId, voteOptionId, previousHash, hash)
  }

  /** Unless the digest collides on the two blocks' serialisations, a
      block's hash determines all of its fields: two blocks whose stored
      hashes are consistent and equal are the same block. */
  lemma HashBindsFields(sha256: Sha256, b1: Block, b2: Block)
    requires sha256(Serialize(Fields(b1))) == sha256(Serialize(Fields(b2))) ==>
             Serialize(Fields(b1)) == Serialize(Fields(b2))
    requires Encodable(Fields(b1)) && Encodable(Fields(b2))
    requires HashMatches(b1, sha256) && HashMatches(b2, sha256)
    requires b1.hash == b2.hash
    ensures b1 == b2
  {
    LowerHexInjective(sha256(Serialize(Fields(b1))), sha256(Serialize(Fields(b2))));
    SerializeInjective(Fields(b1), Fields(b2));
  }
}
