/** The bincode layout of the tuple that a block's hash is computed over:
    `(index: u64, timestamp: u128, voter_id, election_id, vote_option_id,
    previous_hash)`. bincode's default configuration writes fixed-width
    little-endian integers and each string as a u64 byte-length prefix
    followed by its UTF-8 bytes, with tuple fields simply concatenated in
    order. A decoder shows that the layout is injective. */
module Bincode {
  import opened Wrappers
  import Utf8

  type byte = Utf8.byte

  const U64_LIMIT: nat := 0x1_0000_0000_0000_0000
  const U128_LIMIT: nat := 0x1_0000_0000_0000_0000_0000_0000_0000_0000

  type u64 = x: int | 0 <= x < 0x1_0000_0000_0000_0000
  type u128 = x: int | 0 <= x < 0x1_0000_0000_0000_0000_0000_0000_0000_0000

  /** The field tuple that `calculate_hash` serialises, in its field order. */
  datatype HashInput = HashInput(
    index: u64,
    timestamp: u128,
    voterId: string,
    electionId: string,
    voteOptionId: string,
    previousHash: string)

  function Pow256(n: nat): nat {
    if n == 0 then 1 else 256 * Pow256(n - 1)
  }

  lemma Pow256Limits()
    ensures Pow256(8) == U64_LIMIT && Pow256(16) == U128_LIMIT
  {
  }

  /** `n` as `width` little-endian bytes; digits beyond `width` are dropped. */
  function LittleEndian(n: nat, width: nat): (r: seq<byte>)
    ensures |r| == width
  {
    if width == 0 then [] else [n % 256] + LittleEndian(n / 256, width - 1)
  }

  /** The number whose little-endian bytes are `bs`. */
  function FromLittleEndian(bs: seq<byte>): (n: nat)
    ensures n < Pow256(|bs|)
  {
    if bs == [] then 0 else bs[0] + 256 * FromLittleEndian(bs[1..])
  }

  lemma {:induction false} FromLittleEndianInverse(n: nat, width: nat)
    requires n < Pow256(width)
    ensures FromLittleEndian(LittleEndian(n, width)) == n
  {
    if width > 0 {
      var bs := LittleEndian(n, width);
      assert bs[1..] == LittleEndian(n / 256, width - 1);
      FromLittleEndianInverse(n / 256, width - 1);
    }
  }

  function SerializeU64(x: u64): (r: seq<byte>)
    ensures |r| == 8
  {
    LittleEndian(x, 8)
  }

  function SerializeU128(x: u128): (r: seq<byte>)
    ensures |r| == 16
  {
    LittleEndian(x, 16)
  }

  /** A `&str`: its UTF-8 byte length as a u64, then the bytes. */
  function SerializeStr(s: string): (r: seq<byte>)
    ensures |r| == 8 + |Utf8.Encode(s)|
  {
    var bytes := Utf8.Encode(s);
    LittleEndian(|bytes|, 8) + bytes
  }

  /** One element of a serialised tuple. */
  datatype Field = U64(n: u64) | U128(w: u128) | Str(s: string)

  function SerializeField(f: Field): seq<byte> {
    match f
    case U64(n) => SerializeU64(n)
    case U128(w) => SerializeU128(w)
    case Str(s) => SerializeStr(s)
  }

  /** A tuple: the encodings of its fields, concatenated in order. */
  function SerializeTuple(fs: seq<Field>): seq<byte> {
    if fs == [] then [] else SerializeField(fs[0]) + SerializeTuple(fs[1..])
  }

  /** The hashed tuple as a sequence of fields, in declaration order. */
  function FieldsOf(t: HashInput): seq<Field> {
    [U64(t.index), U128(t.timestamp), Str(t.voterId), Str(t.electionId), Str(t.voteOptionId), Str(t.previousHash)]
  }

  function Serialize(t: HashInput): seq<byte> {
    SerializeTuple(FieldsOf(t))
  }

  /** A string whose byte length fits the u64 length prefix. */
  predicate Fits(s: string) {
    |Utf8.Encode(s)| < U64_LIMIT
  }

  predicate Encodable(t: HashInput) {
    Fits(t.voterId) && Fits(t.electionId) && Fits(t.voteOptionId) && Fits(t.previousHash)
  }

  predicate FieldFits(f: Field) {
    f.Str? ==> Fits(f.s)
  }

  // ---- decoding ----

  function ReadInt(bs: seq<byte>, width: nat): Option<(nat, seq<byte>)> {
    if |bs| < width then None else Some((FromLittleEndian(bs[..width]), bs[width..]))
  }

  function ReadStr(bs: seq<byte>): Option<(string, seq<byte>)> {
    var prefix :- ReadInt(bs, 8);
    var len, rest := prefix.0, prefix.1;
    if |rest| < len then None
    else
      var s :- Utf8.Decode(rest[..len]);
      Some((s, rest[len..]))
  }

  /** The shape of a field, which is all a decoder is told. */
  datatype Kind = KU64 | KU128 | KStr

  function KindOf(f: Field): Kind {
    match f
    case U64(_) => KU64
    case U128(_) => KU128
    case Str(_) => KStr
  }

  function Kinds(fs: seq<Field>): seq<Kind> {
    seq(|fs|, i requires 0 <= i < |fs| => KindOf(fs[i]))
  }

  function ReadField(k: Kind, bs: seq<byte>): Option<(Field, seq<byte>)> {
    match k
    case KU64 =>
      var p :- ReadInt(bs, 8);
      if p.0 < U64_LIMIT then Some((U64(p.0), p.1)) else None
    case KU128 =>
      var p :- ReadInt(bs, 16);
      if p.0 < U128_LIMIT then Some((U128(p.0), p.1)) else None
    case KStr =>
      var p :- ReadStr(bs);
      Some((Str(p.0), p.1))
  }

  /** Reads one field of each kind in turn; returns the fields and what is left. */
  function ReadTuple(ks: seq<Kind>, bs: seq<byte>): Option<(seq<Field>, seq<byte>)> {
    if ks == [] then Some(([], bs))
    else
      var head :- ReadField(ks[0], bs);
      var tail :- ReadTuple(ks[1..], head.1);
      Some(([head.0] + tail.0, tail.1))
  }

  const HASH_INPUT_KINDS: seq<Kind> := [KU64, KU128, KStr, KStr, KStr, KStr]

  /** The tuple a sequence of fields spells, if it has the hashed shape. */
  function HashInputOf(fs: seq<Field>): Option<HashInput> {
    if |fs| == 6 && fs[0].U64? && fs[1].U128? && fs[2].Str? && fs[3].Str? && fs[4].Str? && fs[5].Str?
    then Some(HashInput(fs[0].n, fs[1].w, fs[2].s, fs[3].s, fs[4].s, fs[5].s))
    else None
  }

  /** Decodes a whole byte sequence as the hashed tuple. */
  function Deserialize(bs: seq<byte>): Option<HashInput> {
    var p :- ReadTuple(HASH_INPUT_KINDS, bs);
    if p.1 == [] then HashInputOf(p.0) else None
  }

  lemma ReadIntSerialized(n: nat, width: nat, rest: seq<byte>)
    requires n < Pow256(width)
    ensures ReadInt(LittleEndian(n, width) + rest, width) == Some((n, rest))
  {
    var bs := LittleEndian(n, width) + rest;
    assert bs[..width] == LittleEndian(n, width);
    assert bs[width..] == rest;
    FromLittleEndianInverse(n, width);
  }

  /** A length prefix followed by that many bytes that decode to `s`. */
  lemma ReadStrOf(bytes: seq<byte>, s: string, rest: seq<byte>)
    requires |bytes| < U64_LIMIT && Utf8.Decode(bytes) == Some(s)
    ensures ReadStr(LittleEndian(|bytes|, 8) + (bytes + rest)) == Some((s, rest))
  {
    Pow256Limits();
    ReadIntSerialized(|bytes|, 8, bytes + rest);
    assert (bytes + rest)[..|bytes|] == bytes;
    assert (bytes + rest)[|bytes|..] == rest;
  }

  lemma ReadStrSerialized(s: string, rest: seq<byte>)
    requires Fits(s)
    ensures ReadStr(SerializeStr(s) + rest) == Some((s, rest))
  {
    var bytes := Utf8.Encode(s);
    assert SerializeStr(s) + rest == LittleEndian(|bytes|, 8) + (bytes + rest);
    Utf8.DecodeEncode(s);
    ReadStrOf(bytes, s, rest);
  }

  lemma ReadFieldSerialized(f: Field, rest: seq<byte>)
    requires FieldFits(f)
    ensures ReadField(KindOf(f), SerializeField(f) + rest) == Some((f, rest))
  {
    Pow256Limits();
    match f
    case U64(n) => ReadIntSerialized(n, 8, rest);
    case U128(w) => ReadIntSerialized(w, 16, rest);
    case Str(s) => ReadStrSerialized(s, rest);
  }

  lemma KindsCons(fs: seq<Field>)
    requires fs != []
    ensures Kinds(fs)[0] == KindOf(fs[0]) && Kinds(fs)[1..] == Kinds(fs[1..])
  {
    var ks, tail := Kinds(fs), Kinds(fs[1..]);
    assert |ks[1..]| == |tail|;
    forall i | 0 <= i < |tail| ensures ks[1..][i] == tail[i] {
      assert fs[1..][i] == fs[i + 1];
    }
  }

  lemma SerializeTupleCons(fs: seq<Field>, rest: seq<byte>)
    requires fs != []
    ensures SerializeTuple(fs) + rest == SerializeField(fs[0]) + (SerializeTuple(fs[1..]) + rest)
  {
  }

  lemma ReadTupleCons(ks: seq<Kind>, bs: seq<byte>, f: Field, mid: seq<byte>, fs: seq<Field>, rest: seq<byte>)
    requires ks != [] && ReadField(ks[0], bs) == Some((f, mid)) && ReadTuple(ks[1..], mid) == Some((fs, rest))
    ensures ReadTuple(ks, bs) == Some(([f] + fs, rest))
  {
  }

  /** Reading a tuple back by the kinds of its fields gives the fields back,
      whatever follows. */
  lemma {:induction false} ReadTupleSerialized(fs: seq<Field>, rest: seq<byte>)
    requires forall i :: 0 <= i < |fs| ==> FieldFits(fs[i])
    ensures ReadTuple(Kinds(fs), SerializeTuple(fs) + rest) == Some((fs, rest))
  {
    if fs == [] {
      assert Kinds(fs) == [];
      assert SerializeTuple(fs) + rest == rest;
    } else {
      var tail := SerializeTuple(fs[1..]) + rest;
      SerializeTupleCons(fs, rest);
      ReadFieldSerialized(fs[0], tail);
      KindsCons(fs);
      ReadTupleSerialized(fs[1..], rest);
      ReadTupleCons(Kinds(fs), SerializeTuple(fs) + rest, fs[0], tail, fs[1..], rest);
      assert [fs[0]] + fs[1..] == fs;
    }
  }

  lemma KindsOfHashInput(t: HashInput)
    ensures Kinds(FieldsOf(t)) == HASH_INPUT_KINDS
  {
  }

  lemma HashInputOfFields(t: HashInput)
    ensures HashInputOf(FieldsOf(t)) == Some(t)
  {
  }

  /** Decoding the serialisation gives the tuple back. */
  lemma DeserializeSerialize(t: HashInput)
    requires Encodable(t)
    ensures Deserialize(Serialize(t)) == Some(t)
  {
    var fs := FieldsOf(t);
    KindsOfHashInput(t);
    assert SerializeTuple(fs) + [] == Serialize(t);
    ReadTupleSerialized(fs, []);
    HashInputOfFields(t);
  }

  /** Distinct tuples serialise to distinct byte sequences. */
  lemma SerializeInjective(t1: HashInput, t2: HashInput)
    requires Encodable(t1) && Encodable(t2)
    requires Serialize(t1) == Serialize(t2)
    ensures t1 == t2
  {
    DeserializeSerialize(t1);
    DeserializeSerialize(t2);
  }
}
