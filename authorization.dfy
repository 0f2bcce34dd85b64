/**
 * The EIP-7702 authorization that scripts/1shot_demo/1-setCodeAndInitialize.ts
 * signs: the tuple (chain id, delegate address, nonce), the message
 * MAGIC || rlp([chain_id, address, nonce]) of the Specification section of
 * EIP-7702 next to the message as the script writes it, the keccak256
 * digest the script signs, and the entry handed to the relayer.
 */
module Authorization {
  import opened Bytes
  import Rlp
  import opened Wrappers
  import opened Crypto

  /** The EIP-7702 discriminator byte for authorization messages. */
  const MAGIC: Byte := 0x05
  /** The authorization targets the transaction slot after the current count. */
  const NONCE_OFFSET: nat := 1

  datatype Tuple = Tuple(chainId: Uint256, address: Address, nonce: Uint64)

  /** The tuple for the account whose transaction count is `txCount`. */
  function NewTuple(chainId: Uint256, delegate: Address, txCount: nat): (t: Tuple)
    requires txCount + NONCE_OFFSET < TWO_64
    ensures t.nonce == txCount + 1 && t.nonce >= 1
    ensures t.chainId == chainId && t.address == delegate
  {
    Tuple(chainId, delegate, txCount + NONCE_OFFSET)
  }

  /** The three list items of the EIP-7702 message, integers as minimal big-endian strings. */
  function Fields(t: Tuple): (r: seq<Rlp.Item>)
    ensures |r| == 3 && r[0].Str? && r[1].Str? && r[2].Str?
    ensures FromBigEndian(r[0].bytes) == t.chainId && r[1].bytes == t.address && FromBigEndian(r[2].bytes) == t.nonce
  {
    [Rlp.Str(BigEndian(t.chainId)), Rlp.Str(t.address), Rlp.Str(BigEndian(t.nonce))]
  }

  /**
   * The three list items as the script writes them: each integer through
   * `ethers.toBeHex`, which is never empty.
   */
  function WrittenFields(t: Tuple): (r: seq<Rlp.Item>)
    ensures |r| == 3 && r[0].Str? && r[1].Str? && r[2].Str?
    ensures FromBigEndian(r[0].bytes) == t.chainId && r[1].bytes == t.address && FromBigEndian(r[2].bytes) == t.nonce
    ensures |r[0].bytes| >= 1 && |r[2].bytes| >= 1
  {
    [Rlp.Str(ToBeHex(t.chainId)), Rlp.Str(t.address), Rlp.Str(ToBeHex(t.nonce))]
  }

  /** A three-string list whose strings are at most 32 bytes long can be encoded. */
  lemma ThreeStringsEncodable(a: seq<Byte>, b: seq<Byte>, c: seq<Byte>)
    requires |a| <= 32 && |b| <= 32 && |c| <= 32
    ensures Rlp.Encodable(Rlp.List([Rlp.Str(a), Rlp.Str(b), Rlp.Str(c)]))
  {
    var xs := [Rlp.Str(a), Rlp.Str(b), Rlp.Str(c)];
    assert xs[1..] == [Rlp.Str(b), Rlp.Str(c)] && xs[1..][1..] == [Rlp.Str(c)] && xs[1..][1..][1..] == [];
    assert Rlp.PayloadLength([Rlp.Str(c)]) <= 33;
    assert Rlp.PayloadLength([Rlp.Str(b), Rlp.Str(c)]) <= 66;
    assert Rlp.PayloadLength(xs) <= 99;
  }

  lemma FieldsEncodable(t: Tuple)
    ensures Rlp.Encodable(Rlp.List(Fields(t)))
    ensures Rlp.Encodable(Rlp.List(WrittenFields(t)))
  {
    Uint256Width(t.chainId);
    Uint256Width(t.nonce);
    ThreeStringsEncodable(BigEndian(t.chainId), t.address, BigEndian(t.nonce));
    ThreeStringsEncodable(ToBeHex(t.chainId), t.address, ToBeHex(t.nonce));
  }

  /**
   * The EIP-7702 message: the magic byte followed by the RLP list of chain
   * id, address and nonce, in that order.
   */
  function Message(t: Tuple): (m: seq<Byte>)
    ensures |m| >= 1 && m[0] == MAGIC
    ensures Rlp.Decode(m[1..]) ==
      Some(Rlp.List([Rlp.Str(BigEndian(t.chainId)), Rlp.Str(t.address), Rlp.Str(BigEndian(t.nonce))]))
  {
    FieldsEncodable(t);
    var m := [MAGIC] + Rlp.Encode(Rlp.List(Fields(t)));
    Rlp.DecodeEncode(Rlp.List(Fields(t)));
    assert m[1..] == Rlp.Encode(Rlp.List(Fields(t)));
    m
  }

  /**
   * The message exactly as the script builds it: the magic byte followed by
   * the RLP list of `toBeHex(chainId)`, the address and `toBeHex(nonce)`.
   * `toBeHex` turns a zero into the single byte 0x00, where RLP's integer
   * zero is the empty string.
   */
  function MessageAsWritten(t: Tuple): (m: seq<Byte>)
    ensures |m| >= 1 && m[0] == MAGIC
    ensures Rlp.Decode(m[1..]) ==
      Some(Rlp.List([Rlp.Str(ToBeHex(t.chainId)), Rlp.Str(t.address), Rlp.Str(ToBeHex(t.nonce))]))
  {
    FieldsEncodable(t);
    var m := [MAGIC] + Rlp.Encode(Rlp.List(WrittenFields(t)));
    Rlp.DecodeEncode(Rlp.List(WrittenFields(t)));
    assert m[1..] == Rlp.Encode(Rlp.List(WrittenFields(t)));
    m
  }

  /** The nonce field the script hashes is the canonical, non-empty encoding of txCount + 1. */
  lemma NonceField(chainId: Uint256, delegate: Address, txCount: nat)
    requires txCount + NONCE_OFFSET < TWO_64
    ensures var b := WrittenFields(NewTuple(chainId, delegate, txCount))[2].bytes;
      FromBigEndian(b) == txCount + 1 && |b| >= 1 && b[0] != 0
  {
  }

  /** Every integer field of the EIP-7702 message is a canonical RLP scalar of the tuple's value. */
  lemma MessageFieldsCanonical(t: Tuple)
    ensures forall i | i == 0 || i == 2 ::
      Canonical(Fields(t)[i].bytes) && FromBigEndian(Fields(t)[i].bytes) == (if i == 0 then t.chainId else t.nonce)
  {
  }

  /** Distinct tuples give distinct EIP-7702 messages. */
  lemma MessageInjective(t1: Tuple, t2: Tuple)
    ensures Message(t1) == Message(t2) <==> t1 == t2
  {
    if Message(t1) == Message(t2) {
      assert Message(t1)[1..] == Message(t2)[1..];
      assert BigEndian(t1.chainId) == BigEndian(t2.chainId);
      assert BigEndian(t1.nonce) == BigEndian(t2.nonce);
    }
  }

  /** Distinct tuples are signed as distinct messages by the script as well. */
  lemma MessageAsWrittenInjective(t1: Tuple, t2: Tuple)
    ensures MessageAsWritten(t1) == MessageAsWritten(t2) <==> t1 == t2
  {
    if MessageAsWritten(t1) == MessageAsWritten(t2) {
      assert MessageAsWritten(t1)[1..] == MessageAsWritten(t2)[1..];
      assert ToBeHex(t1.chainId) == ToBeHex(t2.chainId);
      assert ToBeHex(t1.nonce) == ToBeHex(t2.nonce);
    }
  }

  /**
   * The digest the script signs, keccak256 of its message; for a non-zero
   * chain id and nonce it is the digest of the EIP-7702 message.
   */
  function Digest(crypto: Primitives, t: Tuple): (d: seq<Byte>)
    ensures t.chainId != 0 && t.nonce != 0 ==> d == crypto.keccak256(Message(t))
  {
    if t.chainId != 0 && t.nonce != 0 then
      AsWrittenAgrees(t);
      crypto.keccak256(MessageAsWritten(t))
    else
      crypto.keccak256(MessageAsWritten(t))
  }

  /** With a collision-free hash, digests separate tuples field by field. */
  lemma DigestSeparates(crypto: Primitives, t1: Tuple, t2: Tuple)
    requires CollisionFree(crypto.keccak256)
    ensures Digest(crypto, t1) == Digest(crypto, t2) <==> t1 == t2
  {
    MessageAsWrittenInjective(t1, t2);
  }

  /** The authorization as passed to `contractMethods.execute`. */
  datatype Entry = Entry(address: Address, nonce: seq<Byte>, chainId: nat, signature: seq<Byte>)

  /**
   * The entry for tuple t: the hashed address and nonce string, and the
   * number that the hashed chain id string denotes (`Number(hex)`).
   */
  function SubmittedEntry(t: Tuple, signature: seq<Byte>): (e: Entry)
    ensures e.address == WrittenFields(t)[1].bytes
    ensures e.nonce == WrittenFields(t)[2].bytes && FromBigEndian(e.nonce) == t.nonce
    ensures e.chainId == FromBigEndian(WrittenFields(t)[0].bytes) && e.chainId == t.chainId
    ensures e.signature == signature
  {
    Entry(t.address, ToBeHex(t.nonce), FromBigEndian(ToBeHex(t.chainId)), signature)
  }

  /** With non-zero chain id and nonce, the written and the canonical message agree. */
  lemma AsWrittenAgrees(t: Tuple)
    requires t.chainId != 0 && t.nonce != 0
    ensures MessageAsWritten(t) == Message(t)
  {
    ToBeHexPositive(t.chainId);
    ToBeHexPositive(t.nonce);
  }

  /** With chain id zero, the written message is not the EIP-7702 message. */
  lemma ZeroChainIdDiverges(address: Address, nonce: Uint64)
    ensures MessageAsWritten(Tuple(0, address, nonce)) != Message(Tuple(0, address, nonce))
  {
    var t := Tuple(0, address, nonce);
    var written := [Rlp.Str([0]), Rlp.Str(address), Rlp.Str(ToBeHex(nonce))];
    Uint256Width(nonce);
    ThreeStringsEncodable([0], address, ToBeHex(nonce));
    FieldsEncodable(t);
    Rlp.EncodeInjective(Rlp.List(written), Rlp.List(Fields(t)));
    assert written[0] != Fields(t)[0];
  }
}
