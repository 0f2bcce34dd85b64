/**
 * Recursive Length Prefix encoding as defined in Appendix B of the Ethereum
 * Yellow Paper, the `ethers.encodeRlp` that the authorization message is
 * built with, together with a decoder that inverts it.
 */
module Rlp {
  import opened Bytes
  import opened Wrappers

  /** An RLP item: a byte string or a list of items. */
  datatype Item = Str(bytes: seq<Byte>) | List(items: seq<Item>)

  const STRING_OFFSET: Byte := 0x80
  const LIST_OFFSET: Byte := 0xc0
  /** The longest payload whose length fits in the header byte itself. */
  const SHORT_LIMIT: nat := 55

  /** Length of the header that announces a payload of `len` bytes. */
  function HeaderLength(len: nat): nat
  {
    if len <= SHORT_LIMIT then 1 else 1 + |BigEndian(len)|
  }

  /** Length of the encoding of x, computed from the lengths of its parts. */
  function EncodedLength(x: Item): nat
    decreases x
  {
    match x
    case Str(b) => if |b| == 1 && b[0] < STRING_OFFSET then 1 else HeaderLength(|b|) + |b|
    case List(xs) => HeaderLength(PayloadLength(xs)) + PayloadLength(xs)
  }

  /** Length of the concatenated encodings of the items of a list. */
  function PayloadLength(xs: seq<Item>): nat
    decreases xs
  {
    if xs == [] then 0 else EncodedLength(xs[0]) + PayloadLength(xs[1..])
  }

  /**
   * The Yellow Paper defines RLP only for strings and list payloads shorter
   * than 2^64 bytes (the length of the length then fits the header byte).
   */
  predicate Encodable(x: Item)
    decreases x
  {
    match x
    case Str(b) => |b| < TWO_64
    case List(xs) => (forall i | 0 <= i < |xs| :: Encodable(xs[i])) && PayloadLength(xs) < TWO_64
  }

  /** The header for a payload of `len` bytes, short or long form. */
  function Header(offset: Byte, len: nat): (h: seq<Byte>)
    requires offset == STRING_OFFSET || offset == LIST_OFFSET
    requires len < TWO_64
    ensures |h| == HeaderLength(len)
    ensures len <= SHORT_LIMIT ==> h[0] == offset + len
    ensures len > SHORT_LIMIT ==> h[0] == offset + SHORT_LIMIT + |BigEndian(len)| && h[1..] == BigEndian(len)
  {
    LengthOfLength(len);
    if len <= SHORT_LIMIT then [offset + len]
    else [offset + SHORT_LIMIT + |BigEndian(len)|] + BigEndian(len)
  }

  /** RLP(x). */
  function Encode(x: Item): (r: seq<Byte>)
    requires Encodable(x)
    ensures |r| == EncodedLength(x)
    decreases x
  {
    match x
    case Str(b) =>
      if |b| == 1 && b[0] < STRING_OFFSET then b else Header(STRING_OFFSET, |b|) + b
    case List(xs) =>
      var payload := EncodeAll(xs);
      Header(LIST_OFFSET, |payload|) + payload
  }

  /** The payload of a list: the encodings of its items, in order. */
  function EncodeAll(xs: seq<Item>): (r: seq<Byte>)
    requires forall i | 0 <= i < |xs| :: Encodable(xs[i])
    ensures |r| == PayloadLength(xs)
    decreases xs
  {
    if xs == [] then [] else Encode(xs[0]) + EncodeAll(xs[1..])
  }

  /**
   * Where the payload of the item at the start of b begins and how many
   * bytes it has, when the header byte is the offset plus t.
   */
  function Span(b: seq<Byte>, t: nat): (r: Option<(nat, nat)>)
    requires |b| >= 1
    ensures r.Some? ==> 1 <= r.value.0 && r.value.0 + r.value.1 <= |b|
  {
    if t <= SHORT_LIMIT then
      if 1 + t <= |b| then Some((1, t)) else None
    else
      var k := t - SHORT_LIMIT;
      if 1 + k > |b| then None
      else
        var len := FromBigEndian(b[1..1 + k]);
        if 1 + k + len <= |b| then Some((1 + k, len)) else None
  }

  /** Decodes the item at the start of b; also returns how many bytes it took. */
  function DecodePrefix(b: seq<Byte>): (r: Option<(Item, nat)>)
    ensures r.Some? ==> 0 < r.value.1 <= |b|
    decreases |b|, 0
  {
    if b == [] then None
    else if b[0] < STRING_OFFSET then Some((Str([b[0]]), 1))
    else if b[0] < LIST_OFFSET then
      match Span(b, b[0] - STRING_OFFSET)
      case None => None
      case Some((start, len)) => Some((Str(b[start..start + len]), start + len))
    else
      match Span(b, b[0] - LIST_OFFSET)
      case None => None
      case Some((start, len)) =>
        match DecodeItems(b[start..start + len])
        case None => None
        case Some(xs) => Some((List(xs), start + len))
  }

  /** Decodes a list payload, which must consist of whole items. */
  function DecodeItems(p: seq<Byte>): (r: Option<seq<Item>>)
    decreases |p|, 1
  {
    if p == [] then Some([])
    else
      match DecodePrefix(p)
      case None => None
      case Some((x, n)) =>
        match DecodeItems(p[n..])
        case None => None
        case Some(xs) => Some([x] + xs)
  }

  /** Decodes a byte string that holds exactly one item. */
  function Decode(b: seq<Byte>): Option<Item>
  {
    match DecodePrefix(b)
    case None => None
    case Some((x, n)) => if n == |b| then Some(x) else None
  }

  /** The decoder finds the payload that Header announced. */
  lemma HeaderSpan(offset: Byte, len: nat, rest: seq<Byte>)
    requires offset == STRING_OFFSET || offset == LIST_OFFSET
    requires len < TWO_64 && len <= |rest|
    ensures var b := Header(offset, len) + rest;
      b[0] >= offset && b[0] < offset + 64 &&
      Span(b, b[0] - offset) == Some((HeaderLength(len), len))
  {
    var h := Header(offset, len);
    var b := h + rest;
    LengthOfLength(len);
    if len > SHORT_LIMIT {
      var k := |BigEndian(len)|;
      assert b[1..1 + k] == BigEndian(len);
    }
  }

  /** Decoding the encoding of a string followed by anything gives back the string. */
  lemma DecodePrefixEncodeStr(s: seq<Byte>, rest: seq<Byte>)
    requires Encodable(Str(s))
    ensures DecodePrefix(Encode(Str(s)) + rest) == Some((Str(s), |Encode(Str(s))|))
  {
    var b := Encode(Str(s)) + rest;
    if |s| == 1 && s[0] < STRING_OFFSET {
      assert [b[0]] == s;
    } else {
      var h := Header(STRING_OFFSET, |s|);
      HeaderSpan(STRING_OFFSET, |s|, s + rest);
      assert b == h + (s + rest);
      assert b[|h|..|h| + |s|] == s;
    }
  }

  /** Decoding an encoding followed by anything gives back the item and its length. */
  lemma {:induction false} DecodePrefixEncode(x: Item, rest: seq<Byte>)
    requires Encodable(x)
    ensures DecodePrefix(Encode(x) + rest) == Some((x, |Encode(x)|))
    decreases x
  {
    match x
    case Str(s) => DecodePrefixEncodeStr(s, rest);
    case List(xs) =>
      var payload := EncodeAll(xs);
      var h := Header(LIST_OFFSET, |payload|);
      var b := Encode(x) + rest;
      HeaderSpan(LIST_OFFSET, |payload|, payload + rest);
      assert b == h + (payload + rest);
      assert b[|h|..|h| + |payload|] == payload;
      DecodeItemsEncodeAll(xs);
  }

  /** Decoding a list payload gives back its items. */
  lemma {:induction false} DecodeItemsEncodeAll(xs: seq<Item>)
    requires forall i | 0 <= i < |xs| :: Encodable(xs[i])
    ensures DecodeItems(EncodeAll(xs)) == Some(xs)
    decreases xs
  {
    if xs != [] {
      var first := Encode(xs[0]);
      var others := EncodeAll(xs[1..]);
      DecodePrefixEncode(xs[0], others);
      assert (first + others)[|first|..] == others;
      DecodeItemsEncodeAll(xs[1..]);
      assert [xs[0]] + xs[1..] == xs;
    }
  }

  /** Decode inverts Encode. */
  lemma DecodeEncode(x: Item)
    requires Encodable(x)
    ensures Decode(Encode(x)) == Some(x)
  {
    DecodePrefixEncode(x, []);
    assert Encode(x) + [] == Encode(x);
  }

  /** Distinct items have distinct encodings. */
  lemma EncodeInjective(x: Item, y: Item)
    requires Encodable(x) && Encodable(y)
    ensures Encode(x) == Encode(y) <==> x == y
  {
    DecodeEncode(x);
    DecodeEncode(y);
  }
}
