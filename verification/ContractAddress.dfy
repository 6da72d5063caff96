/** What is hashed into the address of a new contract: the RLP list of sender and nonce, or the string
of EIP-1014.  `Encode` follows Appendix B of the Ethereum Yellow Paper for lists of strings. */
module ContractAddress {
  import opened Encoding
  import opened Wrappers

  const ITEM_OFFSET: nat := 0x80
  const LIST_OFFSET: nat := 0xc0
  const SHORT: nat := 56
  /** A length takes at most eight bytes. */
  const LENGTH_LIMIT: nat := 0x1_0000_0000_0000_0000

  type Sender = a: Bytes | |a| == 20 witness seq(20, _ => 0)

  // ---------- RLP ----------

  /** Big-endian with no leading zero. */
  function BigEndian(n: nat): Bytes {
    if n == 0 then [] else BigEndian(n / 256) + [n % 256]
  }

  function FromBigEndian(b: Bytes): nat {
    if b == [] then 0 else FromBigEndian(b[..|b| - 1]) * 256 + b[|b| - 1]
  }

  lemma {:induction false} BigEndianRoundTrip(n: nat)
    ensures FromBigEndian(BigEndian(n)) == n
  {
    if n > 0 {
      BigEndianRoundTrip(n / 256);
      var b := BigEndian(n);
      assert b[..|b| - 1] == BigEndian(n / 256);
    }
  }

  function Pow256(k: nat): nat {
    if k == 0 then 1 else 256 * Pow256(k - 1)
  }

  lemma {:induction false} BigEndianFits(n: nat, k: nat)
    requires n < Pow256(k)
    ensures |BigEndian(n)| <= k
  {
    if n > 0 {
      BigEndianFits(n / 256, k - 1);
    }
  }

  lemma LengthFits(n: nat)
    requires n < LENGTH_LIMIT
    ensures |BigEndian(n)| <= 8 && (n > 0 ==> |BigEndian(n)| > 0)
  {
    assert Pow256(4) == 0x1_0000_0000;
    assert Pow256(8) == 0x1_0000_0000 * Pow256(4);
    BigEndianFits(n, 8);
  }

  /** The length of a string or list, in front of it. */
  function Header(offset: nat, n: nat): Bytes
    requires offset + 64 <= 256 && n < LENGTH_LIMIT
  {
    LengthFits(n);
    if n < SHORT then [offset + n] else [offset + SHORT - 1 + |BigEndian(n)|] + BigEndian(n)
  }

  function EncodeString(x: Bytes): Bytes
    requires |x| < LENGTH_LIMIT
  {
    if |x| == 1 && x[0] < ITEM_OFFSET then x else Header(ITEM_OFFSET, |x|) + x
  }

  function EncodeItems(xs: seq<Bytes>): Bytes
    requires forall i: nat | i < |xs| :: |xs[i]| < LENGTH_LIMIT
  {
    if xs == [] then [] else EncodeString(xs[0]) + EncodeItems(xs[1..])
  }

  function Encode(xs: seq<Bytes>): Bytes
    requires forall i: nat | i < |xs| :: |xs[i]| < LENGTH_LIMIT
    requires |EncodeItems(xs)| < LENGTH_LIMIT
  {
    Header(LIST_OFFSET, |EncodeItems(xs)|) + EncodeItems(xs)
  }

  /** The size of a header and the length it gives. */
  function DecodeHeader(offset: nat, b: Bytes): (r: Option<(nat, nat)>)
    ensures r.Some? ==> 0 < r.value.0 <= |b|
  {
    if b == [] || !(offset <= b[0] < offset + 64) then None
    else if b[0] < offset + SHORT then Some((1, b[0] - offset))
    else
      var size := 2 + b[0] - offset - SHORT;
      if size > |b| then None else Some((size, FromBigEndian(b[1..size])))
  }

  /** The first string and what follows it. */
  function DecodeString(b: Bytes): (r: Option<(Bytes, Bytes)>)
    ensures r.Some? ==> |r.value.1| < |b|
  {
    if b == [] then None
    else if b[0] < ITEM_OFFSET then Some((b[..1], b[1..]))
    else match DecodeHeader(ITEM_OFFSET, b)
      case None => None
      case Some((h, n)) => if h + n > |b| then None else Some((b[h..h + n], b[h + n..]))
  }

  function DecodeItems(b: Bytes): Option<seq<Bytes>>
    decreases |b|
  {
    if b == [] then Some([])
    else match DecodeString(b)
      case None => None
      case Some((x, rest)) =>
        match DecodeItems(rest)
        case None => None
        case Some(xs) => Some([x] + xs)
  }

  function Decode(b: Bytes): Option<seq<Bytes>> {
    match DecodeHeader(LIST_OFFSET, b)
    case None => None
    case Some((h, n)) => if |b| != h + n then None else DecodeItems(b[h..])
  }

  lemma HeaderRoundTrip(offset: nat, n: nat, rest: Bytes)
    requires offset + 64 <= 256 && n < LENGTH_LIMIT
    ensures DecodeHeader(offset, Header(offset, n) + rest) == Some((|Header(offset, n)|, n))
    ensures Header(offset, n) != [] && offset <= Header(offset, n)[0]
  {
    hide BigEndian, FromBigEndian;
    LengthFits(n);
    var b := Header(offset, n) + rest;
    if n >= SHORT {
      assert b[1..1 + |BigEndian(n)|] == BigEndian(n);
      BigEndianRoundTrip(n);
    }
  }

  lemma StringRoundTrip(x: Bytes, rest: Bytes)
    requires |x| < LENGTH_LIMIT
    ensures DecodeString(EncodeString(x) + rest) == Some((x, rest))
  {
    hide DecodeHeader, Header;
    var b := EncodeString(x) + rest;
    if |x| == 1 && x[0] < ITEM_OFFSET {
      assert b[..1] == x && b[1..] == rest;
    } else {
      var header := Header(ITEM_OFFSET, |x|);
      HeaderRoundTrip(ITEM_OFFSET, |x|, x + rest);
      assert b == header + (x + rest);
      assert b[|header|..|header| + |x|] == x && b[|header| + |x|..] == rest;
    }
  }

  lemma {:induction false} ItemsRoundTrip(xs: seq<Bytes>)
    requires forall i: nat | i < |xs| :: |xs[i]| < LENGTH_LIMIT
    ensures DecodeItems(EncodeItems(xs)) == Some(xs)
    decreases |xs|
  {
    hide EncodeString, DecodeString;
    if xs != [] {
      StringRoundTrip(xs[0], EncodeItems(xs[1..]));
      ItemsRoundTrip(xs[1..]);
      StringNotEmpty(xs[0]);
      assert [xs[0]] + xs[1..] == xs;
    }
  }

  lemma StringNotEmpty(x: Bytes)
    requires |x| < LENGTH_LIMIT
    ensures EncodeString(x) != []
  {
  }

  /** Every list of strings decodes back. */
  lemma ListRoundTrip(xs: seq<Bytes>)
    requires forall i: nat | i < |xs| :: |xs[i]| < LENGTH_LIMIT
    requires |EncodeItems(xs)| < LENGTH_LIMIT
    ensures Decode(Encode(xs)) == Some(xs)
  {
    hide DecodeHeader, Header, EncodeItems, DecodeItems;
    var items := EncodeItems(xs);
    HeaderRoundTrip(LIST_OFFSET, |items|, items);
    ItemsRoundTrip(xs);
    assert Encode(xs)[|Header(LIST_OFFSET, |items|)|..] == items;
  }

  // ---------- The two preimages ----------

  lemma NonceDigits(n: U32)
    ensures var a, b, c := n / 256, n / 256 / 256, n / 256 / 256 / 256;
      BigEndian(n) ==
        (if n == 0 then [] else
         if a == 0 then [n % 256] else
         if b == 0 then [a % 256, n % 256] else
         if c == 0 then [b % 256, a % 256, n % 256] else
         [c, b % 256, a % 256, n % 256])
  {
    var a, b, c := n / 256, n / 256 / 256, n / 256 / 256 / 256;
    assert BigEndian(c) == if c == 0 then [] else [c] by {
      assert c < 256;
      assert BigEndian(c / 256) == [];
    }
    assert BigEndian(b) == if b == 0 then [] else BigEndian(c) + [b % 256];
    assert BigEndian(a) == if a == 0 then [] else BigEndian(b) + [a % 256];
    assert BigEndian(n) == if n == 0 then [] else BigEndian(a) + [n % 256];
  }

  lemma ByteOf(n: nat)
    ensures n == 0 <==> n / 256 == 0 && n % 256 == 0
  {
  }

  lemma NonceShort(n: U32)
    ensures |BigEndian(n)| <= 4
    ensures BigEndian(n) == BigEndianBytes(n)[4 - |BigEndian(n)|..]
    ensures forall i: nat | i < 4 - |BigEndian(n)| :: BigEndianBytes(n)[i] == 0
    ensures |BigEndian(n)| > 0 ==> BigEndianBytes(n)[4 - |BigEndian(n)|] != 0
  {
    hide BigEndian;
    NonceDigits(n);
    ByteOf(n);
    ByteOf(n / 256);
    ByteOf(n / 256 / 256);
  }

  /** The nonce's four bytes, most significant first. */
  function BigEndianBytes(n: U32): (r: Bytes)
    ensures |r| == 4
  {
    var le := LittleEndian(n);
    [le[3], le[2], le[1], le[0]]
  }

  function CreateItems(sender: Sender, nonce: U32): (r: seq<Bytes>)
    ensures forall i: nat | i < |r| :: |r[i]| < SHORT
  {
    NonceShort(nonce);
    [sender, BigEndian(nonce)]
  }

  lemma CreateItemsEncoded(sender: Sender, nonce: U32)
    ensures var n := BigEndian(nonce);
      && |n| <= 4
      && EncodeItems(CreateItems(sender, nonce)) == [ITEM_OFFSET + 20] + sender + EncodeString(n)
      && 22 <= |EncodeItems(CreateItems(sender, nonce))| <= 26
  {
    NonceShort(nonce);
    var items := CreateItems(sender, nonce);
    assert items[1..] == [BigEndian(nonce)];
    assert EncodeItems(items[1..]) == EncodeString(BigEndian(nonce));
    assert EncodeString(sender) == [ITEM_OFFSET + 20] + sender;
  }

  /** The preimage of an ordinary creation. */
  function CreatePreimage(sender: Sender, nonce: U32): Bytes {
    CreateItemsEncoded(sender, nonce);
    Encode(CreateItems(sender, nonce))
  }

  function Create2Preimage(sender: Sender, salt: Word, codeHash: Word): Bytes {
    [0xff] + sender + salt + codeHash
  }

  /** How many bytes follow the leading zeros. */
  method SignificantBytes(nonce: U32) returns (size: nat)
    ensures size == |BigEndian(nonce)|
  {
    hide BigEndian, BigEndianBytes;
    NonceShort(nonce);
    var be := BigEndianBytes(nonce);
    for i := 0 to 4
      invariant forall k: nat | k < i :: be[k] == 0
    {
      if be[i] != 0 {
        return 4 - i;
      }
    }
    return 0;
  }

  /** Fill the buffer with the RLP list of sender and nonce. */
  method RlpEncodeSenderAndNonce(sender: Sender, nonce: U32, data: array<Byte>) returns (len: nat)
    requires data.Length >= 27
    modifies data
    ensures len <= 27 && data[..len] == CreatePreimage(sender, nonce)
    ensures data[len..] == old(data[len..])
  {
    hide BigEndian, BigEndianBytes, CreatePreimage, EncodeString;
    ghost var before := data[..];
    data[1] := 20 + ITEM_OFFSET;
    forall k | 0 <= k < 20 {
      data[2 + k] := sender[k];
    }
    assert data[2..22] == sender;
    assert data[1..22] == [ITEM_OFFSET + 20] + sender;
    assert data[22..] == before[22..];
    label filled:
    var size := FillNonce(nonce, data);
    assert data[1..22] == old@filled(data[..])[1..22] == old@filled(data[1..22]);
    len := 22 + size;
    data[0] := len - 1 + LIST_OFFSET;
    PreimageParts(sender, nonce);
    assert data[1..22] == [ITEM_OFFSET + 20] + sender;
    assert data[22..len] == EncodeString(BigEndian(nonce));
    assert data[..len] == [data[0]] + data[1..22] + data[22..len];
    assert data[len..] == before[len..];
  }

  /** The nonce as an RLP string, from position 22 on. */
  method FillNonce(nonce: U32, data: array<Byte>) returns (size: nat)
    requires data.Length >= 27
    modifies data
    ensures |BigEndian(nonce)| <= 4
    ensures size <= 5 && data[22..22 + size] == EncodeString(BigEndian(nonce))
    ensures data[..22] == old(data[..22]) && data[22 + size..] == old(data[22 + size..])
  {
    hide BigEndian, BigEndianBytes, EncodeString;
    NonceShort(nonce);
    ShortString(BigEndian(nonce));
    var be := BigEndianBytes(nonce);
    var n := SignificantBytes(nonce);
    ghost var before := data[..];
    if n == 1 && be[3] < ITEM_OFFSET {
      data[22] := be[3];
      size := 1;
      assert data[22..23] == [be[3]] == be[3..];
    } else {
      data[22] := n + ITEM_OFFSET;
      forall k | 0 <= k < n {
        data[23 + k] := be[4 - n + k];
      }
      size := 1 + n;
      assert data[23..23 + n] == be[4 - n..];
      assert data[22..22 + size] == [n + ITEM_OFFSET] + data[23..23 + n];
    }
    assert data[..22] == before[..22];
    assert data[22 + size..] == before[22 + size..];
  }

  lemma PreimageParts(sender: Sender, nonce: U32)
    ensures |BigEndian(nonce)| <= 4
    ensures var n := EncodeString(BigEndian(nonce));
      && |n| <= 5
      && CreatePreimage(sender, nonce) == [LIST_OFFSET + 21 + |n|] + ([ITEM_OFFSET + 20] + sender) + n
  {
    hide BigEndian, EncodeItems, BigEndianBytes;
    NonceShort(nonce);
    CreateItemsEncoded(sender, nonce);
  }

  /** The very bytes, for a nonce of every length. */
  lemma CreateBytes(sender: Sender, nonce: U32)
    ensures var a, b, c := nonce / 256, nonce / 256 / 256, nonce / 256 / 256 / 256;
      CreatePreimage(sender, nonce) ==
        if nonce == 0 then [0xd6, 0x94] + sender + [0x80]
        else if nonce < 0x80 then [0xd6, 0x94] + sender + [nonce]
        else if a == 0 then [0xd7, 0x94] + sender + [0x81, nonce]
        else if b == 0 then [0xd8, 0x94] + sender + [0x82, a, nonce % 256]
        else if c == 0 then [0xd9, 0x94] + sender + [0x83, b, a % 256, nonce % 256]
        else [0xda, 0x94] + sender + [0x84, c, b % 256, a % 256, nonce % 256]
  {
    hide BigEndian, CreatePreimage, EncodeString;
    PreimageParts(sender, nonce);
    NonceEncoded(nonce);
    var n := EncodeString(BigEndian(nonce));
    assert [LIST_OFFSET + 21 + |n|] + ([ITEM_OFFSET + 20] + sender) + n == [0xd5 + |n|, 0x94] + sender + n;
  }

  /** The nonce as an RLP string. */
  lemma NonceEncoded(nonce: U32)
    ensures |BigEndian(nonce)| <= 4
    ensures var a, b, c := nonce / 256, nonce / 256 / 256, nonce / 256 / 256 / 256;
      EncodeString(BigEndian(nonce)) ==
        if nonce == 0 then [0x80]
        else if nonce < 0x80 then [nonce]
        else if a == 0 then [0x81, nonce]
        else if b == 0 then [0x82, a, nonce % 256]
        else if c == 0 then [0x83, b, a % 256, nonce % 256]
        else [0x84, c, b % 256, a % 256, nonce % 256]
  {
    hide BigEndian, EncodeString;
    NonceDigits(nonce);
    ShortString(BigEndian(nonce));
    SmallQuotient(nonce);
    SmallQuotient(nonce / 256);
    SmallQuotient(nonce / 256 / 256);
  }

  lemma ShortString(x: Bytes)
    requires |x| <= 4
    ensures EncodeString(x) == if |x| == 1 && x[0] < 0x80 then x else [0x80 + |x|] + x
  {
  }

  lemma SmallQuotient(n: nat)
    ensures n / 256 == 0 <==> n < 256
    ensures n / 256 == 0 ==> n % 256 == n
  {
  }

  lemma Create2Bytes(sender: Sender, salt: Word, codeHash: Word)
    ensures var p := Create2Preimage(sender, salt, codeHash);
      |p| == 85 && p[0] == 0xff && p[1..21] == sender && p[21..53] == salt && p[53..] == codeHash
  {
  }

  /** The sender and nonce a preimage was built from. */
  function DecodeCreate(b: Bytes): Option<(Bytes, nat)> {
    match Decode(b)
    case Some(xs) => if |xs| == 2 then Some((xs[0], FromBigEndian(xs[1]))) else None
    case None => None
  }

  /** The RLP preimage decodes back to its sender and nonce. */
  lemma CreateRoundTrip(sender: Sender, nonce: U32)
    ensures DecodeCreate(CreatePreimage(sender, nonce)) == Some((sender, nonce))
  {
    hide BigEndian, FromBigEndian, Decode, Encode, EncodeItems, BigEndianBytes;
    CreateItemsEncoded(sender, nonce);
    ListRoundTrip(CreateItems(sender, nonce));
    BigEndianRoundTrip(nonce);
  }

  /** No two creations share a preimage: within each form it determines its parts, and the two forms
  never meet. */
  lemma PreimagesInjective(s: Sender, m: U32, t: Sender, n: U32, salt: Word, code: Word, salt': Word, code': Word)
    ensures CreatePreimage(s, m) == CreatePreimage(t, n) ==> s == t && m == n
    ensures Create2Preimage(s, salt, code) == Create2Preimage(t, salt', code') ==>
      s == t && salt == salt' && code == code'
    ensures CreatePreimage(s, m) != Create2Preimage(t, salt, code)
  {
    CreateRoundTrip(s, m);
    CreateRoundTrip(t, n);
    if Create2Preimage(s, salt, code) == Create2Preimage(t, salt', code') {
      SplitPair([0xff] + s + salt, code, [0xff] + t + salt', code');
      SplitPair([0xff] + s, salt, [0xff] + t, salt');
      SplitPair([0xff], s, [0xff], t);
    }
    CreateItemsEncoded(s, m);
    assert |CreatePreimage(s, m)| <= 27 && |Create2Preimage(t, salt, code)| == 85;
  }
}
