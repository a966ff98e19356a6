// Sha256: the streaming hash over its 64-byte buffer, against the padded message of FIPS 180-4.

module Sha256 {
  type byte = x: int | 0 <= x < 256
  type word = x: int | 0 <= x < 0x1_0000_0000

  /** The eight words of the chaining value. */
  type Words = s: seq<word> | |s| == 8 witness seq(8, i => 0)

  type Compression = (Words, seq<byte>) -> Words

  const IV: Words := [0x6a09e667, 0xbb67ae85, 0x3c6ef372, 0xa54ff53a, 0x510e527f, 0x9b05688c, 0x1f83d9ab, 0x5be0cd19]

  const TWO_64 := 0x1_0000_0000_0000_0000

  // ---------------------------------------------------------------- the standard

  function Zeros(n: nat): (s: seq<byte>)
    ensures |s| == n && forall i :: 0 <= i < n ==> s[i] == 0
  {
    seq(n, i => 0)
  }

  /** Eight bytes, the most significant first. */
  function BigEndian64(n: nat): (s: seq<byte>)
    ensures |s| == 8
  {
    [n / 0x100000000000000 % 256, n / 0x1000000000000 % 256, n / 0x10000000000 % 256, n / 0x100000000 % 256,
     n / 0x1000000 % 256, n / 0x10000 % 256, n / 0x100 % 256, n % 256]
  }

  /** How many zero bytes follow the 0x80: the fewest that leave room for the length at the end of a block. */
  function ZeroCount(n: nat): nat { (119 - n % 64) % 64 }

  /** The padded message of section 5.1.1 of FIPS 180-4, with the length in bits taken modulo 2^64. */
  function Padded(m: seq<byte>): seq<byte> {
    m + [0x80] + Zeros(ZeroCount(|m|)) + BigEndian64(8 * |m| % TWO_64)
  }

  /** Padding fills the last block exactly, with less than a block of zeros. */
  lemma PaddedFills(m: seq<byte>)
    ensures |Padded(m)| % 64 == 0 && |Padded(m)| - |m| <= 72 && m <= Padded(m)
  {
    ZeroCountFills(|m|);
    hide BigEndian64, ZeroCount;
  }

  /** Bytes as a number, the most significant first. */
  function Number(b: seq<byte>): nat { if |b| == 0 then 0 else 256 * Number(b[..|b| - 1]) + b[|b| - 1] }

  /** The padded message byte by byte: the message, 0x80, zeros, and the length in bits as a number of eight bytes. */
  lemma PaddedMeans(m: seq<byte>)
    ensures var p := Padded(m); var n := |p|;
      && n >= |m| + 9 && (forall i :: 0 <= i < |m| ==> p[i] == m[i]) && p[|m|] == 0x80
      && (forall i :: |m| < i < n - 8 ==> p[i] == 0)
      && Number(p[n - 8..]) == 8 * |m| % 0x1_0000_0000_0000_0000
  {
    var length := 8 * |m| % TWO_64;
    BigEndianMeans(length);
    hide BigEndian64, ZeroCount, Number;
    var p := Padded(m);
    assert p[|p| - 8..] == BigEndian64(length);
  }

  lemma NumberMore(b: seq<byte>, k: nat)
    requires k < |b|
    ensures Number(b[..k + 1]) == 256 * Number(b[..k]) + b[k]
  {
    assert b[..k + 1][..k] == b[..k];
  }

  lemma Extends(b: seq<byte>, k: nat, n: nat)
    requires k < |b| && b[k] == n % 256 && Number(b[..k]) == n / 256
    ensures Number(b[..k + 1]) == n
  {
    NumberMore(b, k);
    hide Number;
  }

  lemma BigEndianMeans(n: nat)
    requires n < 0x1_0000_0000_0000_0000
    ensures Number(BigEndian64(n)) == n
  {
    hide BigEndian64, Number;
    var b := BigEndian64(n);
    EightBytes(n);
    NoNumber(b[..0]);
    HighBytes(n);
    LowBytes(n);
    Extends(b, 0, n / 0x100000000000000);
    Extends(b, 1, n / 0x1000000000000);
    Extends(b, 2, n / 0x10000000000);
    Extends(b, 3, n / 0x100000000);
    Extends(b, 4, n / 0x1000000);
    Extends(b, 5, n / 0x10000);
    Extends(b, 6, n / 0x100);
    Extends(b, 7, n);
    assert b[..8] == b;
  }

  lemma EightBytes(n: nat)
    ensures var b := BigEndian64(n);
      && b[0] == n / 0x100000000000000 % 256 && b[1] == n / 0x1000000000000 % 256 && b[2] == n / 0x10000000000 % 256
      && b[3] == n / 0x100000000 % 256 && b[4] == n / 0x1000000 % 256 && b[5] == n / 0x10000 % 256
      && b[6] == n / 0x100 % 256 && b[7] == n % 256
  {
  }

  lemma NoNumber(b: seq<byte>)
    requires |b| == 0
    ensures Number(b) == 0
  {
  }

  lemma HighBytes(n: nat)
    requires n < 0x1_0000_0000_0000_0000
    ensures n / 0x100000000000000 / 256 == 0
    ensures n / 0x1000000000000 / 256 == n / 0x100000000000000
    ensures n / 0x10000000000 / 256 == n / 0x1000000000000
    ensures n / 0x100000000 / 256 == n / 0x10000000000
  {
  }

  lemma LowBytes(n: nat)
    ensures n / 0x1000000 / 256 == n / 0x100000000
    ensures n / 0x10000 / 256 == n / 0x1000000
    ensures n / 0x100 / 256 == n / 0x10000
  {
  }

  lemma ZeroCountFills(n: nat)
    ensures (n + 9 + ZeroCount(n)) % 64 == 0 && ZeroCount(n) < 64
  {
    var q, r := n / 64, n % 64;
    assert n == 64 * q + r;
    if r < 56 { assert n + 9 + ZeroCount(n) == 64 * (q + 1); } else { assert n + 9 + ZeroCount(n) == 64 * (q + 2); }
  }

  /** By how much of the last block the message fills. */
  lemma ZeroCountIs(n: nat, whole: nat)
    requires whole <= n < whole + 64 && whole % 64 == 0
    ensures ZeroCount(n) == if n - whole < 56 then 55 - (n - whole) else 119 - (n - whole)
  {
    assert n == 64 * (whole / 64) + (n - whole);
    assert n % 64 == n - whole;
  }

  /** The compression function folded over whole blocks; a remainder shorter than a block is ignored. */
  function Fold(c: Compression, st: Words, m: seq<byte>): Words
    decreases |m|
  {
    if |m| < 64 then st else Fold(c, c(st, m[..64]), m[64..])
  }

  /** Four bytes per word, the most significant first. */
  function Digest(st: Words): (d: seq<byte>)
    ensures |d| == 32
  {
    seq(32, i requires 0 <= i < 32 => ByteOf(st[i / 4], i % 4))
  }

  function ByteOf(w: word, i: nat): byte
    requires i < 4
  {
    if i == 0 then w / 0x1000000 % 256 else if i == 1 then w / 0x10000 % 256 else if i == 2 then w / 0x100 % 256 else w % 256
  }

  /** Every word of the state is four bytes of the digest. */
  lemma DigestMeans(st: Words, i: nat)
    requires i < 8
    ensures Number(Digest(st)[4 * i..4 * i + 4]) == st[i]
  {
    var b, w := Digest(st)[4 * i..4 * i + 4], st[i];
    DigestBytes(st, i);
    NoNumber(b[..0]);
    hide Number, Digest;
    Extends(b, 0, w / 0x1000000);
    Extends(b, 1, w / 0x10000);
    Extends(b, 2, w / 0x100);
    Extends(b, 3, w);
    assert b[..4] == b;
  }

  lemma DigestBytes(st: Words, i: nat)
    requires i < 8
    ensures var b, w := Digest(st)[4 * i..4 * i + 4], st[i];
      && b[0] == w / 0x1000000 % 256 && b[1] == w / 0x10000 % 256 && b[2] == w / 0x100 % 256 && b[3] == w % 256
  {
    var d := Digest(st);
    assert d[4 * i] == ByteOf(st[i], 0);
    assert d[4 * i + 1] == ByteOf(st[i], 1);
    assert d[4 * i + 2] == ByteOf(st[i], 2);
    assert d[4 * i + 3] == ByteOf(st[i], 3);
    hide Digest;
  }

  /** SHA-256 of a message, by the standard. */
  function Hash(c: Compression, m: seq<byte>): (d: seq<byte>)
    ensures |d| == 32
  {
    Digest(Fold(c, IV, Padded(m)))
  }

  lemma {:induction false} FoldSplits(c: Compression, st: Words, a: seq<byte>, b: seq<byte>)
    requires |a| % 64 == 0
    ensures Fold(c, st, a + b) == Fold(c, Fold(c, st, a), b)
    decreases |a|
  {
    if |a| == 0 {
      assert a + b == b;
    } else {
      assert (a + b)[..64] == a[..64] && (a + b)[64..] == a[64..] + b;
      FoldSplits(c, c(st, a[..64]), a[64..], b);
    }
  }

  lemma FoldOne(c: Compression, st: Words, block: seq<byte>)
    requires |block| == 64
    ensures Fold(c, st, block) == c(st, block)
  {
    assert block[..64] == block && |block[64..]| == 0;
  }

  // ---------------------------------------------------------------- the program

  class Context {
    const compress: Compression
    const data: array<byte>
    var datalen: nat
    var bitlen: nat
    var state: Words
    ghost var fed: seq<byte>

    /** The whole blocks of what was fed are folded into the state, the rest is in the buffer. */
    ghost predicate Valid()
      reads this, data
    {
      var whole := |fed| - datalen;
      && data.Length == 64 && datalen < 64 && datalen <= |fed| && whole % 64 == 0
      && data[..datalen] == fed[whole..]
      && bitlen == 8 * whole % TWO_64
      && state == Fold(compress, IV, fed[..whole])
    }

    /** sha256_init */
    constructor (compress: Compression)
      ensures Valid() && fed == [] && fresh(data) && this.compress == compress
    {
      this.compress := compress;
      data := new byte[64](i => 0);
      datalen, bitlen, state, fed := 0, 0, IV, [];
    }

    /** One byte of sha256_update. */
    method Feed(b: byte)
      requires Valid()
      modifies this`datalen, this`bitlen, this`state, this`fed, data
      ensures Valid() && fed == old(fed) + [b]
    {
      hide Fold, IV;
      ghost var whole := |fed| - datalen;
      ghost var before := fed;
      data[datalen] := b;
      datalen := datalen + 1;
      fed := fed + [b];
      assert data[..datalen] == before[whole..] + [b] == fed[whole..];
      assert fed[..whole] == before[..whole];
      if datalen == 64 {
        assert data[..] == data[..64];
        BlockDone(compress, fed, whole);
        LengthIs(|fed|, whole);
        state := compress(state, data[..]);
        bitlen := (bitlen + 512) % TWO_64;
        datalen := 0;
      }
    }

    /** sha256_update: however a message is cut into pieces, what counts is what was fed. */
    method Update(bytes: seq<byte>)
      requires Valid()
      modifies this`datalen, this`bitlen, this`state, this`fed, data
      ensures Valid() && fed == old(fed) + bytes
    {
      for i := 0 to |bytes|
        invariant Valid() && fed == old(fed) + bytes[..i]
      {
        Feed(bytes[i]);
        assert bytes[..i + 1] == bytes[..i] + [bytes[i]];
      }
      assert bytes[..|bytes|] == bytes;
    }

    /** Writes 0x80 and zeros into the buffer up to `end`. */
    method Mark(end: nat)
      requires data.Length == 64 && datalen < end <= 64
      modifies data
      ensures data[..end] == old(data[..datalen]) + [0x80] + Zeros(end - datalen - 1)
    {
      var i := datalen;
      data[i] := 0x80;
      i := i + 1;
      while i < end
        invariant datalen < i <= end
        invariant data[..i] == old(data[..datalen]) + [0x80] + Zeros(i - datalen - 1)
      {
        data[i] := 0;
        i := i + 1;
        assert data[..i] == data[..i - 1] + [0];
      }
    }

    /** Writes the length into the last eight bytes. */
    method WriteLength()
      requires data.Length == 64
      modifies data
      ensures data[..] == old(data[..56]) + BigEndian64(bitlen)
    {
      data[63] := bitlen % 256;
      data[62] := bitlen / 0x100 % 256;
      data[61] := bitlen / 0x10000 % 256;
      data[60] := bitlen / 0x1000000 % 256;
      data[59] := bitlen / 0x100000000 % 256;
      data[58] := bitlen / 0x10000000000 % 256;
      data[57] := bitlen / 0x1000000000000 % 256;
      data[56] := bitlen / 0x100000000000000 % 256;
      assert data[56..] == BigEndian64(bitlen);
      assert data[..] == data[..56] + data[56..];
    }

    /** Marks the end of the message, in a block of its own if the length does not fit behind it. */
    method MarkEnd()
      requires Valid()
      modifies this`state, data
      ensures data.Length == 64
      ensures compress(state, data[..56] + BigEndian64(8 * |fed| % TWO_64)) == Fold(compress, IV, Padded(fed))
    {
      hide Fold, Zeros, BigEndian64, IV, Padded;
      ghost var whole := |fed| - datalen;
      if datalen < 56 {
        Mark(56);
        OneBlock(compress, fed, whole);
      } else {
        Mark(64);
        assert data[..] == data[..64];
        TwoBlocks(compress, fed, whole);
        state := compress(state, data[..]);
        for i := 0 to 56
          modifies data
          invariant forall k :: 0 <= k < i ==> data[k] == 0
        {
          data[i] := 0;
        }
        ZerosAre(data[..56]);
      }
    }

    /** sha256_final: the digest of everything that was fed, as the standard defines it. */
    method Final() returns (hash: seq<byte>)
      requires Valid()
      modifies this`bitlen, this`state, data
      ensures hash == Hash(compress, fed)
    {
      hide Fold, BigEndian64, Digest, IV, Padded;
      MarkEnd();
      LengthIs(|fed|, |fed| - datalen);
      bitlen := (bitlen + datalen * 8) % TWO_64;
      WriteLength();
      state := compress(state, data[..]);
      hash := Serialise();
    }

    /** The bytes of the state, word by word and most significant first. */
    method Serialise() returns (hash: seq<byte>)
      ensures hash == Digest(state)
    {
      var out := new byte[32](i => 0);
      for i := 0 to 4
        invariant forall j, m :: 0 <= j < 8 && 0 <= m < i ==> out[4 * j + m] == ByteOf(state[j], m)
      {
        for j := 0 to 8
          invariant forall l, m :: 0 <= l < 8 && 0 <= m < i ==> out[4 * l + m] == ByteOf(state[l], m)
          invariant forall l :: 0 <= l < j ==> out[4 * l + i] == ByteOf(state[l], i)
        {
          out[4 * j + i] := ByteOf(state[j], i);
        }
      }
      hash := out[..];
      forall k | 0 <= k < 32 ensures hash[k] == ByteOf(state[k / 4], k % 4) {
        assert k == 4 * (k / 4) + k % 4;
      }
    }
  }

  /** A full buffer is one more block. */
  lemma BlockDone(c: Compression, m: seq<byte>, whole: nat)
    requires |m| == whole + 64 && whole % 64 == 0
    ensures Fold(c, IV, m) == c(Fold(c, IV, m[..whole]), m[whole..]) && |m| % 64 == 0 && m[..|m|] == m && m[|m|..] == []
  {
    hide Fold, IV;
    assert m == m[..whole] + m[whole..];
    FoldSplits(c, IV, m[..whole], m[whole..]);
    FoldOne(c, Fold(c, IV, m[..whole]), m[whole..]);
  }

  lemma LengthIs(n: nat, whole: nat)
    requires whole <= n
    ensures (8 * whole % TWO_64 + (n - whole) * 8) % TWO_64 == 8 * n % TWO_64
  {
  }

  lemma ZerosAre(s: seq<byte>)
    requires forall k :: 0 <= k < |s| ==> s[k] == 0
    ensures s == Zeros(|s|)
  {
  }

  lemma PaddedIs(m: seq<byte>, whole: nat)
    requires whole <= |m| < whole + 64 && whole % 64 == 0
    ensures var used := |m| - whole;
      Padded(m) == m[..whole]
        + (m[whole..] + [0x80] + Zeros(if used < 56 then 55 - used else 119 - used) + BigEndian64(8 * |m| % TWO_64))
  {
    ZeroCountIs(|m|, whole);
    hide BigEndian64, Zeros, ZeroCount;
    assert m == m[..whole] + m[whole..];
  }

  /** With room for the length after the mark, the padded message is the folded blocks and one more. */
  lemma OneBlock(c: Compression, m: seq<byte>, whole: nat)
    requires whole <= |m| && whole % 64 == 0 && |m| - whole < 56
    ensures var block := m[whole..] + [0x80] + Zeros(55 - (|m| - whole)) + BigEndian64(8 * |m| % TWO_64);
      |block| == 64 && Fold(c, IV, Padded(m)) == c(Fold(c, IV, m[..whole]), block)
  {
    PaddedIs(m, whole);
    hide Fold, BigEndian64, Zeros, ZeroCount, Padded, IV;
    var block := m[whole..] + [0x80] + Zeros(55 - (|m| - whole)) + BigEndian64(8 * |m| % TWO_64);
    FoldSplits(c, IV, m[..whole], block);
    FoldOne(c, Fold(c, IV, m[..whole]), block);
  }

  /** Otherwise it takes two more, the second of zeros and the length. */
  lemma TwoBlocks(c: Compression, m: seq<byte>, whole: nat)
    requires whole <= |m| && whole % 64 == 0 && 56 <= |m| - whole < 64
    ensures var first := m[whole..] + [0x80] + Zeros(63 - (|m| - whole)); var second := Zeros(56) + BigEndian64(8 * |m| % TWO_64);
      |first| == |second| == 64 && Fold(c, IV, Padded(m)) == c(c(Fold(c, IV, m[..whole]), first), second)
  {
    PaddedIs(m, whole);
    var used := |m| - whole;
    assert Zeros(119 - used) == Zeros(63 - used) + Zeros(56);
    hide Fold, BigEndian64, Zeros, ZeroCount, Padded, IV;
    var first := m[whole..] + [0x80] + Zeros(63 - used);
    var second := Zeros(56) + BigEndian64(8 * |m| % TWO_64);
    assert m[whole..] + [0x80] + Zeros(119 - used) + BigEndian64(8 * |m| % TWO_64) == first + second;
    FoldSplits(c, IV, m[..whole], first + second);
    FoldSplits(c, Fold(c, IV, m[..whole]), first, second);
    FoldOne(c, Fold(c, IV, m[..whole]), first);
    FoldOne(c, c(Fold(c, IV, m[..whole]), first), second);
  }

  function Concat(pieces: seq<seq<byte>>): seq<byte> {
    if |pieces| == 0 then [] else Concat(pieces[..|pieces| - 1]) + pieces[|pieces| - 1]
  }

  lemma ConcatNext(pieces: seq<seq<byte>>, i: nat)
    requires i < |pieces|
    ensures Concat(pieces[..i + 1]) == Concat(pieces[..i]) + pieces[i] && pieces[..|pieces|] == pieces
  {
    assert pieces[..i + 1][..i] == pieces[..i];
  }

  lemma ConcatNone(pieces: seq<seq<byte>>)
    requires |pieces| == 0
    ensures |Concat(pieces)| == 0
  {
  }

  /** One update after another. */
  method FeedAll(context: Context, pieces: seq<seq<byte>>)
    requires context.Valid() && context.fed == []
    modifies context`datalen, context`bitlen, context`state, context`fed, context.data
    ensures context.Valid() && context.fed == Concat(pieces)
  {
    hide Context.Valid, Concat;
    ConcatNone(pieces[..0]);
    for i := 0 to |pieces|
      invariant context.Valid() && context.fed == Concat(pieces[..i])
    {
      context.Update(pieces[i]);
      ConcatNext(pieces, i);
    }
    assert pieces[..|pieces|] == pieces;
  }

  /** Any sequence of updates hashes to the digest of their concatenation, however it was cut. */
  method HashPieces(c: Compression, pieces: seq<seq<byte>>) returns (hash: seq<byte>)
    ensures hash == Hash(c, Concat(pieces))
  {
    hide Hash, Context.Valid, Concat;
    var context := new Context(c);
    FeedAll(context, pieces);
    hash := context.Final();
  }
}
