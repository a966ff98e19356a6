// Passwords: HMAC, PBKDF2 and the printed record of a password, over the streaming hash.

module Passwords {
  import opened Wrappers
  import opened Decimal
  import opened Sha256

  function Pow2(n: nat): nat { if n == 0 then 1 else 2 * Pow2(n - 1) }

  /** Bit by bit, the lowest first: exclusive or, and or. */
  function BitXor(a: nat, b: nat, bits: nat): (r: nat)
    ensures r < Pow2(bits)
  {
    if bits == 0 then 0 else 2 * BitXor(a / 2, b / 2, bits - 1) + (a % 2 + b % 2) % 2
  }

  function BitOr(a: nat, b: nat, bits: nat): (r: nat)
    ensures r < Pow2(bits)
  {
    if bits == 0 then 0 else 2 * BitOr(a / 2, b / 2, bits - 1) + (if a % 2 == 1 || b % 2 == 1 then 1 else 0)
  }

  lemma Pow2Of8()
    ensures Pow2(8) == 256
  {
    assert Pow2(4) == 16;
  }

  function Xor(a: byte, b: byte): byte {
    Pow2Of8();
    BitXor(a, b, 8)
  }

  function Or(a: byte, b: byte): byte {
    Pow2Of8();
    BitOr(a, b, 8)
  }

  lemma {:induction false} XorIsZero(a: nat, b: nat, bits: nat)
    requires a < Pow2(bits) && b < Pow2(bits)
    ensures BitXor(a, b, bits) == 0 <==> a == b
  {
    if bits > 0 { XorIsZero(a / 2, b / 2, bits - 1); }
  }

  lemma {:induction false} OrIsZero(a: nat, b: nat, bits: nat)
    requires a < Pow2(bits) && b < Pow2(bits)
    ensures BitOr(a, b, bits) == 0 <==> a == 0 && b == 0
  {
    if bits > 0 { OrIsZero(a / 2, b / 2, bits - 1); }
  }

  /** Bit `k` of a number. */
  function Bit(n: nat, k: nat): (b: nat)
    ensures b < 2
  {
    if k == 0 then n % 2 else Bit(n / 2, k - 1)
  }

  /** Every bit of an exclusive or is set exactly when the two bits differ. */
  lemma {:induction false} XorBit(a: nat, b: nat, bits: nat, k: nat)
    requires k < bits
    ensures Bit(BitXor(a, b, bits), k) == if Bit(a, k) == Bit(b, k) then 0 else 1
  {
    XorParts(a, b, bits);
    hide BitXor;
    if k > 0 { XorBit(a / 2, b / 2, bits - 1, k - 1); }
  }

  lemma XorParts(a: nat, b: nat, bits: nat)
    requires bits > 0
    ensures BitXor(a, b, bits) / 2 == BitXor(a / 2, b / 2, bits - 1)
    ensures BitXor(a, b, bits) % 2 == if a % 2 == b % 2 then 0 else 1
  {
    hide Pow2;
  }

  function XorAll(a: seq<byte>, b: seq<byte>): (r: seq<byte>)
    requires |a| == |b|
    ensures |r| == |a|
  {
    seq(|a|, i requires 0 <= i < |a| => Xor(a[i], b[i]))
  }

  function XorWith(a: seq<byte>, b: byte): (r: seq<byte>)
    ensures |r| == |a|
  {
    seq(|a|, i requires 0 <= i < |a| => Xor(a[i], b))
  }

  // ---------------------------------------------------------------- HMAC, section 2 of RFC 2104

  /** The key, hashed first when longer than a block, filled with zeros to a block. */
  function BlockKey(c: Compression, key: seq<byte>): (k: seq<byte>)
    ensures |k| == 64
  {
    if |key| > 64 then Hash(c, key) + Zeros(32) else key + Zeros(64 - |key|)
  }

  function Hmac(c: Compression, key: seq<byte>, text: seq<byte>): (d: seq<byte>)
    ensures |d| == 32
  {
    Hash(c, XorWith(BlockKey(c, key), 0x5c) + Hash(c, XorWith(BlockKey(c, key), 0x36) + text))
  }

  /** HMAC bit by bit: the key, hashed when it is longer than a block and filled up with zeros, differs from the outer block
      in the bits of 0x5c and from the inner block in those of 0x36. */
  lemma HmacMeans(c: Compression, key: seq<byte>, text: seq<byte>) returns (outer: seq<byte>, inner: seq<byte>)
    ensures |outer| == |inner| == 64 && Hmac(c, key, text) == Hash(c, outer + Hash(c, inner + text))
    ensures forall i, k: nat :: 0 <= i < 64 && k < 8 ==>
              var short := if |key| > 64 then Hash(c, key) else key;
              var b := if i < |short| then short[i] else 0;
              && Bit(outer[i], k) == (Bit(b, k) + Bit(0x5c, k)) % 2
              && Bit(inner[i], k) == (Bit(b, k) + Bit(0x36, k)) % 2
  {
    hide Hash, BitXor, Bit;
    outer, inner := XorWith(BlockKey(c, key), 0x5c), XorWith(BlockKey(c, key), 0x36);
    forall i, k: nat | 0 <= i < 64 && k < 8
      ensures Bit(outer[i], k) == (Bit(BlockKey(c, key)[i], k) + Bit(0x5c, k)) % 2
      ensures Bit(inner[i], k) == (Bit(BlockKey(c, key)[i], k) + Bit(0x36, k)) % 2
    {
      XorBit(BlockKey(c, key)[i], 0x5c, 8, k);
      XorBit(BlockKey(c, key)[i], 0x36, 8, k);
    }
  }

  method NormalizedKey(c: Compression, key: seq<byte>) returns (k: seq<byte>)
    ensures k == BlockKey(c, key)
  {
    hide Hash;
    if |key| > 64 {
      var context := new Context(c);
      context.Update(key);
      assert context.fed == key;
      var digest := context.Final();
      k := digest + Zeros(32);
    } else {
      k := key + Zeros(64 - |key|);
    }
  }

  /** hmac_sha256; `output` may be the array that holds the text. */
  method HmacSha256(c: Compression, key: seq<byte>, data: array<byte>, dataLength: nat, output: array<byte>)
    requires dataLength <= data.Length && output.Length == 32
    modifies output
    ensures output[..] == Hmac(c, key, old(data[..dataLength]))
  {
    hide Hash, BlockKey, Xor;
    ghost var text := data[..dataLength];
    var normalized := NormalizedKey(c, key);
    var innerPad, outerPad := new byte[64](i => 0), new byte[64](i => 0);
    for i := 0 to 64
      invariant innerPad[..i] == XorWith(normalized[..i], 0x36) && outerPad[..i] == XorWith(normalized[..i], 0x5c)
      invariant unchanged(output) && unchanged(data)
    {
      innerPad[i] := Xor(normalized[i], 0x36);
      outerPad[i] := Xor(normalized[i], 0x5c);
    }
    assert normalized[..64] == normalized;
    var innerBytes, outerBytes := innerPad[..64], outerPad[..64];
    assert data[..dataLength] == text;
    var innerHash := TwoPieces(c, innerBytes, data[..dataLength]);
    var outerHash := TwoPieces(c, outerBytes, innerHash);
    assert outerHash == Hmac(c, key, text);
    CopyTo(outerHash, output);
  }

  method CopyTo(from: seq<byte>, to: array<byte>)
    requires |from| == to.Length
    modifies to
    ensures to[..] == from
  {
    for i := 0 to |from|
      invariant to[..i] == from[..i]
    {
      to[i] := from[i];
    }
  }

  /** Hashing in two pieces. */
  method TwoPieces(c: Compression, a: seq<byte>, b: seq<byte>) returns (hash: seq<byte>)
    ensures hash == Hash(c, a + b)
  {
    hide Hash;
    var context := new Context(c);
    context.Update(a);
    context.Update(b);
    assert context.fed == a + b;
    hash := context.Final();
  }

  // ---------------------------------------------------------------- PBKDF2, section 5.2 of RFC 8018

  /** U_i of the first block: U_1 of the salt and the block number, then each of the one before. */
  function U(c: Compression, password: seq<byte>, salt: seq<byte>, i: nat): (d: seq<byte>)
    requires i >= 1
    ensures |d| == 32
  {
    Hmac(c, password, if i == 1 then salt + [0, 0, 0, 1] else U(c, password, salt, i - 1))
  }

  /** T_1: the exclusive or of U_1 to U_n. */
  function T(c: Compression, password: seq<byte>, salt: seq<byte>, n: nat): (d: seq<byte>)
    requires n >= 1
    ensures |d| == 32
  {
    if n == 1 then U(c, password, salt, 1) else XorAll(T(c, password, salt, n - 1), U(c, password, salt, n))
  }

  /** The text of the first block: the salt and the block number in four bytes. */
  /** How many of the blocks U_1 to U_n have bit `k` of byte `i` set. */
  function BitsSet(c: Compression, password: seq<byte>, salt: seq<byte>, n: nat, i: nat, k: nat): nat
    requires i < 32
  {
    if n == 0 then 0 else BitsSet(c, password, salt, n - 1, i, k) + Bit(U(c, password, salt, n)[i], k)
  }

  /** A bit of the key is set exactly when an odd number of the blocks have it set. */
  lemma {:induction false} KeyBit(c: Compression, password: seq<byte>, salt: seq<byte>, n: nat, i: nat, k: nat)
    requires n >= 1 && i < 32 && k < 8
    ensures Bit(T(c, password, salt, n)[i], k) == BitsSet(c, password, salt, n, i, k) % 2
  {
    hide Bit, BitXor, U;
    if n == 1 {
      assert BitsSet(c, password, salt, n - 1, i, k) == 0;
    } else {
      KeyBit(c, password, salt, n - 1, i, k);
      XorBit(T(c, password, salt, n - 1)[i], U(c, password, salt, n)[i], 8, k);
    }
  }

  method InitialInput(salt: seq<byte>) returns (initial: array<byte>)
    requires |salt| <= 60
    ensures fresh(initial) && initial.Length == 64 && initial[..|salt| + 4] == salt + [0, 0, 0, 1]
  {
    initial := new byte[64](i => 0);
    for i := 0 to |salt|
      invariant initial[..i] == salt[..i]
    {
      initial[i] := salt[i];
    }
    initial[|salt|], initial[|salt| + 1], initial[|salt| + 2], initial[|salt| + 3] := 0, 0, 0, 1;
  }

  /** pbkdf2_sha256; each block overwrites the one it is computed from. */
  method Pbkdf2(c: Compression, password: seq<byte>, salt: seq<byte>, iterations: int) returns (output: seq<byte>)
    requires |salt| <= 60
    ensures output == T(c, password, salt, if iterations < 1 then 1 else iterations)
  {
    hide Hmac, XorAll;
    var initial := InitialInput(salt);
    var block := new byte[32](i => 0);
    HmacSha256(c, password, initial, |salt| + 4, block);
    var sum := new byte[32](i => 0);
    CopyTo(block[..], sum);
    var iteration := 1;
    while iteration < iterations
      invariant 1 <= iteration && (iteration <= iterations || iteration == 1)
      invariant block[..] == U(c, password, salt, iteration) && sum[..] == T(c, password, salt, iteration)
    {
      assert block[..32] == block[..];
      HmacSha256(c, password, block, 32, block);
      AddBlock(sum, block);
      iteration := iteration + 1;
    }
    output := sum[..];
  }

  method AddBlock(sum: array<byte>, block: array<byte>)
    requires sum.Length == block.Length == 32 && sum != block
    modifies sum
    ensures sum[..] == XorAll(old(sum[..]), block[..])
  {
    for i := 0 to 32
      invariant forall k :: 0 <= k < i ==> sum[k] == Xor(old(sum[k]), block[k])
      invariant forall k :: i <= k < 32 ==> sum[k] == old(sum[k])
    {
      sum[i] := Xor(sum[i], block[i]);
    }
  }

  // ---------------------------------------------------------------- hexadecimal

  const HEX := "0123456789abcdef"

  function HexOf(b: seq<byte>): (s: string)
    ensures |s| == 2 * |b|
  {
    if |b| == 0 then "" else HexOf(b[..|b| - 1]) + [HEX[b[|b| - 1] / 16], HEX[b[|b| - 1] % 16]]
  }

  /** The digits are those of the two halves of each byte, in lower case. */
  lemma {:induction false} HexMeans(b: seq<byte>, i: nat)
    requires i < |b|
    ensures var high, low := b[i] / 16, b[i] % 16;
      && HexOf(b)[2 * i] as int == (if high < 10 then '0' as int + high else 'a' as int + high - 10)
      && HexOf(b)[2 * i + 1] as int == (if low < 10 then '0' as int + low else 'a' as int + low - 10)
  {
    HexDigit(b[i] / 16);
    HexDigit(b[i] % 16);
    hide HEX;
    if i < |b| - 1 { HexMeans(b[..|b| - 1], i); }
  }

  lemma HexDigit(d: nat)
    requires d < 16
    ensures HEX[d] as int == if d < 10 then '0' as int + d else 'a' as int + d - 10
  {
  }

  /** bytes_to_hex */
  method BytesToHex(bytes: seq<byte>) returns (hex: string)
    ensures hex == HexOf(bytes)
  {
    hex := "";
    for i := 0 to |bytes|
      invariant hex == HexOf(bytes[..i])
    {
      assert bytes[..i + 1][..i] == bytes[..i];
      hex := hex + [HEX[bytes[i] / 16], HEX[bytes[i] % 16]];
    }
    assert bytes[..|bytes|] == bytes;
  }

  function HexValue(c: char): int {
    if '0' <= c <= '9' then c as int - '0' as int
    else if 'a' <= c <= 'f' then c as int - 'a' as int + 10
    else if 'A' <= c <= 'F' then c as int - 'A' as int + 10
    else -1
  }

  predicate IsHex(s: string) { |s| % 2 == 0 && forall i :: 0 <= i < |s| ==> HexValue(s[i]) >= 0 }

  function BytesOf(s: string): (b: seq<byte>)
    requires IsHex(s)
    ensures |b| == |s| / 2
  {
    if |s| == 0 then []
    else BytesOf(s[..|s| - 2]) + [16 * HexValue(s[|s| - 2]) + HexValue(s[|s| - 1])]
  }

  /** hex_to_bytes */
  method HexToBytes(hex: string) returns (bytes: Option<seq<byte>>)
    ensures bytes.Some? <==> IsHex(hex)
    ensures bytes.Some? ==> bytes.value == BytesOf(hex)
  {
    if |hex| % 2 != 0 { return None; }
    var out: seq<byte> := [];
    for i := 0 to |hex| / 2
      invariant IsHex(hex[..2 * i]) && out == BytesOf(hex[..2 * i])
    {
      var high, low := HexValue(hex[2 * i]), HexValue(hex[2 * i + 1]);
      if high < 0 || low < 0 { return None; }
      assert hex[..2 * i + 2][..2 * i] == hex[..2 * i];
      out := out + [16 * high + low];
    }
    assert hex[..2 * (|hex| / 2)] == hex;
    bytes := Some(out);
  }

  lemma PairReads(front: string, x: byte)
    requires IsHex(front)
    ensures var s := front + [HEX[x / 16], HEX[x % 16]]; IsHex(s) && BytesOf(s) == BytesOf(front) + [x]
  {
    var s := front + [HEX[x / 16], HEX[x % 16]];
    DigitReads(x / 16);
    DigitReads(x % 16);
    hide HexValue;
    assert s[..|s| - 2] == front;
  }

  lemma HexStep(b: seq<byte>)
    ensures |b| == 0 ==> IsHex(HexOf(b)) && BytesOf(HexOf(b)) == b
    ensures |b| > 0 ==> HexOf(b) == HexOf(b[..|b| - 1]) + [HEX[b[|b| - 1] / 16], HEX[b[|b| - 1] % 16]]
  {
    hide HexValue;
  }

  /** Bytes written in hexadecimal are read back. */
  lemma {:induction false} HexReads(b: seq<byte>)
    ensures IsHex(HexOf(b)) && BytesOf(HexOf(b)) == b
  {
    hide *;
    HexStep(b);
    if |b| > 0 {
      HexReads(b[..|b| - 1]);
      PairReads(HexOf(b[..|b| - 1]), b[|b| - 1]);
      assert b == b[..|b| - 1] + [b[|b| - 1]];
    }
  }

  lemma DigitReads(d: nat)
    requires d < 16
    ensures HexValue(HEX[d]) == d
  {
  }

  // ---------------------------------------------------------------- the record of a password

  const PREFIX := "pbkdf2-sha256$"
  const ITERATIONS := 120000
  const RECORD_CAPACITY := 160

  datatype Record = Record(iterations: int, salt: seq<byte>, expected: seq<byte>)

  function Written(r: Record): string
    requires r.iterations >= 0
  {
    PREFIX + (Print(r.iterations) + ("$" + (HexOf(r.salt) + ("$" + HexOf(r.expected)))))
  }

  function IndexOf(s: string, c: char): (i: nat)
    ensures i <= |s| && (i < |s| ==> s[i] == c) && c !in s[..i]
  {
    if |s| == 0 || s[0] == c then 0
    else
      var m := IndexOf(s[1..], c);
      assert s[..m + 1] == [s[0]] + s[1..][..m];
      m + 1
  }

  /** What follows the iteration count: 32 hexadecimal digits of salt, a dollar, 64 of the derived key. */
  function SplitBody(n: int, body: string): Option<Record> {
    if IndexOf(body, '$') != 32 || |body| != 97 || !IsHex(body[..32]) || !IsHex(body[33..]) then None
    else Some(Record(n, BytesOf(body[..32]), BytesOf(body[33..])))
  }

  /** The parts of a stored record, or nothing if it is not one. */
  function Split(stored: string): Option<Record> {
    if !(PREFIX <= stored) then None
    else
      var n := Strtol(stored[|PREFIX|..]);
      if n.None? || |n.value.1| == 0 || n.value.1[0] != '$' || n.value.0 < 10000 || n.value.0 > 10000000 then None
      else SplitBody(n.value.0, n.value.1[1..])
  }

  /** How a record may be written: the prefix, the iterations as strtol reads them, 32 and 64 hexadecimal digits. */
  predicate RecordText(stored: string, spaces: string, sign: string, digits: string, saltHex: string, keyHex: string) {
    && stored == "pbkdf2-sha256$" + (spaces + (sign + (digits + ("$" + (saltHex + ("$" + keyHex))))))
    && (forall c <- spaces :: Blank(c)) && Sign(sign) && (|sign| > 0 ==> sign[0] == '+')
    && |digits| > 0 && AllDigits(digits) && 10_000 <= Value(digits) <= 10_000_000
    && |saltHex| == 32 && IsHex(saltHex) && |keyHex| == 64 && IsHex(keyHex)
  }

  /** Whatever is accepted is written like that ... */
  lemma SplitMeans(stored: string) returns (spaces: string, sign: string, digits: string, saltHex: string, keyHex: string)
    requires Split(stored).Some?
    ensures RecordText(stored, spaces, sign, digits, saltHex, keyHex)
    ensures Split(stored).value == Record(Value(digits), BytesOf(saltHex), BytesOf(keyHex))
  {
    hide Strtol, IndexOf, IsHex, BytesOf, Value, AllDigits, Blank;
    var text := stored[|PREFIX|..];
    spaces, sign, digits := StrtolOnly(text);
    var rest := Strtol(text).value.1;
    var body := rest[1..];
    saltHex, keyHex := body[..32], body[33..];
    assert body[32] == '$';
    assert body == saltHex + ("$" + keyHex);
    assert rest == "$" + body;
    assert stored == PREFIX + text;
  }

  /** ... and whatever is written like that is accepted. */
  lemma SplitReads(stored: string, spaces: string, sign: string, digits: string, saltHex: string, keyHex: string)
    requires RecordText(stored, spaces, sign, digits, saltHex, keyHex)
    ensures Split(stored) == Some(Record(Value(digits), BytesOf(saltHex), BytesOf(keyHex)))
  {
    hide Strtol, IndexOf, IsHex, BytesOf, Value, AllDigits, Blank, HexValue;
    var body := saltHex + ("$" + keyHex);
    var rest := "$" + body;
    var text := spaces + (sign + (digits + rest));
    assert stored[|PREFIX|..] == text;
    assert rest[1..] == body;
    StrtolMeans(spaces, sign, digits, rest);
    NoDollarInHex(saltHex);
    IndexAfter(saltHex, '$', keyHex);
    assert body == saltHex + ['$'] + keyHex;
    assert body[..32] == saltHex && body[33..] == keyHex;
  }

  lemma NoDollarInHex(s: string)
    requires IsHex(s)
    ensures '$' !in s
  {
    assert HexValue('$') < 0;
  }

  lemma {:induction false} HexHasNoDollar(b: seq<byte>)
    ensures '$' !in HexOf(b)
  {
    if |b| > 0 { HexHasNoDollar(b[..|b| - 1]); }
  }

  lemma {:induction false} IndexAfter(s: string, c: char, rest: string)
    requires c !in s
    ensures IndexOf(s + [c] + rest, c) == |s|
  {
    if |s| > 0 {
      assert (s + [c] + rest)[1..] == s[1..] + [c] + rest;
      IndexAfter(s[1..], c, rest);
    }
  }

  lemma BodySplits(n: int, salt: seq<byte>, expected: seq<byte>)
    requires |salt| == 16 && |expected| == 32
    ensures SplitBody(n, HexOf(salt) + ("$" + HexOf(expected))) == Some(Record(n, salt, expected))
  {
    hide HexOf, IsHex, BytesOf, IndexOf, HexValue;
    var body := HexOf(salt) + ("$" + HexOf(expected));
    HexHasNoDollar(salt);
    IndexAfter(HexOf(salt), '$', HexOf(expected));
    HexReads(salt);
    HexReads(expected);
    assert body == HexOf(salt) + ['$'] + HexOf(expected);
    assert body[..32] == HexOf(salt) && body[33..] == HexOf(expected);
  }

  /** Every record that is written is split into the parts it was made of. */
  lemma WrittenSplits(r: Record)
    requires 10000 <= r.iterations <= 10000000 && |r.salt| == 16 && |r.expected| == 32
    ensures Split(Written(r)) == Some(r)
  {
    var body := HexOf(r.salt) + ("$" + HexOf(r.expected));
    var rest := "$" + body;
    var stored := Written(r);
    assert stored[|PREFIX|..] == Print(r.iterations) + rest;
    StrtolReads(r.iterations, rest);
    BodySplits(r.iterations, r.salt, r.expected);
    assert rest[1..] == body;
    hide Strtol, SplitBody, Print, HexOf;
  }

  /** The difference of two bytes is kept once it is found. */
  lemma DifferenceStays(result: byte, a: byte, b: byte)
    ensures Or(result, Xor(a, b)) == 0 <==> result == 0 && a == b
  {
    Pow2Of8();
    XorIsZero(a, b, 8);
    OrIsZero(result, Xor(a, b), 8);
  }

  /** ct_compare: every byte is looked at, whatever the outcome. */
  method Compare(a: seq<byte>, b: seq<byte>) returns (same: bool)
    requires |a| == |b|
    ensures same == (a == b)
  {
    hide Or, Xor;
    var result: byte := 0;
    for i := 0 to |a|
      invariant result == 0 <==> a[..i] == b[..i]
    {
      DifferenceStays(result, a[i], b[i]);
      assert a[..i + 1] == a[..i] + [a[i]] && b[..i + 1] == b[..i] + [b[i]];
      result := Or(result, Xor(a[i], b[i]));
    }
    assert a[..|a|] == a && b[..|b|] == b;
    same := result == 0;
  }

  /** auth_hash_password, with the random salt it drew. */
  method HashPassword(c: Compression, password: seq<byte>, salt: seq<byte>) returns (stored: string)
    requires |salt| == 16
    ensures stored == Written(Record(ITERATIONS, salt, T(c, password, salt, ITERATIONS)))
    ensures |stored| < RECORD_CAPACITY
  {
    hide T;
    var derived := Pbkdf2(c, password, salt, ITERATIONS);
    var saltHex := BytesToHex(salt);
    var derivedHex := BytesToHex(derived);
    assert ITERATIONS / 10 == 12000 && ITERATIONS / 100 == 1200 && ITERATIONS / 1000 == 120 && ITERATIONS / 10000 == 12;
    assert |Print(12)| == 2 && |Print(120)| == 3 && |Print(1200)| == 4 && |Print(12000)| == 5 && |Print(ITERATIONS)| == 6;
    stored := PREFIX + (Print(ITERATIONS) + ("$" + (saltHex + ("$" + derivedHex))));
  }

  /** auth_verify_password on a record with the prefix: accepted exactly when it splits and its key is the one derived. */
  method VerifyPassword(c: Compression, password: seq<byte>, stored: string) returns (ok: bool)
    requires PREFIX <= stored
    ensures ok <==> Split(stored).Some? && var r := Split(stored).value; T(c, password, r.salt, r.iterations) == r.expected
  {
    hide T, Strtol;
    var n := Strtol(stored[|PREFIX|..]);
    if n.None? { return false; }
    var iterations, rest := n.value.0, n.value.1;
    if |rest| == 0 || rest[0] != '$' || iterations < 10000 || iterations > 10000000 { return false; }
    var saltHex := rest[1..];
    var dollar := IndexOf(saltHex, '$');
    if dollar == |saltHex| || dollar != 32 || |saltHex| - 33 != 64 { return false; }
    var salt := HexToBytes(saltHex[..32]);
    var expected := HexToBytes(saltHex[33..]);
    if salt.None? || expected.None? { return false; }
    assert Split(stored) == Some(Record(iterations, salt.value, expected.value));
    var actual := Pbkdf2(c, password, salt.value, iterations);
    ok := Compare(actual, expected.value);
  }

  /** For every password and salt the record that is made verifies; and another password verifies against it exactly
      when the same key is derived from it. */
  method HashThenVerify(c: Compression, password: seq<byte>, salt: seq<byte>, other: seq<byte>) returns (ok: bool, otherOk: bool)
    requires |salt| == 16
    ensures ok
    ensures otherOk <==> T(c, other, salt, ITERATIONS) == T(c, password, salt, ITERATIONS)
  {
    hide T, Split;
    var stored := HashPassword(c, password, salt);
    WrittenSplits(Record(ITERATIONS, salt, T(c, password, salt, ITERATIONS)));
    assert PREFIX <= stored;
    ok := VerifyPassword(c, password, stored);
    otherOk := VerifyPassword(c, other, stored);
  }
}
