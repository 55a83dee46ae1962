/** Cipher block chaining over an abstract block cipher: section 6.2 of NIST SP 800-38A. */
module Cbc {
  import opened Bytes

  type Block = b: seq<byte> | |b| == 16 witness Zeros(16)

  datatype BlockCipher = BlockCipher(enc: (Block, Block) -> Block, dec: (Block, Block) -> Block)

  /** Under every key, decryption undoes encryption. */
  ghost predicate Inverts(c: BlockCipher) {
    forall key, x :: c.dec(key, c.enc(key, x)) == x
  }

  function XorBit(a: nat, b: nat): (x: nat)
    ensures x < 2
  {
    if a % 2 == b % 2 then 0 else 1
  }

  function XorBits(a: nat, b: nat, bits: nat): nat {
    if bits == 0 then 0 else XorBit(a, b) + 2 * XorBits(a / 2, b / 2, bits - 1)
  }

  function Pow2(n: nat): nat { if n == 0 then 1 else 2 * Pow2(n - 1) }

  lemma {:induction false} XorBitsTwice(a: nat, b: nat, bits: nat)
    requires a < Pow2(bits)
    ensures XorBits(a, b, bits) < Pow2(bits)
    ensures XorBits(XorBits(a, b, bits), b, bits) == a
  {
    if bits > 0 {
      XorBitsTwice(a / 2, b / 2, bits - 1);
      var high := XorBits(a / 2, b / 2, bits - 1);
      var x := XorBit(a, b) + 2 * high;
      assert x / 2 == high && x % 2 == XorBit(a, b);
      assert XorBit(x, b) == a % 2;
    }
  }

  function XorByte(a: byte, b: byte): byte {
    XorBitsTwice(a, b, 8);
    assert Pow2(8) == 256 by { assert Pow2(4) == 16; }
    XorBits(a, b, 8)
  }

  function Xor(a: Block, b: Block): Block {
    seq(16, i requires 0 <= i < 16 => XorByte(a[i], b[i]))
  }

  lemma XorTwice(a: Block, b: Block)
    ensures Xor(Xor(a, b), b) == a
  {
    assert Pow2(8) == 256 by { assert Pow2(4) == 16; }
    forall i | 0 <= i < 16
      ensures Xor(Xor(a, b), b)[i] == a[i]
    {
      XorBitsTwice(a[i], b[i], 8);
    }
  }

  function Encrypt(c: BlockCipher, key: Block, iv: Block, plain: seq<byte>): (ct: seq<byte>)
    requires |plain| % 16 == 0
    ensures |ct| == |plain|
    decreases |plain|
  {
    if plain == [] then []
    else
      var head := c.enc(key, Xor(plain[..16], iv));
      head + Encrypt(c, key, head, plain[16..])
  }

  function Decrypt(c: BlockCipher, key: Block, iv: Block, ct: seq<byte>): (plain: seq<byte>)
    requires |ct| % 16 == 0
    ensures |plain| == |ct|
    decreases |ct|
  {
    if ct == [] then []
    else Xor(c.dec(key, ct[..16]), iv) + Decrypt(c, key, ct[..16], ct[16..])
  }

  lemma {:induction false} DecryptUndoesEncrypt(c: BlockCipher, key: Block, iv: Block, plain: seq<byte>)
    requires Inverts(c)
    requires |plain| % 16 == 0
    ensures Decrypt(c, key, iv, Encrypt(c, key, iv, plain)) == plain
    decreases |plain|
  {
    if plain != [] {
      var head := c.enc(key, Xor(plain[..16], iv));
      var ct := Encrypt(c, key, iv, plain);
      assert ct[..16] == head && ct[16..] == Encrypt(c, key, head, plain[16..]);
      XorTwice(plain[..16], iv);
      DecryptUndoesEncrypt(c, key, head, plain[16..]);
    }
  }

  /** The chaining value after `ct`: its last block, or the one before it when `ct` is empty. */
  function Chain(iv: Block, ct: seq<byte>): Block
    requires |ct| % 16 == 0
  {
    if ct == [] then iv else ct[|ct| - 16..]
  }

  /** Decrypting in two calls, carrying the chaining value over, equals decrypting at once. */
  lemma {:induction false} DecryptConcat(c: BlockCipher, key: Block, iv: Block, a: seq<byte>, b: seq<byte>)
    requires |a| % 16 == 0 && |b| % 16 == 0
    ensures Decrypt(c, key, iv, a + b) == Decrypt(c, key, iv, a) + Decrypt(c, key, Chain(iv, a), b)
    ensures Chain(iv, a + b) == Chain(Chain(iv, a), b)
    decreases |a|
  {
    if a == [] {
      assert a + b == b;
    } else {
      assert (a + b)[..16] == a[..16] && (a + b)[16..] == a[16..] + b;
      DecryptConcat(c, key, a[..16], a[16..], b);
      assert Chain(a[..16], a[16..]) == Chain(iv, a);
      var first, rest := Xor(c.dec(key, a[..16]), iv), Decrypt(c, key, a[..16], a[16..]);
      AppendAssociates(first, rest, Decrypt(c, key, Chain(iv, a), b));
    }
  }

  /** Decryption commutes with cutting the file at a block boundary. */
  lemma DecryptPrefix(c: BlockCipher, key: Block, iv: Block, ct: seq<byte>, n: nat)
    requires |ct| % 16 == 0 && n % 16 == 0 && n <= |ct|
    ensures Decrypt(c, key, iv, ct[..n]) == Decrypt(c, key, iv, ct)[..n]
  {
    assert ct[..n] + ct[n..] == ct;
    DecryptConcat(c, key, iv, ct[..n], ct[n..]);
  }
}
