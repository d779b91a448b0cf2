/** SHA-256 as FIPS 180-4 defines it, on whole bytes. */
module Sha256 {
  import opened Words

  type Octet = x: nat | x < 256

  // ------------------------------------------------ sections 3.2 and 4.1.2

  function Rotr(x: Word, n: nat): Word
    requires n <= 32
  {
    Or(Shr(x, n), Shl(x, 32 - n))
  }

  function Ch(x: Word, y: Word, z: Word): Word { Xor(And(x, y), And(Not(x), z)) }
  function Maj(x: Word, y: Word, z: Word): Word { Xor(Xor(And(x, y), And(x, z)), And(y, z)) }
  function Sum0(x: Word): Word { Xor(Xor(Rotr(x, 2), Rotr(x, 13)), Rotr(x, 22)) }
  function Sum1(x: Word): Word { Xor(Xor(Rotr(x, 6), Rotr(x, 11)), Rotr(x, 25)) }
  function Sigma0(x: Word): Word { Xor(Xor(Rotr(x, 7), Rotr(x, 18)), Shr(x, 3)) }
  function Sigma1(x: Word): Word { Xor(Xor(Rotr(x, 17), Rotr(x, 19)), Shr(x, 10)) }

  // ------------------------------------------------------------ section 4.2.2

  function KRow(r: nat): seq<Word> {
    if r == 0 then [0x428a2f98, 0x71374491, 0xb5c0fbcf, 0xe9b5dba5, 0x3956c25b, 0x59f111f1, 0x923f82a4, 0xab1c5ed5]
    else if r == 1 then [0xd807aa98, 0x12835b01, 0x243185be, 0x550c7dc3, 0x72be5d74, 0x80deb1fe, 0x9bdc06a7, 0xc19bf174]
    else if r == 2 then [0xe49b69c1, 0xefbe4786, 0x0fc19dc6, 0x240ca1cc, 0x2de92c6f, 0x4a7484aa, 0x5cb0a9dc, 0x76f988da]
    else if r == 3 then [0x983e5152, 0xa831c66d, 0xb00327c8, 0xbf597fc7, 0xc6e00bf3, 0xd5a79147, 0x06ca6351, 0x14292967]
    else if r == 4 then [0x27b70a85, 0x2e1b2138, 0x4d2c6dfc, 0x53380d13, 0x650a7354, 0x766a0abb, 0x81c2c92e, 0x92722c85]
    else if r == 5 then [0xa2bfe8a1, 0xa81a664b, 0xc24b8b70, 0xc76c51a3, 0xd192e819, 0xd6990624, 0xf40e3585, 0x106aa070]
    else if r == 6 then [0x19a4c116, 0x1e376c08, 0x2748774c, 0x34b0bcb5, 0x391c0cb3, 0x4ed8aa4a, 0x5b9cca4f, 0x682e6ff3]
    else [0x748f82ee, 0x78a5636f, 0x84c87814, 0x8cc70208, 0x90befffa, 0xa4506ceb, 0xbef9a3f7, 0xc67178f2]
  }

  function K(t: nat): Word
    requires t < 64
  {
    KRow(t / 8)[t % 8]
  }

  // -------------------------------------------------------------- section 5.1.1

  /** The least number of zero bytes that ends the message eight bytes short of a
      whole block. */
  function Zeros(len: nat): nat {
    (55 - len) % 64
  }

  function Byte(v: nat, k: nat): Octet {
    if k == 0 then v % 256 else Byte(v / 256, k - 1)
  }

  /** `v` in `n` bytes, the most significant first. */
  function BigEndian(v: nat, n: nat): seq<Octet> {
    seq(n, i requires 0 <= i < n => Byte(v, n - 1 - i))
  }

  function Padded(msg: seq<Octet>): seq<Octet> {
    msg + [0x80] + seq(Zeros(|msg|), _ => 0) + BigEndian(8 * |msg|, 8)
  }

  // -------------------------------------------------------- sections 5.2.1, 6.2

  function Word32(b0: Octet, b1: Octet, b2: Octet, b3: Octet): Word {
    b0 * 0x100_0000 + b1 * 0x1_0000 + b2 * 0x100 + b3
  }

  datatype Hash = Hash(a: Word, b: Word, c: Word, d: Word, e: Word, f: Word, g: Word, h: Word)

  const H0 := Hash(0x6a09e667, 0xbb67ae85, 0x3c6ef372, 0xa54ff53a, 0x510e527f, 0x9b05688c, 0x1f83d9ab, 0x5be0cd19)

  /** The message schedule of a block. */
  function W(block: seq<Octet>, t: nat): Word
    requires |block| == 64
  {
    if t < 16 then Word32(block[4 * t], block[4 * t + 1], block[4 * t + 2], block[4 * t + 3])
    else Plus(Plus(Plus(Sigma1(W(block, t - 2)), W(block, t - 7)), Sigma0(W(block, t - 15))), W(block, t - 16))
  }

  function Round(v: Hash, k: Word, w: Word): Hash {
    var t1 := Plus(Plus(Plus(Plus(v.h, Sum1(v.e)), Ch(v.e, v.f, v.g)), k), w);
    var t2 := Plus(Sum0(v.a), Maj(v.a, v.b, v.c));
    Hash(Plus(t1, t2), v.a, v.b, v.c, Plus(v.d, t1), v.e, v.f, v.g)
  }

  function Rounds(v: Hash, block: seq<Octet>, t: nat): Hash
    requires |block| == 64 && t <= 64
  {
    if t == 0 then v else Round(Rounds(v, block, t - 1), K(t - 1), W(block, t - 1))
  }

  function Compress(v: Hash, block: seq<Octet>): Hash
    requires |block| == 64
  {
    var w := Rounds(v, block, 64);
    Hash(Plus(w.a, v.a), Plus(w.b, v.b), Plus(w.c, v.c), Plus(w.d, v.d),
         Plus(w.e, v.e), Plus(w.f, v.f), Plus(w.g, v.g), Plus(w.h, v.h))
  }

  /** The hash value after the first `n` blocks. */
  function After(blocks: seq<Octet>, n: nat): Hash
    requires n * 64 <= |blocks|
  {
    if n == 0 then H0 else Compress(After(blocks, n - 1), blocks[n * 64 - 64..n * 64])
  }

  /** The digest: eight words. */
  function Digest(msg: seq<Octet>): Hash {
    After(Padded(msg), |Padded(msg)| / 64)
  }
}
