/** A device's place in the rollout: the first eight bytes of a digest read as a
    big-endian number (src/thinr/update/manifest.cpp:77-91). SHA-256 itself is not
    modelled; a digest is any sequence of bytes. */
module DigestFold {
  type Byte = b: nat | b < 256

  const TWO_64: nat := 0x1_0000_0000_0000_0000

  function Pow256(n: nat): nat {
    if n == 0 then 1 else 256 * Pow256(n - 1)
  }

  /** Positional value, most significant byte first. */
  function BigEndian(s: seq<Byte>): nat {
    if s == [] then 0 else BigEndian(s[..|s| - 1]) * 256 + s[|s| - 1]
  }

  /** Bitwise or, bit by bit. */
  function BitOr(a: nat, b: nat): nat
    decreases a + b
  {
    if a == 0 && b == 0 then 0
    else 2 * BitOr(a / 2, b / 2) + if a % 2 == 1 || b % 2 == 1 then 1 else 0
  }

  function Pow2(n: nat): nat {
    if n == 0 then 1 else 2 * Pow2(n - 1)
  }

  lemma {:induction false} OrZero(a: nat)
    ensures BitOr(a, 0) == a
    decreases a
  {
    if a > 0 {
      OrZero(a / 2);
    }
  }

  /** Or-ing a value into bits that are free is adding it. */
  lemma {:induction false} OrIntoFreeBits(a: nat, b: nat, k: nat)
    requires b < Pow2(k)
    ensures BitOr(a * Pow2(k), b) == a * Pow2(k) + b
    decreases k
  {
    if k == 0 {
      OrZero(a);
    } else {
      var half := a * Pow2(k - 1);
      assert a * Pow2(k) == 2 * half;
      OrIntoFreeBits(a, b / 2, k - 1);
      assert (2 * half) / 2 == half && (2 * half) % 2 == 0;
      assert BitOr(2 * half, b) == 2 * BitOr(half, b / 2) + b % 2;
    }
  }

  lemma {:induction false} BigEndianBound(s: seq<Byte>)
    ensures BigEndian(s) < Pow256(|s|)
    decreases |s|
  {
    if s != [] {
      BigEndianBound(s[..|s| - 1]);
    }
  }

  lemma NoWrap(x: nat, p: nat)
    requires x < p && p * 256 <= TWO_64
    ensures (x * 256) % TWO_64 == x * 256
  {
  }

  lemma OrByte(x: nat, b: Byte)
    ensures BitOr(x * 256, b) == x * 256 + b
  {
    assert Pow2(8) == 256;
    OrIntoFreeBits(x, b, 8);
  }

  /** One turn of the loop: the 64-bit shift drops nothing and the or adds the byte. */
  lemma ShiftOr(s: seq<Byte>, b: Byte)
    requires |s| < 8
    ensures BitOr((BigEndian(s) * 256) % TWO_64, b) == BigEndian(s + [b])
  {
    BigEndianBound(s);
    Pow256UpTo8(|s|);
    NoWrap(BigEndian(s), Pow256(|s|));
    OrByte(BigEndian(s), b);
    assert (s + [b])[..|s|] == s;
  }

  lemma Pow256UpTo8(n: nat)
    requires n < 8
    ensures Pow256(n) * 256 <= TWO_64
  {
    assert Pow256(1) == 0x100;
    assert Pow256(2) == 0x1_0000;
    assert Pow256(3) == 0x100_0000;
    assert Pow256(4) == 0x1_0000_0000;
    assert Pow256(5) == 0x100_0000_0000;
    assert Pow256(6) == 0x1_0000_0000_0000;
    assert Pow256(7) == 0x100_0000_0000_0000;
  }

  /** The shift-and-or loop over a uint64. */
  method Fold(digest: seq<Byte>) returns (be: nat)
    requires |digest| >= 8
    ensures be == BigEndian(digest[..8])
    ensures be < TWO_64
  {
    be := 0;
    for i := 0 to 8
      invariant be == BigEndian(digest[..i])
    {
      ShiftOr(digest[..i], digest[i]);
      assert digest[..i + 1] == digest[..i] + [digest[i]];
      be := BitOr((be * 256) % TWO_64, digest[i]);
    }
    FoldBound(digest[..8]);
  }

  lemma FoldBound(s: seq<Byte>)
    requires |s| == 8
    ensures BigEndian(s) < TWO_64
  {
    BigEndianBound(s);
    Pow256UpTo8(7);
    assert Pow256(8) == 256 * Pow256(7);
  }

  /** The device's fraction, before rounding. */
  function Fraction(digest: seq<Byte>): real {
    if |digest| < 8 then 0.0 else BigEndian(digest[..8]) as real / TWO_64 as real
  }

  lemma FractionInUnit(digest: seq<Byte>)
    ensures 0.0 <= Fraction(digest) < 1.0
  {
    if |digest| >= 8 {
      FoldBound(digest[..8]);
    }
  }

  /** The first byte of the digest gives the device's place to within one part in 256,
      so a device whose digest begins with 0x80 is in the second half. */
  lemma FirstByteDecides(digest: seq<Byte>)
    requires |digest| >= 8
    ensures digest[0] as real / 256.0 <= Fraction(digest) < (digest[0] as real + 1.0) / 256.0
  {
    var s := digest[..8];
    FromTheFront(s);
    BigEndianBound(s[1..]);
    assert Pow256(7) == 0x100_0000_0000_0000 by {
      Pow256UpTo8(7);
    }
    assert BigEndian(s) as real == s[0] as real * 72057594037927936.0 + BigEndian(s[1..]) as real;
  }

  /** Byte-wise order of two digests, the first difference deciding. */
  predicate LexLess(a: seq<Byte>, b: seq<Byte>)
    requires |a| == |b|
  {
    a != [] && (a[0] < b[0] || (a[0] == b[0] && LexLess(a[1..], b[1..])))
  }

  lemma {:induction false} FromTheFront(s: seq<Byte>)
    requires s != []
    ensures BigEndian(s) == s[0] * Pow256(|s| - 1) + BigEndian(s[1..])
    decreases |s|
  {
    if |s| > 1 {
      var init := s[..|s| - 1];
      FromTheFront(init);
      assert init[1..] == s[1..][..|s| - 2];
      assert BigEndian(s[1..]) == BigEndian(init[1..]) * 256 + s[|s| - 1];
      assert Pow256(|s| - 1) == 256 * Pow256(|s| - 2);
      assert s[0] * Pow256(|s| - 1) == s[0] * Pow256(|s| - 2) * 256;
    } else {
      assert s[..0] == [] && s[1..] == [];
    }
  }

  lemma LeadingDigitDecides(x: nat, y: nat, p: nat, u: nat, v: nat)
    requires x < y && u < p
    ensures x * p + u < y * p + v
  {
    assert (x + 1) * p <= y * p;
  }

  /** Numeric order of the folded digests is their byte order. */
  lemma {:induction false} FoldOrder(a: seq<Byte>, b: seq<Byte>)
    requires |a| == |b|
    ensures BigEndian(a) < BigEndian(b) <==> LexLess(a, b)
    decreases |a|
  {
    if a != [] {
      var p, u, v := Pow256(|a| - 1), BigEndian(a[1..]), BigEndian(b[1..]);
      FromTheFront(a);
      FromTheFront(b);
      BigEndianBound(a[1..]);
      BigEndianBound(b[1..]);
      FoldOrder(a[1..], b[1..]);
      if a[0] < b[0] {
        LeadingDigitDecides(a[0], b[0], p, u, v);
      } else if b[0] < a[0] {
        LeadingDigitDecides(b[0], a[0], p, v, u);
      }
    }
  }

  lemma FractionOrder(a: seq<Byte>, b: seq<Byte>)
    requires |a| >= 8 && |b| >= 8
    ensures Fraction(a) < Fraction(b) <==> LexLess(a[..8], b[..8])
  {
    FoldOrder(a[..8], b[..8]);
  }
}
