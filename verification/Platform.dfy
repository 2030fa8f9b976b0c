/** Machine words, the two supported architectures, and scaling by powers of two. */
module Platform {
  datatype Option<+T> = None | Some(value: T)

  newtype Byte = n: int | 0 <= n < 256

  type Word = nat
  type U16 = n: nat | n < 0x1_0000
  type U32 = n: nat | n < 0x1_0000_0000

  datatype Arch = I386 | X64 {
    /** sizeof(void*) in bytes. */
    function W(): nat { if I386? then 4 else 8 }

    /** Width of size_t in bits. */
    function Bits(): nat { if I386? then 32 else 64 }

    /** Number of values of size_t. */
    function Space(): nat { if I386? then 0x1_0000_0000 else 0x1_0000_0000_0000_0000 }

    function Half(): nat { if I386? then 0x8000_0000 else 0x8000_0000_0000_0000 }
  }

  /** A 32-bit word in memory, little end first. */
  function Encode(n: nat): seq<Byte>
    requires n < 0x1_0000_0000
  {
    var n1 := n / 256;
    var n2 := n1 / 256;
    [(n % 256) as Byte, (n1 % 256) as Byte, (n2 % 256) as Byte, (n2 / 256) as Byte]
  }

  function Decode(b: seq<Byte>): nat {
    if |b| < 4 then 0
    else b[0] as int + 256 * (b[1] as int + 256 * (b[2] as int + 256 * (b[3] as int)))
  }

  lemma Decodes(n: nat, rest: seq<Byte>)
    requires n < 0x1_0000_0000
    ensures Decode(Encode(n) + rest) == n
  {
  }

  function Max(a: nat, b: nat): nat { if a < b then b else a }

  /** Bitwise and. */
  function And(x: nat, y: nat): nat {
    if x == 0 then 0 else x % 2 * (y % 2) + 2 * And(x / 2, y / 2)
  }

  /** x * 2^k, written so that every unfolding is linear. */
  function Scaled(x: nat, k: nat): nat { if k == 0 then x else 2 * Scaled(x, k - 1) }

  lemma ScaledInside(x: nat, k: nat)
    ensures Scaled(2 * x, k) == 2 * Scaled(x, k) == Scaled(x, k + 1)
  {
    if k > 0 { ScaledInside(x, k - 1); }
  }

  lemma ScaledAdd(x: nat, y: nat, k: nat)
    ensures Scaled(x + y, k) == Scaled(x, k) + Scaled(y, k)
  {
    if k > 0 { ScaledAdd(x, y, k - 1); }
  }

  lemma ScaledTwice(x: nat, j: nat, k: nat)
    ensures Scaled(Scaled(x, j), k) == Scaled(x, j + k)
  {
    if k > 0 { ScaledTwice(x, j, k - 1); }
  }

  lemma ScaledGrows(x: nat, k: nat)
    requires x > 0
    ensures Scaled(x, k) > 0 && Scaled(x, k) > k
  {
  }

  lemma ScaledByByte(x: nat, k: nat)
    ensures Scaled(x, k + 8) == 256 * Scaled(x, k)
  {
    assert Scaled(x, k + 4) == 2 * Scaled(x, k + 3) == 4 * Scaled(x, k + 2) == 8 * Scaled(x, k + 1);
    assert Scaled(x, k + 8) == 2 * Scaled(x, k + 7) == 4 * Scaled(x, k + 6) == 8 * Scaled(x, k + 5);
  }

  lemma SpaceIsScaled(a: Arch)
    ensures a.Space() == Scaled(1, a.Bits())
    ensures a.Space() == 2 * a.Half()
  {
    ScaledByByte(1, 0);
    ScaledByByte(1, 8);
    ScaledByByte(1, 16);
    ScaledByByte(1, 24);
    ScaledByByte(1, 32);
    ScaledByByte(1, 40);
    ScaledByByte(1, 48);
    ScaledByByte(1, 56);
  }

  lemma TimesAtLeast(d: nat, m: nat)
    requires d >= 1
    ensures d * m >= m
  {
    if d > 1 {
      TimesAtLeast(d - 1, m);
      assert d * m == (d - 1) * m + m;
    }
  }

  /** Quotient and remainder are determined by x == q * m + r with r < m. */
  lemma DivUnique(x: nat, m: nat, q: nat, r: nat)
    requires r < m && x == q * m + r
    ensures x / m == q && x % m == r
  {
    var p := x / m;
    assert x == p * m + x % m;
    if p < q {
      assert q * m == p * m + (q - p) * m;
      TimesAtLeast(q - p, m);
    } else if p > q {
      assert p * m == q * m + (p - q) * m;
      TimesAtLeast(p - q, m);
    }
  }
}
