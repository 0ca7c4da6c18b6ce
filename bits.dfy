/** Powers of two and the bitwise operators the decoders are written with,
    on non-negative integers: `|`, `&`, `>>`, and `<<` truncated to a word. */
module Bits {

  function Pow2(n: nat): (r: nat)
    ensures r >= 1
  {
    if n == 0 then 1 else 2 * Pow2(n - 1)
  }

  lemma Pow2Of32()
    ensures Pow2(32) == 0x1_0000_0000
  {
    assert Pow2(8) == 0x100;
    Pow2Add(8, 8);
    Pow2Add(16, 16);
  }

  /** The size of a 32-bit word, for a width held in a variable. */
  lemma Pow2Word(n: nat)
    requires n == 32
    ensures Pow2(n) == 0x1_0000_0000
  {
    Pow2Of32();
  }

  /** `ceil(log2(n))` for a positive count: the fewest bits that number `n`
      values. */
  function CeilLog2(n: int): (b: nat)
    ensures n >= 1 ==> Pow2(b) >= n
    ensures b > 0 ==> Pow2(b - 1) < n
    decreases n
  {
    if n <= 1 then 0 else 1 + CeilLog2((n + 1) / 2)
  }

  lemma {:induction false} Pow2Add(a: nat, b: nat)
    ensures Pow2(a + b) == Pow2(a) * Pow2(b)
    decreases a
  {
    if a > 0 {
      Pow2Add(a - 1, b);
      assert Pow2(a + b) == 2 * Pow2(a - 1 + b);
    }
  }

  /** A larger power of two is a multiple of a smaller one. */
  lemma {:induction false} Pow2Divides(a: nat, b: nat)
    requires a <= b
    ensures Pow2(b) == Pow2(a) * Pow2(b - a) && Pow2(a) <= Pow2(b)
  {
    Pow2Add(a, b - a);
  }

  /** Division with remainder has one answer. */
  lemma DivModUnique(n: int, d: int, q: int, r: int)
    requires d > 0 && n == d * q + r && 0 <= r < d
    ensures n / d == q && n % d == r
  {
    var q', r' := n / d, n % d;
    assert d * (q - q') == r' - r;
    if q > q' {
      MulAtLeast(d, q - q');
    } else if q < q' {
      MulAtLeast(d, q' - q);
    }
  }

  lemma MulAtLeast(d: int, k: int)
    requires d > 0 && k >= 1
    ensures d * k >= d
  {
    assert d * k == d + d * (k - 1);
  }

  /** `a >> s`. */
  function Shr(a: nat, s: nat): nat {
    if s == 0 then a else Shr(a / 2, s - 1)
  }

  /** Shifting right divides by a power of two. */
  lemma {:induction false} ShrDivides(a: nat, s: nat)
    ensures Shr(a, s) == a / Pow2(s)
    decreases s
  {
    if s > 0 {
      ShrDivides(a / 2, s - 1);
      HalfDivides(a, Pow2(s - 1));
    }
  }

  /** Halving, then dividing by `p`, is dividing by `2p`. */
  lemma HalfDivides(a: nat, p: nat)
    requires p >= 1
    ensures (a / 2) / p == a / (2 * p)
  {
    var q := (a / 2) / p;
    assert a / 2 == p * q + (a / 2) % p;
    assert a == (2 * p) * q + (2 * ((a / 2) % p) + a % 2);
    DivModUnique(a, 2 * p, q, 2 * ((a / 2) % p) + a % 2);
  }

  /** `a << s` in a `w`-bit unsigned word. */
  function Shl(a: nat, s: nat, w: nat): (r: nat)
    ensures r < Pow2(w)
  {
    (a * Pow2(s)) % Pow2(w)
  }

  /** `a | b`, bit by bit from the lowest. */
  function Or(a: nat, b: nat): nat
    decreases a + b
  {
    if a == 0 then b
    else if b == 0 then a
    else 2 * Or(a / 2, b / 2) + (if a % 2 == 1 || b % 2 == 1 then 1 else 0)
  }

  /** `a & b`, bit by bit from the lowest. */
  function And(a: nat, b: nat): nat
    decreases a
  {
    if a == 0 || b == 0 then 0
    else 2 * And(a / 2, b / 2) + (if a % 2 == 1 && b % 2 == 1 then 1 else 0)
  }

  /** When `a` lies below bit `k` and `c` above it, `a | c` is `a + c`. */
  lemma {:induction false} OrDisjoint(a: nat, c: nat, k: nat)
    requires a < Pow2(k) && c % Pow2(k) == 0
    ensures Or(a, c) == a + c
    decreases k
  {
    if k > 0 && a != 0 && c != 0 {
      var m := c / Pow2(k);
      assert c == Pow2(k) * m;
      assert c == 2 * (Pow2(k - 1) * m);
      DivModUnique(c, 2, Pow2(k - 1) * m, 0);
      DivModUnique(c / 2, Pow2(k - 1), m, 0);
      OrDisjoint(a / 2, c / 2, k - 1);
    }
  }

  /** The remainder by `2p` splits into the remainder of the halves and the
      low bit. */
  lemma ModDouble(v: nat, p: nat)
    requires p >= 1
    ensures v % (2 * p) == 2 * ((v / 2) % p) + v % 2
  {
    var h := v / 2;
    var q := h / p;
    assert v == 2 * h + v % 2;
    assert h == p * q + h % p;
    assert v == (2 * p) * q + (2 * (h % p) + v % 2);
    DivModUnique(v, 2 * p, q, 2 * (h % p) + v % 2);
  }

  /** `v & (2^b - 1)` keeps the low `b` bits. */
  lemma {:induction false} AndMask(v: nat, b: nat)
    ensures And(v, Pow2(b) - 1) == v % Pow2(b)
    decreases b
  {
    if b == 0 {
      assert Pow2(0) - 1 == 0;
      assert v % 1 == 0;
    } else if v == 0 {
      assert 0 % Pow2(b) == 0;
    } else {
      AndMask(v / 2, b - 1);
      AndMaskStep(v, b);
    }
  }

  lemma AndMaskStep(v: nat, b: nat)
    requires b > 0 && v != 0
    requires And(v / 2, Pow2(b - 1) - 1) == (v / 2) % Pow2(b - 1)
    ensures And(v, Pow2(b) - 1) == v % Pow2(b)
  {
    var p := Pow2(b - 1);
    var m := Pow2(b) - 1;
    assert m == 2 * (p - 1) + 1;
    DivModUnique(m, 2, p - 1, 1);
    assert And(v, m) == 2 * And(v / 2, p - 1) + v % 2;
    ModDouble(v, p);
  }

  /** `v & 2^k` is bit `k` of `v`, in place. */
  lemma {:induction false} AndPow2(v: nat, k: nat)
    ensures And(v, Pow2(k)) == Pow2(k) * ((v / Pow2(k)) % 2)
    decreases k
  {
    if v == 0 {
      assert 0 / Pow2(k) == 0;
    } else if k == 0 {
      assert And(v, 1) == 2 * And(v / 2, 0) + v % 2;
    } else {
      var p := Pow2(k - 1);
      assert Pow2(k) == 2 * p;
      AndPow2(v / 2, k - 1);
      HalfDivides(v, p);
      var t := (v / Pow2(k)) % 2;
      assert And(v / 2, p) == p * t;
      AndEven(v, p);
      MulAssoc2(p, t);
    }
  }

  lemma MulAssoc2(p: int, t: int)
    ensures 2 * (p * t) == (2 * p) * t
  {
  }

  lemma AndEven(v: nat, p: nat)
    requires v > 0 && p > 0
    ensures And(v, 2 * p) == 2 * And(v / 2, p)
  {
    assert (2 * p) / 2 == p && (2 * p) % 2 == 0;
  }

  /** Adding a multiple of `2^s` to a value below `2^s` and keeping `w >= s`
      bits keeps the value and the truncated multiple side by side. */
  lemma LowAdd(v: nat, g: nat, s: nat, w: nat)
    requires s <= w && v < Pow2(s)
    ensures (g * Pow2(s)) % Pow2(w) % Pow2(s) == 0
    ensures (v + g * Pow2(s)) % Pow2(w) == v + (g * Pow2(s)) % Pow2(w)
  {
    Pow2Divides(s, w);
    LowAddArith(v, g, Pow2(s), Pow2(w - s));
  }

  lemma LowAddArith(v: nat, g: nat, p: nat, q: nat)
    requires p >= 1 && q >= 1 && v < p
    ensures (g * p) % (p * q) % p == 0
    ensures (v + g * p) % (p * q) == v + (g * p) % (p * q)
  {
    var a, b := g / q, g % q;
    var m := p * b;
    MulSplit(g, p, q, a, b);
    MulBelow(p, b, q);
    DivModUnique(g * p, p * q, a, m);
    DivModUnique(m, p, b, 0);
    DivModUnique(v + g * p, p * q, a, v + m);
  }

  lemma MulSplit(g: int, p: int, q: int, a: int, b: int)
    requires g == q * a + b
    ensures g * p == (p * q) * a + p * b
  {
  }

  /** `p * b` stays a whole `p` below `p * q` when `b < q`. */
  lemma MulBelow(p: nat, b: nat, q: nat)
    requires b < q
    ensures p * b + p <= p * q
  {
    assert p * q - p * b == p * (q - b);
    if p > 0 {
      MulAtLeast(p, q - b);
    }
  }

  /** Shifting left by at least the word width leaves nothing. */
  lemma HighShiftVanishes(g: nat, s: nat, w: nat)
    requires w <= s
    ensures Shl(g, s, w) == 0
  {
    Pow2Divides(w, s);
    assert g * Pow2(s) == Pow2(w) * (g * Pow2(s - w));
    DivModUnique(g * Pow2(s), Pow2(w), g * Pow2(s - w), 0);
  }

  /** Adding a multiple of the modulus changes no remainder. */
  lemma ModAddMultiple(v: nat, m: nat, d: nat)
    requires d > 0
    ensures (v + d * m) % d == v % d
  {
    DivModUnique(v + d * m, d, v / d + m, v % d);
  }
}
