/** The bitwise operators of C on unsigned words, bit by bit, and when they are sums. */
module Words {
  function Pow2(n: nat): (p: nat)
    ensures p > 0
  {
    if n == 0 then 1 else 2 * Pow2(n - 1)
  }

  /** a << n, not cut to 32 bits */
  function Shl(a: nat, n: nat): nat {
    if n == 0 then a else 2 * Shl(a, n - 1)
  }

  /** a >> n */
  function Shr(a: nat, n: nat): nat {
    if n == 0 then a else Shr(a / 2, n - 1)
  }

  predicate Bit(a: nat, i: nat) {
    Shr(a, i) % 2 == 1
  }

  /** a | b */
  function Or(a: nat, b: nat): nat
    decreases a + b
  {
    if a == 0 && b == 0 then 0
    else 2 * Or(a / 2, b / 2) + if a % 2 == 1 || b % 2 == 1 then 1 else 0
  }

  /** a & ~b */
  function AndNot(a: nat, b: nat): nat {
    if a == 0 then 0 else 2 * AndNot(a / 2, b / 2) + if a % 2 == 1 && b % 2 == 0 then 1 else 0
  }

  lemma OrParts(a: nat, b: nat)
    ensures Or(a, b) / 2 == Or(a / 2, b / 2) && (Or(a, b) % 2 == 1 <==> a % 2 == 1 || b % 2 == 1)
  {
  }

  lemma {:induction false} OrBits(a: nat, b: nat, i: nat)
    ensures Bit(Or(a, b), i) <==> Bit(a, i) || Bit(b, i)
  {
    OrParts(a, b);
    hide Or;
    if i > 0 {
      OrBits(a / 2, b / 2, i - 1);
    }
  }

  lemma AndNotParts(a: nat, b: nat)
    ensures AndNot(a, b) / 2 == AndNot(a / 2, b / 2) && (AndNot(a, b) % 2 == 1 <==> a % 2 == 1 && b % 2 == 0)
  {
  }

  lemma {:induction false} AndNotBits(a: nat, b: nat, i: nat)
    ensures Bit(AndNot(a, b), i) <==> Bit(a, i) && !Bit(b, i)
  {
    AndNotParts(a, b);
    hide AndNot;
    if i > 0 {
      AndNotBits(a / 2, b / 2, i - 1);
    }
  }

  lemma {:induction false} ShlIsProduct(a: nat, n: nat)
    ensures Shl(a, n) == a * Pow2(n)
  {
    if n > 0 {
      ShlIsProduct(a, n - 1);
      var p := Pow2(n - 1);
      assert a * (2 * p) == 2 * (a * p);
    }
  }

  lemma {:induction false} ShrIsQuotient(a: nat, n: nat)
    ensures Shr(a, n) == a / Pow2(n)
  {
    if n > 0 {
      ShrIsQuotient(a / 2, n - 1);
      Halves(a, Pow2(n - 1));
    }
  }

  /** Bits above n pass through. */
  lemma {:induction false} OrSplit(hi: nat, x: nat, y: nat, n: nat)
    requires x < Pow2(n) && y < Pow2(n)
    ensures Or(Shl(hi, n) + x, y) == Shl(hi, n) + Or(x, y)
  {
    if n == 0 {
      OrZero(hi);
    } else {
      OrSplit(hi, x / 2, y / 2, n - 1);
      OrParts(Shl(hi, n) + x, y);
      OrParts(x, y);
      hide Or;
      assert (Shl(hi, n) + x) / 2 == Shl(hi, n - 1) + x / 2 && (Shl(hi, n) + x) % 2 == x % 2;
    }
  }

  lemma {:induction false} OrZero(a: nat)
    ensures Or(a, 0) == a == Or(0, a)
  {
    if a > 0 {
      OrZero(a / 2);
    }
  }

  /** A word whose lower n bits are clear, or-ed with n bits. */
  lemma OrIsSum(hi: nat, lo: nat, n: nat)
    requires lo < Pow2(n)
    ensures Or(Shl(hi, n), lo) == Shl(hi, n) + lo
  {
    OrSplit(hi, 0, lo, n);
    OrZero(lo);
  }

  lemma {:induction false} OrCommutes(a: nat, b: nat)
    ensures Or(a, b) == Or(b, a)
    decreases a + b
  {
    if a > 0 || b > 0 {
      OrCommutes(a / 2, b / 2);
    }
  }

  /** Clearing one bit. */
  lemma {:induction false} ClearBit(w: nat, n: nat)
    ensures AndNot(w, Pow2(n)) == if Bit(w, n) then w - Pow2(n) else w
    ensures Bit(w, n) ==> w >= Pow2(n)
  {
    if n == 0 {
      AndNotZero(w / 2);
    } else if w > 0 {
      ClearBit(w / 2, n - 1);
    } else {
      ClearBit(0, n - 1);
    }
  }

  lemma {:induction false} AndNotZero(w: nat)
    ensures AndNot(w, 0) == w
  {
    if w > 0 {
      AndNotZero(w / 2);
    }
  }

  lemma Halves(w: nat, p: nat)
    requires p > 0
    ensures w / 2 / p == w / (2 * p)
  {
    var q, r := w / 2 / p, w / 2 % p;
    assert w == 2 * (q * p + r) + w % 2 == (2 * p) * q + (2 * r + w % 2);
    Quotient(w, 2 * p, q, 2 * r + w % 2);
  }

  lemma Quotient(w: nat, d: nat, q: nat, r: nat)
    requires r < d && w == d * q + r
    ensures w / d == q
  {
    var q', r' := w / d, w % d;
    assert w == d * q' + r';
    assert q' < q ==> d * q >= d * (q' + 1);
    assert q' > q ==> d * q' >= d * (q + 1);
  }
}
