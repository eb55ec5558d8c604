/** Bitwise `&` and `|` on unsigned words, with the laws the flag and mask
    translations rest on. */
module Bits {

  function And(x: nat, y: nat): (r: nat)
    ensures r <= x && r <= y
  {
    if x == 0 || y == 0 then 0
    else 2 * And(x / 2, y / 2) + if x % 2 == 1 && y % 2 == 1 then 1 else 0
  }

  function Or(x: nat, y: nat): (r: nat)
    ensures r <= x + y
  {
    if x == 0 then y else if y == 0 then x
    else 2 * Or(x / 2, y / 2) + if x % 2 == 1 || y % 2 == 1 then 1 else 0
  }

  /** One step of `And` and `Or`, also where an operand is zero. */
  lemma Unfold(x: nat, y: nat)
    ensures And(x, y) / 2 == And(x / 2, y / 2)
    ensures And(x, y) % 2 == if x % 2 == 1 && y % 2 == 1 then 1 else 0
    ensures Or(x, y) / 2 == Or(x / 2, y / 2)
    ensures Or(x, y) % 2 == if x % 2 == 1 || y % 2 == 1 then 1 else 0
  {}

  lemma {:induction false} AndAssoc(x: nat, y: nat, z: nat)
    ensures And(And(x, y), z) == And(x, And(y, z))
  {
    if x > 0 {
      AndAssoc(x / 2, y / 2, z / 2);
      Unfold(x, y);
      Unfold(And(x, y), z);
      Unfold(y, z);
      Unfold(x, And(y, z));
    }
  }

  lemma {:induction false} AndIdem(x: nat)
    ensures And(x, x) == x
  {
    if x > 0 {
      AndIdem(x / 2);
    }
  }

  lemma {:induction false} AndOr(x: nat, y: nat, z: nat)
    ensures And(Or(x, y), z) == Or(And(x, z), And(y, z))
    decreases z
  {
    if z > 0 {
      AndOr(x / 2, y / 2, z / 2);
      Unfold(x, y);
      Unfold(Or(x, y), z);
      Unfold(x, z);
      Unfold(y, z);
      Unfold(And(x, z), And(y, z));
    } else {
      assert And(Or(x, y), 0) == 0;
    }
  }

  /** `x << k`. */
  function Shl(x: nat, k: nat): nat { if k == 0 then x else 2 * Shl(x, k - 1) }

  lemma {:induction false} ShlAdd(x: nat, j: nat, k: nat)
    ensures Shl(Shl(x, j), k) == Shl(x, j + k)
  {
    if k > 0 {
      ShlAdd(x, j, k - 1);
    }
  }

  /** Bits below position `k` and bits at or above it do not meet. */
  lemma {:induction false} AndDisjoint(x: nat, y: nat, k: nat)
    requires x < Shl(1, k)
    ensures And(x, Shl(y, k)) == 0 && And(Shl(y, k), x) == 0
    decreases k
  {
    if k > 0 {
      AndDisjoint(x / 2, y, k - 1);
    }
  }

  lemma {:induction false} OrDisjoint(x: nat, y: nat, k: nat)
    requires x < Shl(1, k)
    ensures Or(x, Shl(y, k)) == x + Shl(y, k)
    decreases k
  {
    if k > 0 {
      OrDisjoint(x / 2, y, k - 1);
    }
  }

  /** Setting bits above position `k` leaves the bits below it alone. */
  lemma {:induction false} OrHigh(x: nat, a: nat, b: nat, k: nat)
    requires x < Shl(1, k)
    ensures Or(x + Shl(a, k), Shl(b, k)) == x + Shl(Or(a, b), k)
    decreases k
  {
    if k > 0 {
      OrHigh(x / 2, a, b, k - 1);
      OrLowBit(x / 2 + Shl(a, k - 1), Shl(b, k - 1), x % 2);
      hide Or;
      assert 2 * (x / 2) + x % 2 == x;
    }
  }

  lemma OrLowBit(x: nat, y: nat, low: nat)
    requires low < 2
    ensures Or(2 * x + low, 2 * y) == 2 * Or(x, y) + low
  {}

  lemma ModUnique(x: int, d: int, q: int, r: int)
    requires 0 <= r < d && x == d * q + r
    ensures x / d == q && x % d == r
  {
    var p, s := x / d, x % d;
    Spread(d, q, p);
    assert d * (q - p) == s - r;
    NoRoom(d, q - p);
  }

  lemma Spread(d: int, q: int, p: int)
    ensures d * (q - p) == d * q - d * p
  {}

  lemma AtLeast(d: int, n: int)
    requires d > 0 && n >= 1
    ensures d * n >= d && d * -n <= -d
  {
    assert d * (n - 1) >= 0 && d * n == d * (n - 1) + d;
  }

  /** A multiple of `d` strictly between `-d` and `d` is zero. */
  lemma NoRoom(d: int, n: int)
    requires -d < d * n < d
    ensures n == 0
  {
    if n >= 1 {
      AtLeast(d, n);
    } else if n <= -1 {
      AtLeast(d, -n);
    }
  }

  lemma Halves(x: nat, p: nat)
    requires p > 0
    ensures x / (2 * p) == x / 2 / p && x % (2 * p) == 2 * (x / 2 % p) + x % 2
  {
    var h := x / 2;
    assert x == 2 * (p * (h / p) + h % p) + x % 2;
    assert 2 * (p * (h / p)) == 2 * p * (h / p);
    ModUnique(x, 2 * p, h / p, 2 * (h % p) + x % 2);
  }

  /** A mask of the lowest `k` bits takes the remainder. */
  lemma {:induction false} MaskIsMod(x: nat, k: nat)
    ensures Shl(1, k) > 0 && And(x, Shl(1, k) - 1) == x % Shl(1, k)
  {
    if k == 0 {
      Unfold(x, 0);
    } else {
      hide And;
      var p := Shl(1, k - 1);
      MaskIsMod(x / 2, k - 1);
      Unfold(x, 2 * p - 1);
      Halves(x, p);
      assert (2 * p - 1) / 2 == p - 1;
    }
  }

  /** A single bit tells whether its place value is in the number. */
  lemma {:induction false} BitIs(x: nat, k: nat)
    ensures Shl(1, k) > 0 && And(x, Shl(1, k)) == if x / Shl(1, k) % 2 == 1 then Shl(1, k) else 0
  {
    if k == 0 {
      Unfold(x, 1);
      Unfold(x / 2, 0);
    } else {
      hide And;
      var p := Shl(1, k - 1);
      BitIs(x / 2, k - 1);
      Unfold(x, 2 * p);
      Halves(x, p);
    }
  }

  /** Masking after setting bits outside and inside the mask. */
  lemma MaskAfterOr(x: nat, m: nat, y: nat, n: nat)
    ensures And(Or(And(x, m), y), n) == Or(And(x, And(m, n)), And(y, n))
  {
    AndOr(And(x, m), y, n);
    AndAssoc(x, m, n);
  }
}
