/** Iterates of a map that is linear over an addition in which every element is its own
    negative. Stated over an unspecified carrier, so that nothing here depends on bits.
 */
module LinearIteration {

  function Iterate<T>(f: T -> T, n: nat, c: T): T {
    if n == 0 then c else f(Iterate(f, n - 1, c))
  }

  ghost predicate Linear<T(!new)>(f: T -> T, plus: (T, T) -> T) {
    forall a, b :: Additive(f, plus, a, b)
  }

  ghost predicate Additive<T>(f: T -> T, plus: (T, T) -> T, a: T, b: T) {
    f(plus(a, b)) == plus(f(a), f(b))
  }

  ghost predicate Injective<T(!new)>(f: T -> T) {
    forall a, b :: Separates(f, a, b)
  }

  ghost predicate Separates<T>(f: T -> T, a: T, b: T) {
    f(a) == f(b) ==> a == b
  }

  function Sum3<T>(plus: (T, T) -> T, a: T, b: T, c: T): T {
    plus(plus(a, b), c)
  }

  /** An addition in which every element is its own negative. */
  ghost predicate SelfInverse<T(!new)>(plus: (T, T) -> T) {
    && (forall a, b, c :: Associates(plus, a, b, c))
    && (forall a, b :: Commutes(plus, a, b))
    && (forall a, b :: Cancels(plus, a, b))
  }

  ghost predicate Associates<T>(plus: (T, T) -> T, a: T, b: T, c: T) {
    plus(a, plus(b, c)) == plus(plus(a, b), c)
  }

  ghost predicate Commutes<T>(plus: (T, T) -> T, a: T, b: T) {
    plus(a, b) == plus(b, a)
  }

  ghost predicate Cancels<T>(plus: (T, T) -> T, a: T, b: T) {
    plus(plus(a, b), b) == a
  }

  lemma Exchange<T(!new)>(plus: (T, T) -> T, a: T, b: T, c: T)
    requires SelfInverse(plus)
    ensures plus(plus(a, b), c) == plus(plus(a, c), b)
  {
    assert Associates(plus, a, b, c) && Associates(plus, a, c, b) && Commutes(plus, b, c);
  }

  lemma Interchange<T(!new)>(plus: (T, T) -> T, a: T, b: T, c: T, d: T)
    requires SelfInverse(plus)
    ensures plus(plus(a, b), plus(c, d)) == plus(plus(a, c), plus(b, d))
  {
    assert Associates(plus, plus(a, b), c, d) && Associates(plus, plus(a, c), b, d);
    Exchange(plus, a, b, c);
  }

  lemma Bridge<T(!new)>(plus: (T, T) -> T, a: T, b: T, c: T)
    requires SelfInverse(plus)
    ensures plus(plus(a, b), plus(b, c)) == plus(a, c)
  {
    assert Associates(plus, plus(a, b), b, c) && Cancels(plus, a, b);
  }

  lemma CancelCross<T(!new)>(plus: (T, T) -> T, p: T, q: T, r: T, s: T, t: T, c: T)
    requires SelfInverse(plus)
    ensures Sum3(plus, Sum3(plus, p, q, r), Sum3(plus, q, s, t), Sum3(plus, r, t, c)) == Sum3(plus, p, s, c)
  {
    Interchange(plus, plus(p, q), r, plus(q, s), t);
    Bridge(plus, p, q, s);
    Bridge(plus, plus(p, s), plus(r, t), c);
  }

  lemma CancelChain<T(!new)>(plus: (T, T) -> T, s1: T, s2: T, s4: T, c: T)
    requires SelfInverse(plus)
    ensures Sum3(plus, Sum3(plus, Sum3(plus, s2, s1, c), s4, c), Sum3(plus, s4, s2, c), c) == s1
  {
    var y := plus(s2, s1);
    Exchange(plus, plus(y, c), s4, c);
    assert Cancels(plus, y, c);
    assert Associates(plus, plus(y, s4), plus(s4, s2), c);
    Bridge(plus, y, s4, s2);
    assert Cancels(plus, plus(y, s2), c);
    assert Commutes(plus, s2, s1) && Cancels(plus, s1, s2);
  }

  lemma {:induction false} IterateLinear<T(!new)>(f: T -> T, plus: (T, T) -> T, n: nat, a: T, b: T)
    requires Linear(f, plus)
    ensures Iterate(f, n, plus(a, b)) == plus(Iterate(f, n, a), Iterate(f, n, b))
  {
    if n > 0 {
      IterateLinear(f, plus, n - 1, a, b);
      assert Additive(f, plus, Iterate(f, n - 1, a), Iterate(f, n - 1, b));
    }
  }

  lemma {:induction false} IterateInjective<T(!new)>(f: T -> T, n: nat, a: T, b: T)
    requires Injective(f) && Iterate(f, n, a) == Iterate(f, n, b)
    ensures a == b
  {
    if n > 0 {
      assert Separates(f, Iterate(f, n - 1, a), Iterate(f, n - 1, b));
      IterateInjective(f, n - 1, a, b);
    }
  }

  lemma {:induction false} IterateAdd<T>(f: T -> T, m: nat, n: nat, c: T)
    ensures Iterate(f, m + n, c) == Iterate(f, m, Iterate(f, n, c))
  {
    if m > 0 {
      IterateAdd(f, m - 1, n, c);
    }
  }

  lemma {:induction false} IterateFixed<T>(f: T -> T, n: nat, c: T)
    requires f(c) == c
    ensures Iterate(f, n, c) == c
  {
    if n > 0 {
      IterateFixed(f, n - 1, c);
    }
  }

  /** f^n = f^a + f^b + 1 at the point c. */
  ghost predicate Trinomial<T>(f: T -> T, plus: (T, T) -> T, n: nat, a: nat, b: nat, c: T) {
    Iterate(f, n, c) == Sum3(plus, Iterate(f, a, c), Iterate(f, b, c), c)
  }

  /** Squaring a trinomial doubles its exponents: the cross terms cancel. */
  lemma SquareTrinomial<T(!new)>(f: T -> T, plus: (T, T) -> T, n: nat, a: nat, b: nat, c: T)
    requires Linear(f, plus) && SelfInverse(plus)
    requires Trinomial(f, plus, n, a, b, c)
    requires Trinomial(f, plus, n, a, b, Iterate(f, a, c))
    requires Trinomial(f, plus, n, a, b, Iterate(f, b, c))
    ensures Trinomial(f, plus, n + n, a + a, b + b, c)
  {
    var A, B := Iterate(f, a, c), Iterate(f, b, c);
    IterateAdd(f, n, n, c);
    IterateLinear(f, plus, n, plus(A, B), c);
    IterateLinear(f, plus, n, A, B);
    IterateAdd(f, a, a, c);
    IterateAdd(f, b, b, c);
    IterateAdd(f, a, b, c);
    IterateAdd(f, b, a, c);
    CancelCross(plus, Iterate(f, a + a, c), Iterate(f, a + b, c), A, Iterate(f, b + b, c), B, c);
  }

  ghost predicate TrinomialEverywhere<T(!new)>(f: T -> T, plus: (T, T) -> T, n: nat, a: nat, b: nat) {
    forall x :: Trinomial(f, plus, n, a, b, x)
  }

  lemma SquareEverywhere<T(!new)>(f: T -> T, plus: (T, T) -> T, n: nat, a: nat, b: nat)
    requires Linear(f, plus) && SelfInverse(plus) && TrinomialEverywhere(f, plus, n, a, b)
    ensures TrinomialEverywhere(f, plus, 2 * n, 2 * a, 2 * b)
  {
    forall x ensures Trinomial(f, plus, 2 * n, 2 * a, 2 * b, x) {
      SquareTrinomial(f, plus, n, a, b, x);
    }
  }

  /** f^(8n) = f^(2n) + f^n + 1 for a linear injection gives f^(127n) = 1. */
  lemma PeriodOfTrinomial<T(!new)>(f: T -> T, plus: (T, T) -> T, n: nat, c: T)
    requires Linear(f, plus) && SelfInverse(plus) && Injective(f)
    requires TrinomialEverywhere(f, plus, 8 * n, 2 * n, n)
    ensures Iterate(f, 127 * n, c) == c
  {
    SquareEverywhere(f, plus, 8 * n, 2 * n, n);
    SquareEverywhere(f, plus, 16 * n, 4 * n, 2 * n);
    SquareEverywhere(f, plus, 32 * n, 8 * n, 4 * n);
    SquareEverywhere(f, plus, 64 * n, 16 * n, 8 * n);
    assert Trinomial(f, plus, 8 * n, 2 * n, n, c);
    assert Trinomial(f, plus, 16 * n, 4 * n, 2 * n, c);
    assert Trinomial(f, plus, 32 * n, 8 * n, 4 * n, c);
    assert Trinomial(f, plus, 128 * n, 32 * n, 16 * n, c);
    CancelChain(plus, Iterate(f, n, c), Iterate(f, 2 * n, c), Iterate(f, 4 * n, c), c);
    assert Iterate(f, 128 * n, c) == Iterate(f, n, c);
    IterateAdd(f, n, 127 * n, c);
    IterateInjective(f, n, Iterate(f, 127 * n, c), c);
  }

  lemma PeriodDifference<T(!new)>(f: T -> T, m: nat, n: nat, c: T)
    requires Injective(f) && Iterate(f, m, c) == c && Iterate(f, m + n, c) == c
    ensures Iterate(f, n, c) == c
  {
    IterateAdd(f, m, n, c);
    IterateInjective(f, m, Iterate(f, n, c), c);
  }

  lemma {:induction false} PeriodMultiple<T>(f: T -> T, m: nat, q: nat, c: T)
    requires Iterate(f, m, c) == c
    ensures Iterate(f, m * q, c) == c
  {
    if q == 0 {
      assert m * q == 0;
    } else {
      PeriodMultiple(f, m, q - 1, c);
      IterateAdd(f, m, m * (q - 1), c);
      assert m + m * (q - 1) == m * q;
    }
  }

  /** Euclid on two periods: some common divisor of them is a period as well. */
  lemma {:induction false} GcdPeriod<T(!new)>(f: T -> T, m: nat, n: nat, c: T) returns (d: nat, p: nat, q: nat)
    requires Injective(f) && 0 < m && 0 < n
    requires Iterate(f, m, c) == c && Iterate(f, n, c) == c
    ensures m == d * p && n == d * q && Iterate(f, d, c) == c
    decreases m + n
  {
    if m == n {
      d, p, q := m, 1, 1;
    } else if m < n {
      PeriodDifference(f, m, n - m, c);
      d, p, q := GcdPeriod(f, m, n - m, c);
      assert d * (p + q) == d * p + d * q;
      q := p + q;
    } else {
      PeriodDifference(f, n, m - n, c);
      d, p, q := GcdPeriod(f, m - n, n, c);
      assert d * (p + q) == d * p + d * q;
      p := p + q;
    }
  }

  /** g is m turns of f. */
  ghost predicate Power<T(!new)>(f: T -> T, g: T -> T, m: nat) {
    forall x :: PowerAt(f, g, m, x)
  }

  ghost predicate PowerAt<T>(f: T -> T, g: T -> T, m: nat, x: T) {
    g(x) == Iterate(f, m, x)
  }

  lemma {:induction false} IterateOfIterate<T(!new)>(f: T -> T, g: T -> T, m: nat, k: nat, c: T)
    requires Power(f, g, m)
    ensures Iterate(g, k, c) == Iterate(f, m * k, c)
  {
    if k == 0 {
      assert m * k == 0;
    } else {
      IterateOfIterate(f, g, m, k - 1, c);
      assert PowerAt(f, g, m, Iterate(g, k - 1, c));
      IterateAdd(f, m, m * (k - 1), c);
      assert m + m * (k - 1) == m * k;
    }
  }

  // ------------------------------------------------ a register fed one symbol at a time

  /** The register after `data`, started at `c`: each symbol is added in and `g` applied. */
  function Register<T>(g: T -> T, plus: (T, T) -> T, c: T, data: seq<T>): T {
    if data == [] then c
    else g(plus(Register(g, plus, c, data[..|data| - 1]), data[|data| - 1]))
  }

  lemma {:induction false} RegisterAppend<T>(g: T -> T, plus: (T, T) -> T, c: T, a: seq<T>, b: seq<T>)
    ensures Register(g, plus, c, a + b) == Register(g, plus, Register(g, plus, c, a), b)
  {
    if b == [] {
      assert a + b == a;
    } else {
      assert (a + b)[..|a + b| - 1] == a + b[..|b| - 1];
      RegisterAppend(g, plus, c, a, b[..|b| - 1]);
    }
  }

  function Pointwise<T>(plus: (T, T) -> T, a: seq<T>, b: seq<T>): (s: seq<T>)
    requires |a| == |b|
    ensures |s| == |a|
  {
    seq(|a|, i requires 0 <= i < |a| => plus(a[i], b[i]))
  }

  /** The register of a sum is the sum of the registers. */
  lemma {:induction false} RegisterLinear<T(!new)>(g: T -> T, plus: (T, T) -> T, c: T, d: T, a: seq<T>, b: seq<T>)
    requires Linear(g, plus) && SelfInverse(plus) && |a| == |b|
    ensures Register(g, plus, plus(c, d), Pointwise(plus, a, b))
         == plus(Register(g, plus, c, a), Register(g, plus, d, b))
  {
    if a != [] {
      var n := |a| - 1;
      RegisterLinear(g, plus, c, d, a[..n], b[..n]);
      assert Pointwise(plus, a, b)[..n] == Pointwise(plus, a[..n], b[..n]);
      Interchange(plus, Register(g, plus, c, a[..n]), Register(g, plus, d, b[..n]), a[n], b[n]);
      assert Additive(g, plus, plus(Register(g, plus, c, a[..n]), a[n]), plus(Register(g, plus, d, b[..n]), b[n]));
    }
  }

  /** `data` with e added to symbol i. */
  function Hit<T>(plus: (T, T) -> T, data: seq<T>, i: nat, e: T): seq<T>
    requires i < |data|
  {
    data[i := plus(data[i], e)]
  }

  /** An error e added to symbol i reaches the register after the |data| - i remaining turns. */
  lemma {:induction false} ErrorReachesRegister<T(!new)>(g: T -> T, plus: (T, T) -> T, c: T, data: seq<T>, i: nat, e: T)
    requires Linear(g, plus) && SelfInverse(plus) && i < |data|
    ensures Register(g, plus, c, Hit(plus, data, i, e))
         == plus(Register(g, plus, c, data), Iterate(g, |data| - i, e))
    decreases |data|
  {
    var n := |data| - 1;
    var hit := Hit(plus, data, i, e);
    if i == n {
      assert hit[..n] == data[..n];
      assert Iterate(g, 1, e) == g(Iterate(g, 0, e));
      var r := Register(g, plus, c, data[..n]);
      assert Associates(plus, r, data[n], e) && Additive(g, plus, plus(r, data[n]), e);
    } else {
      assert hit[..n] == Hit(plus, data[..n], i, e);
      ErrorReachesRegister(g, plus, c, data[..n], i, e);
      var r, s := Register(g, plus, c, data[..n]), Iterate(g, n - i, e);
      Exchange(plus, r, s, data[n]);
      assert Additive(g, plus, plus(r, data[n]), s);
    }
  }

  /** The same in single turns, when g is m turns of f. */
  lemma ErrorInTurns<T(!new)>(f: T -> T, g: T -> T, m: nat, plus: (T, T) -> T, c: T, data: seq<T>, i: nat, e: T)
    requires Linear(g, plus) && SelfInverse(plus) && i < |data|
    requires Power(f, g, m)
    ensures Register(g, plus, c, Hit(plus, data, i, e))
         == plus(Register(g, plus, c, data), Iterate(f, m * (|data| - i), e))
  {
    ErrorReachesRegister(g, plus, c, data, i, e);
    IterateOfIterate(f, g, m, |data| - i, e);
  }

  lemma SameTwice<T(!new)>(plus: (T, T) -> T, a: T, s: T, t: T)
    requires SelfInverse(plus)
    ensures plus(plus(a, s), t) == a <==> s == t
  {
    assert Cancels(plus, a, s);
    if plus(plus(a, s), t) == a {
      var x := plus(a, s);
      assert Commutes(plus, x, s) && Commutes(plus, x, t);
      assert Cancels(plus, s, x) && Cancels(plus, t, x);
    }
  }

  lemma IterateAgrees<T(!new)>(g: T -> T, after: nat, apart: nat, e: T)
    requires Injective(g)
    ensures Iterate(g, after + apart, e) == Iterate(g, after, e) <==> Iterate(g, apart, e) == e
  {
    IterateAdd(g, after, apart, e);
    if Iterate(g, after + apart, e) == Iterate(g, after, e) {
      IterateInjective(g, after, Iterate(g, apart, e), e);
    }
  }

  lemma TwoErrorsReachRegister<T(!new)>(g: T -> T, plus: (T, T) -> T, c: T, data: seq<T>, i: nat, j: nat, e: T)
    requires Linear(g, plus) && SelfInverse(plus) && i < j < |data|
    ensures Register(g, plus, c, Hit(plus, Hit(plus, data, i, e), j, e))
         == plus(plus(Register(g, plus, c, data), Iterate(g, |data| - i, e)), Iterate(g, |data| - j, e))
  {
    ErrorReachesRegister(g, plus, c, data, i, e);
    ErrorReachesRegister(g, plus, c, Hit(plus, data, i, e), j, e);
  }

  /** Two equal errors cancel exactly when the turns between them fix the error. */
  lemma TwoErrors<T(!new)>(g: T -> T, plus: (T, T) -> T, c: T, data: seq<T>, i: nat, j: nat, e: T)
    requires Linear(g, plus) && SelfInverse(plus) && Injective(g) && i < j < |data|
    ensures Register(g, plus, c, Hit(plus, Hit(plus, data, i, e), j, e)) == Register(g, plus, c, data)
       <==> Iterate(g, j - i, e) == e
  {
    TwoErrorsReachRegister(g, plus, c, data, i, j, e);
    SameTwice(plus, Register(g, plus, c, data), Iterate(g, |data| - i, e), Iterate(g, |data| - j, e));
    IterateAgrees(g, |data| - j, j - i, e);
  }

  lemma FourSyndromes<T(!new)>(plus: (T, T) -> T, a: T, t: T, u: T, e: T)
    requires SelfInverse(plus)
    ensures plus(plus(plus(plus(a, Sum3(plus, t, u, e)), t), u), e) == a
  {
    assert Associates(plus, a, plus(t, u), e) && Associates(plus, a, t, u);
    var x := plus(plus(a, t), u);
    Exchange(plus, x, e, t);
    Exchange(plus, plus(x, t), e, u);
    assert Cancels(plus, plus(plus(x, t), u), e);
    Exchange(plus, plus(a, t), u, t);
    assert Cancels(plus, a, t) && Cancels(plus, a, u);
  }

  /** If g, the turns for one symbol, satisfies g^8 = g^2 + g + 1, then equal errors at
      symbols p, p+6, p+7 and p+8 cancel. */
  lemma FourErrors<T(!new)>(g: T -> T, plus: (T, T) -> T, c: T, data: seq<T>, p: nat, e: T)
    requires Linear(g, plus) && SelfInverse(plus) && p + 8 < |data|
    requires TrinomialEverywhere(g, plus, 8, 2, 1)
    ensures Register(g, plus, c, Hit(plus, Hit(plus, Hit(plus, Hit(plus, data, p, e), p + 6, e), p + 7, e), p + 8, e))
         == Register(g, plus, c, data)
  {
    hide Register, Iterate;
    var m := |data| - p - 8;
    var d1 := Hit(plus, data, p, e);
    var d2 := Hit(plus, d1, p + 6, e);
    var d3 := Hit(plus, d2, p + 7, e);
    ErrorReachesRegister(g, plus, c, data, p, e);
    ErrorReachesRegister(g, plus, c, d1, p + 6, e);
    ErrorReachesRegister(g, plus, c, d2, p + 7, e);
    ErrorReachesRegister(g, plus, c, d3, p + 8, e);
    var x := Iterate(g, m, e);
    IterateAdd(g, 8, m, e);
    IterateAdd(g, 2, m, e);
    IterateAdd(g, 1, m, e);
    assert Trinomial(g, plus, 8, 2, 1, x);
    FourSyndromes(plus, Register(g, plus, c, data), Iterate(g, 2, x), Iterate(g, 1, x), x);
  }

  lemma EighthPowers<T(!new)>(f: T -> T, g: T -> T, plus: (T, T) -> T, m: nat, n: nat, a: nat, b: nat, x: T)
    requires m == 8 && Power(f, g, m)
    requires Trinomial(f, plus, 8 * n, 8 * a, 8 * b, x)
    ensures Trinomial(g, plus, n, a, b, x)
  {
    IterateOfIterate(f, g, m, n, x);
    IterateOfIterate(f, g, m, a, x);
    IterateOfIterate(f, g, m, b, x);
    assert m * n == 8 * n && m * a == 8 * a && m * b == 8 * b;
  }

  /** A trinomial passes from f to f^8, since squaring three times keeps its shape. */
  lemma TrinomialOfEighthPower<T(!new)>(f: T -> T, g: T -> T, plus: (T, T) -> T, m: nat, n: nat, a: nat, b: nat)
    requires Linear(f, plus) && SelfInverse(plus)
    requires TrinomialEverywhere(f, plus, n, a, b)
    requires m == 8 && Power(f, g, m)
    ensures TrinomialEverywhere(g, plus, n, a, b)
  {
    SquareEverywhere(f, plus, n, a, b);
    SquareEverywhere(f, plus, 2 * n, 2 * a, 2 * b);
    SquareEverywhere(f, plus, 4 * n, 4 * a, 4 * b);
    forall x ensures Trinomial(g, plus, n, a, b, x) {
      EighthPowers(f, g, plus, m, n, a, b, x);
    }
  }

  // -------------------------------------------------------------------- characters

  /** `odd` is unchanged by g and adds modulo two. */
  ghost predicate Character<T(!new)>(g: T -> T, plus: (T, T) -> T, odd: T -> bool) {
    && (forall a :: KeptBy(g, odd, a))
    && (forall a, b :: AddsModTwo(plus, odd, a, b))
  }

  ghost predicate KeptBy<T>(g: T -> T, odd: T -> bool, a: T) {
    odd(g(a)) == odd(a)
  }

  ghost predicate AddsModTwo<T>(plus: (T, T) -> T, odd: T -> bool, a: T, b: T) {
    odd(plus(a, b)) <==> odd(a) != odd(b)
  }

  function Total<T>(ones: T -> nat, data: seq<T>): nat {
    if data == [] then 0 else Total(ones, data[..|data| - 1]) + ones(data[|data| - 1])
  }

  ghost predicate Parity<T(!new)>(odd: T -> bool, ones: T -> nat) {
    forall a :: ParityAt(odd, ones, a)
  }

  ghost predicate ParityAt<T>(odd: T -> bool, ones: T -> nat, a: T) {
    odd(a) <==> ones(a) % 2 == 1
  }

  lemma {:induction false} CharacterOfRegister<T(!new)>(g: T -> T, plus: (T, T) -> T, odd: T -> bool, ones: T -> nat,
                                                       c: T, data: seq<T>)
    requires Character(g, plus, odd) && Parity(odd, ones) && !odd(c)
    ensures odd(Register(g, plus, c, data)) <==> Total(ones, data) % 2 == 1
  {
    if data != [] {
      var n := |data| - 1;
      var r := Register(g, plus, c, data[..n]);
      CharacterOfRegister(g, plus, odd, ones, c, data[..n]);
      assert KeptBy(g, odd, plus(r, data[n])) && AddsModTwo(plus, odd, r, data[n]) && ParityAt(odd, ones, data[n]);
    }
  }
}
