/** Types and facts that several modules share. */
module Wrappers {

  datatype Option<T> = None | Some(value: T)

  lemma Associative<T>(a: seq<T>, b: seq<T>, c: seq<T>)
    ensures (a + b) + c == a + (b + c)
  {
  }

  lemma FrontAndOne<T>(s: seq<T>, i: nat)
    requires i < |s|
    ensures s[..i + 1] == s[..i] + [s[i]]
    ensures s == s[..i + 1] + s[i + 1..]
  {
  }

  lemma DivideTwice(v: nat, a: nat, b: nat)
    requires a > 0 && b > 0
    ensures a * b > 0 && v / a / b == v / (a * b)
  {
    PositiveProduct(a, b);
    var q, r := v / (a * b), v % (a * b);
    var x, y := r / a, r % a;
    QuotientBelow(r, a, b);
    InThree(v, a, b, q, x, y);
    QuotientOf(v, a, q * b + x, y);
    QuotientOf(q * b + x, b, q, x);
  }

  lemma QuotientBelow(r: nat, a: nat, b: nat)
    requires a > 0 && r < a * b
    ensures r / a < b
  {
    var e := r / a - b;
    assert r == (r / a) * a + r % a;
    assert e * a == (r / a) * a - b * a;
    if e > 0 {
      MultipleIsFar(e, a);
    }
  }

  lemma InThree(v: nat, a: nat, b: nat, q: nat, x: nat, y: nat)
    requires v == q * (a * b) + (x * a + y)
    ensures v == (q * b + x) * a + y
  {
    assert (q * b + x) * a == (q * b) * a + x * a;
    assert (q * b) * a == q * (a * b);
  }

  lemma PositiveProduct(a: nat, b: nat)
    requires a > 0 && b > 0
    ensures a * b > 0
  {
  }

  lemma QuotientOf(a: nat, d: nat, q: nat, r: nat)
    requires d > 0 && r < d && a == q * d + r
    ensures a / d == q
  {
    var e := a / d - q;
    assert e * d == r - a % d;
    if e != 0 {
      MultipleIsFar(e, d);
    }
  }

  lemma MultipleIsFar(e: int, d: int)
    requires e != 0 && d > 0
    ensures e * d >= d || e * d <= -d
  {
    if e > 0 {
      assert (e - 1) * d >= 0;
    } else {
      assert (-1 - e) * d >= 0;
    }
  }
}
