/** Comparing a quotient with a number. */
module Fractions {

  lemma Portion(part: nat, all: nat)
    requires part <= all && all > 0
    ensures var q := part as real / all as real;
            && 0.0 <= q <= 1.0 && (q >= 0.75 <==> 4 * part >= 3 * all) && q * all as real == part as real
            && (q == 1.0 <==> part == all)
  {
    var a, w := part as real, all as real;
    assert a / w * w == a;
    QuotientAgainst(a, w, 0.0, 0.0);
    QuotientAgainst(a, w, 0.75, 0.75 * w);
    QuotientAgainst(a, w, 1.0, w);
  }

  lemma QuotientAgainst(a: real, w: real, c: real, cw: real)
    requires w > 0.0 && cw == c * w
    ensures (a / w >= c <==> a >= cw) && (a / w <= c <==> a <= cw)
  {
    var q := a / w;
    assert q * w == a;
    Scaled(q, c, w, a, cw);
  }

  lemma Scaled(q: real, c: real, w: real, qw: real, cw: real)
    requires w > 0.0 && qw == q * w && cw == c * w
    ensures (q >= c <==> qw >= cw) && (q <= c <==> qw <= cw)
  {
    if q > c {
      Positive(q - c, w);
    } else if q < c {
      Positive(c - q, w);
    }
  }

  lemma Positive(a: real, b: real)
    requires a > 0.0 && b > 0.0
    ensures a * b > 0.0
  {}
}
