/** Facts about products and quotients of integers. */
module Aritmetica {
  function Min(a: int, b: int): int { if a <= b then a else b }
  function Max(a: int, b: int): int { if a >= b then a else b }

  lemma MultNaoNegativa(a: nat, b: nat)
    ensures a * b >= 0
  {}

  lemma MultMonotona(w: int, a: int, b: int)
    requires w >= 0 && a <= b
    ensures w * a <= w * b
  {}

  lemma MultEstrita(w: int, a: int, b: int)
    requires w > 0 && a < b
    ensures w * a < w * b
  {}

  lemma Simplifica(w: int, a: int, b: int)
    requires w > 0 && w * a <= w * b
    ensures a <= b
  {
    if a > b { MultEstrita(w, b, a); }
  }

  lemma DivisaoEuclidiana(n: int, w: int)
    requires w > 0
    ensures n == w * (n / w) + n % w && 0 <= n % w < w
  {}

  lemma DivMonotona(a: nat, b: nat, w: nat)
    requires w > 0 && a <= b
    ensures a / w <= b / w
    ensures a / w == b / w && a < b ==> a % w < b % w
  {
    DivisaoEuclidiana(a, w);
    DivisaoEuclidiana(b, w);
    if a / w > b / w { MultMonotona(w, b / w + 1, a / w); }
  }
}
