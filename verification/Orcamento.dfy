/** The per-order budget ledger: two independent allowances, each the floor of
    tolerance times the order's original total. */
module Orcamento {
  import opened Aritmetica

  /** The tolerance as an exact fraction between 0 and 1. */
  datatype Fracao = Fracao(num: nat, den: nat) {
    predicate Valida() { 0 < den && num <= den }
  }

  type Tolerancia = t: Fracao | t.Valida() witness Fracao(0, 1)

  function Limite(total: nat, t: Tolerancia): nat {
    t.num * total / t.den
  }

  /** What is left of the two allowances. */
  datatype Saldo = Saldo(adicao: nat, corte: nat)

  function Sobra(limite: nat, consumido: nat): nat {
    if consumido <= limite then limite - consumido else 0
  }

  function SaldoInicial(total: nat, previoAdicao: nat, previoCorte: nat, t: Tolerancia): Saldo {
    Saldo(Sobra(Limite(total, t), previoAdicao), Sobra(Limite(total, t), previoCorte))
  }

  /** The allowance never exceeds the fraction of the total, and one more piece would. */
  lemma LimiteEhPiso(total: nat, t: Tolerancia)
    ensures Limite(total, t) * t.den <= t.num * total < (Limite(total, t) + 1) * t.den
    ensures Limite(total, t) <= total
  {
    var n := t.num * total;
    assert n == t.den * (n / t.den) + n % t.den;
    assert n <= t.den * total;
    Simplifica(t.den, n / t.den, total);
  }

  class OrcamentoPedido {
    const totalOriginal: nat
    const previoAdicao: nat
    const previoCorte: nat
    const tolerancia: Tolerancia
    var restanteAdicao: nat
    var restanteCorte: nat

    constructor (total: nat, previoAdicao: nat, previoCorte: nat, tolerancia: Tolerancia)
      ensures Restante() == SaldoInicial(total, previoAdicao, previoCorte, tolerancia)
      ensures totalOriginal == total && this.previoAdicao == previoAdicao && this.previoCorte == previoCorte
      ensures this.tolerancia == tolerancia
    {
      totalOriginal, this.previoAdicao, this.previoCorte := total, previoAdicao, previoCorte;
      this.tolerancia := tolerancia;
      restanteAdicao := Max(0, Limite(total, tolerancia) - previoAdicao);
      restanteCorte := Max(0, Limite(total, tolerancia) - previoCorte);
    }

    function Restante(): Saldo reads this { Saldo(restanteAdicao, restanteCorte) }

    /** What the next execution must receive as already consumed. */
    function ConsumidoTotal(): (r: (int, int)) reads this {
      (Limite(totalOriginal, tolerancia) - restanteAdicao, Limite(totalOriginal, tolerancia) - restanteCorte)
    }

    /** All or nothing: spends the whole amount, or nothing at all. */
    method ConsumirCorte(q: nat) returns (ok: bool)
      modifies this
      ensures ok <==> q <= old(restanteCorte)
      ensures restanteCorte == old(restanteCorte) - (if ok then q else 0)
      ensures restanteAdicao == old(restanteAdicao)
    {
      if q > restanteCorte { return false; }
      restanteCorte := restanteCorte - q;
      return true;
    }

    /** Partial: spends as much of the amount as is left. */
    method ConsumirAdicao(q: nat) returns (usado: nat)
      modifies this
      ensures usado <= q && usado <= old(restanteAdicao)
      ensures usado == q || restanteAdicao == 0
      ensures restanteAdicao == old(restanteAdicao) - usado
      ensures restanteCorte == old(restanteCorte)
    {
      usado := Min(q, restanteAdicao);
      restanteAdicao := restanteAdicao - usado;
    }
  }

  /** A ledger only goes down, so the next one, told what this one consumed in total, starts
      exactly where this one ended. That total is what was consumed before plus what was
      consumed now if and only if what was consumed before did not exceed the limit. */
  lemma ConsumidoTotalSse(l: OrcamentoPedido, inicio: Saldo)
    requires inicio == SaldoInicial(l.totalOriginal, l.previoAdicao, l.previoCorte, l.tolerancia)
    requires l.restanteAdicao <= inicio.adicao && l.restanteCorte <= inicio.corte
    ensures var (a, c) := l.ConsumidoTotal();
            && a >= 0 && c >= 0 && SaldoInicial(l.totalOriginal, a, c, l.tolerancia) == l.Restante()
            && (a == l.previoAdicao + (inicio.adicao - l.restanteAdicao)
              <==> l.previoAdicao <= Limite(l.totalOriginal, l.tolerancia))
            && (c == l.previoCorte + (inicio.corte - l.restanteCorte)
              <==> l.previoCorte <= Limite(l.totalOriginal, l.tolerancia))
  {}
}
