/** What the engine guarantees about one whole order. */
module MotorPedido {
  import opened Aritmetica
  import opened Listas
  import opened Orcamento
  import opened Motor
  import opened MotorPar
  import Rateio

  // ----- arrival order does not matter

  lemma OrdensDasPassadas(m: Grades, ests: Estoques)
    ensures Ordem(OrdemPassada1(m, ests)) && Ordem(OrdemPassada2(m))
  {
    MenorTextoEhOrdem();
  }

  lemma FilaIndependeDaChegada(ch1: seq<string>, ch2: seq<string>, m: Grades, ests: Estoques)
    requires Distintos(ch1) && Distintos(ch2) && MesmosElementos(ch1, ch2)
    ensures FilaPassada1(ch1, m, ests) == FilaPassada1(ch2, m, ests)
  {
    var p, menor := SemFuro(m, ests), OrdemPassada1(m, ests);
    OrdensDasPassadas(m, ests);
    DistintosFiltrar(ch1, p);
    DistintosFiltrar(ch2, p);
    OrdemGlobalEmLista(Filtrar(ch1, p), menor);
    OrdenarIndependeDaChegada(Filtrar(ch1, p), Filtrar(ch2, p), menor);
  }

  /** The order in which the products of an order arrive never changes a decision. */
  lemma DecisaoIndependeDaChegada(modo: Modo, bl: bool, ch1: seq<string>, ch2: seq<string>, m: Grades, ests: Estoques,
                                  saldo: Saldo)
    requires Distintos(ch1) && Distintos(ch2) && MesmosElementos(ch1, ch2)
    ensures DecidirPedido(modo, bl, ch1, m, ests, saldo) == DecidirPedido(modo, bl, ch2, m, ests, saldo)
  {
    FilaIndependeDaChegada(ch1, ch2, m, ests);
  }

  // ----- pass 1 is optimal

  ghost predicate NaoDecrescente(fila: seq<string>, falta: string -> nat) {
    forall i, j :: 0 <= i < j < |fila| ==> falta(fila[i]) <= falta(fila[j])
  }

  function ComoInt(f: string -> nat): string -> int { cd => f(cd) }

  lemma {:induction false} AprovarCabe(fila: seq<string>, falta: string -> nat, corte: nat)
    requires Distintos(fila)
    ensures var ap := Aprovar(fila, falta, corte);
            && Soma(ap, ComoInt(falta)) <= corte
            && Distintos(ap) && (forall x :: x in ap ==> x in fila)
            && (forall x :: x in fila && falta(x) == 0 ==> x in ap)
  {
    if fila != [] {
      assert forall x :: x in fila[1..] ==> x != fila[0];
      if falta(fila[0]) <= corte {
        AprovarCabe(fila[1..], falta, corte - falta(fila[0]));
        DistintosConcat([fila[0]], Aprovar(fila[1..], falta, corte - falta(fila[0])));
      } else {
        AprovarCabe(fila[1..], falta, corte);
      }
    }
  }

  lemma MinimoNaFrente(fila: seq<string>, falta: string -> nat, y: string)
    requires NaoDecrescente(fila, falta) && y in fila
    ensures falta(fila[0]) <= falta(y)
  {
    var j :| 0 <= j < |fila| && fila[j] == y;
  }

  /** Exchange argument: serving the cheapest cuts first serves at least as many
      products as any selection whose cuts fit the allowance together. */
  lemma {:induction false} AprovarOtimo(fila: seq<string>, falta: string -> nat, corte: nat, s: seq<string>)
    requires Distintos(fila) && NaoDecrescente(fila, falta)
    requires Distintos(s) && (forall x :: x in s ==> x in fila) && Soma(s, ComoInt(falta)) <= corte
    ensures |s| <= |Aprovar(fila, falta, corte)|
  {
    if s != [] {
      assert s[0] in fila;
      var x := fila[0];
      var i :| 0 <= i < |s| && (x in s ==> s[i] == x);
      var resto := s[..i] + s[i + 1..];
      RetirarUm(s, i, ComoInt(falta));
      SomaNaoNegativa(resto, ComoInt(falta));
      assert s[i] in fila;
      MinimoNaFrente(fila, falta, s[i]);
      forall y | y in resto ensures y in fila[1..] { assert y in s && y != x; }
      AprovarOtimo(fila[1..], falta, corte - falta(x), resto);
    }
  }

  /** Pass 1 of an order approves as many hole-free products as any selection whose
      necessary cuts fit what is left of the cut budget. */
  lemma Passada1Otima(chegada: seq<string>, m: Grades, ests: Estoques, corte: nat, s: seq<string>)
    requires Distintos(chegada) && Distintos(s)
    requires forall cd :: cd in s ==> cd in chegada && !TemFuro(Grade(m, cd), Local(ests, cd), cd)
    requires Soma(s, ComoInt(FaltaPor(m, ests))) <= corte
    ensures |s| <= |Aprovados(chegada, m, ests, corte)|
    ensures Soma(Aprovados(chegada, m, ests, corte), ComoInt(FaltaPor(m, ests))) <= corte
  {
    FilaPassada1Ok(chegada, m, ests);
    AprovarOtimo(FilaPassada1(chegada, m, ests), FaltaPor(m, ests), corte, s);
    AprovarCabe(FilaPassada1(chegada, m, ests), FaltaPor(m, ests), corte);
  }

  lemma FilaPassada1Ok(chegada: seq<string>, m: Grades, ests: Estoques)
    requires Distintos(chegada)
    ensures var f := FilaPassada1(chegada, m, ests);
            && Distintos(f) && NaoDecrescente(f, FaltaPor(m, ests))
            && forall cd :: cd in f <==> cd in chegada && !TemFuro(Grade(m, cd), Local(ests, cd), cd)
  {
    OrdensDasPassadas(m, ests);
    OrdenarFiltrado(chegada, SemFuro(m, ests), OrdemPassada1(m, ests));
    CrescentePelaFalta(FilaPassada1(chegada, m, ests), m, ests);
    assert forall cd :: SemFuro(m, ests)(cd) <==> !TemFuro(Grade(m, cd), Local(ests, cd), cd);
  }

  lemma CrescentePelaFalta(f: seq<string>, m: Grades, ests: Estoques)
    requires Crescente(f, OrdemPassada1(m, ests))
    ensures NaoDecrescente(f, FaltaPor(m, ests))
  {
    forall i, j | 0 <= i < j < |f| ensures FaltaPar(m, ests, f[i]) <= FaltaPar(m, ests, f[j]) {
      assert OrdemPassada1(m, ests)(f[i], f[j]);
    }
  }

  // ----- approval in closed form

  /** Greedy approval of a queue sorted by cost is approval by running total. */
  lemma {:induction false} AprovarPorAcumulado(fila: seq<string>, falta: string -> nat, corte: nat, k: nat)
    requires Distintos(fila) && NaoDecrescente(fila, falta) && k < |fila|
    ensures fila[k] in Aprovar(fila, falta, corte) <==> Soma(fila[..k + 1], ComoInt(falta)) <= corte
  {
    var f0, resto := falta(fila[0]), fila[1..];
    var saldo: nat := if f0 <= corte then corte - f0 else corte;
    hide NaoDecrescente;
    AprovarCabe(resto, falta, saldo);
    assert fila[0] !in resto;
    CaudaDoPrefixo(fila, k);
    SomaNaoNegativa(resto[..k], ComoInt(falta));
    if k > 0 {
      AprovarPorAcumulado(resto, falta, saldo, k - 1);
      assert resto[k - 1] == fila[k] && fila[k] in resto[..k];
    }
  }

  lemma CaudaDoPrefixo(fila: seq<string>, k: nat)
    requires k < |fila|
    ensures fila[..k + 1][0] == fila[0] && fila[..k + 1][1..] == fila[1..][..k]
  {}

  /** Hole-free products served no later than `cd`: smaller shortage first, then code. */
  function AteNaFila(m: Grades, ests: Estoques, cd: string): string -> bool {
    x => SemFuro(m, ests)(x) && (x == cd || MenorFalta(m, ests, x, cd))
  }

  /** Pass 1 in closed form: a product is approved exactly when its grade has no hole and
      the shortages of the hole-free products up to it fit the cut allowance together. */
  lemma AprovadoSse(chegada: seq<string>, m: Grades, ests: Estoques, corte: nat, cd: string)
    requires Distintos(chegada)
    ensures cd in Aprovados(chegada, m, ests, corte)
       <==> && cd in chegada && SemFuro(m, ests)(cd)
            && Soma(Filtrar(chegada, AteNaFila(m, ests, cd)), ComoInt(FaltaPor(m, ests))) <= corte
  {
    hide FaltaPar, TemFuro, Aprovar;
    var fila := FilaPassada1(chegada, m, ests);
    FilaPassada1Ok(chegada, m, ests);
    AprovarCabe(fila, FaltaPor(m, ests), corte);
    if cd in fila {
      var k :| 0 <= k < |fila| && fila[k] == cd;
      AprovarPorAcumulado(fila, FaltaPor(m, ests), corte, k);
      PrefixoDaFila(chegada, m, ests, k);
    }
  }

  lemma PrefixoDaFila(chegada: seq<string>, m: Grades, ests: Estoques, k: nat)
    requires Distintos(chegada) && k < |FilaPassada1(chegada, m, ests)|
    ensures var fila := FilaPassada1(chegada, m, ests);
            Soma(fila[..k + 1], ComoInt(FaltaPor(m, ests)))
            == Soma(Filtrar(chegada, AteNaFila(m, ests, fila[k])), ComoInt(FaltaPor(m, ests)))
  {
    hide FaltaPar, TemFuro, Ordenar, Filtrar;
    var fila := FilaPassada1(chegada, m, ests);
    var ate := Filtrar(chegada, AteNaFila(m, ests, fila[k]));
    FilaPassada1Ok(chegada, m, ests);
    OrdensDasPassadas(m, ests);
    OrdenarFiltrado(chegada, SemFuro(m, ests), OrdemPassada1(m, ests));
    DistintosFiltrar(chegada, AteNaFila(m, ests, fila[k]));
    forall x ensures x in fila[..k + 1] <==> x in ate {
      if x in fila {
        var j :| 0 <= j < |fila| && fila[j] == x;
        PosicaoNaFila(fila, OrdemPassada1(m, ests), j, k);
      }
    }
    DistintosMultiset(fila[..k + 1], ate);
    SomaPermutacao(fila[..k + 1], ate, ComoInt(FaltaPor(m, ests)));
  }

  lemma PosicaoNaFila(fila: seq<string>, menor: (string, string) -> bool, j: nat, k: nat)
    requires Ordem(menor) && Crescente(fila, menor) && j < |fila| && k < |fila|
    ensures fila[j] in fila[..k + 1] <==> fila[j] == fila[k] || menor(fila[j], fila[k])
  {
    if j <= k {
      assert fila[..k + 1][j] == fila[j];
    } else {
      assert menor(fila[k], fila[j]);
      forall i | 0 <= i < k + 1 ensures fila[i] != fila[j] { assert menor(fila[i], fila[j]); }
    }
  }

  lemma FilaPassada2Ok(ap: seq<string>, m: Grades, ests: Estoques)
    requires Distintos(ap)
    ensures var f := FilaPassada2(ap, m, ests);
            Distintos(f) && forall cd :: cd in f <==> cd in ap && FaltaPar(m, ests, cd) == 0
  {
    OrdensDasPassadas(m, ests);
    OrdenarFiltrado(ap, SemCorte(m, ests), OrdemPassada2(m));
    assert forall cd :: SemCorte(m, ests)(cd) <==> FaltaPar(m, ests, cd) == 0;
  }

  // ----- pass 2

  /** The addition allowance left when pass 2 reaches `cd`. */
  function SaldoAntes(fila: seq<string>, f: Concessor, adicao: nat, cd: string): nat {
    if fila == [] || fila[0] == cd then adicao else SaldoAntes(fila[1..], f, f(fila[0], adicao).1, cd)
  }

  lemma {:induction false} ExtrasVemDaPassada2(fila: seq<string>, f: Concessor, adicao: nat, cd: string)
    requires Distintos(fila)
    ensures var ex := Extras(fila, f, adicao);
            (cd in ex <==> cd in fila) && (cd in ex ==> ex[cd] == f(cd, SaldoAntes(fila, f, adicao, cd)).0)
  {
    if fila != [] { ExtrasVemDaPassada2(fila[1..], f, f(fila[0], adicao).1, cd); }
  }

  function AdicaoExtra(ex: map<string, seq<Linha>>): string -> int {
    cd => if cd in ex then Total(ex[cd], AdicaoDe()) else 0
  }

  lemma {:induction false} ExtrasGastamOSaldo(fila: seq<string>, f: Concessor, adicao: nat)
    requires Distintos(fila) && forall cd, s: nat :: cd in fila ==> Total(f(cd, s).0, AdicaoDe()) == s - f(cd, s).1
    ensures Soma(fila, AdicaoExtra(Extras(fila, f, adicao))) == adicao - RestanteAdicao(fila, f, adicao)
  {
    if fila != [] {
      var cd, g := fila[0], f(fila[0], adicao);
      assert cd in fila;
      ExtrasGastamOSaldo(fila[1..], f, g.1);
      var ex, ex1 := Extras(fila, f, adicao), Extras(fila[1..], f, g.1);
      assert forall x :: x in fila[1..] ==> x != cd;
      SomaIgual(fila[1..], AdicaoExtra(ex), AdicaoExtra(ex1));
    }
  }

  /** Pass 2 of a product that needed no cut charges exactly the pieces it adds. */
  lemma ConcessorGasta(m: Grades, ests: Estoques, cd: string, s: nat)
    requires FaltaPar(m, ests, cd) == 0
    ensures var g := ConcessorDe(m, ests)(cd, s);
            Total(g.0, AdicaoDe()) == s - g.1 && Total(g.0, CorteDe()) == 0
  {
    var base := Passada1(Grade(m, cd), Local(ests, cd), cd);
    BaseSemCorte(m, ests, cd);
    AdicaoEhConcedida(base, EspacoDe(base, Local(ests, cd), cd), s);
  }

  lemma BaseSemCorte(m: Grades, ests: Estoques, cd: string)
    requires FaltaPar(m, ests, cd) == 0
    ensures forall l :: l in Passada1(Grade(m, cd), Local(ests, cd), cd) ==> l.liquida == l.solicitada
  {}

  // ----- every reservation answers its request and fits the stock

  ghost predicate LinhasCorretas(ls: seq<Linha>, itens: seq<Item>, est: Estoque, cd: string) {
    Responde(ls, itens) && CabeNoEstoque(ls, est, cd)
  }

  lemma ConcederMantemCorretas(base: seq<Linha>, itens: seq<Item>, est: Estoque, cd: string, saldo: nat)
    requires LinhasCorretas(base, itens, est, cd)
    ensures LinhasCorretas(Conceder(base, est, cd, saldo).0, itens, est, cd)
  {
    hide Extremo, Conceder;
    var rs := Conceder(base, est, cd, saldo).0;
    ConcederPorLinha(base, est, cd, saldo);
    forall l | l in rs ensures l.liquida <= Disp(est, Chave(cd, l.tam)) {
      var k :| 0 <= k < |rs| && rs[k] == l;
      assert base[k] in base;
    }
  }

  lemma LinhasFinaisCorretas(fila: seq<string>, m: Grades, ests: Estoques, adicao: nat, cd: string)
    requires Distintos(fila)
    ensures LinhasCorretas(LinhasFinais(Extras(fila, ConcessorDe(m, ests), adicao), m, ests, cd), Grade(m, cd),
                           Local(ests, cd), cd)
  {
    var itens, est := Grade(m, cd), Local(ests, cd);
    ExtrasVemDaPassada2(fila, ConcessorDe(m, ests), adicao, cd);
    Passada1Responde(itens, est, cd);
    ConcederMantemCorretas(Passada1(itens, est, cd), itens, est, cd,
                           SaldoAntes(fila, ConcessorDe(m, ests), adicao, cd));
  }

  lemma FinanceiroMantemCorretas(ls: seq<Linha>, itens: seq<Item>, est: Estoque, cd: string)
    requires LinhasCorretas(ls, itens, est, cd) && Rateio.PesoTotal(Pesos(ls)) > 0
    ensures LinhasCorretas(Financeiro(ls), itens, est, cd)
  {
    FinanceiroSoMudaValor(ls);
    forall l | l in Financeiro(ls) ensures l.liquida <= Disp(est, Chave(cd, l.tam)) {
      var k :| 0 <= k < |ls| && Financeiro(ls)[k] == l;
      assert ls[k] in ls;
    }
  }

  lemma FecharMantemCorretas(ls: seq<Linha>, itens: seq<Item>, est: Estoque, cd: string)
    requires LinhasCorretas(ls, itens, est, cd)
    ensures var d := Fechar(ls); d.GerarOR? ==> d.linhas != [] && LinhasCorretas(d.linhas, itens, est, cd)
  {
    if ls != [] && Rateio.PesoTotal(Pesos(ls)) > 0 { FinanceiroMantemCorretas(ls, itens, est, cd); }
  }

  lemma AprovadosOk(chegada: seq<string>, m: Grades, ests: Estoques, corte: nat)
    requires Distintos(chegada)
    ensures var ap := Aprovados(chegada, m, ests, corte);
            && Distintos(ap) && Soma(ap, ComoInt(FaltaPor(m, ests))) <= corte
            && forall cd :: cd in ap ==> cd in chegada && !TemFuro(Grade(m, cd), Local(ests, cd), cd)
  {
    FilaPassada1Ok(chegada, m, ests);
    AprovarCabe(FilaPassada1(chegada, m, ests), FaltaPor(m, ests), corte);
  }

  /** In both modes, whatever an order reserves is exactly what was asked for, size by
      size, and no more than the local stock of each product. */
  lemma DecisaoCorreta(modo: Modo, bl: bool, chegada: seq<string>, m: Grades, ests: Estoques, saldo: Saldo, cd: string)
    requires Distintos(chegada) && cd in m
    ensures var ds := DecidirPedido(modo, bl, chegada, m, ests, saldo);
            cd in ds && (ds[cd].GerarOR? ==>
              ds[cd].linhas != [] && LinhasCorretas(ds[cd].linhas, m[cd], Local(ests, cd), cd))
  {
    if modo == SemAdequar || bl {
      TudoOuNadaSse(m[cd], Local(ests, cd), cd, bl);
    } else {
      var ap := Aprovados(chegada, m, ests, saldo.corte);
      AprovadosOk(chegada, m, ests, saldo.corte);
      FilaPassada2Ok(ap, m, ests);
      var ex := Extras(FilaPassada2(ap, m, ests), ConcessorDe(m, ests), saldo.adicao);
      LinhasFinaisCorretas(FilaPassada2(ap, m, ests), m, ests, saldo.adicao, cd);
      FecharMantemCorretas(LinhasFinais(ex, m, ests, cd), m[cd], Local(ests, cd), cd);
    }
  }

  // ----- what the saved reservations later count is what the ledger was charged

  function CorteDaDecisao(ds: map<string, Decisao>): string -> int {
    cd => if cd in ds && ds[cd].GerarOR? then Total(ds[cd].linhas, CorteDe()) else 0
  }

  function AdicaoDaDecisao(ds: map<string, Decisao>): string -> int {
    cd => if cd in ds && ds[cd].GerarOR? then Total(ds[cd].linhas, AdicaoDe()) else 0
  }

  lemma FinanceiroMantemDesvios(ls: seq<Linha>)
    requires Rateio.PesoTotal(Pesos(ls)) > 0
    ensures Total(Financeiro(ls), CorteDe()) == Total(ls, CorteDe())
    ensures Total(Financeiro(ls), AdicaoDe()) == Total(ls, AdicaoDe())
    ensures Total(Financeiro(ls), SolicitadaDe()) == Total(ls, SolicitadaDe())
  {
    var g := Reprecificar(TotalARatear(ls), Pesos(ls));
    SomaMapeada(ls, g, CorteDe(), CorteDe());
    SomaMapeada(ls, g, AdicaoDe(), AdicaoDe());
    SomaMapeada(ls, g, SolicitadaDe(), SolicitadaDe());
  }

  lemma FecharMantemDesvios(ls: seq<Linha>)
    requires ls != [] && !Fechar(ls).DivisaoPorZero?
    ensures Fechar(ls).GerarOR? && Total(Fechar(ls).linhas, CorteDe()) == Total(ls, CorteDe())
    ensures Total(Fechar(ls).linhas, AdicaoDe()) == Total(ls, AdicaoDe())
  {
    FinanceiroMantemDesvios(ls);
  }

  /** Deviations of one approved product: its cut is its shortage; it receives extras
      only when it needed no cut. */
  lemma DesviosDoPar(ap: seq<string>, m: Grades, ests: Estoques, adicao: nat, cd: string)
    requires Distintos(ap) && cd in ap
    ensures var fila := FilaPassada2(ap, m, ests);
            var ex := Extras(fila, ConcessorDe(m, ests), adicao);
            var ls := LinhasFinais(ex, m, ests, cd);
            && Total(ls, CorteDe()) == FaltaPar(m, ests, cd)
            && Total(ls, AdicaoDe()) == Restrita(fila, AdicaoExtra(ex))(cd)
  {
    var fila := FilaPassada2(ap, m, ests);
    var base := Passada1(Grade(m, cd), Local(ests, cd), cd);
    FilaPassada2Ok(ap, m, ests);
    ExtrasVemDaPassada2(fila, ConcessorDe(m, ests), adicao, cd);
    CorteEhFalta(Grade(m, cd), Local(ests, cd), cd);
    Passada1Responde(Grade(m, cd), Local(ests, cd), cd);
    SomaDeZeros(base, AdicaoDe());
    if cd in fila {
      ConcessorGasta(m, ests, cd, SaldoAntes(fila, ConcessorDe(m, ests), adicao, cd));
    }
  }

  /** Product by product, the saved rows carry the charge made to the ledger. */
  lemma ConsumoDoPar(chegada: seq<string>, m: Grades, ests: Estoques, saldo: Saldo, cd: string)
    requires Distintos(chegada) && cd in m && m[cd] != []
    requires !DecidirAdequar(chegada, m, ests, saldo)[cd].DivisaoPorZero?
    ensures var ds := DecidirAdequar(chegada, m, ests, saldo);
            var ap := Aprovados(chegada, m, ests, saldo.corte);
            var fila := FilaPassada2(ap, m, ests);
            && CorteDaDecisao(ds)(cd) == Restrita(ap, ComoInt(FaltaPor(m, ests)))(cd)
            && AdicaoDaDecisao(ds)(cd)
              == Restrita(fila, AdicaoExtra(Extras(fila, ConcessorDe(m, ests), saldo.adicao)))(cd)
  {
    var ap := Aprovados(chegada, m, ests, saldo.corte);
    var fila := FilaPassada2(ap, m, ests);
    AprovadosOk(chegada, m, ests, saldo.corte);
    FilaPassada2Ok(ap, m, ests);
    if cd in ap {
      DesviosDoPar(ap, m, ests, saldo.adicao, cd);
      LinhasFinaisCorretas(fila, m, ests, saldo.adicao, cd);
      FecharMantemDesvios(LinhasFinais(Extras(fila, ConcessorDe(m, ests), saldo.adicao), m, ests, cd));
    }
  }

  lemma CorteConsumido(chegada: seq<string>, m: Grades, ests: Estoques, saldo: Saldo)
    requires Distintos(chegada) && (forall cd :: cd in chegada <==> cd in m)
    requires !Aborta(DecidirAdequar(chegada, m, ests, saldo)) && forall cd :: cd in m ==> m[cd] != []
    ensures var ap := Aprovados(chegada, m, ests, saldo.corte);
            Soma(chegada, CorteDaDecisao(DecidirAdequar(chegada, m, ests, saldo)))
              == Soma(ap, ComoInt(FaltaPor(m, ests))) <= saldo.corte
  {
    hide Desfecho, FaltaPor, Aprovados, Soma;
    var ds := DecidirAdequar(chegada, m, ests, saldo);
    var ap := Aprovados(chegada, m, ests, saldo.corte);
    AprovadosOk(chegada, m, ests, saldo.corte);
    forall cd | cd in chegada ensures CorteDaDecisao(ds)(cd) == Restrita(ap, ComoInt(FaltaPor(m, ests)))(cd) {
      ConsumoDoPar(chegada, m, ests, saldo, cd);
    }
    SomaIgual(chegada, CorteDaDecisao(ds), Restrita(ap, ComoInt(FaltaPor(m, ests))));
    SomaRestrita(chegada, ap, ComoInt(FaltaPor(m, ests)));
  }

  lemma AdicaoConsumida(chegada: seq<string>, m: Grades, ests: Estoques, saldo: Saldo)
    requires Distintos(chegada) && (forall cd :: cd in chegada <==> cd in m)
    requires !Aborta(DecidirAdequar(chegada, m, ests, saldo)) && forall cd :: cd in m ==> m[cd] != []
    ensures var fila := FilaPassada2(Aprovados(chegada, m, ests, saldo.corte), m, ests);
            Soma(chegada, AdicaoDaDecisao(DecidirAdequar(chegada, m, ests, saldo)))
              == saldo.adicao - RestanteAdicao(fila, ConcessorDe(m, ests), saldo.adicao) <= saldo.adicao
  {
    hide Desfecho, FaltaPor, Aprovados, FilaPassada2, Soma, Extras, RestanteAdicao;
    var ds := DecidirAdequar(chegada, m, ests, saldo);
    var ap := Aprovados(chegada, m, ests, saldo.corte);
    var fila, f := FilaPassada2(ap, m, ests), ConcessorDe(m, ests);
    var adicao := AdicaoExtra(Extras(fila, f, saldo.adicao));
    AprovadosOk(chegada, m, ests, saldo.corte);
    FilaPassada2Ok(ap, m, ests);
    forall cd | cd in chegada
      ensures AdicaoDaDecisao(ds)(cd) == Restrita(fila, adicao)(cd)
    {
      ConsumoDoPar(chegada, m, ests, saldo, cd);
    }
    SomaIgual(chegada, AdicaoDaDecisao(ds), Restrita(fila, adicao));
    SomaRestrita(chegada, fila, adicao);
    forall cd, s: nat | cd in fila
      ensures Total(f(cd, s).0, AdicaoDe()) == s - f(cd, s).1
    {
      ConcessorGasta(m, ests, cd, s);
    }
    ExtrasGastamOSaldo(fila, f, saldo.adicao);
  }

  /** One ADEQUAR run of an order: the cut and the addition counted from the saved
      rows equal the two ledger decrements, hence never exceed what was left. */
  lemma ConsumoEhODoLedger(chegada: seq<string>, m: Grades, ests: Estoques, saldo: Saldo)
    requires Distintos(chegada) && (forall cd :: cd in chegada <==> cd in m)
    requires !Aborta(DecidirAdequar(chegada, m, ests, saldo)) && forall cd :: cd in m ==> m[cd] != []
    ensures var ds := DecidirAdequar(chegada, m, ests, saldo);
            var ap := Aprovados(chegada, m, ests, saldo.corte);
            && Soma(chegada, CorteDaDecisao(ds)) == Soma(ap, ComoInt(FaltaPor(m, ests))) <= saldo.corte
            && Soma(chegada, AdicaoDaDecisao(ds))
              == saldo.adicao - RestanteAdicao(FilaPassada2(ap, m, ests), ConcessorDe(m, ests), saldo.adicao)
              <= saldo.adicao
  {
    CorteConsumido(chegada, m, ests, saldo);
    AdicaoConsumida(chegada, m, ests, saldo);
  }

  /** Room for extra pieces at the extreme sizes of a product. */
  function EspacoDoProduto(m: Grades, ests: Estoques): string -> int {
    cd => var ls := Passada1(Grade(m, cd), Local(ests, cd), cd); EspacoTotal(ls, EspacoDe(ls, Local(ests, cd), cd))
  }

  lemma {:induction false} RestanteExato(fila: seq<string>, m: Grades, ests: Estoques, adicao: nat)
    ensures RestanteAdicao(fila, ConcessorDe(m, ests), adicao) == Max(0, adicao - Soma(fila, EspacoDoProduto(m, ests)))
  {
    hide Passada1, Distribuir, EspacoTotal, EspacoDe;
    forall cd | cd in fila ensures EspacoDoProduto(m, ests)(cd) >= 0 {
      var ls := Passada1(Grade(m, cd), Local(ests, cd), cd);
      EspacoNaoNegativo(ls, EspacoDe(ls, Local(ests, cd), cd));
    }
    if fila != [] {
      var ls := Passada1(Grade(m, fila[0]), Local(ests, fila[0]), fila[0]);
      DistribuirExato(ls, EspacoDe(ls, Local(ests, fila[0]), fila[0]), adicao);
      SomaNaoNegativa(fila[1..], EspacoDoProduto(m, ests));
      RestanteExato(fila[1..], m, ests, ConcessorDe(m, ests)(fila[0], adicao).1);
    }
  }

  /** What an order adds is exactly its allowance or, if smaller, all the room at the
      extreme sizes of the products that pass 1 approved without a cut. */
  lemma AdicaoExata(chegada: seq<string>, m: Grades, ests: Estoques, saldo: Saldo)
    requires Distintos(chegada) && (forall cd :: cd in chegada <==> cd in m)
    requires !Aborta(DecidirAdequar(chegada, m, ests, saldo)) && forall cd :: cd in m ==> m[cd] != []
    ensures var fila := FilaPassada2(Aprovados(chegada, m, ests, saldo.corte), m, ests);
            Soma(chegada, AdicaoDaDecisao(DecidirAdequar(chegada, m, ests, saldo)))
              == Min(saldo.adicao, Soma(fila, EspacoDoProduto(m, ests)))
  {
    hide DecidirAdequar, Aprovados, FilaPassada2, RestanteAdicao, EspacoDoProduto;
    ConsumoEhODoLedger(chegada, m, ests, saldo);
    RestanteExato(FilaPassada2(Aprovados(chegada, m, ests, saldo.corte), m, ests), m, ests, saldo.adicao);
  }

  /** All-or-nothing reservations deviate from the request by nothing. */
  lemma TudoOuNadaNaoConsome(chegada: seq<string>, m: Grades, ests: Estoques, bl: bool)
    requires forall cd :: cd in chegada <==> cd in m
    ensures var ds := DecidirTudoOuNada(m, ests, bl);
            Soma(chegada, CorteDaDecisao(ds)) == 0 && Soma(chegada, AdicaoDaDecisao(ds)) == 0
  {
    var ds := DecidirTudoOuNada(m, ests, bl);
    forall cd | cd in chegada ensures CorteDaDecisao(ds)(cd) == 0 && AdicaoDaDecisao(ds)(cd) == 0 {
      TudoOuNadaSse(m[cd], Local(ests, cd), cd, bl);
      if ds[cd].GerarOR? {
        SomaDeZeros(ds[cd].linhas, CorteDe());
        SomaDeZeros(ds[cd].linhas, AdicaoDe());
      }
    }
    SomaDeZeros(chegada, CorteDaDecisao(ds));
    SomaDeZeros(chegada, AdicaoDaDecisao(ds));
  }

  // ----- when an order aborts the run

  /** In terms of what pass 1 approved. */
  lemma AbortaSeAprovadoSemEstoque(chegada: seq<string>, m: Grades, ests: Estoques, saldo: Saldo, cd: string)
    requires Distintos(chegada) && (forall c :: c in chegada <==> c in m) && cd in m
    requires m[cd] != [] && forall i :: i in m[cd] ==> i.qt > 0
    ensures DecidirAdequar(chegada, m, ests, saldo)[cd].DivisaoPorZero?
        <==> && cd in Aprovados(chegada, m, ests, saldo.corte)
             && forall i :: i in m[cd] ==> Disp(Local(ests, cd), Chave(cd, i.tam)) == 0
  {
    var est := Local(ests, cd);
    var ap := Aprovados(chegada, m, ests, saldo.corte);
    AprovadosOk(chegada, m, ests, saldo.corte);
    if cd in ap {
      var fila := FilaPassada2(ap, m, ests);
      FilaPassada2Ok(ap, m, ests);
      ExtrasVemDaPassada2(fila, ConcessorDe(m, ests), saldo.adicao, cd);
      AbortaSse(m[cd], est, cd);
      if cd in fila { ComFolgaNaoAborta(fila, m, ests, saldo.adicao, cd); }
    }
  }

  /** An order aborts the run exactly on a product with no stock in any requested size,
      no hole, and shortages up to it that fit the cut allowance: the grade is cut to
      nothing and its money cannot be split. */
  lemma AbortaSeCortaTudo(chegada: seq<string>, m: Grades, ests: Estoques, saldo: Saldo, cd: string)
    requires Distintos(chegada) && (forall c :: c in chegada <==> c in m) && cd in m
    requires m[cd] != [] && forall i :: i in m[cd] ==> i.qt > 0
    ensures DecidirAdequar(chegada, m, ests, saldo)[cd].DivisaoPorZero?
       <==> && (forall i :: i in m[cd] ==> Disp(Local(ests, cd), Chave(cd, i.tam)) == 0)
            && !TemFuro(m[cd], Local(ests, cd), cd)
            && Soma(Filtrar(chegada, AteNaFila(m, ests, cd)), ComoInt(FaltaPor(m, ests))) <= saldo.corte
  {
    hide FaltaPor, Aprovados, Filtrar, TemFuro, DecidirAdequar;
    AbortaSeAprovadoSemEstoque(chegada, m, ests, saldo, cd);
    AprovadoSse(chegada, m, ests, saldo.corte, cd);
  }

  lemma ComFolgaNaoAborta(fila: seq<string>, m: Grades, ests: Estoques, adicao: nat, cd: string)
    requires Distintos(fila) && cd in fila && cd in m && FaltaPar(m, ests, cd) == 0
    requires m[cd] != [] && m[cd][0].qt > 0
    ensures !Fechar(LinhasFinais(Extras(fila, ConcessorDe(m, ests), adicao), m, ests, cd)).DivisaoPorZero?
    ensures Disp(Local(ests, cd), Chave(cd, m[cd][0].tam)) > 0
  {
    var est := Local(ests, cd);
    var base := Passada1(m[cd], est, cd);
    ExtrasVemDaPassada2(fila, ConcessorDe(m, ests), adicao, cd);
    var ls := Extras(fila, ConcessorDe(m, ests), adicao)[cd];
    ConcederPorLinha(base, est, cd, SaldoAntes(fila, ConcessorDe(m, ests), adicao, cd));
    PesosSomamLiquida(ls);
    SomaNaoNegativa(ls, LiquidaDe());
    SemFaltaCabe(m[cd], est, cd, m[cd][0]);
    assert ls[0] in ls;
  }
}
