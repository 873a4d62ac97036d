/** Who is served first, in the terms of the input: orders of a channel, and products of an
    order in each pass. */
module MotorPrioridade {
  import opened Aritmetica
  import opened Listas
  import opened Orcamento
  import opened Motor
  import opened MotorPar
  import opened MotorPedido
  import opened MotorCanal
  import opened MotorTeoremas

  // ----- the queue of orders

  /** Some stock entry under the product's code and the separator has pieces. */
  predicate TemEstoque(estoque: seq<Posicao>, cd: string) { exists p | p in estoque :: cd + "_" <= p.chave && p.qt > 0 }

  /** The pieces an order asks for of products that have stock. */
  function PecasDisponiveis(dados: seq<Item>, estoque: seq<Posicao>, nr: int): int {
    Soma(dados, (i: Item) => if i.nr == nr && TemEstoque(estoque, i.cd) then i.qt else 0)
  }

  /** The cents of those rows. */
  function CentavosDisponiveis(dados: seq<Item>, estoque: seq<Posicao>, nr: int): int {
    Soma(dados, (i: Item) => if i.nr == nr && TemEstoque(estoque, i.cd) then i.vl else 0)
  }

  /** The distinct products of those rows. */
  function QuantosDisponiveis(dados: seq<Item>, estoque: seq<Posicao>, nr: int): nat {
    |set i | i in dados && i.nr == nr && TemEstoque(estoque, i.cd) :: i.cd|
  }

  lemma PrefixoSse(chave: string, cd: string)
    ensures DoPrefixo(chave, cd) <==> cd + "_" <= chave
  {
    if cd + "_" <= chave { assert (cd + "_")[|cd|] == '_' && chave[..|cd|] == cd; }
  }

  lemma ComEstoqueSse(estoque: seq<Posicao>, cd: string)
    ensures TotalProduto(estoque, cd) > 0 <==> TemEstoque(estoque, cd)
  {
    var f := QtNoPrefixo(cd);
    SomaNaoNegativa(estoque, f);
    forall p ensures f(p) > 0 <==> cd + "_" <= p.chave && p.qt > 0 { PrefixoSse(p.chave, cd); }
    if TotalProduto(estoque, cd) == 0 {
      forall p | p in estoque ensures f(p) == 0 { ParcelaNula(estoque, f, p); }
    } else {
      if forall p :: p in estoque ==> f(p) == 0 { SomaDeZeros(estoque, f); }
    }
  }

  lemma {:induction false} ParcelaNula<T>(s: seq<T>, f: T -> int, x: T)
    requires x in s && Soma(s, f) == 0 && forall y :: y in s ==> f(y) >= 0
    ensures f(x) == 0
  {
    SomaNaoNegativa(s[1..], f);
    if s[0] != x { ParcelaNula(s[1..], f, x); }
  }

  lemma {:induction false} SomaFiltrada<T>(s: seq<T>, p: T -> bool, f: T -> int, g: T -> int)
    requires forall x :: x in s ==> g(x) == if p(x) then f(x) else 0
    ensures Soma(Filtrar(s, p), f) == Soma(s, g)
  {
    if s != [] {
      SomaFiltrada(s[1..], p, f, g);
      SomaConcat(if p(s[0]) then [s[0]] else [], Filtrar(s[1..], p), f);
    }
  }

  /** The score is the pieces or the cents, as the criterion says. */
  lemma PontosSao(dados: seq<Item>, estoque: seq<Posicao>, porQuantidade: bool, nr: int)
    ensures Pontos(ItensDoPedido(dados, nr), estoque, porQuantidade)
      == if porQuantidade then PecasDisponiveis(dados, estoque, nr) else CentavosDisponiveis(dados, estoque, nr)
  {
    hide TotalProduto, TemEstoque;
    var f := PontosDe(estoque, porQuantidade);
    forall i: Item
      ensures TotalProduto(estoque, i.cd) > 0 <==> TemEstoque(estoque, i.cd)
    {
      ComEstoqueSse(estoque, i.cd);
    }
    if porQuantidade {
      SomaFiltrada(dados, DoPedido(nr), f, (i: Item) => if i.nr == nr && TemEstoque(estoque, i.cd) then i.qt else 0);
    } else {
      SomaFiltrada(dados, DoPedido(nr), f, (i: Item) => if i.nr == nr && TemEstoque(estoque, i.cd) then i.vl else 0);
    }
  }

  lemma DisponiveisSao(dados: seq<Item>, estoque: seq<Posicao>, nr: int)
    ensures ProdutosDisponiveis(ItensDoPedido(dados, nr), estoque) == QuantosDisponiveis(dados, estoque, nr)
  {
    hide TotalProduto, TemEstoque;
    forall i: Item
      ensures TotalProduto(estoque, i.cd) > 0 <==> TemEstoque(estoque, i.cd)
    {
      ComEstoqueSse(estoque, i.cd);
    }
    var its := ItensDoPedido(dados, nr);
    assert (set i | i in its && TotalProduto(estoque, i.cd) > 0 :: i.cd)
        == (set i | i in dados && i.nr == nr && TemEstoque(estoque, i.cd) :: i.cd) by {
      assert forall i :: i in its <==> i in dados && DoPedido(nr)(i);
    }
  }

  /** The queue holds, once each, the orders none of whose rows is blocked by credit. */
  lemma NaFilaSse(dados: seq<Item>, estoque: seq<Posicao>, cfg: Config, nr: int)
    ensures Distintos(Fila(dados, estoque, cfg))
    ensures nr in Fila(dados, estoque, cfg)
       <==> (exists i :: i in dados && i.nr == nr) && forall i :: i in dados && i.nr == nr ==> !i.semCredito
  {
    hide Fila, Nrs;
    FilaOk(dados, estoque, cfg);
    NrsSao(dados, nr);
    assert forall i :: i in ItensDoPedido(dados, nr) <==> i in dados && DoPedido(nr)(i);
  }

  lemma FilaCrescente(dados: seq<Item>, estoque: seq<Posicao>, cfg: Config, i: nat, j: nat)
    requires i < |Fila(dados, estoque, cfg)| && j < |Fila(dados, estoque, cfg)|
    ensures var (a, b) := (Fila(dados, estoque, cfg)[i], Fila(dados, estoque, cfg)[j]);
            && (i < j ==> VemAntes(dados, estoque, cfg.porQuantidade, a, b))
            && (j < i ==> VemAntes(dados, estoque, cfg.porQuantidade, b, a))
  {
    hide VemAntes, Ordenar, Filtrar;
    var menor := OrdemPrioridade(dados, estoque, cfg.porQuantidade);
    PrioridadeEhOrdem(dados, estoque, cfg.porQuantidade);
    OrdenarFiltrado(Nrs(dados), ComCredito(dados), menor);
    var fila := Fila(dados, estoque, cfg);
    assert i < j ==> menor(fila[i], fila[j]);
    assert j < i ==> menor(fila[j], fila[i]);
  }

  /** Main result: of two orders in the queue, the first is the one that asks for more
      pieces of products with stock (or, under the value criterion, the one whose rows of
      such products are worth more); on a tie, the one with more such products; on a tie
      again, the one with the smaller number. */
  lemma FilaPorCriterio(dados: seq<Item>, estoque: seq<Posicao>, cfg: Config, i: nat, j: nat)
    requires i < |Fila(dados, estoque, cfg)| && j < |Fila(dados, estoque, cfg)|
    ensures var a, b := Fila(dados, estoque, cfg)[i], Fila(dados, estoque, cfg)[j];
            var pa := if cfg.porQuantidade then PecasDisponiveis(dados, estoque, a)
              else CentavosDisponiveis(dados, estoque, a);
            var pb := if cfg.porQuantidade then PecasDisponiveis(dados, estoque, b)
              else CentavosDisponiveis(dados, estoque, b);
            var na, nb := QuantosDisponiveis(dados, estoque, a), QuantosDisponiveis(dados, estoque, b);
            i < j <==> pa > pb || (pa == pb && (na > nb || (na == nb && a < b)))
  {
    hide Pontos, ProdutosDisponiveis, ItensDoPedido, PecasDisponiveis, CentavosDisponiveis, QuantosDisponiveis, Ordenar,
      Filtrar, Nrs, ComCredito;
    var a, b := Fila(dados, estoque, cfg)[i], Fila(dados, estoque, cfg)[j];
    FilaCrescente(dados, estoque, cfg, i, j);
    PontosSao(dados, estoque, cfg.porQuantidade, a);
    PontosSao(dados, estoque, cfg.porQuantidade, b);
    DisponiveisSao(dados, estoque, a);
    DisponiveisSao(dados, estoque, b);
  }

  // ----- how an order is decided

  /** The rows of one product of the order. */
  lemma GradeDoPar(its: seq<Item>, cd: string, i: Item)
    requires exists x :: x in its && x.cd == cd
    ensures cd in Agrupar(its) && Agrupar(its)[cd] != [] && (i in Agrupar(its)[cd] <==> i in its && i.cd == cd)
  {
    ProdutosSao(its, cd);
    assert i in Filtrar(its, DoProduto(cd)) <==> i in its && DoProduto(cd)(i);
  }

  /** Without adequation, or with any row on the blacklist, a product is reserved exactly when
      every row of it fits its stock; otherwise it is deferred, as blacklisted exactly when
      some row of the order is. */
  lemma SemAdequacaoSse(cfg: Config, nr: int, its: seq<Item>, ests: Estoques, cd: string)
    requires cfg.modo == SemAdequar || exists i :: i in its && i.blacklist
    requires exists i :: i in its && i.cd == cd
    ensures cd in DecisaoDoPedido(cfg, nr, its, ests)
    ensures var d := DecisaoDoPedido(cfg, nr, its, ests)[cd];
            && (d.GerarOR? <==>
                 forall i :: i in its && i.cd == cd ==> i.qt <= Disp(Local(ests, cd), cd + "_" + i.tam))
            && (d == StandBy(Blacklist) <==> !d.GerarOR? && exists i :: i in its && i.blacklist)
  {
    forall i ensures i in Agrupar(its)[cd] <==> i in its && i.cd == cd { GradeDoPar(its, cd, i); }
    TudoOuNadaSse(Agrupar(its)[cd], Local(ests, cd), cd, NaBlacklist(its));
    assert forall i: Item :: Chave(cd, i.tam) == cd + "_" + i.tam;
  }

  /** Otherwise the two passes run on the order's rows with what is left of its budget. */
  lemma ComAdequacao(cfg: Config, nr: int, its: seq<Item>, ests: Estoques)
    requires cfg.modo == Adequar && forall i :: i in its ==> !i.blacklist
    ensures DecisaoDoPedido(cfg, nr, its, ests)
      == DecidirAdequar(Produtos(its), Agrupar(its), ests, SaldoDoPedido(cfg, nr, its))
  {}

  /** The budget left: the tolerated share of the order's original total, or of its own rows
      when there is no record of it, less what was consumed before, at least zero. */
  lemma SaldoSse(cfg: Config, nr: int, its: seq<Item>)
    ensures Soma(its, QtDe()) >= 0
    ensures var total: nat := if nr in cfg.totalOriginal then cfg.totalOriginal[nr] else Soma(its, QtDe());
            var limite := cfg.tolerancia.num * total / cfg.tolerancia.den;
            var adicao := if nr in cfg.previoAdicao then cfg.previoAdicao[nr] else 0;
            var corte := if nr in cfg.previoCorte then cfg.previoCorte[nr] else 0;
            SaldoDoPedido(cfg, nr, its).adicao == Max(0, limite - adicao)
              && SaldoDoPedido(cfg, nr, its).corte == Max(0, limite - corte)
  {
    SomaNaoNegativa(its, QtDe());
  }

  // ----- the motives

  /** Under adequation a product is deferred for a hole exactly when its grade has one, and
      otherwise for stock exactly when pass 1 did not approve it. */
  lemma MotivoSse(chegada: seq<string>, m: Grades, ests: Estoques, saldo: Saldo, cd: string)
    requires Distintos(chegada) && (forall c :: c in chegada <==> c in m) && cd in m && m[cd] != []
    ensures var d := DecidirAdequar(chegada, m, ests, saldo)[cd];
            && (d == StandBy(FuroGrade) <==> TemFuro(m[cd], Local(ests, cd), cd))
            && (d == StandBy(SemEstoque) <==>
                 !TemFuro(m[cd], Local(ests, cd), cd) && cd !in Aprovados(chegada, m, ests, saldo.corte))
            && d != StandBy(Blacklist)
  {
    hide Aprovados, FilaPassada2, Extras, TemFuro, Conceder, Passada1, Financeiro;
    var ap := Aprovados(chegada, m, ests, saldo.corte);
    AprovadosOk(chegada, m, ests, saldo.corte);
    if cd in ap {
      FilaPassada2Ok(ap, m, ests);
      LinhasFinaisCorretas(FilaPassada2(ap, m, ests), m, ests, saldo.adicao, cd);
    }
  }

  // ----- pass 1

  lemma {:induction false} RecusadoCustaMais(fila: seq<string>, falta: string -> nat, corte: nat, i: nat, j: nat)
    requires Distintos(fila) && NaoDecrescente(fila, falta) && i < |fila| && j < |fila|
    requires fila[i] in Aprovar(fila, falta, corte) && fila[j] !in Aprovar(fila, falta, corte)
    ensures i < j
  {
    AprovarPorAcumulado(fila, falta, corte, i);
    AprovarPorAcumulado(fila, falta, corte, j);
    if j < i {
      assert fila[..i + 1] == fila[..j + 1] + fila[j + 1..i + 1];
      SomaConcat(fila[..j + 1], fila[j + 1..i + 1], ComoInt(falta));
      SomaNaoNegativa(fila[j + 1..i + 1], ComoInt(falta));
    }
  }

  /** Of two products, the one pass 1 refuses for want of cut needs a larger cut than the
      one it serves or, on a tie, comes later alphabetically. */
  lemma MenorCortePrimeiro(chegada: seq<string>, m: Grades, ests: Estoques, saldo: Saldo, x: string, y: string)
    requires Distintos(chegada) && (forall cd :: cd in chegada <==> cd in m)
    requires x in m && y in m && m[x] != [] && m[y] != []
    requires var ds := DecidirAdequar(chegada, m, ests, saldo); !ds[x].StandBy? && ds[y] == StandBy(SemEstoque)
    ensures var (fx, fy) :=
              (FaltaNecessaria(m[x], Local(ests, x), x), FaltaNecessaria(m[y], Local(ests, y), y));
            fx < fy || (fx == fy && MenorTexto(x, y))
  {
    hide FaltaNecessaria, TemFuro, Aprovar, NaoDecrescente, DecidirAdequar;
    var fila := FilaPassada1(chegada, m, ests);
    FilaPassada1Ok(chegada, m, ests);
    OrdensDasPassadas(m, ests);
    OrdenarFiltrado(chegada, SemFuro(m, ests), OrdemPassada1(m, ests));
    AprovarCabe(fila, FaltaPor(m, ests), saldo.corte);
    MotivoSse(chegada, m, ests, saldo, x);
    MotivoSse(chegada, m, ests, saldo, y);
    var i :| 0 <= i < |fila| && fila[i] == x;
    var j :| 0 <= j < |fila| && fila[j] == y;
    RecusadoCustaMais(fila, FaltaPor(m, ests), saldo.corte, i, j);
    assert OrdemPassada1(m, ests)(fila[i], fila[j]);
  }

  // ----- pass 2

  /** What reaches a product of the queue is no more than what an earlier one left. */
  lemma {:induction false} SaldoDesce(fila: seq<string>, f: Concessor, adicao: nat, i: nat, j: nat)
    requires Distintos(fila) && i < j < |fila| && forall cd, s: nat :: f(cd, s).1 <= s
    ensures SaldoAntes(fila, f, adicao, fila[j]) <= f(fila[i], SaldoAntes(fila, f, adicao, fila[i])).1
  {
    assert fila[j] == fila[1..][j - 1] && fila[0] != fila[j];
    if i == 0 {
      SaldoNoMaximo(fila[1..], f, f(fila[0], adicao).1, j - 1);
    } else {
      assert fila[i] == fila[1..][i - 1] && fila[0] != fila[i];
      SaldoDesce(fila[1..], f, f(fila[0], adicao).1, i - 1, j - 1);
    }
  }

  lemma {:induction false} SaldoNoMaximo(fila: seq<string>, f: Concessor, adicao: nat, j: nat)
    requires Distintos(fila) && j < |fila| && forall cd, s: nat :: f(cd, s).1 <= s
    ensures SaldoAntes(fila, f, adicao, fila[j]) <= adicao
  {
    if j > 0 {
      assert fila[j] == fila[1..][j - 1] && fila[0] != fila[j];
      SaldoNoMaximo(fila[1..], f, f(fila[0], adicao).1, j - 1);
    }
  }

  /** Every requested size fits the stock. */
  predicate SemCorteNenhum(itens: seq<Item>, est: Estoque, cd: string) {
    forall i | i in itens :: i.qt <= Disp(est, Chave(cd, i.tam))
  }

  /** The smallest or the largest known size among the rows. */
  predicate NaPonta(ls: seq<Linha>, l: Linha) {
    && l.idx != 999
    && ((forall k | k in ls :: k.idx != 999 ==> l.idx <= k.idx)
      || (forall k | k in ls :: k.idx != 999 ==> k.idx <= l.idx))
  }

  /** Cents over pieces; zero when no pieces are asked for. */
  function Preco(itens: seq<Item>): (int, int) {
    var pecas := Soma(itens, (i: Item) => i.qt);
    if pecas > 0 then (Soma(itens, (i: Item) => i.vl), pecas) else (0, 1)
  }

  lemma PrecoSao(itens: seq<Item>)
    ensures Preco(itens).1 > 0 && PrecoMedio(itens) == Preco(itens).0 as real / Preco(itens).1 as real
  {
    SomaIgual(itens, QtDe(), (i: Item) => i.qt);
    SomaIgual(itens, VlDe(), (i: Item) => i.vl);
  }

  /** `x` costs more per piece than `y` or, at the same price, comes first alphabetically. */
  predicate CustaMais(m: Grades, x: string, y: string)
    requires x in m && y in m
  {
    var (vx, qx) := Preco(m[x]);
    var (vy, qy) := Preco(m[y]);
    vx * qy > vy * qx || (vx * qy == vy * qx && MenorTexto(x, y))
  }

  lemma FracoesComparam(a: int, b: int, c: int, d: int)
    requires b > 0 && d > 0
    ensures a as real / b as real > c as real / d as real <==> a * d > c * b
    ensures a as real / b as real == c as real / d as real <==> a * d == c * b
  {
    var p, q := a as real / b as real, c as real / d as real;
    var e := b as real * d as real;
    assert p * b as real == a as real && q * d as real == c as real;
    assert p * e == a as real * d as real == (a * d) as real;
    assert q * e == c as real * b as real == (c * b) as real;
    assert p > q <==> p * e > q * e;
  }

  lemma CustaMaisSse(m: Grades, x: string, y: string)
    requires x in m && y in m
    ensures CustaMais(m, x, y) <==> MaiorPreco(m, x, y)
  {
    var (vx, qx) := Preco(m[x]);
    var (vy, qy) := Preco(m[y]);
    PrecoSao(m[x]);
    PrecoSao(m[y]);
    FracoesComparam(vx, qx, vy, qy);
  }

  /** Which saved rows an uncut product has after pass 2. */
  lemma LinhasDaPassada2(chegada: seq<string>, m: Grades, ests: Estoques, saldo: Saldo, cd: string)
    requires Distintos(chegada) && (forall c :: c in chegada <==> c in m) && cd in m
    requires DecidirAdequar(chegada, m, ests, saldo)[cd].GerarOR? && SemCorteNenhum(m[cd], Local(ests, cd), cd)
    ensures cd in DecidirAdequar(chegada, m, ests, saldo)
    ensures var fila := FilaPassada2(Aprovados(chegada, m, ests, saldo.corte), m, ests);
            var base := Passada1(m[cd], Local(ests, cd), cd);
            var g := Conceder(base, Local(ests, cd), cd, SaldoAntes(fila, ConcessorDe(m, ests), saldo.adicao, cd));
            var ls := DecidirAdequar(chegada, m, ests, saldo)[cd].linhas;
            && cd in fila && |ls| == |g.0| == |base|
            && (forall k :: 0 <= k < |ls| ==> ls[k] == g.0[k].(vl := ls[k].vl, diff := ls[k].diff))
            && (forall k :: 0 <= k < |ls| ==> base[k].liquida == base[k].solicitada == ls[k].solicitada)
  {
    hide Aprovados, FilaPassada2, TemFuro, Passada1, Conceder, Financeiro;
    var ap := Aprovados(chegada, m, ests, saldo.corte);
    var fila := FilaPassada2(ap, m, ests);
    AprovadosOk(chegada, m, ests, saldo.corte);
    FilaPassada2Ok(ap, m, ests);
    SomaDeZeros(m[cd], FaltaDe(Local(ests, cd), cd));
    BaseSemCorte(m, ests, cd);
    ExtrasVemDaPassada2(fila, ConcessorDe(m, ests), saldo.adicao, cd);
    var g := ConcessorDe(m, ests)(cd, SaldoAntes(fila, ConcessorDe(m, ests), saldo.adicao, cd)).0;
    FinanceiroSoMudaValor(g);
    ConcederPorLinha(Passada1(m[cd], Local(ests, cd), cd), Local(ests, cd), cd,
                     SaldoAntes(fila, ConcessorDe(m, ests), saldo.adicao, cd));
  }

  lemma SaldoPositivo(ls: seq<Linha>, est: Estoque, cd: string, saldo: nat, k: nat)
    requires k < |ls|
    ensures |Conceder(ls, est, cd, saldo).0| == |ls|
    ensures Conceder(ls, est, cd, saldo).0[k].liquida > ls[k].liquida ==> saldo > 0
  {
    ConcederPorLinha(ls, est, cd, saldo);
    if saldo == 0 { SemSaldo(ls, EspacoDe(ls, est, cd)); }
  }

  lemma PontasCheias(base: seq<Linha>, est: Estoque, cd: string, saldo: nat, ls: seq<Linha>, k: nat)
    requires var g := Conceder(base, est, cd, saldo);
             g.1 > 0 && |ls| == |g.0| == |base| && CabeNoEstoque(ls, est, cd)
             && forall n :: 0 <= n < |ls| ==> ls[n] == g.0[n].(vl := ls[n].vl, diff := ls[n].diff)
    requires k < |ls| && NaPonta(ls, ls[k])
    ensures ls[k].liquida == Disp(est, Chave(cd, ls[k].tam))
  {
    ConcederPorLinha(base, est, cd, saldo);
    forall b | b in base ensures exists n :: 0 <= n < |ls| && base[n] == b && ls[n].idx == b.idx {
      var n :| 0 <= n < |base| && base[n] == b;
    }
    assert ls[k] in ls && Extremo(base, base[k]);
  }

  /** Main result: an uncut product gets an extra piece only when every extreme size of each
      uncut product that costs more per piece (or as much and comes first alphabetically)
      was raised to its stock. */
  lemma MaisCaroPrimeiro(chegada: seq<string>, m: Grades, ests: Estoques, saldo: Saldo, x: string, y: string,
                         extra: Linha)
    requires Distintos(chegada) && (forall c :: c in chegada <==> c in m) && x in m && y in m
    requires var ds := DecidirAdequar(chegada, m, ests, saldo);
             ds[x].GerarOR? && ds[y].GerarOR? && extra in ds[y].linhas && extra.liquida > extra.solicitada
    requires SemCorteNenhum(m[x], Local(ests, x), x) && SemCorteNenhum(m[y], Local(ests, y), y) && CustaMais(m, x, y)
    ensures var ls := DecidirAdequar(chegada, m, ests, saldo)[x].linhas;
            forall k :: k in ls && NaPonta(ls, k) ==> k.liquida == Disp(Local(ests, x), Chave(x, k.tam))
  {
    hide DecidirAdequar, Aprovados, FilaPassada2, Passada1, Conceder, CustaMais, NaPonta, SaldoAntes, MaiorPreco;
    var f := ConcessorDe(m, ests);
    var fila := FilaPassada2(Aprovados(chegada, m, ests, saldo.corte), m, ests);
    LinhasDaPassada2(chegada, m, ests, saldo, x);
    LinhasDaPassada2(chegada, m, ests, saldo, y);
    var ij := XAntesDeY(chegada, m, ests, saldo, x, y);
    forall cd, s: nat ensures f(cd, s).1 <= s {
      ConcederPorLinha(Passada1(Grade(m, cd), Local(ests, cd), cd), Local(ests, cd), cd, s);
    }
    SaldoDesce(fila, f, saldo.adicao, ij.0, ij.1);
    var lx, ly := DecidirAdequar(chegada, m, ests, saldo)[x].linhas, DecidirAdequar(chegada, m, ests, saldo)[y].linhas;
    var n :| 0 <= n < |ly| && ly[n] == extra;
    SaldoPositivo(Passada1(m[y], Local(ests, y), y), Local(ests, y), y, SaldoAntes(fila, f, saldo.adicao, y), n);
    DecisaoCorreta(Adequar, false, chegada, m, ests, saldo, x);
    forall k | k in lx && NaPonta(lx, k) ensures k.liquida == Disp(Local(ests, x), Chave(x, k.tam)) {
      var q :| 0 <= q < |lx| && lx[q] == k;
      assert Grade(m, x) == m[x];
      assert f(x, SaldoAntes(fila, f, saldo.adicao, x))
        == Conceder(Passada1(m[x], Local(ests, x), x), Local(ests, x), x, SaldoAntes(fila, f, saldo.adicao, x));
      PontasCheias(Passada1(m[x], Local(ests, x), x), Local(ests, x), x, SaldoAntes(fila, f, saldo.adicao, x), lx, q);
    }
  }

  lemma XAntesDeY(chegada: seq<string>, m: Grades, ests: Estoques, saldo: Saldo, x: string, y: string)
    returns (r: (nat, nat))
    requires Distintos(chegada) && x in m && y in m && CustaMais(m, x, y)
    requires var fila := FilaPassada2(Aprovados(chegada, m, ests, saldo.corte), m, ests); x in fila && y in fila
    ensures var fila := FilaPassada2(Aprovados(chegada, m, ests, saldo.corte), m, ests);
            r.0 < r.1 < |fila| && fila[r.0] == x && fila[r.1] == y && Distintos(fila)
  {
    hide Aprovados, CustaMais, MaiorPreco, FaltaPar;
    var ap := Aprovados(chegada, m, ests, saldo.corte);
    var fila := FilaPassada2(ap, m, ests);
    AprovadosOk(chegada, m, ests, saldo.corte);
    OrdensDasPassadas(m, ests);
    OrdenarFiltrado(ap, SemCorte(m, ests), OrdemPassada2(m));
    CustaMaisSse(m, x, y);
    var i :| 0 <= i < |fila| && fila[i] == x;
    var j :| 0 <= j < |fila| && fila[j] == y;
    assert OrdemPassada2(m)(x, y);
    assert i != j by { assert !OrdemPassada2(m)(x, x); }
    assert j < i ==> OrdemPassada2(m)(y, x);
    r := (i, j);
  }

  /** A cut product has no row above what was asked for. */
  lemma CortadoSemExtra(chegada: seq<string>, m: Grades, ests: Estoques, saldo: Saldo, cd: string)
    requires Distintos(chegada) && (forall c :: c in chegada <==> c in m) && cd in m
    requires DecidirAdequar(chegada, m, ests, saldo)[cd].GerarOR? && FaltaNecessaria(m[cd], Local(ests, cd), cd) > 0
    ensures cd in DecidirAdequar(chegada, m, ests, saldo)
    ensures forall l :: l in DecidirAdequar(chegada, m, ests, saldo)[cd].linhas ==> l.liquida <= l.solicitada
  {
    hide Aprovados, FilaPassada2, TemFuro, Passada1, Conceder, Financeiro, FaltaNecessaria;
    var ap := Aprovados(chegada, m, ests, saldo.corte);
    var fila, base := FilaPassada2(ap, m, ests), Passada1(m[cd], Local(ests, cd), cd);
    AprovadosOk(chegada, m, ests, saldo.corte);
    FilaPassada2Ok(ap, m, ests);
    ExtrasVemDaPassada2(fila, ConcessorDe(m, ests), saldo.adicao, cd);
    FinanceiroSoMudaValor(base);
    Passada1Responde(m[cd], Local(ests, cd), cd);
    forall l | l in Financeiro(base) ensures l.liquida <= l.solicitada {
      var k :| 0 <= k < |Financeiro(base)| && Financeiro(base)[k] == l;
      assert base[k] in base;
    }
  }

  lemma SemCorteSeExtra(chegada: seq<string>, m: Grades, ests: Estoques, saldo: Saldo, cd: string, extra: Linha)
    requires Distintos(chegada) && (forall c :: c in chegada <==> c in m) && cd in m
    requires var ds := DecidirAdequar(chegada, m, ests, saldo);
             ds[cd].GerarOR? && extra in ds[cd].linhas && extra.liquida > extra.solicitada
    ensures SemCorteNenhum(m[cd], Local(ests, cd), cd)
  {
    var est := Local(ests, cd);
    if FaltaNecessaria(m[cd], est, cd) > 0 { CortadoSemExtra(chegada, m, ests, saldo, cd); }
    forall i | i in m[cd] ensures i.qt <= Disp(est, Chave(cd, i.tam)) { SemFaltaCabe(m[cd], est, cd, i); }
  }

  /** An extra piece only goes to an extreme size of a product that needed no cut. */
  lemma SoNasPontas(chegada: seq<string>, m: Grades, ests: Estoques, saldo: Saldo, cd: string, extra: Linha)
    requires Distintos(chegada) && (forall c :: c in chegada <==> c in m) && cd in m
    requires var ds := DecidirAdequar(chegada, m, ests, saldo);
             ds[cd].GerarOR? && extra in ds[cd].linhas && extra.liquida > extra.solicitada
    ensures SemCorteNenhum(m[cd], Local(ests, cd), cd)
    ensures NaPonta(DecidirAdequar(chegada, m, ests, saldo)[cd].linhas, extra)
  {
    hide DecidirAdequar, Passada1, Conceder, FilaPassada2, Aprovados;
    SemCorteSeExtra(chegada, m, ests, saldo, cd, extra);
    LinhasDaPassada2(chegada, m, ests, saldo, cd);
    var fila := FilaPassada2(Aprovados(chegada, m, ests, saldo.corte), m, ests);
    var base := Passada1(m[cd], Local(ests, cd), cd);
    var sobra := SaldoAntes(fila, ConcessorDe(m, ests), saldo.adicao, cd);
    var ls := DecidirAdequar(chegada, m, ests, saldo)[cd].linhas;
    ConcederPorLinha(base, Local(ests, cd), cd, sobra);
    var k :| 0 <= k < |ls| && ls[k] == extra;
    assert Extremo(base, base[k]) && ls[k].idx == base[k].idx;
    forall x | x in ls ensures exists n :: 0 <= n < |base| && base[n].idx == x.idx && base[n] in base {
      var n :| 0 <= n < |ls| && ls[n] == x;
      assert base[n] in base && base[n].idx == x.idx;
    }
  }
}
