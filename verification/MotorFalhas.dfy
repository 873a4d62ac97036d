/** Budget and failure of whole runs. */
module MotorFalhas {
  import opened Aritmetica
  import opened Listas
  import opened Orcamento
  import opened Motor
  import opened MotorPar
  import opened MotorPedido
  import opened MotorCanal
  import opened MotorTeoremas

  lemma ChegadaAgrupada(its: seq<Item>)
    ensures Distintos(Produtos(its)) && (forall cd :: cd in Produtos(its) <==> cd in Agrupar(its))
    ensures forall cd :: cd in Agrupar(its) ==> Agrupar(its)[cd] != []
  {
    forall cd ensures cd in Agrupar(its) ==> Agrupar(its)[cd] != [] { ProdutosSao(its, cd); }
  }

  /** An order that does not abort cuts and adds no more than its budget had left. */
  lemma PedidoRespeitaOrcamento(cfg: Config, nr: int, its: seq<Item>, ests: Estoques)
    requires !Aborta(DecisaoDoPedido(cfg, nr, its, ests))
    ensures var ds := DecisaoDoPedido(cfg, nr, its, ests);
            && 0 <= Soma(Produtos(its), CorteDaDecisao(ds)) <= SaldoDoPedido(cfg, nr, its).corte
            && 0 <= Soma(Produtos(its), AdicaoDaDecisao(ds)) <= SaldoDoPedido(cfg, nr, its).adicao
  {
    ChegadaAgrupada(its);
    DesviosNaoNegativos(Produtos(its), DecisaoDoPedido(cfg, nr, its, ests));
    if cfg.modo == SemAdequar || NaBlacklist(its) {
      TudoOuNadaNaoConsome(Produtos(its), Agrupar(its), ests, NaBlacklist(its));
    } else {
      ConsumoEhODoLedger(Produtos(its), Agrupar(its), ests, SaldoDoPedido(cfg, nr, its));
    }
  }

  /** In a completed run, no order cuts or adds more than its budget had left. */
  lemma OrcamentoRespeitado(dados: seq<Item>, estoque: seq<Posicao>, cfg: Config, nr: int)
    requires ProcessarCanal(dados, estoque, cfg).Rodada? && nr in Fila(dados, estoque, cfg)
    ensures var its := ItensDoPedido(dados, nr);
            var d := ProcessarCanal(dados, estoque, cfg).decisoes;
            && nr in d
            && 0 <= Soma(Produtos(its), CorteDaDecisao(d[nr])) <= SaldoDoPedido(cfg, nr, its).corte
            && 0 <= Soma(Produtos(its), AdicaoDaDecisao(d[nr])) <= SaldoDoPedido(cfg, nr, its).adicao
  {
    var d := ProcessarCanal(dados, estoque, cfg).decisoes;
    FilaOk(dados, estoque, cfg);
    RodadaDecideTodos(Fila(dados, estoque, cfg), DecisorDe(dados, cfg), Locais(dados, estoque));
    var e :| d[nr] == DecisorDe(dados, cfg)(nr, e);
    PedidoRespeitaOrcamento(cfg, nr, ItensDoPedido(dados, nr), e);
  }

  lemma DesviosNaoNegativos(cds: seq<string>, ds: map<string, Decisao>)
    ensures Soma(cds, CorteDaDecisao(ds)) >= 0 && Soma(cds, AdicaoDaDecisao(ds)) >= 0
  {
    forall cd | cd in cds ensures CorteDaDecisao(ds)(cd) >= 0 && AdicaoDaDecisao(ds)(cd) >= 0 {
      if cd in ds && ds[cd].GerarOR? {
        SomaNaoNegativa(ds[cd].linhas, CorteDe());
        SomaNaoNegativa(ds[cd].linhas, AdicaoDe());
      }
    }
    SomaNaoNegativa(cds, CorteDaDecisao(ds));
    SomaNaoNegativa(cds, AdicaoDaDecisao(ds));
  }

  // ----- when a run can abort

  lemma SemEstoqueFaltaTudo(itens: seq<Item>, est: Estoque, cd: string)
    requires forall i :: i in itens ==> Disp(est, Chave(cd, i.tam)) == 0
    ensures FaltaNecessaria(itens, est, cd) == Soma(itens, QtDe())
  {
    SomaIgual(itens, FaltaDe(est, cd), QtDe());
  }

  lemma AprovadoCabe(chegada: seq<string>, m: Grades, ests: Estoques, corte: nat, cd: string)
    requires Distintos(chegada) && cd in Aprovados(chegada, m, ests, corte)
    ensures FaltaPar(m, ests, cd) <= corte
  {
    AprovadosOk(chegada, m, ests, corte);
    SomaNaoNegativa(Aprovados(chegada, m, ests, corte), ComoInt(FaltaPor(m, ests)));
  }

  /** Every requested quantity is positive, as the ingestion guarantees. */
  ghost predicate QuantidadesPositivas(dados: seq<Item>) { forall i :: i in dados ==> i.qt > 0 }

  /** A recognised size strictly inside the requested grade: without stock it is a hole. */
  predicate TemInterior(itens: seq<Item>) {
    exists i | i in itens ::
      && Reconhecido(i)
      && (exists lo | lo in itens :: Reconhecido(lo) && lo.idx < i.idx)
      && (exists hi | hi in itens :: Reconhecido(hi) && i.idx < hi.idx)
  }

  /** No product of the order can be cut to nothing, whatever the stock: a guard on the
      input and on what is left of the order's budget. */
  predicate Resistente(cfg: Config, nr: int, its: seq<Item>) {
    || cfg.modo == SemAdequar || NaBlacklist(its)
    || forall cd | cd in Agrupar(its) ::
         TemInterior(Agrupar(its)[cd]) || SaldoDoPedido(cfg, nr, its).corte < Soma(Agrupar(its)[cd], QtDe())
  }

  lemma InteriorSemEstoqueEhFuro(itens: seq<Item>, est: Estoque, cd: string)
    requires forall i :: i in itens ==> Disp(est, Chave(cd, i.tam)) == 0
    ensures TemFuro(itens, est, cd) <==> TemInterior(itens)
  {
    if TemInterior(itens) {
      var i :| i in itens && Reconhecido(i) && (exists lo | lo in itens :: Reconhecido(lo) && lo.idx < i.idx)
        && (exists hi | hi in itens :: Reconhecido(hi) && i.idx < hi.idx);
      assert InteriorVazio(itens, est, cd, i);
    }
    if TemFuro(itens, est, cd) {
      var i :| i in itens && InteriorVazio(itens, est, cd, i);
    }
  }

  lemma ProdutoNaoAborta(chegada: seq<string>, m: Grades, ests: Estoques, saldo: Saldo, cd: string)
    requires Distintos(chegada) && (forall c :: c in chegada <==> c in m) && cd in m
    requires m[cd] != [] && forall i :: i in m[cd] ==> i.qt > 0
    requires TemInterior(m[cd]) || saldo.corte < Soma(m[cd], QtDe())
    ensures !DecidirAdequar(chegada, m, ests, saldo)[cd].DivisaoPorZero?
  {
    hide Desfecho, Aprovados, TemFuro, TemInterior;
    AbortaSeAprovadoSemEstoque(chegada, m, ests, saldo, cd);
    if DecidirAdequar(chegada, m, ests, saldo)[cd].DivisaoPorZero? {
      SemEstoqueFaltaTudo(m[cd], Local(ests, cd), cd);
      InteriorSemEstoqueEhFuro(m[cd], Local(ests, cd), cd);
      AprovadoCabe(chegada, m, ests, saldo.corte, cd);
      AprovadosOk(chegada, m, ests, saldo.corte);
    }
  }

  lemma PedidoNaoAborta(cfg: Config, nr: int, its: seq<Item>, ests: Estoques)
    requires QuantidadesPositivas(its) && Resistente(cfg, nr, its)
    ensures !Aborta(DecisaoDoPedido(cfg, nr, its, ests))
  {
    hide TemInterior, DecidirAdequar, SaldoDoPedido;
    ChegadaAgrupada(its);
    var ds := DecisaoDoPedido(cfg, nr, its, ests);
    DecideSoSeusProdutos(cfg.modo, NaBlacklist(its), Produtos(its), Agrupar(its), ests, SaldoDoPedido(cfg, nr, its));
    forall cd | cd in ds ensures !ds[cd].DivisaoPorZero? {
      if cfg.modo == SemAdequar || NaBlacklist(its) {
        TudoOuNadaSse(Agrupar(its)[cd], Local(ests, cd), cd, NaBlacklist(its));
      } else {
        ProdutoNaoAborta(Produtos(its), Agrupar(its), ests, SaldoDoPedido(cfg, nr, its), cd);
      }
    }
  }

  lemma {:induction false} RodadaCompleta(fila: seq<int>, f: Decisor, ests: Estoques)
    requires forall nr, e :: nr in fila ==> !Aborta(f(nr, e))
    ensures Rodar(fila, f, ests).Rodada?
  {
    if fila != [] {
      var nr := fila[0];
      assert nr in fila;
      assert forall x :: x in fila[1..] ==> x in fila;
      RodadaCompleta(fila[1..], f, DebitarPedido(ests, f(nr, ests)));
    }
  }

  /** A run aborts when one of its orders aborts on every stock that satisfies `inv` and
      the other orders preserve `inv`. */
  lemma {:induction false} RodadaAborta(fila: seq<int>, f: Decisor, ests: Estoques, nr: int, inv: Estoques -> bool)
    requires nr in fila && inv(ests) && forall e :: inv(e) ==> Aborta(f(nr, e))
    requires forall x, e :: x in fila && x != nr && inv(e) ==> inv(DebitarPedido(e, f(x, e)))
    ensures Rodar(fila, f, ests) == Abortada
  {
    if fila[0] != nr {
      assert forall x :: x in fila[1..] ==> x in fila;
      RodadaAborta(fila[1..], f, DebitarPedido(ests, f(fila[0], ests)), nr, inv);
    }
  }

  // ----- without any stock

  function Vazios(): Estoques -> bool { (e: Estoques) => forall cd | cd in e :: e[cd] == map[] }

  /** On empty stock nothing positive can be reserved, so nothing is debited. */
  lemma SemEstoqueNadaReserva(cfg: Config, nr: int, its: seq<Item>, ests: Estoques, cd: string)
    requires QuantidadesPositivas(its) && Vazios()(ests)
    ensures var ds := DecisaoDoPedido(cfg, nr, its, ests); cd in ds ==> !ds[cd].GerarOR?
  {
    hide DecidirAdequar, TudoOuNada, SaldoDoPedido, Produtos, TemFuro, FaltaNecessaria;
    ChegadaAgrupada(its);
    var m := Agrupar(its);
    var ds := DecisaoDoPedido(cfg, nr, its, ests);
    DecideSoSeusProdutos(cfg.modo, NaBlacklist(its), Produtos(its), m, ests, SaldoDoPedido(cfg, nr, its));
    if cd in m && (cfg.modo == SemAdequar || NaBlacklist(its)) {
      TudoOuNadaSse(m[cd], Local(ests, cd), cd, NaBlacklist(its));
      assert m[cd][0] in m[cd] && Local(ests, cd) == map[];
    } else if cd in m {
      SemEstoqueNadaFecha(Produtos(its), m, ests, SaldoDoPedido(cfg, nr, its), cd);
    }
  }

  lemma SemEstoqueNadaFecha(chegada: seq<string>, m: Grades, ests: Estoques, saldo: Saldo, cd: string)
    requires Distintos(chegada) && (forall c :: c in chegada <==> c in m) && cd in m && Local(ests, cd) == map[]
    requires m[cd] != [] && forall i :: i in m[cd] ==> i.qt > 0
    ensures !DecidirAdequar(chegada, m, ests, saldo)[cd].GerarOR?
  {
    hide TemFuro, LinhasFinais, Extras;
    AprovadosOk(chegada, m, ests, saldo.corte);
    if cd in Aprovados(chegada, m, ests, saldo.corte) { AbortaSeAprovadoSemEstoque(chegada, m, ests, saldo, cd); }
  }

  lemma SemEstoqueNadaMuda(ests: Estoques, ds: map<string, Decisao>)
    requires Vazios()(ests) && forall cd :: cd in ds ==> !ds[cd].GerarOR?
    ensures Vazios()(DebitarPedido(ests, ds))
  {}

  /** Without stock, the first hole-free product served is approved and cut to nothing. */
  lemma SemEstoqueAborta(cfg: Config, nr: int, its: seq<Item>, ests: Estoques)
    requires QuantidadesPositivas(its) && Vazios()(ests) && !Resistente(cfg, nr, its)
    ensures Aborta(DecisaoDoPedido(cfg, nr, its, ests))
  {
    var m, saldo := Agrupar(its), SaldoDoPedido(cfg, nr, its);
    var cd :| cd in m && !TemInterior(m[cd]) && Soma(m[cd], QtDe()) <= saldo.corte;
    ChegadaAgrupada(its);
    InteriorSemEstoqueEhFuro(m[cd], Local(ests, cd), cd);
    SemEstoqueFaltaTudo(m[cd], Local(ests, cd), cd);
    PrimeiroAborta(Produtos(its), m, ests, saldo, cd);
  }

  lemma PrimeiroAborta(chegada: seq<string>, m: Grades, ests: Estoques, saldo: Saldo, cd: string)
    requires Distintos(chegada) && (forall c :: c in chegada <==> c in m) && cd in m && Vazios()(ests)
    requires forall c :: c in m ==> m[c] != [] && forall i :: i in m[c] ==> i.qt > 0
    requires !TemFuro(m[cd], Local(ests, cd), cd) && FaltaPar(m, ests, cd) <= saldo.corte
    ensures Aborta(DecidirAdequar(chegada, m, ests, saldo))
  {
    hide TemFuro, FaltaPar, Desfecho;
    var fila := FilaPassada1(chegada, m, ests);
    FilaPassada1Ok(chegada, m, ests);
    MinimoNaFrente(fila, FaltaPor(m, ests), cd);
    var c := fila[0];
    assert c in fila && c in m;
    assert Local(ests, c) == map[];
    AbortaSeAprovadoSemEstoque(chegada, m, ests, saldo, c);
    assert DecidirAdequar(chegada, m, ests, saldo)[c].DivisaoPorZero?;
  }

  lemma SemEstoqueRodadaAborta(dados: seq<Item>, cfg: Config, nr: int)
    requires QuantidadesPositivas(dados) && nr in Fila(dados, [], cfg) && !Resistente(cfg, nr, ItensDoPedido(dados, nr))
    ensures ProcessarCanal(dados, [], cfg) == Abortada
  {
    hide Resistente, DecisaoDoPedido, Fila, Aborta;
    var f := DecisorDe(dados, cfg);
    forall e | Vazios()(e) ensures Aborta(f(nr, e)) { SemEstoqueAborta(cfg, nr, ItensDoPedido(dados, nr), e); }
    forall x, e | Vazios()(e) ensures Vazios()(DebitarPedido(e, f(x, e))) {
      forall cd | cd in f(x, e)
        ensures !f(x, e)[cd].GerarOR?
      {
        SemEstoqueNadaReserva(cfg, x, ItensDoPedido(dados, x), e, cd);
      }
      SemEstoqueNadaMuda(e, f(x, e));
    }
    RodadaAborta(Fila(dados, [], cfg), f, Locais(dados, []), nr, Vazios());
  }

  /** Main result: a channel completes on every stock if and only if every order with
      credit is handled all or nothing, or each of its products has an interior size or
      asks for more pieces than is left of the order's cut budget. */
  lemma CompletaSse(dados: seq<Item>, cfg: Config)
    requires QuantidadesPositivas(dados)
    ensures (forall estoque :: ProcessarCanal(dados, estoque, cfg).Rodada?)
       <==> (forall nr :: nr in Nrs(dados) && !SemCredito(ItensDoPedido(dados, nr)) ==>
         Resistente(cfg, nr, ItensDoPedido(dados, nr)))
  {
    hide Resistente, ProcessarCanal, Fila, ItensDoPedido;
    if forall nr :: nr in Nrs(dados) && !SemCredito(ItensDoPedido(dados, nr)) ==>
      Resistente(cfg, nr, ItensDoPedido(dados, nr)) {
      forall estoque ensures ProcessarCanal(dados, estoque, cfg).Rodada? { CompletaSeResistente(dados, estoque, cfg); }
    } else {
      var nr :| nr in Nrs(dados) && !SemCredito(ItensDoPedido(dados, nr))
        && !Resistente(cfg, nr, ItensDoPedido(dados, nr));
      FilaOk(dados, [], cfg);
      SemEstoqueRodadaAborta(dados, cfg, nr);
    }
  }

  lemma CompletaSeResistente(dados: seq<Item>, estoque: seq<Posicao>, cfg: Config)
    requires QuantidadesPositivas(dados)
    requires forall nr :: nr in Nrs(dados) && !SemCredito(ItensDoPedido(dados, nr)) ==>
      Resistente(cfg, nr, ItensDoPedido(dados, nr))
    ensures ProcessarCanal(dados, estoque, cfg).Rodada?
  {
    hide Resistente, DecisaoDoPedido, Fila, Aborta;
    var fila, f := Fila(dados, estoque, cfg), DecisorDe(dados, cfg);
    FilaOk(dados, estoque, cfg);
    forall nr, e | nr in fila ensures !Aborta(f(nr, e)) { PedidoNaoAborta(cfg, nr, ItensDoPedido(dados, nr), e); }
    RodadaCompleta(fila, f, Locais(dados, estoque));
  }

  lemma {:induction false} TudoCabe(fila: seq<string>, falta: string -> nat, corte: nat)
    requires Soma(fila, ComoInt(falta)) <= corte
    ensures Aprovar(fila, falta, corte) == fila
  {
    if fila != [] {
      SomaNaoNegativa(fila[1..], ComoInt(falta));
      TudoCabe(fila[1..], falta, corte - falta(fila[0]));
    }
  }

  /** An order that asks one piece of "A". */
  function UmaPeca(vl: int): seq<Item> { [Item(7, "A", "P", 2, 1, vl, false, false)] }

  /** Its original total is 20 pieces, so one piece of cut is within the 5% budget. */
  const CINCO_POR_CENTO: Config := Config(Adequar, false, Fracao(5, 100), map[7 := 20], map[], map[])

  lemma UmaPecaAgrupada(vl: int)
    ensures var its := UmaPeca(vl);
            && ItensDoPedido(its, 7) == its && !NaBlacklist(its)
            && "A" in Agrupar(its) && Agrupar(its)["A"] == its
            && SaldoDoPedido(CINCO_POR_CENTO, 7, its).corte == 1
  {
    var its := UmaPeca(vl);
    assert ItensDoPedido(its, 7) == its;
    assert Filtrar(its, DoProduto("A")) == its;
    assert Mapear(its, CdDe()) == ["A"];
    assert "A" in Produtos(its);
  }

  /** An order aborts once pass 1 approves a product with no stock at all. */
  lemma PedidoAborta(cfg: Config, nr: int, its: seq<Item>, ests: Estoques, cd: string)
    requires cfg.modo == Adequar && !NaBlacklist(its) && cd in Agrupar(its)
    requires forall i :: i in Agrupar(its)[cd] ==> i.qt > 0 && Disp(Local(ests, cd), Chave(cd, i.tam)) == 0
    requires cd in Aprovados(Produtos(its), Agrupar(its), ests, SaldoDoPedido(cfg, nr, its).corte)
    ensures Aborta(DecisaoDoPedido(cfg, nr, its, ests))
  {
    hide Aprovados, SaldoDoPedido, Agrupar, Produtos;
    ChegadaAgrupada(its);
    AbortaSeAprovadoSemEstoque(Produtos(its), Agrupar(its), ests, SaldoDoPedido(cfg, nr, its), cd);
  }

  lemma UmaPecaAborta(vl: int, ests: Estoques)
    requires Local(ests, "A") == map[]
    ensures Aborta(DecisaoDoPedido(CINCO_POR_CENTO, 7, UmaPeca(vl), ests))
  {
    var its := UmaPeca(vl);
    UmaPecaAgrupada(vl);
    SemEstoqueFaltaTudo(its, map[], "A");
    assert FaltaPar(Agrupar(its), ests, "A") == 1;
    UmProduto(its, ests);
    PedidoAborta(CINCO_POR_CENTO, 7, its, ests, "A");
  }

  /** A concrete abort: the product is out of stock and one piece of cut budget is left;
      it is approved, cut to nothing, and the money step divides by zero. */
  lemma ExemploDeAborto(vl: int)
    ensures ProcessarCanal(UmaPeca(vl), [], CINCO_POR_CENTO) == Abortada
  {
    var its := UmaPeca(vl);
    UmPedido(its, CINCO_POR_CENTO);
    UmaPecaAgrupada(vl);
    UmaPecaAborta(vl, Locais(its, []));
  }

  lemma ListaUnitaria<T(!new)>(s: seq<T>, x: T)
    requires Distintos(s) && forall y :: y in s <==> y == x
    ensures s == [x]
  {
    DistintosMultiset(s, [x]);
    PermutacaoMesmos(s, [x]);
    assert s[0] in s;
  }

  lemma UmPedido(its: seq<Item>, cfg: Config)
    requires |its| == 1 && its[0].nr == 7 && !its[0].semCredito
    ensures Fila(its, [], cfg) == [7]
  {
    FilaOk(its, [], cfg);
    assert ItensDoPedido(its, 7) == its;
    assert Mapear(its, NrDe()) == [7];
    ListaUnitaria(Fila(its, [], cfg), 7);
  }

  lemma UmItemSemFuro(its: seq<Item>, est: Estoque, cd: string)
    requires |its| == 1
    ensures !TemFuro(its, est, cd)
  {
    assert forall i :: i in its ==> i == its[0];
  }

  lemma UmProduto(its: seq<Item>, ests: Estoques)
    requires |its| == 1 && its[0].cd == "A" && FaltaPar(Agrupar(its), ests, "A") == 1
    ensures "A" in Aprovados(Produtos(its), Agrupar(its), ests, 1)
  {
    hide Aprovar, FilaPassada1;
    var m := Agrupar(its);
    FilaPassada1Ok(Produtos(its), m, ests);
    assert Mapear(its, CdDe()) == ["A"];
    assert Filtrar(its, DoProduto("A")) == its;
    UmItemSemFuro(its, Local(ests, "A"), "A");
    var f := FilaPassada1(Produtos(its), m, ests);
    ListaUnitaria(f, "A");
    assert Soma(f, ComoInt(FaltaPor(m, ests))) == 1;
    TudoCabe(f, FaltaPor(m, ests), 1);
  }

  // ----- an abort takes the orders ahead with it

  /** Deleting an order keeps the condition under which runs complete, and then the
      orders ahead of it keep their decisions in two completed runs. */
  lemma AnterioresIntactos(
      dados: seq<Item>, estoque: seq<Posicao>, cfg: Config, frente: seq<int>, x: int, resto: seq<int>)
    requires Fila(dados, estoque, cfg) == frente + [x] + resto && QuantidadesPositivas(dados)
    requires forall nr :: nr in Nrs(dados) && !SemCredito(ItensDoPedido(dados, nr)) ==>
      Resistente(cfg, nr, ItensDoPedido(dados, nr))
    ensures var r, s := ProcessarCanal(dados, estoque, cfg), ProcessarCanal(Filtrar(dados, SemPedido(x)), estoque, cfg);
            && r.Rodada? && s.Rodada?
            && forall nr :: nr in frente ==> nr in r.decisoes && nr in s.decisoes && r.decisoes[nr] == s.decisoes[nr]
  {
    hide Fila, Resistente, ItensDoPedido, Locais, DecisorDe;
    var d := Filtrar(dados, SemPedido(x));
    forall nr | nr in Nrs(d) && !SemCredito(ItensDoPedido(d, nr)) ensures Resistente(cfg, nr, ItensDoPedido(d, nr)) {
      NrsSao(d, nr);
      NrsSao(dados, nr);
      RemoverMantemPedido(dados, x, nr);
    }
    CompletaSeResistente(dados, estoque, cfg);
    CompletaSeResistente(d, estoque, cfg);
    AnterioresNaoSaoAfetados(dados, estoque, cfg, frente, x, resto);
  }

  /** One piece of "B", in stock, ahead of the order of `UmaPeca`, out of stock. */
  function Vizinho(): Item { Item(1, "B", "P", 2, 1, 100, false, false) }
  function ComVizinho(vl: int): seq<Item> { [Vizinho()] + UmaPeca(vl) }
  function EstoqueDoVizinho(): seq<Posicao> { [Posicao("B_P", 5)] }

  function SemA(): Estoques -> bool { (e: Estoques) => Local(e, "A") == map[] }

  lemma PedidosDoExemplo(vl: int)
    ensures ItensDoPedido(ComVizinho(vl), 1) == [Vizinho()] && ItensDoPedido(ComVizinho(vl), 7) == UmaPeca(vl)
    ensures Filtrar(ComVizinho(vl), SemPedido(7)) == [Vizinho()]
    ensures Nrs(ComVizinho(vl)) == [1, 7]
  {
    var v, u := Vizinho(), UmaPeca(vl)[0];
    FiltrarConcat([v], [u], DoPedido(1));
    FiltrarConcat([v], [u], DoPedido(7));
    FiltrarConcat([v], [u], SemPedido(7));
    assert Mapear(ComVizinho(vl), NrDe()) == [1, 7];
    ChegadaMais([1], 7);
    assert [1] + [7] == [1, 7];
    ChegadaMais<int>([], 1);
    assert [] + [1] == [1];
  }

  /** The order with stock has priority. */
  lemma FilaDoExemplo(vl: int)
    ensures Fila(ComVizinho(vl), EstoqueDoVizinho(), CINCO_POR_CENTO) == [1, 7]
  {
    hide ItensDoPedido, Ordenar, Filtrar, VemAntes, SemCredito, Nrs;
    var d, e := ComVizinho(vl), EstoqueDoVizinho();
    var menor, fila := OrdemPrioridade(d, e, false), Fila(d, e, CINCO_POR_CENTO);
    PedidosDoExemplo(vl);
    CreditoDoExemplo(vl);
    FilaOk(d, e, CINCO_POR_CENTO);
    PrioridadeEhOrdem(d, e, false);
    OrdenarFiltrado(Nrs(d), ComCredito(d), menor);
    PrimeiroDoExemplo(vl);
    OrdemGlobalEmLista([1, 7], menor);
    CrescenteUnica([1, 7], fila, menor);
  }

  lemma PrimeiroDoExemplo(vl: int)
    ensures OrdemPrioridade(ComVizinho(vl), EstoqueDoVizinho(), false)(1, 7)
  {
    hide ItensDoPedido, Pontos;
    PedidosDoExemplo(vl);
    PontosDoExemplo(vl);
  }

  lemma CreditoDoExemplo(vl: int)
    ensures !SemCredito(ItensDoPedido(ComVizinho(vl), 1)) && !SemCredito(ItensDoPedido(ComVizinho(vl), 7))
  {
    PedidosDoExemplo(vl);
  }

  lemma PontosDoExemplo(vl: int)
    ensures Pontos([Vizinho()], EstoqueDoVizinho(), false) == 100 && Pontos(UmaPeca(vl), EstoqueDoVizinho(), false) == 0
  {
    var e := EstoqueDoVizinho();
    SomaUnitaria(e[0], QtNoPrefixo("A"));
    SomaUnitaria(e[0], QtNoPrefixo("B"));
    SomaUnitaria(Vizinho(), PontosDe(e, false));
    SomaUnitaria(UmaPeca(vl)[0], PontosDe(e, false));
  }

  /** Why completion matters: a lower-priority order that aborts takes the reservation of
      the order ahead with it; deleting it gives the reservation back. */
  lemma ExemploAbortoAlheio(vl: int)
    ensures Fila(ComVizinho(vl), EstoqueDoVizinho(), CINCO_POR_CENTO) == [1, 7]
    ensures ProcessarCanal(ComVizinho(vl), EstoqueDoVizinho(), CINCO_POR_CENTO) == Abortada
    ensures var r := ProcessarCanal(Filtrar(ComVizinho(vl), SemPedido(7)), EstoqueDoVizinho(), CINCO_POR_CENTO);
            r.Rodada? && 1 in r.decisoes && "B" in r.decisoes[1] && r.decisoes[1]["B"].GerarOR?
  {
    FilaDoExemplo(vl);
    ExemploAborta(vl);
    PedidosDoExemplo(vl);
    VizinhoSozinho();
  }

  lemma ExemploAborta(vl: int)
    ensures ProcessarCanal(ComVizinho(vl), EstoqueDoVizinho(), CINCO_POR_CENTO) == Abortada
  {
    hide DecisaoDoPedido, Aborta, ItensDoPedido, Fila, PorProduto;
    var d, e0 := ComVizinho(vl), EstoqueDoVizinho();
    var f := DecisorDe(d, CINCO_POR_CENTO);
    FilaDoExemplo(vl);
    PedidosDoExemplo(vl);
    forall e | SemA()(e) ensures Aborta(f(7, e)) { UmaPecaAborta(vl, e); }
    forall x, e | x in [1, 7] && x != 7 && SemA()(e)
      ensures SemA()(DebitarPedido(e, f(x, e)))
    {
      VizinhoSoTocaB(f(x, e), e);
    }
    SemANoInicio(d);
    RodadaAborta([1, 7], f, Locais(d, e0), 7, SemA());
  }

  lemma SemANoInicio(dados: seq<Item>)
    ensures SemA()(Locais(dados, EstoqueDoVizinho()))
  {
    assert EstoqueDoVizinho()[..0] == [];
    assert "B_P"[..1][0] != "A"[0];
    assert PorProduto(EstoqueDoVizinho(), "A") == map[];
  }

  lemma VizinhoSoTocaB(ds: map<string, Decisao>, e: Estoques)
    requires ds == DecisaoDoPedido(CINCO_POR_CENTO, 1, [Vizinho()], e) && SemA()(e)
    ensures SemA()(DebitarPedido(e, ds))
  {
    var its := [Vizinho()];
    DecideSoSeusProdutos(Adequar, NaBlacklist(its), Produtos(its), Agrupar(its), e,
                         SaldoDoPedido(CINCO_POR_CENTO, 1, its));
    ProdutosSao(its, "A");
  }

  lemma VizinhoSozinho()
    ensures var r := ProcessarCanal([Vizinho()], EstoqueDoVizinho(), CINCO_POR_CENTO);
            r.Rodada? && 1 in r.decisoes && "B" in r.decisoes[1] && r.decisoes[1]["B"].GerarOR?
  {
    hide DecisaoDoPedido, Ordenar, PorProduto;
    var its, e := [Vizinho()], Locais([Vizinho()], EstoqueDoVizinho());
    assert ItensDoPedido(its, 1) == its;
    assert Mapear(its, NrDe()) == [1];
    FilaOk(its, EstoqueDoVizinho(), CINCO_POR_CENTO);
    ListaUnitaria(Fila(its, EstoqueDoVizinho(), CINCO_POR_CENTO), 1);
    VizinhoReserva(e);
  }

  lemma VizinhoAgrupado()
    ensures var its := [Vizinho()];
            && Produtos(its) == ["B"] && Agrupar(its) == map["B" := its] && !NaBlacklist(its)
            && SaldoDoPedido(CINCO_POR_CENTO, 1, its).corte == 0
  {
    var its := [Vizinho()];
    assert Mapear(its, CdDe()) == ["B"];
    ChegadaMais<string>([], "B");
    assert [] + ["B"] == ["B"];
    assert Filtrar(its, DoProduto("B")) == its;
    SomaUnitaria(its[0], QtDe());
  }

  lemma VizinhoTemEstoque()
    ensures Disp(Local(Locais([Vizinho()], EstoqueDoVizinho()), "B"), Chave("B", "P")) == 5
  {
    var e := EstoqueDoVizinho();
    ProdutosSao([Vizinho()], "B");
    assert Vizinho() in [Vizinho()];
    IndiceOk(e, "B", "B_P");
    assert "B_P"[..1] == "B" && Chave("B", "P") == "B_P";
    assert e[0] in e && e[0].chave == "B_P";
  }

  lemma VizinhoReserva(e: Estoques)
    requires e == Locais([Vizinho()], EstoqueDoVizinho())
    ensures var ds := DecisaoDoPedido(CINCO_POR_CENTO, 1, [Vizinho()], e);
            !Aborta(ds) && "B" in ds && ds["B"].GerarOR?
  {
    hide DecidirAdequar, Locais, SaldoDoPedido, PorProduto, Agrupar;
    var its := [Vizinho()];
    VizinhoAgrupado();
    VizinhoTemEstoque();
    SomaUnitaria(its[0], QtDe());
    PedidoNaoAborta(CINCO_POR_CENTO, 1, its, e);
    VizinhoAprovado(its, e, SaldoDoPedido(CINCO_POR_CENTO, 1, its));
  }

  lemma VizinhoAprovado(its: seq<Item>, e: Estoques, saldo: Saldo)
    requires its == [Vizinho()] && Disp(Local(e, "B"), Chave("B", "P")) == 5
    requires !Aborta(DecidirAdequar(["B"], map["B" := its], e, saldo))
    ensures var ds := DecidirAdequar(["B"], map["B" := its], e, saldo);
            "B" in ds && ds["B"].GerarOR?
  {
    hide Extras, Aprovar, FilaPassada1;
    var m := map["B" := its];
    SomaUnitaria(its[0], FaltaDe(Local(e, "B"), "B"));
    UmItemSemFuro(its, Local(e, "B"), "B");
    FilaPassada1Ok(["B"], m, e);
    assert FaltaPor(m, e)("B") == 0;
    AprovarCabe(FilaPassada1(["B"], m, e), FaltaPor(m, e), saldo.corte);
    var ap := Aprovados(["B"], m, e, saldo.corte);
    AprovadosOk(["B"], m, e, saldo.corte);
    FilaPassada2Ok(ap, m, e);
    LinhasFinaisCorretas(FilaPassada2(ap, m, e), m, e, saldo.adicao, "B");
  }
}
