/** Theorems about whole runs of one channel. */
module MotorTeoremas {
  import opened Listas
  import opened Orcamento
  import opened Motor
  import opened MotorPar
  import opened MotorPedido
  import opened MotorLocalidade
  import opened MotorCanal

  // ----- orders that differ only in how their pairs are interleaved

  /** Same items of each product, in the same order within the product. */
  ghost predicate PedidoEquivalente(a: seq<Item>, b: seq<Item>) {
    forall cd :: Filtrar(a, DoProduto(cd)) == Filtrar(b, DoProduto(cd))
  }

  /** Same items of each (order, product) pair, in the same order within the pair. */
  ghost predicate MesmosPares(d1: seq<Item>, d2: seq<Item>) {
    forall nr, cd :: Filtrar(d1, DoPar(nr, cd)) == Filtrar(d2, DoPar(nr, cd))
  }

  lemma {:induction false} FiltroConserva<T>(s: seq<T>, p: T -> bool, x: T)
    requires p(x)
    ensures multiset(Filtrar(s, p))[x] == multiset(s)[x]
  {
    if s != [] {
      FiltroConserva(s[1..], p, x);
      assert s == [s[0]] + s[1..];
      assert multiset(s) == multiset{s[0]} + multiset(s[1..]);
      if p(s[0]) { assert multiset(Filtrar(s, p)) == multiset{s[0]} + multiset(Filtrar(s[1..], p)); }
    }
  }

  lemma {:induction false} FiltroDuplo<T>(s: seq<T>, p: T -> bool, q: T -> bool, r: T -> bool)
    requires forall x :: x in s ==> (r(x) <==> p(x) && q(x))
    ensures Filtrar(Filtrar(s, p), q) == Filtrar(s, r)
  {
    if s != [] {
      FiltroDuplo(s[1..], p, q, r);
      if p(s[0]) {
        assert Filtrar(s, p)[1..] == Filtrar(s[1..], p);
      } else {
        assert Filtrar(s, p) == Filtrar(s[1..], p);
        assert s[0] in s;
      }
    }
  }

  lemma EquivalentesPermutam(a: seq<Item>, b: seq<Item>)
    requires PedidoEquivalente(a, b)
    ensures multiset(a) == multiset(b) && MesmosElementos(a, b)
  {
    forall x: Item ensures multiset(a)[x] == multiset(b)[x] {
      FiltroConserva(a, DoProduto(x.cd), x);
      FiltroConserva(b, DoProduto(x.cd), x);
    }
    assert multiset(a) == multiset(b);
    PermutacaoMesmos(a, b);
  }

  lemma ProdutosSao(its: seq<Item>, cd: string)
    ensures cd in Produtos(its) <==> exists i :: i in its && i.cd == cd
    ensures cd in Agrupar(its) <==> cd in Produtos(its)
    ensures cd in Agrupar(its) ==> Agrupar(its)[cd] != []
  {
    var m := Mapear(its, CdDe());
    if cd in m {
      var k :| 0 <= k < |m| && m[k] == cd;
      assert its[k] in its && its[k].cd == cd;
    }
    if i :| i in its && i.cd == cd {
      var k :| 0 <= k < |its| && its[k] == i;
      assert m[k] == cd;
      assert i in Filtrar(its, DoProduto(cd));
    }
  }

  lemma EquivalentesAgrupam(a: seq<Item>, b: seq<Item>)
    requires PedidoEquivalente(a, b)
    ensures MesmosElementos(Produtos(a), Produtos(b)) && Agrupar(a) == Agrupar(b)
    ensures NaBlacklist(a) == NaBlacklist(b) && SemCredito(a) == SemCredito(b)
  {
    EquivalentesPermutam(a, b);
    forall cd ensures cd in Produtos(a) <==> cd in Produtos(b) {
      ProdutosSao(a, cd);
      ProdutosSao(b, cd);
    }
  }

  /** An order decides the same whatever the interleaving of its products and
      whatever the stock of other orders' products. */
  lemma DecisaoDoPedidoIgual(cfg: Config, nr: int, a: seq<Item>, b: seq<Item>, e1: Estoques, e2: Estoques)
    requires PedidoEquivalente(a, b) && MesmoEstoque(Produtos(a), e1, e2)
    ensures DecisaoDoPedido(cfg, nr, a, e1) == DecisaoDoPedido(cfg, nr, b, e2)
  {
    EquivalentesPermutam(a, b);
    EquivalentesAgrupam(a, b);
    SomaPermutacao(a, b, QtDe());
    var m, bl, saldo := Agrupar(a), NaBlacklist(a), SaldoDoPedido(cfg, nr, a);
    assert forall cd :: cd in Produtos(a) <==> cd in m;
    DecisaoLocal(cfg.modo, bl, Produtos(a), m, e1, e2, saldo);
    DecisaoIndependeDaChegada(cfg.modo, bl, Produtos(a), Produtos(b), m, e2, saldo);
  }

  // ----- runs that agree order by order

  function ProdutosDe(dados: seq<Item>): int -> seq<string> { nr => Produtos(ItensDoPedido(dados, nr)) }

  /** For the orders in `fila`, the two deciders agree whenever the stocks agree on the
      order's own products. */
  ghost predicate DecidemIgual(fila: seq<int>, prods: int -> seq<string>, f: Decisor, g: Decisor) {
    forall nr, e1, e2 | nr in fila && MesmoEstoque(prods(nr), e1, e2) :: f(nr, e1) == g(nr, e2)
  }

  ghost predicate MesmosLocais(fila: seq<int>, prods: int -> seq<string>, e1: Estoques, e2: Estoques) {
    forall nr :: nr in fila ==> MesmoEstoque(prods(nr), e1, e2)
  }

  ghost predicate MesmasDecisoes(r1: Rodada, r2: Rodada) {
    && r1.Rodada? == r2.Rodada?
    && (r1.Rodada? ==> r1.decisoes == r2.decisoes)
  }

  lemma DebitosIguais(cds: seq<string>, e1: Estoques, e2: Estoques, ds: map<string, Decisao>)
    requires MesmoEstoque(cds, e1, e2)
    ensures MesmoEstoque(cds, DebitarPedido(e1, ds), DebitarPedido(e2, ds))
  {
    forall cd | cd in cds ensures Local(DebitarPedido(e1, ds), cd) == Local(DebitarPedido(e2, ds), cd) {
      assert Local(e1, cd) == Local(e2, cd);
    }
  }

  lemma LocaisDepois(fila: seq<int>, prods: int -> seq<string>, e1: Estoques, e2: Estoques, ds: map<string, Decisao>)
    requires fila != [] && MesmosLocais(fila, prods, e1, e2)
    ensures MesmosLocais(fila[1..], prods, DebitarPedido(e1, ds), DebitarPedido(e2, ds))
  {
    forall nr | nr in fila[1..] ensures MesmoEstoque(prods(nr), DebitarPedido(e1, ds), DebitarPedido(e2, ds)) {
      assert nr in fila;
      DebitosIguais(prods(nr), e1, e2, ds);
    }
  }

  lemma {:induction false} RodadasIguais(fila: seq<int>, prods: int -> seq<string>, f: Decisor, g: Decisor,
                                         e1: Estoques, e2: Estoques)
    requires DecidemIgual(fila, prods, f, g) && MesmosLocais(fila, prods, e1, e2)
    ensures MesmasDecisoes(Rodar(fila, f, e1), Rodar(fila, g, e2))
    ensures e1 == e2 ==> Rodar(fila, f, e1) == Rodar(fila, g, e2)
  {
    if fila != [] {
      var nr := fila[0];
      var ds := f(nr, e1);
      assert nr in fila;
      assert MesmoEstoque(prods(nr), e1, e2);
      assert ds == g(nr, e2);
      LocaisDepois(fila, prods, e1, e2, ds);
      assert forall nr :: nr in fila[1..] ==> nr in fila;
      RodadasIguais(fila[1..], prods, f, g, DebitarPedido(e1, ds), DebitarPedido(e2, ds));
    }
  }

  /** Inputs whose orders are pairwise equivalent decide alike. */
  lemma DecisoresIguais(fila: seq<int>, d1: seq<Item>, d2: seq<Item>, cfg: Config)
    requires forall nr :: nr in fila ==> PedidoEquivalente(ItensDoPedido(d1, nr), ItensDoPedido(d2, nr))
    ensures DecidemIgual(fila, ProdutosDe(d1), DecisorDe(d1, cfg), DecisorDe(d2, cfg))
  {
    forall nr, e1, e2 | nr in fila && MesmoEstoque(ProdutosDe(d1)(nr), e1, e2)
      ensures DecisorDe(d1, cfg)(nr, e1) == DecisorDe(d2, cfg)(nr, e2)
    {
      DecisaoDoPedidoIgual(cfg, nr, ItensDoPedido(d1, nr), ItensDoPedido(d2, nr), e1, e2);
    }
  }

  // ----- the queue

  lemma PrioridadeEhOrdem(dados: seq<Item>, estoque: seq<Posicao>, porQuantidade: bool)
    ensures Ordem(OrdemPrioridade(dados, estoque, porQuantidade))
  {}

  lemma FilaOk(dados: seq<Item>, estoque: seq<Posicao>, cfg: Config)
    ensures var f := Fila(dados, estoque, cfg);
            Distintos(f) && forall nr :: nr in f <==> nr in Nrs(dados) && !SemCredito(ItensDoPedido(dados, nr))
  {
    PrioridadeEhOrdem(dados, estoque, cfg.porQuantidade);
    OrdenarFiltrado(Nrs(dados), ComCredito(dados), OrdemPrioridade(dados, estoque, cfg.porQuantidade));
    assert forall nr :: ComCredito(dados)(nr) <==> !SemCredito(ItensDoPedido(dados, nr));
  }

  lemma NrsSao(dados: seq<Item>, nr: int)
    ensures nr in Nrs(dados) <==> exists i :: i in dados && i.nr == nr
  {
    var m := Mapear(dados, NrDe());
    if nr in m {
      var k :| 0 <= k < |m| && m[k] == nr;
      assert dados[k] in dados && dados[k].nr == nr;
    }
    if i :| i in dados && i.nr == nr {
      var k :| 0 <= k < |dados| && dados[k] == i;
      assert m[k] == nr;
    }
  }

  lemma TotalIgual(e1: seq<Posicao>, e2: seq<Posicao>, cd: string)
    requires multiset(e1) == multiset(e2)
    ensures TotalProduto(e1, cd) == TotalProduto(e2, cd)
  {
    SomaPermutacao(e1, e2, QtNoPrefixo(cd));
  }

  lemma PrioridadeIgual(a: seq<Item>, b: seq<Item>, e1: seq<Posicao>, e2: seq<Posicao>, porQuantidade: bool)
    requires PedidoEquivalente(a, b) && multiset(e1) == multiset(e2)
    ensures Pontos(a, e1, porQuantidade) == Pontos(b, e2, porQuantidade)
    ensures ProdutosDisponiveis(a, e1) == ProdutosDisponiveis(b, e2)
  {
    EquivalentesPermutam(a, b);
    SomaPermutacao(a, b, PontosDe(e1, porQuantidade));
    forall i | i in b
      ensures PontosDe(e1, porQuantidade)(i) == PontosDe(e2, porQuantidade)(i)
    {
      TotalIgual(e1, e2, i.cd);
    }
    SomaIgual(b, PontosDe(e1, porQuantidade), PontosDe(e2, porQuantidade));
    forall cd: string ensures TotalProduto(e1, cd) == TotalProduto(e2, cd) { TotalIgual(e1, e2, cd); }
    assert (set i | i in a && TotalProduto(e1, i.cd) > 0 :: i.cd)
      == (set i | i in b && TotalProduto(e2, i.cd) > 0 :: i.cd);
  }

  // ----- the stock index

  /** The one-pass index is the stock restricted to the product's keys. */
  lemma {:induction false} IndiceOk(estoque: seq<Posicao>, cd: string, k: string)
    requires ChavesDistintas(estoque)
    ensures k in PorProduto(estoque, cd) <==> DoPrefixo(k, cd) && exists p :: p in estoque && p.chave == k
    ensures forall p :: p in estoque && p.chave == k && DoPrefixo(k, cd) ==> PorProduto(estoque, cd)[k] == p.qt
  {
    if estoque != [] {
      var ini, p := estoque[..|estoque| - 1], estoque[|estoque| - 1];
      assert estoque == ini + [p];
      IndiceOk(ini, cd, k);
      assert forall x :: x in estoque <==> x in ini || x == p;
      assert forall x :: x in ini ==> x.chave != p.chave;
    }
  }

  lemma IndiceIgual(e1: seq<Posicao>, e2: seq<Posicao>, cd: string)
    requires ChavesDistintas(e1) && ChavesDistintas(e2) && MesmosElementos(e1, e2)
    ensures PorProduto(e1, cd) == PorProduto(e2, cd)
  {
    var r1, r2 := PorProduto(e1, cd), PorProduto(e2, cd);
    forall k ensures (k in r1 <==> k in r2) && (k in r1 ==> r1[k] == r2[k]) {
      IndiceOk(e1, cd, k);
      IndiceOk(e2, cd, k);
    }
  }

  // ----- permutation invariance

  lemma ParesDefinemPedidos(d1: seq<Item>, d2: seq<Item>, nr: int)
    requires MesmosPares(d1, d2)
    ensures PedidoEquivalente(ItensDoPedido(d1, nr), ItensDoPedido(d2, nr))
  {
    forall cd ensures Filtrar(ItensDoPedido(d1, nr), DoProduto(cd)) == Filtrar(ItensDoPedido(d2, nr), DoProduto(cd)) {
      FiltroDuplo(d1, DoPedido(nr), DoProduto(cd), DoPar(nr, cd));
      FiltroDuplo(d2, DoPedido(nr), DoProduto(cd), DoPar(nr, cd));
    }
  }

  lemma MesmosParesPermutam(d1: seq<Item>, d2: seq<Item>)
    requires MesmosPares(d1, d2)
    ensures MesmosElementos(d1, d2) && MesmosElementos(Nrs(d1), Nrs(d2)) && MesmosElementos(Produtos(d1), Produtos(d2))
  {
    forall x: Item ensures multiset(d1)[x] == multiset(d2)[x] {
      FiltroConserva(d1, DoPar(x.nr, x.cd), x);
      FiltroConserva(d2, DoPar(x.nr, x.cd), x);
    }
    assert multiset(d1) == multiset(d2);
    PermutacaoMesmos(d1, d2);
    forall nr: int ensures nr in Nrs(d1) <==> nr in Nrs(d2) { NrsSao(d1, nr); NrsSao(d2, nr); }
    forall cd ensures cd in Produtos(d1) <==> cd in Produtos(d2) { ProdutosSao(d1, cd); ProdutosSao(d2, cd); }
  }

  /** Queues over the same orders, with equivalent items and the same stock, are equal. */
  lemma FilasIguais(d1: seq<Item>, d2: seq<Item>, e1: seq<Posicao>, e2: seq<Posicao>, cfg: Config)
    requires MesmosElementos(Nrs(d1), Nrs(d2)) && multiset(e1) == multiset(e2)
    requires forall nr :: nr in Nrs(d1) ==> PedidoEquivalente(ItensDoPedido(d1, nr), ItensDoPedido(d2, nr))
    ensures Fila(d1, e1, cfg) == Fila(d2, e2, cfg)
  {
    hide Pontos, ProdutosDisponiveis, ItensDoPedido, Ordenar, Filtrar, PedidoEquivalente, SemCredito;
    var f, g := OrdemPrioridade(d1, e1, cfg.porQuantidade), OrdemPrioridade(d2, e2, cfg.porQuantidade);
    var p, q := ComCredito(d1), ComCredito(d2);
    forall a | a in Nrs(d1)
      ensures Pontos(ItensDoPedido(d1, a), e1, cfg.porQuantidade) == Pontos(ItensDoPedido(d2, a), e2, cfg.porQuantidade)
      ensures ProdutosDisponiveis(ItensDoPedido(d1, a), e1) == ProdutosDisponiveis(ItensDoPedido(d2, a), e2)
        && p(a) == q(a)
    {
      PrioridadeIgual(ItensDoPedido(d1, a), ItensDoPedido(d2, a), e1, e2, cfg.porQuantidade);
      EquivalentesAgrupam(ItensDoPedido(d1, a), ItensDoPedido(d2, a));
    }
    forall a, b | a in Nrs(d1) && b in Nrs(d1) ensures f(a, b) == g(a, b) {}
    OrdenarFiltradoIgual(Nrs(d1), p, q, f, g);
    PrioridadeEhOrdem(d2, e2, cfg.porQuantidade);
    OrdenarFiltradoPermutado(Nrs(d1), Nrs(d2), q, g);
  }

  lemma OrdenarFiltradoPermutado<T(!new)>(a: seq<T>, b: seq<T>, p: T -> bool, menor: (T, T) -> bool)
    requires Distintos(a) && Distintos(b) && MesmosElementos(a, b) && Ordem(menor)
    ensures Ordenar(Filtrar(a, p), menor) == Ordenar(Filtrar(b, p), menor)
  {
    DistintosFiltrar(a, p);
    DistintosFiltrar(b, p);
    OrdemGlobalEmLista(Filtrar(a, p), menor);
    OrdenarIndependeDaChegada(Filtrar(a, p), Filtrar(b, p), menor);
  }

  /** Main result: interleaving the input differently, or listing the stock in another
      order, changes neither the selected pairs, nor the deferred ones and their
      motives, nor any quantity or value, nor the final stock. */
  lemma InvarianteDePermutacao(d1: seq<Item>, d2: seq<Item>, e1: seq<Posicao>, e2: seq<Posicao>, cfg: Config)
    requires MesmosPares(d1, d2)
    requires ChavesDistintas(e1) && ChavesDistintas(e2) && multiset(e1) == multiset(e2)
    ensures ProcessarCanal(d1, e1, cfg) == ProcessarCanal(d2, e2, cfg)
  {
    MesmosParesPermutam(d1, d2);
    forall nr
      ensures PedidoEquivalente(ItensDoPedido(d1, nr), ItensDoPedido(d2, nr))
    {
      ParesDefinemPedidos(d1, d2, nr);
    }
    FilasIguais(d1, d2, e1, e2, cfg);
    PermutacaoMesmos(e1, e2);
    forall cd ensures PorProduto(e1, cd) == PorProduto(e2, cd) { IndiceIgual(e1, e2, cd); }
    assert Locais(d1, e1) == Locais(d2, e2);
    var fila := Fila(d1, e1, cfg);
    DecisoresIguais(fila, d1, d2, cfg);
    RodadasIguais(fila, ProdutosDe(d1), DecisorDe(d1, cfg), DecisorDe(d2, cfg), Locais(d1, e1), Locais(d1, e1));
  }

  // ----- conservation of stock

  /** What `nr` reserves of each product fits the stock it finds. */
  ghost predicate ComLastro(f: Decisor, nr: int) {
    forall ests, cd, t :: cd in f(nr, ests) && f(nr, ests)[cd].GerarOR? ==>
      Reservado(f(nr, ests)[cd].linhas, t) <= Disp(Local(ests, cd), Chave(cd, t))
  }

  function ReservadoNaDecisao(ds: map<string, Decisao>, cd: string, t: string): int {
    if cd in ds && ds[cd].GerarOR? then Reservado(ds[cd].linhas, t) else 0
  }

  /** Pieces of size `t` of product `cd` reserved for each order. */
  function ReservadoPor(d: Decisoes, cd: string, t: string): int -> int {
    nr => if nr in d then ReservadoNaDecisao(d[nr], cd, t) else 0
  }

  lemma DebitoConserva(f: Decisor, nr: int, ests: Estoques, cd: string, t: string)
    requires ComLastro(f, nr)
    ensures Disp(Local(ests, cd), Chave(cd, t))
         == Disp(Local(DebitarPedido(ests, f(nr, ests)), cd), Chave(cd, t)) + ReservadoNaDecisao(f(nr, ests), cd, t)
  {
    var ds := f(nr, ests);
    if cd in ds && ds[cd].GerarOR? { DebitarExato(Local(ests, cd), cd, ds[cd].linhas, t); }
  }

  lemma {:induction false} RodadaConserva(fila: seq<int>, f: Decisor, ests: Estoques, cd: string, t: string)
    requires Distintos(fila) && forall nr :: nr in fila ==> ComLastro(f, nr)
    ensures var r := Rodar(fila, f, ests);
            r.Rodada? ==>
              Disp(Local(ests, cd), Chave(cd, t))
                == Disp(Local(r.estoques, cd), Chave(cd, t)) + Soma(fila, ReservadoPor(r.decisoes, cd, t))
  {
    if fila != [] {
      var nr := fila[0];
      var ds := f(nr, ests);
      assert nr in fila;
      DebitoConserva(f, nr, ests, cd, t);
      RodadaConserva(fila[1..], f, DebitarPedido(ests, ds), cd, t);
      var resto := Rodar(fila[1..], f, DebitarPedido(ests, ds));
      if !Aborta(ds) && resto.Rodada? {
        var d := resto.decisoes[nr := ds];
        assert forall x :: x in fila[1..] ==> x != nr;
        SomaIgual(fila[1..], ReservadoPor(resto.decisoes, cd, t), ReservadoPor(d, cd, t));
      }
    }
  }

  /** Sizes are unique within every pair of the input. */
  ghost predicate ParesComTamanhosUnicos(dados: seq<Item>) {
    forall nr, cd :: TamanhosUnicos(Filtrar(dados, DoPar(nr, cd)))
  }

  lemma ReservaTemLastro(dados: seq<Item>, cfg: Config, nr: int, ests: Estoques, cd: string, t: string)
    requires ParesComTamanhosUnicos(dados)
    requires var ds := DecisorDe(dados, cfg)(nr, ests); cd in ds && ds[cd].GerarOR?
    ensures Reservado(DecisorDe(dados, cfg)(nr, ests)[cd].linhas, t) <= Disp(Local(ests, cd), Chave(cd, t))
  {
    var its := ItensDoPedido(dados, nr);
    var m := Agrupar(its);
    var ds := DecisorDe(dados, cfg)(nr, ests);
    DecisaoCorreta(cfg.modo, NaBlacklist(its), Produtos(its), m, ests, SaldoDoPedido(cfg, nr, its), cd) by {
      assert cd in m by { DecideSoSeusProdutos(cfg.modo, NaBlacklist(its), Produtos(its), m, ests,
                                               SaldoDoPedido(cfg, nr, its)); }
    }
    FiltroDuplo(dados, DoPedido(nr), DoProduto(cd), DoPar(nr, cd));
    assert TamanhosUnicos(m[cd]);
    assert LinhasUnicas(ds[cd].linhas);
    ReservadoUnico(ds[cd].linhas, t, Local(ests, cd), cd);
  }

  lemma DecideSoSeusProdutos(modo: Modo, bl: bool, chegada: seq<string>, m: Grades, ests: Estoques, saldo: Saldo)
    ensures DecidirPedido(modo, bl, chegada, m, ests, saldo).Keys == m.Keys
  {}

  /** Main result: over a whole run, in either mode and for blacklisted orders, the
      initial stock of every product and size equals the final local stock plus the
      pieces reserved over all orders. */
  lemma ConservacaoDoEstoque(dados: seq<Item>, estoque: seq<Posicao>, cfg: Config, cd: string, t: string)
    requires ParesComTamanhosUnicos(dados) && cd in Produtos(dados)
    ensures var r := ProcessarCanal(dados, estoque, cfg);
            r.Rodada? ==>
              Disp(PorProduto(estoque, cd), Chave(cd, t))
              == Disp(Local(r.estoques, cd), Chave(cd, t))
                + Soma(Fila(dados, estoque, cfg), ReservadoPor(r.decisoes, cd, t))
  {
    FilaOk(dados, estoque, cfg);
    var f := DecisorDe(dados, cfg);
    forall nr ensures ComLastro(f, nr) {
      forall ests, c, s | c in f(nr, ests) && f(nr, ests)[c].GerarOR?
        ensures Reservado(f(nr, ests)[c].linhas, s) <= Disp(Local(ests, c), Chave(c, s))
      {
        ReservaTemLastro(dados, cfg, nr, ests, c, s);
      }
    }
    RodadaConserva(Fila(dados, estoque, cfg), f, Locais(dados, estoque), cd, t);
  }

  // ----- non-interference

  /** The orders at the head of the queue decide as if the tail did not exist. */
  lemma {:induction false} PrefixoDecideSozinho(a: seq<int>, b: seq<int>, f: Decisor, ests: Estoques)
    requires Distintos(a + b) && Rodar(a + b, f, ests).Rodada?
    ensures Rodar(a, f, ests).Rodada?
    ensures forall nr :: nr in a ==>
              nr in Rodar(a, f, ests).decisoes && nr in Rodar(a + b, f, ests).decisoes
              && Rodar(a, f, ests).decisoes[nr] == Rodar(a + b, f, ests).decisoes[nr]
  {
    if a != [] {
      assert (a + b)[1..] == a[1..] + b;
      assert a[0] == (a + b)[0];
      PrefixoDecideSozinho(a[1..], b, f, DebitarPedido(ests, f(a[0], ests)));
      assert forall nr :: nr in a[1..] ==> nr in (a + b)[1..];
    }
  }

  function SemPedido(x: int): Item -> bool { (i: Item) => i.nr != x }
  function Exceto(x: int): int -> bool { nr => nr != x }

  lemma RemoverMantemPedido(dados: seq<Item>, x: int, nr: int)
    requires nr != x
    ensures ItensDoPedido(Filtrar(dados, SemPedido(x)), nr) == ItensDoPedido(dados, nr)
  {
    FiltroDuplo(dados, SemPedido(x), DoPedido(nr), DoPedido(nr));
  }

  lemma OrdenarExceto(a: seq<int>, b: seq<int>, p: int -> bool, q: int -> bool, f: (int, int) -> bool,
                      g: (int, int) -> bool, x: int)
    requires Distintos(a) && Distintos(b) && Ordem(f) && Ordem(g)
    requires forall y :: y in b && q(y) <==> y in a && p(y) && y != x
    requires forall y, z :: y != x && z != x ==> f(y, z) == g(y, z)
    ensures Ordenar(Filtrar(b, q), g) == Filtrar(Ordenar(Filtrar(a, p), f), Exceto(x))
  {
    OrdenarFiltrado(a, p, f);
    OrdenarFiltrado(b, q, g);
    var alvo := Filtrar(Ordenar(Filtrar(a, p), f), Exceto(x));
    FiltrarCrescente(Ordenar(Filtrar(a, p), f), Exceto(x), f);
    forall i, j | 0 <= i < j < |alvo| ensures g(alvo[i], alvo[j]) {
      assert f(alvo[i], alvo[j]) && alvo[i] in alvo && alvo[j] in alvo;
    }
    OrdemGlobalEmLista(Ordenar(Filtrar(b, q), g), g);
    CrescenteUnica(Ordenar(Filtrar(b, q), g), alvo, g);
  }

  lemma FilaSemPedido(dados: seq<Item>, estoque: seq<Posicao>, cfg: Config, x: int)
    ensures Fila(Filtrar(dados, SemPedido(x)), estoque, cfg) == Filtrar(Fila(dados, estoque, cfg), Exceto(x))
  {
    hide Filtrar, ItensDoPedido, SemCredito, Ordenar, Pontos, ProdutosDisponiveis;
    var d := Filtrar(dados, SemPedido(x));
    var f, g := OrdemPrioridade(dados, estoque, cfg.porQuantidade), OrdemPrioridade(d, estoque, cfg.porQuantidade);
    PrioridadeEhOrdem(dados, estoque, cfg.porQuantidade);
    PrioridadeEhOrdem(d, estoque, cfg.porQuantidade);
    forall nr | nr != x ensures ItensDoPedido(d, nr) == ItensDoPedido(dados, nr) { RemoverMantemPedido(dados, x, nr); }
    forall nr: int ensures nr in Nrs(d) && ComCredito(d)(nr) <==> nr in Nrs(dados) && ComCredito(dados)(nr) && nr != x {
      NrsSao(d, nr);
      NrsSao(dados, nr);
    }
    OrdenarExceto(Nrs(dados), Nrs(d), ComCredito(dados), ComCredito(d), f, g, x);
  }

  lemma ProdutoDoPedidoEstaNosDados(dados: seq<Item>, nr: int, cd: string)
    requires cd in Produtos(ItensDoPedido(dados, nr))
    ensures cd in Produtos(dados)
  {
    var its := ItensDoPedido(dados, nr);
    ProdutosSao(its, cd);
    var i :| i in its && i.cd == cd;
    assert i in dados;
    ProdutosSao(dados, cd);
  }

  lemma LocaisConcordam(d1: seq<Item>, d2: seq<Item>, estoque: seq<Posicao>, fila: seq<int>)
    requires forall nr :: nr in fila ==> ItensDoPedido(d2, nr) == ItensDoPedido(d1, nr)
    ensures MesmosLocais(fila, ProdutosDe(d1), Locais(d1, estoque), Locais(d2, estoque))
  {
    forall nr, cd | nr in fila && cd in Produtos(ItensDoPedido(d1, nr))
      ensures Local(Locais(d1, estoque), cd) == Local(Locais(d2, estoque), cd)
    {
      ProdutoDoPedidoEstaNosDados(d1, nr, cd);
      ProdutoDoPedidoEstaNosDados(d2, nr, cd);
    }
  }

  /** Orders kept in the input decide alike, run over any queue of them. */
  lemma RemoverMantemDecisoes(dados: seq<Item>, estoque: seq<Posicao>, cfg: Config, x: int, fila: seq<int>)
    requires x !in fila
    ensures var d := Filtrar(dados, SemPedido(x));
            MesmasDecisoes(Rodar(fila, DecisorDe(dados, cfg), Locais(dados, estoque)),
                           Rodar(fila, DecisorDe(d, cfg), Locais(d, estoque)))
  {
    var d := Filtrar(dados, SemPedido(x));
    forall nr | nr in fila
      ensures ItensDoPedido(d, nr) == ItensDoPedido(dados, nr)
    {
      RemoverMantemPedido(dados, x, nr);
    }
    DecisoresIguais(fila, dados, d, cfg);
    LocaisConcordam(dados, d, estoque, fila);
    RodadasIguais(fila, ProdutosDe(dados), DecisorDe(dados, cfg), DecisorDe(d, cfg), Locais(dados, estoque),
                  Locais(d, estoque));
  }

  /** Deleting a credit-blocked order changes nothing for any other order. */
  lemma BloqueadoNaoInterfere(dados: seq<Item>, estoque: seq<Posicao>, cfg: Config, x: int)
    requires SemCredito(ItensDoPedido(dados, x))
    ensures MesmasDecisoes(ProcessarCanal(dados, estoque, cfg),
                           ProcessarCanal(Filtrar(dados, SemPedido(x)), estoque, cfg))
  {
    var fila := Fila(dados, estoque, cfg);
    FilaOk(dados, estoque, cfg);
    FilaSemPedido(dados, estoque, cfg, x);
    FiltrarTodos(fila, Exceto(x));
    RemoverMantemDecisoes(dados, estoque, cfg, x, fila);
  }

  lemma DistintosMeio(a: seq<int>, x: int, b: seq<int>)
    requires Distintos(a + [x] + b)
    ensures x !in a && x !in b && Distintos(a + b)
  {
    var s := a + [x] + b;
    assert s[|a|] == x;
    forall k | 0 <= k < |a| ensures a[k] != x { assert s[k] == a[k]; }
    forall k | 0 <= k < |b| ensures b[k] != x { assert s[|a| + 1 + k] == b[k]; }
    forall i, j | 0 <= i < j < |a + b| ensures (a + b)[i] != (a + b)[j] {
      assert (a + b)[i] == s[if i < |a| then i else i + 1];
      assert (a + b)[j] == s[if j < |a| then j else j + 1];
    }
  }

  lemma FiltrarMeio<T>(a: seq<T>, x: T, b: seq<T>, p: T -> bool)
    requires !p(x) && (forall y :: y in a ==> p(y)) && (forall y :: y in b ==> p(y))
    ensures Filtrar(a + [x] + b, p) == a + b
  {
    hide Filtrar;
    FiltrarTodos(a, p);
    FiltrarTodos(b, p);
    FiltrarNenhum([x], p);
    calc {
      Filtrar(a + [x] + b, p);
      { FiltrarConcat(a + [x], b, p); }
      Filtrar(a + [x], p) + b;
      { FiltrarConcat(a, [x], p); }
      a + [] + b;
      a + b;
    }
  }

  /** If the whole run completes, so does the run of `frente` alone, with the same
      decisions for its orders. */
  ghost predicate Estende(frente: seq<int>, parcial: Rodada, r: Rodada) {
    r.Rodada? ==>
      && parcial.Rodada?
      && forall nr :: nr in frente ==>
        nr in parcial.decisoes && nr in r.decisoes && r.decisoes[nr] == parcial.decisoes[nr]
  }

  lemma FilaSemOMeio(dados: seq<Item>, estoque: seq<Posicao>, cfg: Config, frente: seq<int>, x: int, resto: seq<int>)
    requires Fila(dados, estoque, cfg) == frente + [x] + resto
    ensures Fila(Filtrar(dados, SemPedido(x)), estoque, cfg) == frente + resto
    ensures Distintos(frente + [x] + resto) && Distintos(frente + resto) && x !in frente
  {
    FilaOk(dados, estoque, cfg);
    FilaSemPedido(dados, estoque, cfg, x);
    DistintosMeio(frente, x, resto);
    FiltrarMeio(frente, x, resto, Exceto(x));
  }

  /** The orders ahead of a deleted one decide alike before and after, as a run of their
      own; each whole run either aborts further down the queue or extends that run. */
  lemma AnterioresNaoSaoAfetados(
      dados: seq<Item>, estoque: seq<Posicao>, cfg: Config, frente: seq<int>, x: int, resto: seq<int>)
    requires Fila(dados, estoque, cfg) == frente + [x] + resto
    ensures var d := Filtrar(dados, SemPedido(x));
            var antes := Rodar(frente, DecisorDe(dados, cfg), Locais(dados, estoque));
            var depois := Rodar(frente, DecisorDe(d, cfg), Locais(d, estoque));
            && Fila(d, estoque, cfg) == frente + resto
            && MesmasDecisoes(antes, depois)
            && Estende(frente, antes, ProcessarCanal(dados, estoque, cfg))
            && Estende(frente, depois, ProcessarCanal(d, estoque, cfg))
  {
    hide Fila, Locais, DecisorDe;
    FilaSemOMeio(dados, estoque, cfg, frente, x, resto);
    RemoverMantemDecisoes(dados, estoque, cfg, x, frente);
    ConcatAssocia(frente, [x], resto);
    FrenteEstende(frente, [x] + resto, DecisorDe(dados, cfg), Locais(dados, estoque));
    FrenteEstende(frente, resto, DecisorDe(Filtrar(dados, SemPedido(x)), cfg),
                  Locais(Filtrar(dados, SemPedido(x)), estoque));
  }

  lemma FrenteEstende(frente: seq<int>, resto: seq<int>, f: Decisor, ests: Estoques)
    requires Distintos(frente + resto)
    ensures Estende(frente, Rodar(frente, f, ests), Rodar(frente + resto, f, ests))
  {
    if Rodar(frente + resto, f, ests).Rodada? { PrefixoDecideSozinho(frente, resto, f, ests); }
  }

  // ----- every pair has exactly one outcome

  lemma {:induction false} RodadaDecideTodos(fila: seq<int>, f: Decisor, ests: Estoques)
    requires Distintos(fila) && Rodar(fila, f, ests).Rodada?
    ensures var r := Rodar(fila, f, ests);
            && (forall nr :: nr in r.decisoes <==> nr in fila)
            && (forall nr :: nr in fila ==> !Aborta(r.decisoes[nr]) && exists e :: r.decisoes[nr] == f(nr, e))
  {
    if fila != [] {
      var nr := fila[0];
      RodadaDecideTodos(fila[1..], f, DebitarPedido(ests, f(nr, ests)));
      assert fila == [nr] + fila[1..];
    }
  }

  lemma ParExiste(dados: seq<Item>, nr: int, cd: string)
    ensures cd in Agrupar(ItensDoPedido(dados, nr)) <==> Filtrar(dados, DoPar(nr, cd)) != []
    ensures Filtrar(dados, DoPar(nr, cd)) != [] ==> nr in Nrs(dados)
  {
    var its := ItensDoPedido(dados, nr);
    FiltroDuplo(dados, DoPedido(nr), DoProduto(cd), DoPar(nr, cd));
    ProdutosSao(its, cd);
    if Filtrar(dados, DoPar(nr, cd)) != [] {
      var i := Filtrar(dados, DoPar(nr, cd))[0];
      assert i in Filtrar(dados, DoPar(nr, cd));
      assert i in dados && i in its && i.cd == cd;
      NrsSao(dados, nr);
    }
  }

  /** A completed run decides every pair of every order with credit, and only those:
      each pair of the input is selected, deferred with a motive, or credit-blocked. */
  lemma TodoParTemDestino(dados: seq<Item>, estoque: seq<Posicao>, cfg: Config, nr: int, cd: string)
    requires ProcessarCanal(dados, estoque, cfg).Rodada?
    ensures var d := ProcessarCanal(dados, estoque, cfg).decisoes;
            && (nr in d && cd in d[nr]
              <==> Filtrar(dados, DoPar(nr, cd)) != [] && !SemCredito(ItensDoPedido(dados, nr)))
            && (nr in d && cd in d[nr] ==> !d[nr][cd].DivisaoPorZero?)
  {
    hide Filtrar, Fila, ItensDoPedido, Agrupar, SaldoDoPedido;
    var d := ProcessarCanal(dados, estoque, cfg).decisoes;
    FilaOk(dados, estoque, cfg);
    ParExiste(dados, nr, cd);
    RodadaDecideTodos(Fila(dados, estoque, cfg), DecisorDe(dados, cfg), Locais(dados, estoque));
    if nr in d {
      var its := ItensDoPedido(dados, nr);
      var e :| d[nr] == DecisorDe(dados, cfg)(nr, e);
      DecideSoSeusProdutos(cfg.modo, NaBlacklist(its), Produtos(its), Agrupar(its), e, SaldoDoPedido(cfg, nr, its));
    }
  }
}
