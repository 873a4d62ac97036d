/** Freezing a channel's run into a plan: which pairs are planned, deferred or blocked
    for credit, and how the counters relate. */
module Plano {
  import opened Listas
  import opened Motor
  import opened MotorCanal
  import opened MotorTeoremas
  import opened MotorExecucao

  function ParDoItem(): Item -> Par { (i: Item) => (i.nr, i.cd) }

  /** The candidate pairs: each (order, product) of the input once. */
  function Pares(dados: seq<Item>): seq<Par> { Chegada(Mapear(dados, ParDoItem())) }

  function ParBloqueado(dados: seq<Item>): Par -> bool { (p: Par) => SemCredito(ItensDoPedido(dados, p.0)) }

  function ParesBloqueados(dados: seq<Item>): seq<Par> { Filtrar(Pares(dados), ParBloqueado(dados)) }

  lemma ParesSao(dados: seq<Item>, p: Par)
    ensures p in Pares(dados) <==> Filtrar(dados, DoPar(p.0, p.1)) != []
  {
    var m := Mapear(dados, ParDoItem());
    if p in m {
      var k :| 0 <= k < |m| && m[k] == p;
      assert dados[k] in dados && DoPar(p.0, p.1)(dados[k]);
    }
    if Filtrar(dados, DoPar(p.0, p.1)) != [] {
      var i := Filtrar(dados, DoPar(p.0, p.1))[0];
      assert i in Filtrar(dados, DoPar(p.0, p.1));
      MapearContem(dados, ParDoItem(), i);
    }
  }

  /** A pair is a candidate when some row has it, and blocked when, besides, some row of its
      order is. */
  lemma ParBloqueadoSse(dados: seq<Item>, p: Par)
    ensures p in Pares(dados) <==> exists i :: i in dados && i.nr == p.0 && i.cd == p.1
    ensures p in ParesBloqueados(dados)
       <==> (exists i :: i in dados && i.nr == p.0 && i.cd == p.1)
            && exists j :: j in dados && j.nr == p.0 && j.semCredito
  {
    hide Pares;
    ParesSao(dados, p);
    var f := Filtrar(dados, DoPar(p.0, p.1));
    assert forall i :: i in f <==> i in dados && DoPar(p.0, p.1)(i);
    if f != [] { assert f[0] in f; }
    assert forall i :: i in ItensDoPedido(dados, p.0) <==> i in dados && DoPedido(p.0)(i);
    assert p in ParesBloqueados(dados) <==> p in Pares(dados) && ParBloqueado(dados)(p);
  }

  /** The lists of a completed run say exactly where a candidate pair went. */
  lemma DestinoDoPar(dados: seq<Item>, estoque: seq<Posicao>, cfg: Config, l: Listagem, p: Par)
    requires ProcessarCanal(dados, estoque, cfg).Rodada? && Coerente(ProcessarCanal(dados, estoque, cfg).decisoes, l)
    ensures p in Pares(dados) <==> p in l.selecionados || p in l.preteridos || p in ParesBloqueados(dados)
    ensures !(p in l.selecionados && p in l.preteridos)
    ensures p in ParesBloqueados(dados) ==> p !in l.selecionados && p !in l.preteridos
    ensures p in l.preteridos <==> p in l.motivos
    ensures p in l.selecionados <==> p in l.resultados
  {
    hide Pares, ProcessarCanal, Filtrar, ItensDoPedido;
    ParesSao(dados, p);
    TodoParTemDestino(dados, estoque, cfg, p.0, p.1);
    assert CoerenteEm(ProcessarCanal(dados, estoque, cfg).decisoes, l, p);
  }

  /** With the blocked pairs in any order, the three lists hold every candidate pair once. */
  lemma ListasParticionam(dados: seq<Item>, estoque: seq<Posicao>, cfg: Config, l: Listagem, bloqueados: seq<Par>)
    requires ProcessarCanal(dados, estoque, cfg).Rodada? && Coerente(ProcessarCanal(dados, estoque, cfg).decisoes, l)
    requires Distintos(bloqueados) && MesmosElementos(bloqueados, ParesBloqueados(dados))
    ensures Distintos(l.selecionados + l.preteridos + bloqueados)
    ensures MesmosElementos(l.selecionados + l.preteridos + bloqueados, Pares(dados))
  {
    hide ProcessarCanal, CoerenteEm, Filtrar, Pares;
    forall p: Par
      ensures p in Pares(dados) <==> p in l.selecionados || p in l.preteridos || p in ParesBloqueados(dados)
      ensures !(p in l.selecionados && p in l.preteridos)
      ensures p in ParesBloqueados(dados) ==> p !in l.selecionados && p !in l.preteridos
    {
      DestinoDoPar(dados, estoque, cfg, l, p);
    }
    DistintosConcat(l.selecionados, l.preteridos);
    DistintosConcat(l.selecionados + l.preteridos, bloqueados);
  }

  /** Hence the three counts of pairs add up to the candidates. */
  lemma ContagensFecham(dados: seq<Item>, estoque: seq<Posicao>, cfg: Config, l: Listagem)
    requires ProcessarCanal(dados, estoque, cfg).Rodada? && Coerente(ProcessarCanal(dados, estoque, cfg).decisoes, l)
    ensures |l.selecionados| + |l.preteridos| + |ParesBloqueados(dados)| == |Pares(dados)|
  {
    hide ProcessarCanal, CoerenteEm, Filtrar;
    var partes := l.selecionados + l.preteridos + ParesBloqueados(dados);
    DistintosFiltrar(Pares(dados), ParBloqueado(dados));
    ListasParticionam(dados, estoque, cfg, l, ParesBloqueados(dados));
    DistintosMultiset(Pares(dados), partes);
    PermutacaoMesmos(Pares(dados), partes);
  }

  // ----- the blocked counter counts orders, not pairs

  function NrDoPar(): Par -> int { (p: Par) => p.0 }

  /** No order appears in two of the pairs. */
  ghost predicate UmParPorPedido(ps: seq<Par>) { forall i, j :: 0 <= i < j < |ps| ==> ps[i].0 != ps[j].0 }

  lemma {:induction false} PedidosDosPares(ps: seq<Par>)
    ensures var u := Chegada(Mapear(ps, NrDoPar()));
            |u| <= |ps| && (|u| == |ps| <==> UmParPorPedido(ps))
    decreases |ps|
  {
    if ps != [] {
      var r, x := ps[..|ps| - 1], ps[|ps| - 1];
      assert ps == r + [x];
      PedidosDosPares(r);
      MapearConcat(r, [x], NrDoPar());
      assert Mapear([x], NrDoPar()) == [x.0];
      ChegadaMais(Mapear(r, NrDoPar()), x.0);
      UltimoPedido(r, x);
    }
  }

  lemma UltimoPedido(r: seq<Par>, x: Par)
    ensures UmParPorPedido(r + [x]) <==> UmParPorPedido(r) && x.0 !in Mapear(r, NrDoPar())
  {
    var m, ps := Mapear(r, NrDoPar()), r + [x];
    if x.0 in m {
      var k :| 0 <= k < |m| && m[k] == x.0;
      assert ps[k].0 == ps[|r|].0;
    } else {
      forall k | 0 <= k < |r| ensures r[k].0 != x.0 { assert m[k] in m; }
    }
    assert forall k :: 0 <= k < |r| ==> ps[k] == r[k];
  }

  lemma BloqueadosSaoPedidos(dados: seq<Item>, bloqueados: seq<int>)
    requires Distintos(bloqueados)
      && forall nr :: nr in bloqueados <==> nr in Nrs(dados) && SemCredito(ItensDoPedido(dados, nr))
    ensures |bloqueados| == |Chegada(Mapear(ParesBloqueados(dados), NrDoPar()))|
  {
    hide ItensDoPedido, SemCredito, Filtrar;
    var ps := ParesBloqueados(dados);
    var u := Chegada(Mapear(ps, NrDoPar()));
    forall nr ensures nr in u <==> nr in bloqueados {
      if nr in Mapear(ps, NrDoPar()) {
        var k :| 0 <= k < |ps| && Mapear(ps, NrDoPar())[k] == nr;
        PedidoDoPar(dados, ps[k]);
      }
      if nr in bloqueados {
        var p := ParDoPedido(dados, nr);
        MapearContem(ps, NrDoPar(), p);
      }
    }
    DistintosMultiset(u, bloqueados);
    PermutacaoMesmos(u, bloqueados);
  }

  lemma PedidoDoPar(dados: seq<Item>, p: Par)
    requires p in ParesBloqueados(dados)
    ensures p.0 in Nrs(dados) && SemCredito(ItensDoPedido(dados, p.0))
  {
    var m := Mapear(dados, ParDoItem());
    var k :| 0 <= k < |m| && m[k] == p;
    MapearContem(dados, NrDe(), dados[k]);
  }

  lemma ParDoPedido(dados: seq<Item>, nr: int) returns (p: Par)
    requires nr in Nrs(dados) && SemCredito(ItensDoPedido(dados, nr))
    ensures p in ParesBloqueados(dados) && NrDoPar()(p) == nr
  {
    var m := Mapear(dados, NrDe());
    var k :| 0 <= k < |m| && m[k] == nr;
    p := (dados[k].nr, dados[k].cd);
    MapearContem(dados, ParDoItem(), dados[k]);
  }

  /** The plan's blocked counter counts orders: its three counters add up to the
      candidates exactly when no blocked order has two candidate pairs. */
  lemma ContadoresSomamSse(dados: seq<Item>, estoque: seq<Posicao>, cfg: Config, l: Listagem, bloqueados: seq<int>)
    requires ProcessarCanal(dados, estoque, cfg).Rodada? && Coerente(ProcessarCanal(dados, estoque, cfg).decisoes, l)
    requires Distintos(bloqueados)
      && forall nr :: nr in bloqueados <==> nr in Nrs(dados) && SemCredito(ItensDoPedido(dados, nr))
    ensures |l.selecionados| + |l.preteridos| + |bloqueados| <= |Pares(dados)|
    ensures |l.selecionados| + |l.preteridos| + |bloqueados| == |Pares(dados)|
      <==> UmParPorPedido(ParesBloqueados(dados))
  {
    hide ProcessarCanal, Coerente, ParesBloqueados, ItensDoPedido, SemCredito;
    ContagensFecham(dados, estoque, cfg, l);
    BloqueadosSaoPedidos(dados, bloqueados);
    PedidosDosPares(ParesBloqueados(dados));
  }

  /** A blocked order with two products: two candidate pairs, one blocked order. */
  lemma ExemploDoisProdutos(a: Item, b: Item)
    requires a.nr == b.nr && a.cd != b.cd && a.semCredito
    ensures ParesBloqueados([a, b]) == [(a.nr, a.cd), (b.nr, b.cd)] && !UmParPorPedido(ParesBloqueados([a, b]))
  {
    hide ItensDoPedido, Chegada, Filtrar;
    var d := [a, b];
    assert Mapear(d, ParDoItem()) == [(a.nr, a.cd), (b.nr, b.cd)];
    ChegadaDeDois((a.nr, a.cd), (b.nr, b.cd));
    SemCreditoNoPedido(d, a);
    FiltrarTodos(Pares(d), ParBloqueado(d));
  }

  lemma ChegadaDeDois<T>(x: T, y: T)
    requires x != y
    ensures Chegada([x, y]) == [x, y]
  {
    assert [x, y] == [x] + [y];
    ChegadaMais([x], y);
    assert [x] == [] + [x];
    ChegadaMais<T>([], x);
  }

  lemma SemCreditoNoPedido(dados: seq<Item>, i: Item)
    requires i in dados && i.semCredito
    ensures SemCredito(ItensDoPedido(dados, i.nr))
  {
    assert i in ItensDoPedido(dados, i.nr);
  }

  // ----- the plan

  datatype Planejado = Planejado(ordinal: nat, par: Par, linhas: seq<Linha>)

  datatype Rascunho = Rascunho(
    linhas: seq<Planejado>, candidatos: nat, adiados: nat, bloqueados: nat,
    paresAdiados: seq<(Par, Motivo)>, paresBloqueados: seq<Par>)

  function ParDaLinha(): Planejado -> Par { (x: Planejado) => x.par }
  function ParDoAdiado(): ((Par, Motivo)) -> Par { (x: (Par, Motivo)) => x.0 }

  /** The three lists are sorted, and every candidate pair is in exactly one of them, once. */
  ghost predicate Particiona(r: Rascunho, candidatos: seq<Par>) {
    var planejados, adiados := Mapear(r.linhas, ParDaLinha()), Mapear(r.paresAdiados, ParDoAdiado());
    && ParesEmOrdem(planejados) && ParesEmOrdem(adiados) && ParesEmOrdem(r.paresBloqueados)
    && Distintos(planejados + adiados + r.paresBloqueados)
    && MesmosElementos(planejados + adiados + r.paresBloqueados, candidatos)
  }

  /** Numbers the selected pairs from one, in order. */
  method Numerar(l: Listagem) returns (ps: seq<Planejado>)
    requires forall p :: p in l.selecionados ==> p in l.resultados
    ensures |ps| == |l.selecionados| && Mapear(ps, ParDaLinha()) == l.selecionados
    ensures forall k :: 0 <= k < |ps| ==> ps[k] == Planejado(k + 1, l.selecionados[k], l.resultados[l.selecionados[k]])
  {
    ps := [];
    for i := 0 to |l.selecionados|
      invariant |ps| == i
        && forall k :: 0 <= k < i ==> ps[k] == Planejado(k + 1, l.selecionados[k], l.resultados[l.selecionados[k]])
    {
      assert l.selecionados[i] in l.selecionados;
      ps := ps + [Planejado(i + 1, l.selecionados[i], l.resultados[l.selecionados[i]])];
    }
  }

  method Motivar(l: Listagem) returns (ps: seq<(Par, Motivo)>)
    requires forall p :: p in l.preteridos ==> p in l.motivos
    ensures Mapear(ps, ParDoAdiado()) == l.preteridos
    ensures |ps| == |l.preteridos|
      && forall k :: 0 <= k < |ps| ==> ps[k] == (l.preteridos[k], l.motivos[l.preteridos[k]])
  {
    ps := [];
    for i := 0 to |l.preteridos|
      invariant |ps| == i && forall k :: 0 <= k < i ==> ps[k] == (l.preteridos[k], l.motivos[l.preteridos[k]])
    {
      assert l.preteridos[i] in l.preteridos;
      ps := ps + [(l.preteridos[i], l.motivos[l.preteridos[i]])];
    }
  }

  /** The plan of one channel, or nothing when the run aborts. Its planned, deferred and
      blocked pairs partition the candidates; each planned pair carries the rows the
      engine decided, each deferred pair its motive. */
  method ConstruirPlano(dados: seq<Item>, estoque: seq<Posicao>, cfg: Config) returns (r: Opcao<Rascunho>)
    requires ParesComTamanhosUnicos(dados)
    ensures r.Algo? <==> ProcessarCanal(dados, estoque, cfg).Rodada?
    ensures r.Algo? ==>
      |r.valor.linhas| + r.valor.adiados + |r.valor.paresBloqueados| == r.valor.candidatos == |Pares(dados)|
    ensures r.Algo? ==> Particiona(r.valor, Pares(dados))
    ensures r.Algo? ==> r.valor.adiados == |r.valor.paresAdiados| && r.valor.bloqueados <= |r.valor.paresBloqueados|
    ensures r.Algo? ==> forall k :: 0 <= k < |r.valor.linhas| ==>
              var x := r.valor.linhas[k]; var d := ProcessarCanal(dados, estoque, cfg).decisoes;
              x.ordinal == k + 1 && Decidido(d, x.par) && d[x.par.0][x.par.1] == GerarOR(x.linhas)
    ensures r.Algo? ==> forall k :: 0 <= k < |r.valor.paresAdiados| ==>
              var x := r.valor.paresAdiados[k]; var d := ProcessarCanal(dados, estoque, cfg).decisoes;
              Decidido(d, x.0) && d[x.0.0][x.0.1] == StandBy(x.1)
    ensures r.Algo? ==> forall p :: p in r.valor.paresBloqueados <==> p in ParesBloqueados(dados)
    ensures r.Algo? ==> r.valor.bloqueados == |set i | i in dados && i.semCredito :: i.nr|
  {
    hide ProcessarCanal, ItensDoPedido, Filtrar, Ordenar, ParesComTamanhosUnicos, Mapear;
    var l, bloqueados := ProcessarPedidosCanal(dados, estoque, cfg);
    if l.Nada? { return Nada; }
    ghost var d := ProcessarCanal(dados, estoque, cfg).decisoes;
    forall p: Par
      ensures CoerenteEm(d, l.valor, p) && (p in l.valor.selecionados <==> p in l.valor.resultados)
        && (p in l.valor.preteridos <==> p in l.valor.motivos)
    {
      DestinoDoPar(dados, estoque, cfg, l.valor, p);
    }
    var linhas := Numerar(l.valor);
    var adiados := Motivar(l.valor);
    SemRepetir(bloqueados);
    BloqueadosContam(dados, bloqueados);
    ContagensFecham(dados, estoque, cfg, l.valor);
    ContadoresSomamSse(dados, estoque, cfg, l.valor, bloqueados);
    DistintosFiltrar(Pares(dados), ParBloqueado(dados));
    PorParOrdena(ParesBloqueados(dados));
    PorParEmOrdem(Ordenar(ParesBloqueados(dados), PorPar));
    OrdenarPermuta(ParesBloqueados(dados), PorPar);
    ListasParticionam(dados, estoque, cfg, l.valor, Ordenar(ParesBloqueados(dados), PorPar));
    r := Algo(Rascunho(linhas, |Pares(dados)|, |l.valor.preteridos|, |bloqueados|, adiados,
                       Ordenar(ParesBloqueados(dados), PorPar)));
    forall k | 0 <= k < |linhas|
      ensures linhas[k].ordinal == k + 1 && Decidido(d, linhas[k].par)
        && d[linhas[k].par.0][linhas[k].par.1] == GerarOR(linhas[k].linhas)
    {
      assert CoerenteEm(d, l.valor, linhas[k].par) && linhas[k].par in l.valor.selecionados;
    }
    forall k | 0 <= k < |adiados|
      ensures Decidido(d, adiados[k].0) && d[adiados[k].0.0][adiados[k].0.1] == StandBy(adiados[k].1)
    {
      assert CoerenteEm(d, l.valor, adiados[k].0) && adiados[k].0 in l.valor.preteridos;
    }
  }

  lemma SemRepetir(s: seq<int>)
    requires forall i, j :: 0 <= i < j < |s| ==> s[i] < s[j]
    ensures Distintos(s)
  {}

  /** The blocked counter counts the orders with a blocked row. */
  lemma BloqueadosContam(dados: seq<Item>, bloqueados: seq<int>)
    requires Distintos(bloqueados)
    requires forall nr :: nr in bloqueados <==> exists i :: i in dados && i.nr == nr && i.semCredito
    ensures |bloqueados| == |set i | i in dados && i.semCredito :: i.nr|
    ensures forall nr :: nr in bloqueados <==> nr in Nrs(dados) && SemCredito(ItensDoPedido(dados, nr))
  {
    hide Nrs, SemCredito, ItensDoPedido;
    TamanhoDistinto(bloqueados);
    var nrs := set i | i in dados && i.semCredito :: i.nr;
    forall nr ensures nr in Conjunto(bloqueados) <==> nr in nrs {
      if i :| i in dados && i.nr == nr && i.semCredito { assert i.nr in nrs; }
    }
    assert Conjunto(bloqueados) == nrs;
    forall nr ensures nr in bloqueados <==> nr in Nrs(dados) && SemCredito(ItensDoPedido(dados, nr)) {
      BloqueadoSse(dados, nr);
    }
  }
}
