/** Aggregating the raw rows of the two order sources: pairs are kept or discarded whole,
    quantities are added, and the pair's repeated total is apportioned over its sizes. */
module Agregacao {
  import opened Aritmetica
  import opened Listas
  import opened Rateio

  datatype Origem = Pendentes | Erp

  /** A parsed row; values in cents, the channel resolved when it is known. `descricao`
      stands for the client, the product text, the date and the credit status. Pending rows
      carry the blacklist flag, ERP rows the reserve and packing flags. */
  datatype Bruta = Bruta(
    nr: int, cd: string, tam: string, grupo: string, descricao: string, qt: int, vl: int, canal: Opcao<string>,
    blacklist: bool, reserva: bool, embalado: bool)

  datatype Par = Par(nr: int, cd: string)
  datatype Chave = Chave(par: Par, tam: string)

  function ParDe(): Bruta -> Par { (l: Bruta) => Par(l.nr, l.cd) }
  function ChaveDe(): Bruta -> Chave { (l: Bruta) => Chave(Par(l.nr, l.cd), l.tam) }
  function DoPar(p: Par): Bruta -> bool { (l: Bruta) => Par(l.nr, l.cd) == p }
  function ChaveDoPar(p: Par): Chave -> bool { (k: Chave) => k.par == p }

  /** Rows with a valid identity; pending rows also need a positive quantity and a group. */
  function Aceita(o: Origem): Bruta -> bool {
    (l: Bruta) => l.nr > 0 && l.cd != "" && l.tam != "" && (o == Pendentes ==> l.qt > 0 && l.grupo != "")
  }

  /** Negative quantities weigh zero. */
  function QtNa(k: Chave): Bruta -> int { (l: Bruta) => if Chave(Par(l.nr, l.cd), l.tam) == k then Max(l.qt, 0) else 0 }
  function QtDoPar(p: Par): Bruta -> int { (l: Bruta) => if Par(l.nr, l.cd) == p then Max(l.qt, 0) else 0 }

  function ValorDe(): Bruta -> int { (l: Bruta) => l.vl }
  function Informa(o: Origem, p: Par): Bruta -> bool {
    (l: Bruta) => Par(l.nr, l.cd) == p && if o == Pendentes then l.vl > 0 else l.vl != 0
  }

  /** The distinct totals the rows of a pair carry. */
  function Totais(o: Origem, ls: seq<Bruta>, p: Par): seq<int> {
    Chegada(Mapear(Filtrar(ls, Informa(o, p)), ValorDe()))
  }

  /** A pair must carry one total; an ERP pair may also carry none. */
  predicate TotaisOk(o: Origem, vs: seq<int>) { |vs| == 1 || (o == Erp && |vs| == 0) }

  function Mantida(o: Origem, ls: seq<Bruta>): Bruta -> bool {
    (l: Bruta) => TotaisOk(o, Totais(o, ls, Par(l.nr, l.cd)))
  }

  /** Keys in order of first arrival. */
  function Chaves(ls: seq<Bruta>): seq<Chave> { Chegada(Mapear(ls, ChaveDe())) }

  function QtTotal(ls: seq<Bruta>, k: Chave): nat {
    SomaNaoNegativa(ls, QtNa(k));
    Soma(ls, QtNa(k))
  }

  function PesoDa(ls: seq<Bruta>): Chave -> Peso { (k: Chave) => Peso(k.tam, QtTotal(ls, k)) }

  function Pesos(ls: seq<Bruta>, p: Par): seq<Peso> { Mapear(Filtrar(Chaves(ls), ChaveDoPar(p)), PesoDa(ls)) }

  /** What a size receives of the pair's total: nothing when the pair informs no total or
      has no pieces. */
  function ValorNa(o: Origem, ls: seq<Bruta>, k: Chave): int {
    var ps, vs := Pesos(ls, k.par), Totais(o, ls, k.par);
    if |vs| != 1 || PesoTotal(ps) == 0 then 0 else ParteComSinal(vs[0], ps, PesoDa(ls)(k))
  }

  /** Every accepted row has a known channel, and rows of one pair agree on it. */
  ghost predicate CanaisOk(ls: seq<Bruta>) {
    && (forall l :: l in ls ==> l.canal.Algo?)
    && (forall a, b :: a in ls && b in ls && ParDe()(a) == ParDe()(b) ==> a.canal == b.canal)
  }

  // ----- quantities

  /** The keys of a pair, each once. */
  lemma ChavesDoPar(ls: seq<Bruta>, p: Par)
    ensures var ks := Filtrar(Chaves(ls), ChaveDoPar(p));
            Distintos(ks) && forall l :: l in ls ==> (ChaveDe()(l) in ks <==> ParDe()(l) == p)
  {
    DistintosFiltrar(Chaves(ls), ChaveDoPar(p));
    forall l | l in ls ensures ChaveDe()(l) in Filtrar(Chaves(ls), ChaveDoPar(p)) <==> ParDe()(l) == p {
      MapearContem(ls, ChaveDe(), l);
    }
  }

  function QtNasChaves(l: Bruta): Chave -> int {
    (k: Chave) => if Chave(Par(l.nr, l.cd), l.tam) == k then Max(l.qt, 0) else 0
  }

  /** A row is counted under its own key only. */
  lemma {:induction false} UmaChave(ks: seq<Chave>, l: Bruta)
    requires Distintos(ks)
    ensures Soma(ks, QtNasChaves(l)) == if ChaveDe()(l) in ks then Max(l.qt, 0) else 0
  {
    if ks != [] {
      UmaChave(ks[1..], l);
      assert ks[0] !in ks[1..];
    }
  }

  function TotalNa(ls: seq<Bruta>): Chave -> int { (k: Chave) => QtTotal(ls, k) }

  lemma {:induction false} TrocarSomas(ks: seq<Chave>, ls: seq<Bruta>, p: Par)
    requires Distintos(ks) && forall l :: l in ls ==> (ChaveDe()(l) in ks <==> ParDe()(l) == p)
    ensures Soma(ks, TotalNa(ls)) == Soma(ls, QtDoPar(p))
  {
    if ls == [] {
      SomaIgual(ks, TotalNa(ls), Nulo());
      SomaNula(ks);
    } else {
      TrocarSomas(ks, ls[1..], p);
      UmaChave(ks, ls[0]);
      SomaMais(ks, QtNasChaves(ls[0]), TotalNa(ls[1..]));
      SomaIgual(ks, TotalNa(ls), Mais(QtNasChaves(ls[0]), TotalNa(ls[1..])));
    }
  }

  /** No piece is lost: a pair's sizes add up to its accepted rows. */
  lemma QuantidadeConservada(ls: seq<Bruta>, p: Par)
    ensures PesoTotal(Pesos(ls, p)) == Soma(ls, QtDoPar(p))
  {
    var ks := Filtrar(Chaves(ls), ChaveDoPar(p));
    ChavesDoPar(ls, p);
    TrocarSomas(ks, ls, p);
    SomaMapeada(ks, PesoDa(ls), QtdDe(), TotalNa(ls));
  }

  lemma PesosDistintos(ls: seq<Bruta>, p: Par)
    ensures TamanhosDistintos(Pesos(ls, p))
  {
    var ks := Filtrar(Chaves(ls), ChaveDoPar(p));
    DistintosFiltrar(Chaves(ls), ChaveDoPar(p));
    forall i, j | 0 <= i < j < |ks| ensures ks[i].tam != ks[j].tam { assert ks[i] in ks && ks[j] in ks; }
  }

  function ValorDoTamanho(o: Origem, ls: seq<Bruta>): Chave -> int { (k: Chave) => ValorNa(o, ls, k) }

  /** No cent is lost: with pieces to weigh, the values of a pair's sizes add up to the
      single total its rows repeat, sign included. */
  lemma ValorConservado(o: Origem, ls: seq<Bruta>, p: Par)
    requires |Totais(o, ls, p)| == 1 && Soma(ls, QtDoPar(p)) > 0
    ensures Soma(Filtrar(Chaves(ls), ChaveDoPar(p)), ValorDoTamanho(o, ls)) == Totais(o, ls, p)[0]
  {
    var ks, ps, total := Filtrar(Chaves(ls), ChaveDoPar(p)), Pesos(ls, p), Totais(o, ls, p)[0];
    QuantidadeConservada(ls, p);
    PesosDistintos(ls, p);
    SomaExataComSinal(total, ps);
    SomaMapeada(ks, PesoDa(ls), ParteComSinalDe(total, ps), ValorDoTamanho(o, ls));
  }

  // ----- the same, told of the raw rows

  /** The row identifies an order, a product and a size; a pending one also asks for pieces
      and names its group. */
  ghost predicate Identificada(o: Origem, l: Bruta) {
    l.nr > 0 && |l.cd| > 0 && |l.tam| > 0 && match o case Erp => true case Pendentes => l.qt > 0 && |l.grupo| > 0
  }

  /** The row carries the pair's total: a positive one, or in the ERP any but zero. */
  ghost predicate TrazTotal(o: Origem, l: Bruta) {
    match o case Pendentes => l.vl > 0 case Erp => l.vl > 0 || l.vl < 0
  }

  /** Which rows count. */
  lemma LinhasQueContam(o: Origem, brutas: seq<Bruta>, l: Bruta)
    ensures l in Filtrar(brutas, Aceita(o)) <==> l in brutas && Identificada(o, l)
  {
    assert l in Filtrar(brutas, Aceita(o)) <==> l in brutas && Aceita(o)(l);
  }

  lemma TotalLido(o: Origem, ls: seq<Bruta>, p: Par, v: int)
    ensures v in Totais(o, ls, p)
      <==> exists l :: l in ls && l.nr == p.nr && l.cd == p.cd && TrazTotal(o, l) && l.vl == v
  {
    var f := Filtrar(ls, Informa(o, p));
    if v in Totais(o, ls, p) {
      var k :| 0 <= k < |f| && Mapear(f, ValorDe())[k] == v;
      assert f[k] in f;
    }
    if l :| l in ls && l.nr == p.nr && l.cd == p.cd && TrazTotal(o, l) && l.vl == v {
      assert Informa(o, p)(l);
      MapearContem(f, ValorDe(), l);
    }
  }

  /** A pair is kept exactly when the rows that carry its total agree on it and, for pending
      rows, at least one carries it. */
  lemma MantidaSse(o: Origem, ls: seq<Bruta>, p: Par)
    ensures TotaisOk(o, Totais(o, ls, p))
       <==> && (forall a, b | a in ls && b in ls && a.nr == b.nr == p.nr && a.cd == b.cd == p.cd ::
                  TrazTotal(o, a) && TrazTotal(o, b) ==> a.vl == b.vl)
            && (o == Pendentes ==> exists l :: l in ls && l.nr == p.nr && l.cd == p.cd && TrazTotal(o, l))
  {
    hide Totais, TrazTotal;
    var vs := Totais(o, ls, p);
    forall v ensures v in vs
      <==> exists l :: l in ls && l.nr == p.nr && l.cd == p.cd && TrazTotal(o, l) && l.vl == v
    {
      TotalLido(o, ls, p, v);
    }
    TotaisDistintos(o, ls, p);
    if |vs| > 1 { assert vs[0] in vs && vs[1] in vs && vs[0] != vs[1]; }
    if |vs| == 1 { assert vs[0] in vs; }
    forall a | a in ls && a.nr == p.nr && a.cd == p.cd && TrazTotal(o, a) ensures a.vl in vs {}
  }

  lemma TotaisDistintos(o: Origem, ls: seq<Bruta>, p: Par)
    ensures Distintos(Totais(o, ls, p))
  {}

  /** A pair whose rows carry no total is worth nothing. */
  lemma SemTotalNaoVale(o: Origem, ls: seq<Bruta>, k: Chave)
    requires forall l :: l in ls && l.nr == k.par.nr && l.cd == k.par.cd ==> !TrazTotal(o, l)
    ensures ValorNa(o, ls, k) == 0
  {
    hide TrazTotal, Pesos;
    var vs := Totais(o, ls, k.par);
    if vs != [] {
      assert vs[0] in vs;
      TotalLido(o, ls, k.par, vs[0]);
    }
  }

  function ValoresDasChaves(o: Origem, ls: seq<Bruta>, ks: seq<Chave>): map<string, int> {
    if ks == [] then map[] else ValoresDasChaves(o, ls, ks[1..])[ks[0].tam := ValorNa(o, ls, ks[0])]
  }

  /** Size by size, what the pair's keys hold. */
  function ValoresDoPar(o: Origem, ls: seq<Bruta>, p: Par): map<string, int> {
    ValoresDasChaves(o, ls, Filtrar(Chaves(ls), ChaveDoPar(p)))
  }

  lemma {:induction false} ValoresDistintos(o: Origem, ls: seq<Bruta>, ks: seq<Chave>, p: Par)
    requires Distintos(ks) && forall k :: k in ks ==> k.par == p
    ensures forall k :: k in ks ==>
      k.tam in ValoresDasChaves(o, ls, ks) && ValoresDasChaves(o, ls, ks)[k.tam] == ValorNa(o, ls, k)
  {
    hide ValorNa;
    if ks != [] {
      ValoresDistintos(o, ls, ks[1..], p);
      assert forall k :: k in ks[1..] ==> k != ks[0] && k.tam != ks[0].tam;
    }
  }

  lemma ValoresSao(o: Origem, ls: seq<Bruta>, p: Par)
    ensures var ks := Filtrar(Chaves(ls), ChaveDoPar(p));
            forall k :: k in ks ==>
              k.tam in ValoresDoPar(o, ls, p) && ValoresDoPar(o, ls, p)[k.tam] == ValorNa(o, ls, k)
  {
    hide ValorNa;
    var ks := Filtrar(Chaves(ls), ChaveDoPar(p));
    DistintosFiltrar(Chaves(ls), ChaveDoPar(p));
    ValoresDistintos(o, ls, ks, p);
  }

  lemma ValorDoPeso(o: Origem, ls: seq<Bruta>, p: Par, total: int, w: Peso)
    requires Totais(o, ls, p) == [total] && PesoTotal(Pesos(ls, p)) > 0 && w in Pesos(ls, p)
    ensures w.tam in ValoresDoPar(o, ls, p) && ValoresDoPar(o, ls, p)[w.tam] == ParteComSinal(total, Pesos(ls, p), w)
  {
    hide ParteComSinal, QtTotal, ValoresDoPar, Totais, Chaves;
    var ks, ps := Filtrar(Chaves(ls), ChaveDoPar(p)), Pesos(ls, p);
    ValoresSao(o, ls, p);
    var i :| 0 <= i < |ps| && ps[i] == w;
    assert ks[i] in ks && PesoDa(ls)(ks[i]) == w && ks[i].par == p;
  }

  /** The single total is spread over the pair's sizes by largest remainder of their pieces. */
  lemma ValorPorMaiorResto(o: Origem, ls: seq<Bruta>, p: Par, total: int)
    requires Totais(o, ls, p) == [total] && Soma(ls, QtDoPar(p)) > 0
    ensures PesoTotal(Pesos(ls, p)) > 0
    ensures PorMaiorResto(if total < 0 then -total else total, PesoTotal(Pesos(ls, p)), Pesos(ls, p),
                          Modulos(ValoresDoPar(o, ls, p), total < 0))
  {
    hide PorMaiorResto, Parte, Pesos, ValoresDoPar, Totais;
    var ps := Pesos(ls, p);
    QuantidadeConservada(ls, p);
    PesosDistintos(ls, p);
    forall w | w in ps
      ensures w.tam in ValoresDoPar(o, ls, p) && ValoresDoPar(o, ls, p)[w.tam] == ParteComSinal(total, ps, w)
    {
      ValorDoPeso(o, ls, p, total, w);
    }
    PartesPorMaiorResto(if total < 0 then -total else total, ps, Modulos(ValoresDoPar(o, ls, p), total < 0));
  }

  // ----- descriptive columns and flags

  function DaChave(k: Chave): Bruta -> bool { (l: Bruta) => Chave(Par(l.nr, l.cd), l.tam) == k }

  /** What a key keeps besides quantity and value. */
  datatype Dados = Dados(grupo: string, descricao: string, canal: Opcao<string>, blacklist: bool, reserva: bool,
                         embalado: bool)

  function DadosDaLinha(l: Bruta): Dados { Dados(l.grupo, l.descricao, l.canal, l.blacklist, l.reserva, l.embalado) }

  /** The columns of the key's first row, except that each of the two ERP flags is set when
      any row of the key sets it. */
  ghost predicate DadosOk(d: Dados, ls: seq<Bruta>, k: Chave) {
    var f := Filtrar(ls, DaChave(k));
    && f != [] && d == DadosDaLinha(f[0]).(reserva := d.reserva, embalado := d.embalado)
    && (d.reserva <==> exists l :: l in f && l.reserva) && (d.embalado <==> exists l :: l in f && l.embalado)
  }

  /** One more row of the key. */
  function DadosMais(d: Dados, l: Bruta): Dados {
    d.(reserva := d.reserva || l.reserva, embalado := d.embalado || l.embalado)
  }

  lemma DadosComMaisUma(ls: seq<Bruta>, l: Bruta, d: Dados, k: Chave)
    requires DadosOk(d, ls, k)
    ensures DadosOk(if ChaveDe()(l) == k then DadosMais(d, l) else d, ls + [l], k)
  {
    var f := Filtrar(ls, DaChave(k));
    FiltrarConcat(ls, [l], DaChave(k));
    assert Filtrar([l], DaChave(k)) == Se(ChaveDe()(l) == k, l);
    assert forall x :: x in f + [l] <==> x in f || x == l;
  }

  lemma DadosComPrimeira(ls: seq<Bruta>, l: Bruta)
    requires ChaveDe()(l) !in Chaves(ls)
    ensures DadosOk(DadosDaLinha(l), ls + [l], ChaveDe()(l))
  {
    var k := ChaveDe()(l);
    forall x | x in ls ensures !DaChave(k)(x) { MapearContem(ls, ChaveDe(), x); }
    FiltrarNenhum(ls, DaChave(k));
    FiltrarConcat(ls, [l], DaChave(k));
    assert Filtrar([l], DaChave(k)) == [l] && Filtrar(ls + [l], DaChave(k)) == [l];
  }

  // ----- row order

  lemma MapearPermuta<T(!new), U(!new)>(a: seq<T>, b: seq<T>, f: T -> U)
    requires MesmosElementos(a, b)
    ensures MesmosElementos(Mapear(a, f), Mapear(b, f))
  {
    forall y | y in Mapear(a, f) ensures y in Mapear(b, f) {
      var k :| 0 <= k < |a| && Mapear(a, f)[k] == y;
      MapearContem(b, f, a[k]);
    }
    forall y | y in Mapear(b, f) ensures y in Mapear(a, f) {
      var k :| 0 <= k < |b| && Mapear(b, f)[k] == y;
      MapearContem(a, f, b[k]);
    }
  }

  lemma TotaisPermutam(o: Origem, a: seq<Bruta>, b: seq<Bruta>, p: Par)
    requires multiset(a) == multiset(b)
    ensures multiset(Totais(o, a, p)) == multiset(Totais(o, b, p)) && |Totais(o, a, p)| == |Totais(o, b, p)|
    ensures |Totais(o, a, p)| == 1 ==> Totais(o, a, p) == Totais(o, b, p)
  {
    hide Filtrar, Mapear, Chegada;
    PermutacaoMesmos(a, b);
    var fa, fb := Filtrar(a, Informa(o, p)), Filtrar(b, Informa(o, p));
    MapearPermuta(fa, fb, ValorDe());
    DistintosMultiset(Totais(o, a, p), Totais(o, b, p));
    PermutacaoMesmos(Totais(o, a, p), Totais(o, b, p));
    if |Totais(o, a, p)| == 1 { assert Totais(o, a, p)[0] in Totais(o, b, p); }
  }

  lemma QtPermuta(a: seq<Bruta>, b: seq<Bruta>, k: Chave)
    requires multiset(a) == multiset(b)
    ensures QtTotal(a, k) == QtTotal(b, k)
  {
    SomaPermutacao(a, b, QtNa(k));
  }

  lemma PesosPermutam(a: seq<Bruta>, b: seq<Bruta>, p: Par)
    requires multiset(a) == multiset(b)
    ensures multiset(Pesos(a, p)) == multiset(Pesos(b, p))
  {
    PermutacaoMesmos(a, b);
    MapearPermuta(a, b, ChaveDe());
    var ka, kb := Filtrar(Chaves(a), ChaveDoPar(p)), Filtrar(Chaves(b), ChaveDoPar(p));
    DistintosFiltrar(Chaves(a), ChaveDoPar(p));
    DistintosFiltrar(Chaves(b), ChaveDoPar(p));
    MapearPermuta(ka, kb, PesoDa(a));
    forall k | k in kb ensures PesoDa(a)(k) == PesoDa(b)(k) { QtPermuta(a, b, k); }
    MapearIgual(kb, PesoDa(a), PesoDa(b));
    PesosDistintos(a, p);
    PesosDistintos(b, p);
    DistintosMultiset(Pesos(a, p), Pesos(b, p));
  }

  lemma {:induction false} MapearIgual<T, U>(s: seq<T>, f: T -> U, g: T -> U)
    requires forall x :: x in s ==> f(x) == g(x)
    ensures Mapear(s, f) == Mapear(s, g)
  {
    if s != [] { MapearIgual(s[1..], f, g); }
  }

  /** Quantities, values and the choice of kept pairs do not depend on row order. */
  lemma OrdemDasLinhasNaoImporta(o: Origem, a: seq<Bruta>, b: seq<Bruta>, k: Chave)
    requires multiset(a) == multiset(b)
    ensures QtTotal(a, k) == QtTotal(b, k) && ValorNa(o, a, k) == ValorNa(o, b, k)
    ensures TotaisOk(o, Totais(o, a, k.par)) == TotaisOk(o, Totais(o, b, k.par))
  {
    hide Totais, Pesos, QtTotal, ParteComSinal;
    TotaisPermutam(o, a, b, k.par);
    QtPermuta(a, b, k);
    PesosPermutam(a, b, k.par);
    SomaPermutacao(Pesos(a, k.par), Pesos(b, k.par), QtdDe());
    if |Totais(o, a, k.par)| == 1 && PesoTotal(Pesos(a, k.par)) > 0 {
      SinalIndependeDaOrdem(Totais(o, a, k.par)[0], Pesos(a, k.par), Pesos(b, k.par), PesoDa(a)(k));
    }
  }

  lemma SinalIndependeDaOrdem(total: int, ps: seq<Peso>, qs: seq<Peso>, p: Peso)
    requires multiset(ps) == multiset(qs) && PesoTotal(ps) > 0
    ensures PesoTotal(qs) == PesoTotal(ps) && ParteComSinal(total, qs, p) == ParteComSinal(total, ps, p)
  {
    ParteIndependeDaOrdem(if total < 0 then -total else total, ps, qs, p);
  }

  /** Nor do the ERP flags; the other columns are those of whichever row comes first. */
  lemma FlagsNaoDependemDaOrdem(a: seq<Bruta>, b: seq<Bruta>, k: Chave, d: Dados, e: Dados)
    requires multiset(a) == multiset(b) && DadosOk(d, a, k) && DadosOk(e, b, k)
    ensures d.reserva == e.reserva && d.embalado == e.embalado
  {
    PermutacaoMesmos(a, b);
    assert forall l :: l in Filtrar(a, DaChave(k)) <==> l in Filtrar(b, DaChave(k));
  }
}
