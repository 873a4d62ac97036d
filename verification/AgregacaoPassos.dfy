/** The aggregation loops of the ingestion, proved against `Agregacao`. */
module AgregacaoPassos {
  import opened Aritmetica
  import opened Listas
  import opened Rateio
  import opened Agregacao

  /** What the loop carries: quantities by key, keys by arrival, and per pair the totals
      seen, the rows accepted and the channel. */
  datatype Lido = Lido(
    quantidades: map<Chave, nat>, chaves: seq<Chave>, totais: map<Par, seq<int>>, linhas: map<Par, nat>,
      canais: map<Par, string>)

  function TotaisLidos(x: Lido, p: Par): seq<int> { if p in x.totais then x.totais[p] else [] }

  ghost predicate Fiel(o: Origem, ls: seq<Bruta>, x: Lido) {
    && x.chaves == Chaves(ls)
    && (forall k :: k in x.quantidades <==> k in x.chaves)
      && (forall k :: k in x.quantidades ==> x.quantidades[k] == QtTotal(ls, k))
    && (forall p: Par :: TotaisLidos(x, p) == Totais(o, ls, p))
    && (forall p :: p in x.linhas <==> exists l :: l in ls && ParDe()(l) == p)
      && (forall p :: p in x.linhas ==> x.linhas[p] == Conta(ls, DoPar(p)))
    && (forall l :: l in ls ==> ParDe()(l) in x.canais && l.canal == Algo(x.canais[ParDe()(l)]))
    && (forall p :: p in x.canais ==> p in x.linhas)
  }

  function Juntar(s: seq<int>, vl: int): seq<int> { if vl in s then s else s + [vl] }

  /** The effect of one accepted row of channel `canal`. */
  function Acumulado(o: Origem, x: Lido, l: Bruta, canal: string): Lido {
    var p, k := ParDe()(l), ChaveDe()(l);
    Lido(
      x.quantidades[k := (if k in x.quantidades then x.quantidades[k] else 0) + Max(l.qt, 0)],
      if k in x.quantidades then x.chaves else x.chaves + [k],
      if Informa(o, p)(l) then x.totais[p := Juntar(TotaisLidos(x, p), l.vl)] else x.totais,
      x.linhas[p := (if p in x.linhas then x.linhas[p] else 0) + 1],
      x.canais[p := canal])
  }

  lemma ChavesMais(ls: seq<Bruta>, l: Bruta)
    ensures Chaves(ls + [l]) == if ChaveDe()(l) in Chaves(ls) then Chaves(ls) else Chaves(ls) + [ChaveDe()(l)]
  {
    MapearConcat(ls, [l], ChaveDe());
    assert Mapear([l], ChaveDe()) == [ChaveDe()(l)];
    ChegadaMais(Mapear(ls, ChaveDe()), ChaveDe()(l));
  }

  lemma TotaisMais(o: Origem, ls: seq<Bruta>, l: Bruta, p: Par)
    ensures Totais(o, ls + [l], p) == if Informa(o, p)(l) then Juntar(Totais(o, ls, p), l.vl) else Totais(o, ls, p)
  {
    var f := Filtrar(ls, Informa(o, p));
    FiltrarConcat(ls, [l], Informa(o, p));
    if Informa(o, p)(l) {
      assert Filtrar([l], Informa(o, p)) == [l];
      MapearConcat(f, [l], ValorDe());
      assert Mapear([l], ValorDe()) == [l.vl];
      ChegadaMais(Mapear(f, ValorDe()), l.vl);
    } else {
      assert f + [] == f;
    }
  }

  lemma QtMais(ls: seq<Bruta>, l: Bruta, k: Chave)
    ensures QtTotal(ls + [l], k) == QtTotal(ls, k) + (if ChaveDe()(l) == k then Max(l.qt, 0) else 0)
  {
    SomaUltimo(ls, l, QtNa(k));
  }

  lemma QtAusente(ls: seq<Bruta>, k: Chave)
    requires k !in Chaves(ls)
    ensures QtTotal(ls, k) == 0
  {
    forall l | l in ls ensures QtNa(k)(l) == 0 { MapearContem(ls, ChaveDe(), l); }
    SomaDeZeros(ls, QtNa(k));
  }

  lemma ContaAusente(ls: seq<Bruta>, p: Par)
    requires forall l :: l in ls ==> ParDe()(l) != p
    ensures Conta(ls, DoPar(p)) == 0
  {
    ContaNenhum(ls, DoPar(p));
  }

  lemma AcumularFiel(o: Origem, ls: seq<Bruta>, x: Lido, l: Bruta, canal: string)
    requires Fiel(o, ls, x) && l.canal == Algo(canal)
    requires ParDe()(l) in x.canais ==> x.canais[ParDe()(l)] == canal
    ensures Fiel(o, ls + [l], Acumulado(o, x, l, canal))
  {
    hide Totais, QtTotal, Chaves, Conta;
    QuantidadesFieis(o, ls, x, l, canal);
    forall p: Par
      ensures TotaisLidos(Acumulado(o, x, l, canal), p) == Totais(o, ls + [l], p)
    {
      TotaisMais(o, ls, l, p);
    }
    LinhasFieis(o, ls, x, l, canal);
    CanaisFieis(o, ls, x, l, canal);
  }

  lemma QuantidadesFieis(o: Origem, ls: seq<Bruta>, x: Lido, l: Bruta, canal: string)
    requires Fiel(o, ls, x)
    ensures var y, ls' := Acumulado(o, x, l, canal), ls + [l];
            && y.chaves == Chaves(ls') && (forall k :: k in y.quantidades <==> k in y.chaves)
            && (forall k :: k in y.quantidades ==> y.quantidades[k] == QtTotal(ls', k))
  {
    hide Totais, QtTotal, Chaves, Conta;
    var y, ls' := Acumulado(o, x, l, canal), ls + [l];
    ChavesMais(ls, l);
    forall k | k in y.quantidades ensures y.quantidades[k] == QtTotal(ls', k) {
      QtMais(ls, l, k);
      if k !in x.quantidades { QtAusente(ls, k); }
    }
  }

  lemma CanaisFieis(o: Origem, ls: seq<Bruta>, x: Lido, l: Bruta, canal: string)
    requires Fiel(o, ls, x) && l.canal == Algo(canal)
    requires ParDe()(l) in x.canais ==> x.canais[ParDe()(l)] == canal
    ensures var y := Acumulado(o, x, l, canal);
            && (forall a :: a in ls + [l] ==> ParDe()(a) in y.canais && a.canal == Algo(y.canais[ParDe()(a)]))
            && (forall p :: p in y.canais ==> p in y.linhas)
  {
    hide Totais, QtTotal, Chaves, Conta;
  }

  lemma LinhasFieis(o: Origem, ls: seq<Bruta>, x: Lido, l: Bruta, canal: string)
    requires Fiel(o, ls, x)
    ensures var y, ls' := Acumulado(o, x, l, canal), ls + [l];
            && (forall p :: p in y.linhas <==> exists a :: a in ls' && ParDe()(a) == p)
            && (forall p :: p in y.linhas ==> y.linhas[p] == Conta(ls', DoPar(p)))
  {
    hide Totais, QtTotal, Chaves, Conta;
    var y, ls' := Acumulado(o, x, l, canal), ls + [l];
    assert l in ls';
    forall p
      ensures Conta(ls', DoPar(p)) == Conta(ls, DoPar(p)) + (if ParDe()(l) == p then 1 else 0)
    {
      ContaMais(ls, l, p);
    }
    forall p | p in y.linhas && p !in x.linhas ensures Conta(ls, DoPar(p)) == 0 { ContaAusente(ls, p); }
  }

  lemma ContaMais(ls: seq<Bruta>, l: Bruta, p: Par)
    ensures Conta(ls + [l], DoPar(p)) == Conta(ls, DoPar(p)) + (if ParDe()(l) == p then 1 else 0)
  {
    SomaUltimo(ls, l, Indicador(DoPar(p)));
  }

  lemma VazioFiel(o: Origem)
    ensures Fiel(o, [], Lido(map[], [], map[], map[], map[])) && DadosFieis([], map[])
  {}

  /** The descriptive columns and flags of every key read so far. */
  ghost predicate DadosFieis(ls: seq<Bruta>, ds: map<Chave, Dados>) {
    (forall k :: k in ds <==> k in Chaves(ls)) && forall k :: k in ds ==> DadosOk(ds[k], ls, k)
  }

  function DadosAcumulados(ds: map<Chave, Dados>, l: Bruta): map<Chave, Dados> {
    var k := ChaveDe()(l);
    ds[k := if k in ds then DadosMais(ds[k], l) else DadosDaLinha(l)]
  }

  lemma AcumularDados(ls: seq<Bruta>, ds: map<Chave, Dados>, l: Bruta)
    requires DadosFieis(ls, ds)
    ensures DadosFieis(ls + [l], DadosAcumulados(ds, l))
  {
    hide DadosOk, Chaves, DadosMais, DadosDaLinha;
    var ds' := DadosAcumulados(ds, l);
    ChavesMais(ls, l);
    forall k | k in ds' ensures DadosOk(ds'[k], ls + [l], k) {
      if k in ds { DadosComMaisUma(ls, l, ds[k], k); } else { DadosComPrimeira(ls, l); }
    }
  }

  /** Reads every row; stops on an unknown channel or on two channels in one pair. */
  method Ler(o: Origem, brutas: seq<Bruta>) returns (r: Opcao<Lido>, ds: map<Chave, Dados>, descartadas: nat)
    ensures r.Algo? <==> CanaisOk(Filtrar(brutas, Aceita(o)))
    ensures r.Algo? ==> Fiel(o, Filtrar(brutas, Aceita(o)), r.valor) && DadosFieis(Filtrar(brutas, Aceita(o)), ds)
    ensures r.Algo? ==> descartadas == |brutas| - |Filtrar(brutas, Aceita(o))|
  {
    hide Fiel, Filtrar, DadosFieis;
    var x := Lido(map[], [], map[], map[], map[]);
    ds, descartadas := map[], 0;
    VazioFiel(o);
    FiltrarNenhum([], Aceita(o));
    for i := 0 to |brutas|
      invariant Fiel(o, Filtrar(brutas[..i], Aceita(o)), x) && CanaisOk(Filtrar(brutas[..i], Aceita(o)))
      invariant DadosFieis(Filtrar(brutas[..i], Aceita(o)), ds)
      invariant descartadas == i - |Filtrar(brutas[..i], Aceita(o))|
    {
      var l := brutas[i];
      FiltrarPrefixo(brutas, i, Aceita(o));
      ghost var ls := Filtrar(brutas[..i], Aceita(o));
      if !Aceita(o)(l) {
        assert ls + [] == ls;
        descartadas := descartadas + 1;
      } else if l.canal.Nada? || (ParDe()(l) in x.canais && x.canais[ParDe()(l)] != l.canal.valor) {
        CanalRuim(o, ls, x, l);
        PrefixoRuim(o, brutas, i);
        return Nada, ds, descartadas;
      } else {
        AcumularFiel(o, ls, x, l, l.canal.valor);
        AcumularDados(ls, ds, l);
        CanalBom(o, ls, x, l);
        x, ds := Acumulado(o, x, l, l.canal.valor), DadosAcumulados(ds, l);
      }
    }
    PrefixoTodo(brutas);
    r := Algo(x);
  }

  lemma CanalBom(o: Origem, ls: seq<Bruta>, x: Lido, l: Bruta)
    requires Fiel(o, ls, x) && CanaisOk(ls) && l.canal.Algo?
    requires ParDe()(l) in x.canais ==> x.canais[ParDe()(l)] == l.canal.valor
    ensures CanaisOk(ls + [l])
  {
    hide Totais, QtTotal, Chaves, Conta;
  }

  lemma CanalRuim(o: Origem, ls: seq<Bruta>, x: Lido, l: Bruta)
    requires Fiel(o, ls, x) && CanaisOk(ls)
    requires l.canal.Nada? || (ParDe()(l) in x.canais && x.canais[ParDe()(l)] != l.canal.valor)
    ensures !CanaisOk(ls + [l])
  {
    hide Totais, QtTotal, Chaves, Conta;
    assert l in ls + [l];
    if l.canal.Algo? {
      var a :| a in ls && ParDe()(a) == ParDe()(l);
      assert a in ls + [l];
    }
  }

  lemma Partida<T>(s: seq<T>, i: nat)
    requires i <= |s|
    ensures s == s[..i] + s[i..]
  {}

  lemma PrefixoRuim(o: Origem, brutas: seq<Bruta>, i: nat)
    requires i < |brutas| && !CanaisOk(Filtrar(brutas[..i + 1], Aceita(o)))
    ensures !CanaisOk(Filtrar(brutas, Aceita(o)))
  {
    hide CanaisOk, Filtrar, Aceita;
    Partida(brutas, i + 1);
    JuncaoRuim(o, brutas[..i + 1], brutas[i + 1..]);
  }

  lemma JuncaoRuim(o: Origem, a: seq<Bruta>, b: seq<Bruta>)
    requires !CanaisOk(Filtrar(a, Aceita(o)))
    ensures !CanaisOk(Filtrar(a + b, Aceita(o)))
  {
    hide CanaisOk, Filtrar;
    FiltrarConcat(a, b, Aceita(o));
    CanaisDoPrefixo(Filtrar(a, Aceita(o)), Filtrar(b, Aceita(o)));
  }

  lemma CanaisDoPrefixo(a: seq<Bruta>, b: seq<Bruta>)
    ensures CanaisOk(a + b) ==> CanaisOk(a)
  {
    assert forall l :: l in a ==> l in a + b;
  }

  // ----- discarding pairs

  function NosPares(ps: set<Par>): Bruta -> bool { (l: Bruta) => Par(l.nr, l.cd) in ps }

  lemma ContaMaisPar(ls: seq<Bruta>, ps: set<Par>, p: Par)
    requires p !in ps
    ensures Conta(ls, NosPares(ps + {p})) == Conta(ls, NosPares(ps)) + Conta(ls, DoPar(p))
  {
    SomaMais(ls, Indicador(NosPares(ps)), Indicador(DoPar(p)));
    SomaIgual(ls, Indicador(NosPares(ps + {p})), Mais(Indicador(NosPares(ps)), Indicador(DoPar(p))));
  }

  function Recusada(o: Origem, ls: seq<Bruta>): Bruta -> bool {
    (l: Bruta) => !TotaisOk(o, Totais(o, ls, Par(l.nr, l.cd)))
  }

  /** Adds up the rows of the pairs that do not carry one total. */
  method ContarInvalidos(o: Origem, ghost ls: seq<Bruta>, x: Lido) returns (invalidos: set<Par>, n: nat)
    requires Fiel(o, ls, x)
    ensures forall p :: p in invalidos <==> p in x.linhas && !TotaisOk(o, Totais(o, ls, p))
    ensures n == Conta(ls, Recusada(o, ls))
  {
    hide Totais, QtTotal, Chaves, Conta, TotaisOk;
    invalidos, n := {}, 0;
    var restam := x.linhas.Keys;
    SemParesNada(ls);
    while restam != {}
      invariant restam <= x.linhas.Keys
      invariant forall p :: p in invalidos <==> p in x.linhas && p !in restam && !TotaisOk(o, Totais(o, ls, p))
      invariant n == Conta(ls, NosPares(invalidos))
      decreases restam
    {
      var p :| p in restam;
      if !TotaisOk(o, TotaisLidos(x, p)) {
        ContaMaisPar(ls, invalidos, p);
        invalidos, n := invalidos + {p}, n + x.linhas[p];
      }
      restam := restam - {p};
    }
    RecusadasSao(o, ls, x, invalidos);
  }

  lemma RecusadasSao(o: Origem, ls: seq<Bruta>, x: Lido, invalidos: set<Par>)
    requires Fiel(o, ls, x) && forall p :: p in invalidos <==> p in x.linhas && !TotaisOk(o, Totais(o, ls, p))
    ensures Conta(ls, NosPares(invalidos)) == Conta(ls, Recusada(o, ls))
  {
    hide Totais, QtTotal, Chaves, Conta, TotaisOk;
    forall l | l in ls ensures NosPares(invalidos)(l) == Recusada(o, ls)(l) { assert ParDe()(l) in x.linhas; }
    ContaIgualDe(ls, NosPares(invalidos), Recusada(o, ls));
  }

  lemma SemParesNada(ls: seq<Bruta>)
    ensures Conta(ls, NosPares({})) == 0
  {
    ContaNenhum(ls, NosPares({}));
  }

  lemma ContaIgualDe(ls: seq<Bruta>, p: Bruta -> bool, q: Bruta -> bool)
    requires forall l :: l in ls ==> p(l) == q(l)
    ensures Conta(ls, p) == Conta(ls, q)
  {
    SomaIgual(ls, Indicador(p), Indicador(q));
  }

  // ----- apportioning

  function PesoLido(q: map<Chave, nat>): Chave -> Peso { (k: Chave) => Peso(k.tam, if k in q then q[k] else 0) }

  lemma PesosLidos(o: Origem, ls: seq<Bruta>, x: Lido, p: Par)
    requires Fiel(o, ls, x)
    ensures Mapear(Filtrar(x.chaves, ChaveDoPar(p)), PesoLido(x.quantidades)) == Pesos(ls, p)
      && TotaisLidos(x, p) == Totais(o, ls, p)
    ensures forall k :: k in x.quantidades && k.par == p ==> PesoDa(ls)(k) in Pesos(ls, p)
  {
    hide Totais, QtTotal, Conta;
    var ks := Filtrar(x.chaves, ChaveDoPar(p));
    forall k | k in ks ensures PesoLido(x.quantidades)(k) == PesoDa(ls)(k) {}
    MapearIgual(ks, PesoLido(x.quantidades), PesoDa(ls));
    forall k | k in x.quantidades && k.par == p
      ensures PesoDa(ls)(k) in Pesos(ls, p)
    {
      MapearContem(ks, PesoDa(ls), k);
    }
  }

  /** The values of one pair's sizes. */
  method RatearPar(o: Origem, ghost ls: seq<Bruta>, x: Lido, p: Par, valores: map<Chave, int>)
    returns (v: map<Chave, int>)
    requires Fiel(o, ls, x) && forall k :: k in valores ==> k in x.quantidades && (k.par == p ==> valores[k] == 0)
    ensures v.Keys == valores.Keys
      && forall k :: k in v ==> v[k] == if k.par == p then ValorNa(o, ls, k) else valores[k]
  {
    hide Fiel, Totais, QtTotal, Chaves, Conta, Pesos, ParteComSinal, PorMaiorResto, Modulos;
    v := valores;
    var vs := TotaisLidos(x, p);
    PesosLidos(o, ls, x, p);
    var ps := Mapear(Filtrar(x.chaves, ChaveDoPar(p)), PesoLido(x.quantidades));
    PesosDistintos(ls, p);
    if |vs| == 1 && PesoTotal(ps) > 0 {
      var r := RatearHamilton(vs[0], ps);
      forall k | k in valores && k.par == p
        ensures k.tam in r.valor && r.valor[k.tam] == ParteComSinal(vs[0], ps, PesoDa(ls)(k))
      {
        assert PesoDa(ls)(k) in ps && PesoDa(ls)(k).tam == k.tam;
      }
      v := map k | k in valores :: if k.par == p then r.valor[k.tam] else valores[k];
    }
  }

  function ParDaChave(): Chave -> Par { (k: Chave) => k.par }

  method RatearPares(o: Origem, ghost ls: seq<Bruta>, x: Lido, mantidas: set<Chave>) returns (v: map<Chave, int>)
    requires Fiel(o, ls, x) && mantidas <= x.quantidades.Keys
    ensures v.Keys == mantidas && forall k :: k in v ==> v[k] == ValorNa(o, ls, k)
  {
    hide Fiel, Chegada, Mapear;
    var pares := Chegada(Mapear(x.chaves, ParDaChave()));
    v := map k | k in mantidas :: 0;
    for i := 0 to |pares|
      invariant v.Keys == mantidas
      invariant forall k :: k in v ==> v[k] == if k.par in pares[..i] then ValorNa(o, ls, k) else 0
    {
      PrefixoMais(pares, i);
      DistintoDoPrefixo(pares, i);
      v := RatearPar(o, ls, x, pares[i], v);
    }
    PrefixoTodo(pares);
    forall k | k in v ensures k.par in pares {
      ChaveLida(o, ls, x, k);
      MapearContem(x.chaves, ParDaChave(), k);
    }
  }

  lemma ChaveLida(o: Origem, ls: seq<Bruta>, x: Lido, k: Chave)
    requires Fiel(o, ls, x) && k in x.quantidades
    ensures k in x.chaves
  {}

  // ----- the whole aggregation

  datatype Celula = Celula(qt: nat, vl: int, dados: Dados)

  /** Both sources: aborts on a channel error; otherwise every row is either discarded or
      in a kept pair, and each kept key holds its total quantity, its share of the pair's
      value, its first row's columns and its combined flags. */
  method Agregar(o: Origem, brutas: seq<Bruta>) returns (r: Opcao<map<Chave, Celula>>, descartadas: nat)
    ensures var ls := Filtrar(brutas, Aceita(o));
            && (r.Algo? <==> CanaisOk(ls))
            && (r.Algo? ==>
                  && |brutas| == descartadas + Conta(ls, Mantida(o, ls))
                  && (forall k :: k in r.valor <==> k in Chaves(ls) && TotaisOk(o, Totais(o, ls, k.par)))
                  && (forall k :: k in r.valor ==>
                        && r.valor[k].qt == QtTotal(ls, k) && r.valor[k].vl == ValorNa(o, ls, k)
                        && DadosOk(r.valor[k].dados, ls, k)))
  {
    hide Totais, QtTotal, Chaves, Conta, Filtrar, CanaisOk, ValorNa, DadosOk;
    ghost var ls := Filtrar(brutas, Aceita(o));
    var lido, ds, fora := Ler(o, brutas);
    descartadas := fora;
    if lido.Nada? { return Nada, descartadas; }
    var x := lido.valor;
    var invalidos, n := ContarInvalidos(o, ls, x);
    MantidasMaisRecusadas(o, ls);
    descartadas := descartadas + n;
    var mantidas := set k | k in x.quantidades && k.par !in invalidos;
    var v := RatearPares(o, ls, x, mantidas);
    ParesDasChaves(o, ls, x);
    r := Algo(map k | k in mantidas :: Celula(x.quantidades[k], v[k], ds[k]));
  }

  lemma MantidasMaisRecusadas(o: Origem, ls: seq<Bruta>)
    ensures Conta(ls, Mantida(o, ls)) + Conta(ls, Recusada(o, ls)) == |ls|
  {
    hide Totais;
    SomaMais(ls, Indicador(Mantida(o, ls)), Indicador(Recusada(o, ls)));
    UmPorLinha(ls, Mais(Indicador(Mantida(o, ls)), Indicador(Recusada(o, ls))));
  }

  lemma {:induction false} UmPorLinha(ls: seq<Bruta>, f: Bruta -> int)
    requires forall l :: l in ls ==> f(l) == 1
    ensures Soma(ls, f) == |ls|
  {
    if ls != [] { UmPorLinha(ls[1..], f); }
  }

  lemma ParesDasChaves(o: Origem, ls: seq<Bruta>, x: Lido)
    requires Fiel(o, ls, x)
    ensures forall k :: k in x.quantidades ==> k.par in x.linhas
  {
    hide Totais, QtTotal, Conta;
    forall k | k in x.quantidades ensures k.par in x.linhas {
      assert k in Mapear(ls, ChaveDe());
      var i :| 0 <= i < |ls| && Mapear(ls, ChaveDe())[i] == k;
      assert ls[i] in ls && ParDe()(ls[i]) == k.par;
    }
  }
}
