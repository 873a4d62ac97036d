/** The engine's pair-level routines as the loops they are, each proved to compute
    its specification. The ledger is the order's shared, mutable object. */
module MotorPassos {
  import opened Aritmetica
  import opened Listas
  import opened Orcamento
  import opened Motor
  import opened MotorPar
  import opened MotorCanal
  import Rateio

  // ----- stock index

  /** Python's `find("_", de)`: position of the next separator, or -1. */
  method Separador(chave: string, de: nat) returns (p: int)
    requires de <= |chave|
    ensures p == -1 ==> forall k :: de <= k < |chave| ==> chave[k] != '_'
    ensures p != -1 ==> de <= p < |chave| && chave[p] == '_' && forall k :: de <= k < p ==> chave[k] != '_'
  {
    p := de;
    while p < |chave|
      invariant de <= p <= |chave|
      invariant forall k :: de <= k < p ==> chave[k] != '_'
    {
      if chave[p] == '_' { return; }
      p := p + 1;
    }
    p := -1;
  }

  function Guardar(est: Estoque, p: Posicao): Estoque { est[p.chave := p.qt] }

  /** The key was filed under `cd` by the separators before `sep`. */
  predicate Visto(chave: string, cd: string, sep: int) {
    DoPrefixo(chave, cd) && (sep == -1 || |cd| < sep)
  }

  lemma AvancoDoSeparador(chave: string, sep: int, prox: int, cd: string)
    requires 0 <= sep < |chave| && chave[sep] == '_'
    requires prox == -1 ==> forall k :: sep < k < |chave| ==> chave[k] != '_'
    requires prox != -1 ==> sep < prox < |chave| && forall k :: sep < k < prox ==> chave[k] != '_'
    ensures Visto(chave, cd, prox) <==> Visto(chave, cd, sep) || cd == chave[..sep]
    ensures cd == chave[..sep] ==> !Visto(chave, cd, sep) && DoPrefixo(chave, cd)
  {}

  /** Files one key under every product code it extends. */
  method ArquivarChave(p: Posicao, indice0: map<string, Estoque>, totais0: map<string, int>)
    returns (indice: map<string, Estoque>, totais: map<string, int>)
    requires indice0.Keys == totais0.Keys
    ensures indice.Keys == totais.Keys == indice0.Keys
    ensures forall cd :: cd in indice0 ==>
      indice[cd] == if DoPrefixo(p.chave, cd) then Guardar(indice0[cd], p) else indice0[cd]
    ensures forall cd :: cd in indice0 ==> totais[cd] == totais0[cd] + if DoPrefixo(p.chave, cd) then p.qt else 0
  {
    indice, totais := indice0, totais0;
    var sep := Separador(p.chave, 0);
    while sep != -1
      invariant -1 <= sep < |p.chave| && (sep != -1 ==> p.chave[sep] == '_')
      invariant indice.Keys == totais.Keys == indice0.Keys
      invariant forall cd :: cd in indice0 ==>
        indice[cd] == if Visto(p.chave, cd, sep) then Guardar(indice0[cd], p) else indice0[cd]
      invariant forall cd :: cd in indice0 ==> totais[cd] == totais0[cd] + if Visto(p.chave, cd, sep) then p.qt else 0
      decreases if sep == -1 then 0 else |p.chave| - sep
    {
      var produto := p.chave[..sep];
      var prox := Separador(p.chave, sep + 1);
      forall cd
        ensures Visto(p.chave, cd, prox) <==> Visto(p.chave, cd, sep) || cd == produto
        ensures cd == produto ==> !Visto(p.chave, cd, sep)
      {
        AvancoDoSeparador(p.chave, sep, prox, cd);
      }
      if produto in indice {
        indice := indice[produto := Guardar(indice[produto], p)];
        totais := totais[produto := totais[produto] + p.qt];
      }
      sep := prox;
    }
  }

  /** Every separator of every key is examined once; a key is filed under each product
      code it extends, and counted once for each. */
  method IndexarEstoquePorProduto(estoque: seq<Posicao>, produtos: set<string>)
    returns (porProduto: map<string, Estoque>, totais: map<string, int>)
    ensures porProduto.Keys == totais.Keys == produtos
    ensures forall cd :: cd in produtos ==>
      porProduto[cd] == PorProduto(estoque, cd) && totais[cd] == TotalProduto(estoque, cd)
  {
    porProduto := map cd | cd in produtos :: map[];
    totais := map cd | cd in produtos :: 0;
    for i := 0 to |estoque|
      invariant porProduto.Keys == totais.Keys == produtos
      invariant forall cd :: cd in produtos ==>
        porProduto[cd] == PorProduto(estoque[..i], cd) && totais[cd] == TotalProduto(estoque[..i], cd)
    {
      porProduto, totais := ArquivarChave(estoque[i], porProduto, totais);
      assert estoque[..i + 1][..i] == estoque[..i];
      forall cd
        ensures TotalProduto(estoque[..i + 1], cd) == TotalProduto(estoque[..i], cd) + QtNoPrefixo(cd)(estoque[i])
      {
        SomaPrefixo(estoque, i, QtNoPrefixo(cd));
      }
    }
    assert estoque[..|estoque|] == estoque;
  }

  // ----- shortage and grade hole

  method MedirFalta(itens: seq<Item>, est: Estoque, cd: string) returns (falta: nat)
    ensures falta == FaltaNecessaria(itens, est, cd)
  {
    falta := 0;
    for i := 0 to |itens|
      invariant falta == Soma(itens[..i], FaltaDe(est, cd))
    {
      SomaPrefixo(itens, i, FaltaDe(est, cd));
      falta := falta + Max(0, itens[i].qt - Disp(est, Chave(cd, itens[i].tam)));
    }
    assert itens[..|itens|] == itens;
  }

  predicate PorIndice(a: Item, b: Item) { a.idx < b.idx || (a.idx == b.idx && MenorTexto(a.tam, b.tam)) }

  function EhReconhecido(): Item -> bool { i => Reconhecido(i) }

  lemma PorIndiceOrdena(itens: seq<Item>)
    requires TamanhosUnicos(itens)
    ensures var o := Ordenar(Filtrar(itens, EhReconhecido()), PorIndice);
            Crescente(o, PorIndice) && forall i :: i in o <==> i in itens && Reconhecido(i)
  {
    var f := Filtrar(itens, EhReconhecido());
    MenorTextoEhOrdem();
    assert Distintos(itens);
    DistintosFiltrar(itens, EhReconhecido());
    forall a, b | a in f && b in f && a != b ensures PorIndice(a, b) || PorIndice(b, a) {
      assert a in itens && b in itens && a.tam != b.tam;
    }
    OrdenarCrescente(f, PorIndice);
    OrdenarPermuta(f, PorIndice);
  }

  /** Sorted by index, the recognised sizes lie between the first and the last. */
  lemma InteriorPorExtremos(itens: seq<Item>, rec: seq<Item>, est: Estoque, cd: string, i: Item)
    requires Crescente(rec, PorIndice) && (forall x :: x in rec <==> x in itens && Reconhecido(x)) && i in rec
    ensures InteriorVazio(itens, est, cd, i)
      <==> rec[0].idx < i.idx < rec[|rec| - 1].idx && Disp(est, Chave(cd, i.tam)) == 0
  {
    forall x | x in rec ensures rec[0].idx <= x.idx <= rec[|rec| - 1].idx {
      PrimeiroEhMenor(rec, x, PorIndice);
      UltimoEhMaior(rec, x, PorIndice);
    }
    assert rec[0] in rec && rec[|rec| - 1] in rec;
  }

  lemma UltimoEhMaior<T>(s: seq<T>, x: T, menor: (T, T) -> bool)
    requires Crescente(s, menor) && x in s
    ensures x == s[|s| - 1] || menor(x, s[|s| - 1])
  {
    var k :| 0 <= k < |s| && s[k] == x;
  }

  predicate VazioEntre(menor: nat, maior: nat, est: Estoque, cd: string, i: Item) {
    menor < i.idx < maior && Disp(est, Chave(cd, i.tam)) <= 0
  }

  method PrimeiroVazio(rec: seq<Item>, menor: nat, maior: nat, est: Estoque, cd: string) returns (k: int)
    ensures -1 <= k < |rec|
    ensures k == -1 ==> forall j :: 0 <= j < |rec| ==> !VazioEntre(menor, maior, est, cd, rec[j])
    ensures k >= 0 ==>
      VazioEntre(menor, maior, est, cd, rec[k]) && forall j :: 0 <= j < k ==> !VazioEntre(menor, maior, est, cd, rec[j])
  {
    for j := 0 to |rec|
      invariant forall t :: 0 <= t < j ==> !VazioEntre(menor, maior, est, cd, rec[t])
    {
      if menor < rec[j].idx < maior {
        if Disp(est, Chave(cd, rec[j].tam)) <= 0 { return j; }
      }
    }
    return -1;
  }

  lemma PrimeiroTemMenorIndice(rec: seq<Item>, k: nat, menor: nat, maior: nat, est: Estoque, cd: string, i: Item)
    requires Crescente(rec, PorIndice) && k < |rec| && i in rec && VazioEntre(menor, maior, est, cd, i)
    requires forall j :: 0 <= j < k ==> !VazioEntre(menor, maior, est, cd, rec[j])
    ensures rec[k].idx <= i.idx
  {
    var j :| 0 <= j < |rec| && rec[j] == i;
    if j > k { assert PorIndice(rec[k], rec[j]); }
  }

  lemma InterioresDe(itens: seq<Item>, rec: seq<Item>, est: Estoque, cd: string)
    requires Crescente(rec, PorIndice) && (forall x :: x in rec <==> x in itens && Reconhecido(x)) && rec != []
    ensures forall i ::
      i in itens && InteriorVazio(itens, est, cd, i)
      <==> i in rec && VazioEntre(rec[0].idx, rec[|rec| - 1].idx, est, cd, i)
  {
    forall i | i in rec
      ensures InteriorVazio(itens, est, cd, i) <==> VazioEntre(rec[0].idx, rec[|rec| - 1].idx, est, cd, i)
    {
      InteriorPorExtremos(itens, rec, est, cd, i);
    }
  }

  /** The hole reported, if any, is the empty interior size of smallest index. */
  method TemFuroDeGrade(itens: seq<Item>, est: Estoque, cd: string) returns (r: Opcao<Item>)
    requires TamanhosUnicos(itens)
    ensures r.Algo? <==> TemFuro(itens, est, cd)
    ensures r.Algo? ==> r.valor in itens && InteriorVazio(itens, est, cd, r.valor)
    ensures r.Algo? ==> forall i :: i in itens && InteriorVazio(itens, est, cd, i) ==> r.valor.idx <= i.idx
  {
    var rec := Ordenar(Filtrar(itens, EhReconhecido()), PorIndice);
    PorIndiceOrdena(itens);
    if rec == [] {
      assert forall i :: i in itens ==> !Reconhecido(i);
      return Nada;
    }
    InterioresDe(itens, rec, est, cd);
    if |rec| < 2 { return Nada; }
    var menor, maior := rec[0].idx, rec[|rec| - 1].idx;
    var k := PrimeiroVazio(rec, menor, maior, est, cd);
    if k == -1 { return Nada; }
    assert rec[k] in rec;
    forall i | i in itens && InteriorVazio(itens, est, cd, i) ensures rec[k].idx <= i.idx {
      PrimeiroTemMenorIndice(rec, k, menor, maior, est, cd, i);
    }
    r := Algo(rec[k]);
  }

  // ----- pass 1 of one product

  /** Charges the whole shortage to the cut budget, or leaves the product in stand-by
      with the budget untouched. */
  method AdequarGradeProduto(itens: seq<Item>, est: Estoque, cd: string, ledger: OrcamentoPedido)
    returns (r: Opcao<seq<Linha>>)
    modifies ledger
    ensures r.Algo? <==> FaltaNecessaria(itens, est, cd) <= old(ledger.restanteCorte)
    ensures r.Algo? ==> r.valor == Passada1(itens, est, cd)
    ensures ledger.restanteCorte == old(ledger.restanteCorte) - (if r.Algo? then FaltaNecessaria(itens, est, cd) else 0)
    ensures ledger.restanteAdicao == old(ledger.restanteAdicao)
  {
    var falta := MedirFalta(itens, est, cd);
    var concedido := ledger.ConsumirCorte(falta);
    if !concedido { return Nada; }
    var ls: seq<Linha> := [];
    for k := 0 to |itens|
      invariant |ls| == k && forall j :: 0 <= j < k ==> ls[j] == Reduzir(est, cd, falta)(itens[j])
    {
      var i := itens[k];
      var disp := Disp(est, Chave(cd, i.tam));
      var nova := if falta > 0 then Min(i.qt, disp) else i.qt;
      ls := ls + [Linha(i.tam, i.idx, i.qt, nova, i.vl, 0)];
    }
    r := Algo(ls);
  }

  // ----- pass 2 of one product

  /** The smallest and largest known sizes; none when every size is unknown. */
  method Extremos(ls: seq<Linha>) returns (r: Opcao<(nat, nat)>)
    ensures r.Nada? <==> forall l :: l in ls ==> l.idx == DESCONHECIDO
    ensures r.Algo? ==> forall l :: l in ls && l.idx != DESCONHECIDO ==> r.valor.0 <= l.idx <= r.valor.1
    ensures r.Algo? ==>
      forall l :: l in ls ==> (Extremo(ls, l) <==> l.idx != DESCONHECIDO && (l.idx == r.valor.0 || l.idx == r.valor.1))
  {
    r := Nada;
    ghost var a, b := 0, 0;
    for k := 0 to |ls|
      invariant r.Nada? <==> forall j :: 0 <= j < k ==> ls[j].idx == DESCONHECIDO
      invariant r.Algo? ==> 0 <= a < k && 0 <= b < k && ls[a].idx == r.valor.0 && ls[b].idx == r.valor.1
                            && ls[a].idx != DESCONHECIDO && ls[b].idx != DESCONHECIDO
      invariant r.Algo? ==> forall j :: 0 <= j < k && ls[j].idx != DESCONHECIDO ==> r.valor.0 <= ls[j].idx <= r.valor.1
    {
      if ls[k].idx != DESCONHECIDO {
        if r.Nada? {
          r, a, b := Algo((ls[k].idx, ls[k].idx)), k, k;
        } else {
          if ls[k].idx < r.valor.0 { r, a := Algo((ls[k].idx, r.valor.1)), k; }
          if ls[k].idx > r.valor.1 { r, b := Algo((r.valor.0, ls[k].idx)), k; }
        }
      }
    }
    if r.Algo? { assert ls[a] in ls && ls[b] in ls; }
  }

  lemma {:induction false} DistribuirContinua(a: seq<Linha>, l: Linha, espaco: Linha -> nat, saldo: nat)
    ensures var g := Distribuir(a, espaco, saldo);
            var c := Min(espaco(l), g.1);
            Distribuir(a + [l], espaco, saldo) == (g.0 + [l.(liquida := l.liquida + c)], g.1 - c)
  {
    if a == [] {
      assert a + [l] == [l] && [l][1..] == [];
      var x := l.(liquida := l.liquida + Min(espaco(l), saldo));
      assert [x] + [] == [] + [x];
    } else {
      assert (a + [l])[1..] == a[1..] + [l];
      var c0 := Min(espaco(a[0]), saldo);
      DistribuirContinua(a[1..], l, espaco, saldo - c0);
      var g := Distribuir(a[1..], espaco, saldo - c0);
      ConcatAssocia([a[0].(liquida := a[0].liquida + c0)], g.0, [l.(liquida := l.liquida + Min(espaco(l), g.1))]);
    }
  }

  lemma {:induction false} DistribuirNada(ls: seq<Linha>, espaco: Linha -> nat, saldo: nat)
    requires forall l :: l in ls ==> espaco(l) == 0
    ensures Distribuir(ls, espaco, saldo) == (ls, saldo)
  {
    if ls != [] {
      assert ls[0] in ls;
      DistribuirNada(ls[1..], espaco, saldo);
      assert ls == [ls[0]] + ls[1..];
    }
  }

  /** The space of one row, from the extreme indices computed beforehand. */
  function EspacoDaLinha(ext: (nat, nat), l: Linha, est: Estoque, cd: string): int {
    if l.idx != DESCONHECIDO && (l.idx == ext.0 || l.idx == ext.1) then Disp(est, Chave(cd, l.tam)) - l.liquida else 0
  }

  method PercorrerExtremos(ls: seq<Linha>, ext: (nat, nat), est: Estoque, cd: string, ledger: OrcamentoPedido,
                           ghost espaco: Linha -> nat) returns (rs: seq<Linha>)
    requires forall l :: l in ls ==> espaco(l) == Max(0, EspacoDaLinha(ext, l, est, cd))
    modifies ledger
    ensures (rs, ledger.restanteAdicao) == Distribuir(ls, espaco, old(ledger.restanteAdicao))
    ensures ledger.restanteCorte == old(ledger.restanteCorte)
  {
    rs := [];
    ghost var saldo := ledger.restanteAdicao;
    for k := 0 to |ls|
      invariant (rs, ledger.restanteAdicao) == Distribuir(ls[..k], espaco, saldo)
      invariant ledger.restanteCorte == old(ledger.restanteCorte)
    {
      var l := ls[k];
      assert l in ls;
      DistribuirContinua(ls[..k], l, espaco, saldo);
      assert ls[..k + 1] == ls[..k] + [l];
      var livre := EspacoDaLinha(ext, l, est, cd);
      var concedido := 0;
      if livre > 0 { concedido := ledger.ConsumirAdicao(livre); }
      rs := rs + [l.(liquida := l.liquida + concedido)];
    }
    assert ls[..|ls|] == ls;
  }

  method ConcederAdicaoPedido(ls: seq<Linha>, est: Estoque, cd: string, ledger: OrcamentoPedido)
    returns (rs: seq<Linha>)
    modifies ledger
    ensures (rs, ledger.restanteAdicao) == Conceder(ls, est, cd, old(ledger.restanteAdicao))
    ensures ledger.restanteCorte == old(ledger.restanteCorte)
  {
    var ext := Extremos(ls);
    ghost var espaco := EspacoDe(ls, est, cd);
    forall l | l in ls
      ensures espaco(l) == if ext.Nada? then 0 else Max(0, EspacoDaLinha(ext.valor, l, est, cd))
    {
      EspacoDeUmaLinha(ls, ext, est, cd, l);
    }
    if ext.Nada? {
      DistribuirNada(ls, espaco, ledger.restanteAdicao);
      return ls;
    }
    rs := PercorrerExtremos(ls, ext.valor, est, cd, ledger, espaco);
  }

  lemma EspacoDeUmaLinha(ls: seq<Linha>, ext: Opcao<(nat, nat)>, est: Estoque, cd: string, l: Linha)
    requires ext.Nada? ==> l.idx == DESCONHECIDO
    requires ext.Algo? ==> (Extremo(ls, l) <==> l.idx != DESCONHECIDO && (l.idx == ext.valor.0 || l.idx == ext.valor.1))
    ensures EspacoDe(ls, est, cd)(l) == if ext.Nada? then 0 else Max(0, EspacoDaLinha(ext.valor, l, est, cd))
  {}

  // ----- the money step

  lemma PesosDistintos(ls: seq<Linha>)
    requires LinhasUnicas(ls)
    ensures Rateio.TamanhosDistintos(Pesos(ls)) && forall k :: 0 <= k < |ls| ==> Pesos(ls)[k] in Pesos(ls)
  {}

  method Totais(ls: seq<Linha>) returns (solicitada: int, valor: int, final: int)
    ensures solicitada == Total(ls, SolicitadaDe()) && valor == Total(ls, ValorDe()) && final == Total(ls, LiquidaDe())
  {
    solicitada, valor, final := 0, 0, 0;
    for k := 0 to |ls|
      invariant solicitada == Soma(ls[..k], SolicitadaDe()) && valor == Soma(ls[..k], ValorDe())
        && final == Soma(ls[..k], LiquidaDe())
    {
      SomaPrefixo(ls, k, SolicitadaDe());
      SomaPrefixo(ls, k, ValorDe());
      SomaPrefixo(ls, k, LiquidaDe());
      solicitada, valor, final := solicitada + ls[k].solicitada, valor + ls[k].vl, final + ls[k].liquida;
    }
    assert ls[..|ls|] == ls;
  }

  method AplicarRateio(ls: seq<Linha>, total: int, pesos: seq<Rateio.Peso>, rateado: map<string, int>)
    returns (rs: seq<Linha>)
    requires Rateio.PesoTotal(pesos) > 0
    requires forall k :: 0 <= k < |ls| ==>
      ls[k].tam in rateado && rateado[ls[k].tam] == Rateio.ParteComSinal(total, pesos, ParaPeso()(ls[k]))
    ensures |rs| == |ls| && forall k :: 0 <= k < |ls| ==> rs[k] == Reprecificar(total, pesos)(ls[k])
  {
    rs := [];
    for k := 0 to |ls|
      invariant |rs| == k && forall j :: 0 <= j < k ==> rs[j] == Reprecificar(total, pesos)(ls[j])
    {
      var novo := rateado[ls[k].tam];
      rs := rs + [ls[k].(vl := novo, diff := novo - ls[k].vl)];
    }
  }

  method RecalcularFinanceiro(ls: seq<Linha>) returns (r: Opcao<seq<Linha>>)
    requires ls != [] && LinhasUnicas(ls)
    ensures r.Nada? <==> Rateio.PesoTotal(Pesos(ls)) == 0
    ensures r.Algo? ==> r.valor == Financeiro(ls)
  {
    hide MeioAcima, Rateio.ParteComSinal, Rateio.PorMaiorResto, Rateio.Modulos, Mapear;
    var solicitada, valor, final := Totais(ls);
    var total := if solicitada > 0 then MeioAcima(valor * final, solicitada) else 0;
    var pesos := Pesos(ls);
    PesosDistintos(ls);
    var rateado := Rateio.RatearHamilton(total, pesos);
    if rateado.Erro? { return Nada; }
    forall k | 0 <= k < |ls|
      ensures ls[k].tam in rateado.valor
        && rateado.valor[ls[k].tam] == Rateio.ParteComSinal(total, pesos, ParaPeso()(ls[k]))
    {
      assert pesos[k] in pesos;
    }
    var rs := AplicarRateio(ls, total, pesos, rateado.valor);
    assert rs == Mapear(ls, Reprecificar(total, pesos));
    r := Algo(rs);
  }

  // ----- all or nothing

  method AplicarTudoOuNada(itens: seq<Item>, est: Estoque, cd: string) returns (r: Opcao<seq<Linha>>)
    ensures r.Algo? <==> FaltaNecessaria(itens, est, cd) == 0
    ensures r.Algo? ==> r.valor == Mapear(itens, Integral())
  {
    var falta := MedirFalta(itens, est, cd);
    if falta > 0 { return Nada; }
    var ls: seq<Linha> := [];
    for k := 0 to |itens|
      invariant |ls| == k && forall j :: 0 <= j < k ==> ls[j] == Integral()(itens[j])
    {
      ls := ls + [Linha(itens[k].tam, itens[k].idx, itens[k].qt, itens[k].qt, itens[k].vl, 0)];
    }
    r := Algo(ls);
  }
}
