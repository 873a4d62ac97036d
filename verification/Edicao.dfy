/** Editing the grade of a saved reservation: quantities come from the operator,
    money only from the saved rows. */
module Edicao {
  import opened Aritmetica
  import opened Listas
  import opened Motor
  import opened MotorPar
  import opened Rateio

  datatype Falha = GradeVazia | SemItens | QuantidadeInvalida | TotalAlterado
  datatype Resposta<+T> = Aceita(valor: T) | Recusada(falha: Falha)

  function Positivo(): Peso -> bool { (p: Peso) => p.qtd > 0 }

  /** The sizes the operator kept. */
  function Mantidos(sizes: seq<Peso>): seq<Peso> { Filtrar(sizes, Positivo()) }

  /** The new row of size `p`: `valor` and `original` are the pair's totals in cents,
      `base` the requested pieces to spread when the total may vary. */
  function NovaLinha(ps: seq<Peso>, valor: int, original: int, base: nat, variacao: bool): Peso -> Linha
    requires PesoTotal(ps) > 0
  {
    (p: Peso) =>
      var v := ParteComSinal(valor, ps, p);
      Linha(p.tam, 0, if variacao then Parte(base, ps, p) else p.qtd, p.qtd, v, v - ParteComSinal(original, ps, p))
  }

  function TotalNat(ls: seq<Linha>, f: Linha -> int): nat
    requires forall l :: l in ls ==> f(l) >= 0
  {
    SomaNaoNegativa(ls, f);
    Total(ls, f)
  }

  lemma {:induction false} MantidosSomam(sizes: seq<Peso>)
    ensures PesoTotal(Mantidos(sizes)) == PesoTotal(sizes)
    ensures Mantidos(sizes) != [] ==> PesoTotal(Mantidos(sizes)) > 0
  {
    if sizes != [] {
      MantidosSomam(sizes[1..]);
      SomaConcat(if Positivo()(sizes[0]) then [sizes[0]] else [], Mantidos(sizes[1..]), QtdDe());
    }
  }

  /** The rebuilt grade, in alphabetical order of size. */
  function MontarGrade(ls: seq<Linha>, sizes: seq<Peso>, variacao: bool): Resposta<seq<Linha>> {
    var ps := Mantidos(sizes);
    MantidosSomam(sizes);
    if ps == [] then Recusada(GradeVazia)
    else if ls == [] then Recusada(SemItens)
    else if Total(ls, LiquidaDe()) <= 0 then Recusada(QuantidadeInvalida)
    else if !variacao && PesoTotal(ps) != Total(ls, LiquidaDe()) then Recusada(TotalAlterado)
    else
      var f := NovaLinha(ps, Total(ls, ValorDe()), Total(ls, OriginalDe()), TotalNat(ls, SolicitadaDe()), variacao);
      Aceita(Mapear(Ordenar(ps, MenorTamanho), f))
  }

  lemma {:induction false} MantidosDistintos(sizes: seq<Peso>)
    requires TamanhosDistintos(sizes)
    ensures TamanhosDistintos(Mantidos(sizes))
  {
    hide Positivo;
    if sizes != [] {
      MantidosDistintos(sizes[1..]);
      var r := Mantidos(sizes[1..]);
      forall i | 0 <= i < |r| ensures r[i].tam != sizes[0].tam {
        assert r[i] in r && r[i] in sizes[1..];
        var k :| 0 <= k < |sizes[1..]| && sizes[1..][k] == r[i];
        assert sizes[k + 1] == r[i];
      }
    }
  }

  /** An accepted edit moves pieces between sizes without creating or losing a cent:
      value and original value are kept; so is the requested total when the total may
      vary, and the reserved total when it may not. */
  lemma EdicaoConserva(ls: seq<Linha>, sizes: seq<Peso>, variacao: bool)
    requires TamanhosDistintos(sizes) && MontarGrade(ls, sizes, variacao).Aceita?
    ensures var rs := MontarGrade(ls, sizes, variacao).valor;
            && Total(rs, ValorDe()) == Total(ls, ValorDe())
            && Total(rs, OriginalDe()) == Total(ls, OriginalDe())
            && Total(rs, LiquidaDe()) == PesoTotal(sizes)
            && Total(rs, SolicitadaDe()) == (if variacao then Total(ls, SolicitadaDe()) else Total(ls, LiquidaDe()))
            && (!variacao ==> Total(rs, LiquidaDe()) == Total(ls, LiquidaDe()))
            && rs != []
  {
    var ps := Mantidos(sizes);
    MantidosSomam(sizes);
    MantidosDistintos(sizes);
    TamanhosEmOrdem(ps);
    var o := Ordenar(ps, MenorTamanho);
    var valor, original, base := Total(ls, ValorDe()), Total(ls, OriginalDe()), TotalNat(ls, SolicitadaDe());
    var f := NovaLinha(ps, valor, original, base, variacao);
    SomaMapeada(o, f, ValorDe(), ParteComSinalDe(valor, ps));
    SomaMapeada(o, f, OriginalDe(), ParteComSinalDe(original, ps));
    SomaMapeada(o, f, LiquidaDe(), QtdDe());
    SomaExataComSinal(valor, ps);
    SomaExataComSinal(original, ps);
    SomaPermutacao(o, ps, ParteComSinalDe(valor, ps));
    SomaPermutacao(o, ps, ParteComSinalDe(original, ps));
    SomaPermutacao(o, ps, QtdDe());
    SolicitadaConservada(o, ps, valor, original, base, variacao);
    OrdenarPermuta(ps, MenorTamanho);
  }

  lemma SolicitadaConservada(o: seq<Peso>, ps: seq<Peso>, valor: int, original: int, base: nat, variacao: bool)
    requires PesoTotal(ps) > 0 && TamanhosDistintos(ps) && multiset(o) == multiset(ps)
    ensures Total(Mapear(o, NovaLinha(ps, valor, original, base, variacao)), SolicitadaDe()) == if variacao then base
      else PesoTotal(ps)
  {
    var f := NovaLinha(ps, valor, original, base, variacao);
    if variacao {
      SomaMapeada(o, f, SolicitadaDe(), ParteDe(base, ps));
      SomaPermutacao(o, ps, ParteDe(base, ps));
      SomaExata(base, ps);
    } else {
      SomaMapeada(o, f, SolicitadaDe(), QtdDe());
      SomaPermutacao(o, ps, QtdDe());
    }
  }

  // ----- chains of edits

  datatype Edicao = Edicao(sizes: seq<Peso>, variacao: bool)

  /** `ls` becomes `rs` by a sequence of edits, each accepted on the rows it finds. */
  ghost predicate Cadeia(ls: seq<Linha>, es: seq<Edicao>, rs: seq<Linha>)
    decreases es
  {
    if es == [] then rs == ls
    else
      && TamanhosDistintos(es[0].sizes)
      && MontarGrade(ls, es[0].sizes, es[0].variacao).Aceita?
      && Cadeia(MontarGrade(ls, es[0].sizes, es[0].variacao).valor, es[1..], rs)
  }

  /** Over any chain of accepted edits the pair's value and original value are
      unchanged to the cent. If every edit lets the total vary, the requested total is
      unchanged; if none does, the reserved total is. */
  lemma {:induction false} CadeiaConserva(ls: seq<Linha>, es: seq<Edicao>, rs: seq<Linha>)
    requires Cadeia(ls, es, rs)
    ensures Total(rs, ValorDe()) == Total(ls, ValorDe()) && Total(rs, OriginalDe()) == Total(ls, OriginalDe())
    ensures (forall e :: e in es ==> e.variacao) ==> Total(rs, SolicitadaDe()) == Total(ls, SolicitadaDe())
    ensures (forall e :: e in es ==> !e.variacao) ==> Total(rs, LiquidaDe()) == Total(ls, LiquidaDe())
    decreases es
  {
    if es != [] {
      assert es[0] in es && forall e :: e in es[1..] ==> e in es;
      EdicaoConserva(ls, es[0].sizes, es[0].variacao);
      CadeiaConserva(MontarGrade(ls, es[0].sizes, es[0].variacao).valor, es[1..], rs);
    }
  }

  lemma {:induction false} MapeadaContem(o: seq<Peso>, f: Peso -> Linha, p: Peso)
    requires forall q :: q in o ==> f(q).tam == q.tam && f(q).liquida == q.qtd
    ensures p in o <==> exists l :: l in Mapear(o, f) && l.tam == p.tam && l.liquida == p.qtd
  {
    var rs := Mapear(o, f);
    if p in o {
      var k :| 0 <= k < |o| && o[k] == p;
      assert rs[k] in rs;
    }
    if l :| l in rs && l.tam == p.tam && l.liquida == p.qtd {
      var k :| 0 <= k < |rs| && rs[k] == l;
      assert o[k] in o && o[k] == p;
    }
  }

  /** Each size of the result appears once and holds what the operator asked for it;
      no other size appears. */
  lemma GradePedida(ls: seq<Linha>, sizes: seq<Peso>, variacao: bool, p: Peso)
    requires TamanhosDistintos(sizes) && MontarGrade(ls, sizes, variacao).Aceita?
    ensures var rs := MontarGrade(ls, sizes, variacao).valor;
            LinhasUnicas(rs)
              && (p in sizes && p.qtd > 0 <==> exists l :: l in rs && l.tam == p.tam && l.liquida == p.qtd)
  {
    var ps := Mantidos(sizes);
    MantidosSomam(sizes);
    MantidosDistintos(sizes);
    TamanhosEmOrdem(ps);
    MapeadaContem(Ordenar(ps, MenorTamanho),
                  NovaLinha(ps, Total(ls, ValorDe()), Total(ls, OriginalDe()), TotalNat(ls, SolicitadaDe()), variacao),
                  p);
    assert p in ps <==> p in sizes && Positivo()(p);
  }

  /** The rows come in alphabetical order of size. */
  lemma GradeEmOrdem(ls: seq<Linha>, sizes: seq<Peso>, variacao: bool, i: nat, j: nat)
    requires TamanhosDistintos(sizes) && MontarGrade(ls, sizes, variacao).Aceita?
    requires i < j < |MontarGrade(ls, sizes, variacao).valor|
    ensures var rs := MontarGrade(ls, sizes, variacao).valor; MenorTexto(rs[i].tam, rs[j].tam)
  {
    var ps := Mantidos(sizes);
    MantidosSomam(sizes);
    MantidosDistintos(sizes);
    TamanhosEmOrdem(ps);
    assert MenorTamanho(Ordenar(ps, MenorTamanho)[i], Ordenar(ps, MenorTamanho)[j]);
  }

  /** When an edit is refused, and why: the first of four tests that fails. */
  lemma RecusaSse(ls: seq<Linha>, sizes: seq<Peso>, variacao: bool)
    ensures var r, vazia := MontarGrade(ls, sizes, variacao), forall p :: p in sizes ==> p.qtd == 0;
            && (r == Recusada(GradeVazia) <==> vazia)
            && (r == Recusada(SemItens) <==> !vazia && ls == [])
            && (r == Recusada(QuantidadeInvalida) <==> !vazia && ls != [] && Total(ls, LiquidaDe()) == 0)
            && (r == Recusada(TotalAlterado) <==>
                 && !vazia && ls != [] && Total(ls, LiquidaDe()) > 0
                 && !variacao && PesoTotal(sizes) != Total(ls, LiquidaDe()))
  {
    var ps := Mantidos(sizes);
    MantidosSomam(sizes);
    SomaNaoNegativa(ls, LiquidaDe());
    forall p | p in sizes && p.qtd > 0 ensures ps != [] { assert Positivo()(p); }
    if ps != [] { assert ps[0] in ps; }
  }

  /** Value and original value are each spread over the new pieces by largest remainder; so
      are the requested pieces when the total may vary. */
  lemma GradePorMaiorResto(ls: seq<Linha>, sizes: seq<Peso>, variacao: bool)
    requires TamanhosDistintos(sizes) && MontarGrade(ls, sizes, variacao).Aceita?
    ensures PesoTotal(Mantidos(sizes)) > 0
    ensures var (rs, ps) := (MontarGrade(ls, sizes, variacao).valor, Mantidos(sizes));
            var (v, o) := (Total(ls, ValorDe()), Total(ls, OriginalDe()));
            && PorMaiorResto(if v < 0 then -v else v, PesoTotal(ps), ps, Modulos(Coluna(rs, ValorDe()), v < 0))
            && PorMaiorResto(if o < 0 then -o else o, PesoTotal(ps), ps, Modulos(Coluna(rs, OriginalDe()), o < 0))
            && (variacao ==>
              PorMaiorResto(TotalNat(ls, SolicitadaDe()), PesoTotal(ps), ps, Coluna(rs, SolicitadaDe())))
  {
    hide PorMaiorResto, Modulos, Coluna, Parte, ParteComSinal, NovaLinha;
    var ps := Mantidos(sizes);
    var valor, original, base := Total(ls, ValorDe()), Total(ls, OriginalDe()), TotalNat(ls, SolicitadaDe());
    var rs := MontarGrade(ls, sizes, variacao).valor;
    MantidosSomam(sizes);
    MantidosDistintos(sizes);
    TamanhosEmOrdem(ps);
    GradePedida(ls, sizes, variacao, Peso("", 0));
    ColunaSao(rs, ValorDe());
    ColunaSao(rs, OriginalDe());
    ColunaSao(rs, SolicitadaDe());
    forall p | p in ps
      ensures p.tam in Coluna(rs, ValorDe()) && Coluna(rs, ValorDe())[p.tam] == ParteComSinal(valor, ps, p)
      ensures p.tam in Coluna(rs, OriginalDe()) && Coluna(rs, OriginalDe())[p.tam] == ParteComSinal(original, ps, p)
      ensures p.tam in Coluna(rs, SolicitadaDe())
        && (variacao ==> Coluna(rs, SolicitadaDe())[p.tam] == Parte(base, ps, p))
    {
      LinhaDoPeso(ps, valor, original, base, variacao, Ordenar(ps, MenorTamanho), p);
    }
    SinalDasPartes(valor, ps, Coluna(rs, ValorDe()));
    SinalDasPartes(original, ps, Coluna(rs, OriginalDe()));
    if variacao { PartesPorMaiorResto(base, ps, Coluna(rs, SolicitadaDe())); }
  }

  lemma LinhaDoPeso(ps: seq<Peso>, valor: int, original: int, base: nat, variacao: bool, o: seq<Peso>, p: Peso)
    requires PesoTotal(ps) > 0 && p in o
    ensures exists l :: l in Mapear(o, NovaLinha(ps, valor, original, base, variacao)) && l.tam == p.tam
                        && ValorDe()(l) == ParteComSinal(valor, ps, p)
                        && OriginalDe()(l) == ParteComSinal(original, ps, p)
                        && (variacao ==> SolicitadaDe()(l) == Parte(base, ps, p))
  {
    var rs := Mapear(o, NovaLinha(ps, valor, original, base, variacao));
    var k :| 0 <= k < |o| && o[k] == p;
    assert rs[k] in rs;
  }

  // ----- the routine

  method MontarGradeAtualizada(ls: seq<Linha>, sizes: seq<Peso>, variacao: bool) returns (r: Resposta<seq<Linha>>)
    requires TamanhosDistintos(sizes)
    ensures r == MontarGrade(ls, sizes, variacao)
  {
    hide PorMaiorResto, Modulos;
    var ps := Mantidos(sizes);
    MantidosSomam(sizes);
    MantidosDistintos(sizes);
    if ps == [] { return Recusada(GradeVazia); }
    if ls == [] { return Recusada(SemItens); }
    var atual, valor, original, base := Somar(ls);
    if atual <= 0 { return Recusada(QuantidadeInvalida); }
    if !variacao && PesoTotal(ps) != atual { return Recusada(TotalAlterado); }
    var linhaBase: map<string, nat> := map[];
    if variacao {
      var b := RatearInteiro(base, ps);
      linhaBase := b.valor;
    }
    var correntes := RatearHamilton(valor, ps);
    var originais := RatearHamilton(original, ps);
    TamanhosEmOrdem(ps);
    var rs :=
      Preencher(Ordenar(ps, MenorTamanho), ps, valor, original, base, variacao, linhaBase, correntes.valor,
                originais.valor);
    r := Aceita(rs);
  }

  method Somar(ls: seq<Linha>) returns (atual: int, valor: int, original: int, base: nat)
    ensures atual == Total(ls, LiquidaDe()) && valor == Total(ls, ValorDe())
    ensures original == Total(ls, OriginalDe()) && base == Total(ls, SolicitadaDe())
  {
    atual, valor, original, base := 0, 0, 0, 0;
    for k := 0 to |ls|
      invariant atual == Soma(ls[..k], LiquidaDe()) && valor == Soma(ls[..k], ValorDe())
      invariant original == Soma(ls[..k], OriginalDe()) && base == Soma(ls[..k], SolicitadaDe())
    {
      SomaPrefixo(ls, k, LiquidaDe());
      SomaPrefixo(ls, k, ValorDe());
      SomaPrefixo(ls, k, OriginalDe());
      SomaPrefixo(ls, k, SolicitadaDe());
      atual, valor := atual + ls[k].liquida, valor + ls[k].vl;
      original, base := original + (ls[k].vl - ls[k].diff), base + ls[k].solicitada;
    }
    PrefixoTodo(ls);
  }

  method Preencher(o: seq<Peso>, ps: seq<Peso>, ghost valor: int, ghost original: int, ghost base: nat, variacao: bool,
                   linhaBase: map<string, nat>, correntes: map<string, int>, originais: map<string, int>)
    returns (rs: seq<Linha>)
    requires PesoTotal(ps) > 0
    requires forall p :: p in o ==> p.tam in correntes && correntes[p.tam] == ParteComSinal(valor, ps, p)
    requires forall p :: p in o ==> p.tam in originais && originais[p.tam] == ParteComSinal(original, ps, p)
    requires variacao ==> forall p :: p in o ==> p.tam in linhaBase && linhaBase[p.tam] == Parte(base, ps, p)
    ensures rs == Mapear(o, NovaLinha(ps, valor, original, base, variacao))
  {
    rs := [];
    for k := 0 to |o|
      invariant |rs| == k && forall j :: 0 <= j < k ==> rs[j] == NovaLinha(ps, valor, original, base, variacao)(o[j])
    {
      var p := o[k];
      assert p in o;
      var v := correntes[p.tam];
      rs := rs + [Linha(p.tam, 0, if variacao then linhaBase[p.tam] else p.qtd, p.qtd, v, v - originais[p.tam])];
    }
  }
}
