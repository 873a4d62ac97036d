/** What the engine guarantees about one (order, product) pair. */
module MotorPar {
  import opened Aritmetica
  import opened Listas
  import opened Motor
  import Rateio

  /** One row per size, as the unique key of the orders table demands. */
  predicate TamanhosUnicos(itens: seq<Item>) {
    forall i, j :: 0 <= i < j < |itens| ==> itens[i].tam != itens[j].tam
  }

  predicate LinhasUnicas(ls: seq<Linha>) {
    forall i, j :: 0 <= i < j < |ls| ==> ls[i].tam != ls[j].tam
  }

  /** Pieces of size `t` reserved by the rows. */
  function ReservaDe(t: string): Linha -> int { (l: Linha) => if l.tam == t then l.liquida else 0 }
  function Reservado(ls: seq<Linha>, t: string): int { Soma(ls, ReservaDe(t)) }

  /** The rows answer the items one by one: same sizes, requested quantities kept. */
  ghost predicate Responde(ls: seq<Linha>, itens: seq<Item>) {
    |ls| == |itens|
      && forall k :: 0 <= k < |ls| ==>
      ls[k].tam == itens[k].tam && ls[k].idx == itens[k].idx && ls[k].solicitada == itens[k].qt
  }

  /** Row by row, no more than the stock. */
  ghost predicate CabeNoEstoque(ls: seq<Linha>, est: Estoque, cd: string) {
    forall l :: l in ls ==> l.liquida <= Disp(est, Chave(cd, l.tam))
  }

  lemma ChaveInjetiva(cd: string, s: string, t: string)
    ensures Chave(cd, s) == Chave(cd, t) <==> s == t
  {
    assert Chave(cd, s)[|cd| + 1..] == s;
    assert Chave(cd, t)[|cd| + 1..] == t;
  }

  lemma SeparadorInterno(cd1: string, s: string, cd2: string, t: string)
    requires Chave(cd1, s) == Chave(cd2, t) && |cd1| < |cd2|
    ensures '_' in s
  {
    var k := Chave(cd1, s);
    assert s[|cd2| - |cd1| - 1] == k[|cd2|] == Chave(cd2, t)[|cd2|];
  }

  /** Sizes without an underscore make the flat key unambiguous across products, even
      when one product code is a prefix of another. */
  lemma ChaveUnicaEntreProdutos(cd1: string, s: string, cd2: string, t: string)
    requires '_' !in s && '_' !in t && Chave(cd1, s) == Chave(cd2, t)
    ensures cd1 == cd2 && s == t
  {
    if |cd1| < |cd2| { SeparadorInterno(cd1, s, cd2, t); }
    if |cd2| < |cd1| { SeparadorInterno(cd2, t, cd1, s); }
    assert Chave(cd1, s)[..|cd1|] == cd1 && Chave(cd2, t)[..|cd2|] == cd2;
    ChaveInjetiva(cd1, s, t);
  }

  // ----- pass 1

  lemma SemFaltaCabe(itens: seq<Item>, est: Estoque, cd: string, i: Item)
    requires FaltaNecessaria(itens, est, cd) == 0 && i in itens
    ensures i.qt <= Disp(est, Chave(cd, i.tam))
  {
    SomaNaoNegativa(itens, FaltaDe(est, cd));
  }

  /** With or without a shortage, pass 1 reserves min(requested, stock). */
  lemma Passada1EhMinimo(itens: seq<Item>, est: Estoque, cd: string, k: nat)
    requires k < |itens|
    ensures var l := Passada1(itens, est, cd)[k];
            l == Linha(itens[k].tam, itens[k].idx, itens[k].qt, Min(itens[k].qt, Disp(est, Chave(cd, itens[k].tam))),
                       itens[k].vl, 0)
  {
    if FaltaNecessaria(itens, est, cd) == 0 { SemFaltaCabe(itens, est, cd, itens[k]); }
  }

  lemma Passada1Responde(itens: seq<Item>, est: Estoque, cd: string)
    ensures var ls := Passada1(itens, est, cd);
            Responde(ls, itens) && CabeNoEstoque(ls, est, cd) && forall l :: l in ls ==> l.liquida <= l.solicitada
  {
    var ls := Passada1(itens, est, cd);
    forall k | 0 <= k < |itens|
      ensures ls[k].tam == itens[k].tam && ls[k].idx == itens[k].idx && ls[k].solicitada == itens[k].qt
      ensures ls[k].liquida <= Disp(est, Chave(cd, ls[k].tam)) && ls[k].liquida <= ls[k].solicitada
    {
      Passada1EhMinimo(itens, est, cd, k);
    }
  }

  /** The cut recorded in the rows is exactly the shortage charged to the ledger. */
  lemma CorteEhFalta(itens: seq<Item>, est: Estoque, cd: string)
    ensures Total(Passada1(itens, est, cd), CorteDe()) == FaltaNecessaria(itens, est, cd)
  {
    var f := Reduzir(est, cd, FaltaNecessaria(itens, est, cd));
    forall i | i in itens ensures CorteDe()(f(i)) == FaltaDe(est, cd)(i) {
      var k :| 0 <= k < |itens| && itens[k] == i;
      Passada1EhMinimo(itens, est, cd, k);
    }
    SomaMapeada(itens, f, CorteDe(), FaltaDe(est, cd));
  }

  // ----- pass 2

  lemma {:induction false} DistribuirPorLinha(ls: seq<Linha>, espaco: Linha -> nat, saldo: nat)
    ensures var g := Distribuir(ls, espaco, saldo);
            && |g.0| == |ls| && g.1 <= saldo
            && (forall k :: 0 <= k < |ls| ==> g.0[k] == ls[k].(liquida := g.0[k].liquida)
                                              && ls[k].liquida <= g.0[k].liquida <= ls[k].liquida + espaco(ls[k]))
            && (forall k :: 0 <= k < |ls| ==> g.0[k].liquida == ls[k].liquida + espaco(ls[k]) || g.1 == 0)
  {
    if ls != [] {
      var c := Min(espaco(ls[0]), saldo);
      DistribuirPorLinha(ls[1..], espaco, saldo - c);
      forall k | 0 < k < |ls| ensures ls[k] == ls[1..][k - 1] {}
    }
  }

  lemma {:induction false} SemSaldo(ls: seq<Linha>, espaco: Linha -> nat)
    ensures Distribuir(ls, espaco, 0).0 == ls
  {
    if ls != [] { SemSaldo(ls[1..], espaco); }
  }

  /** A row gets something only when every row ahead of it got all its room. */
  lemma {:induction false} DistribuirEmOrdem(ls: seq<Linha>, espaco: Linha -> nat, saldo: nat, j: nat, k: nat)
    requires j < k < |ls|
    ensures var g := Distribuir(ls, espaco, saldo).0;
            |g| == |ls| && (g[k].liquida > ls[k].liquida ==> g[j].liquida == ls[j].liquida + espaco(ls[j]))
  {
    var c := Min(espaco(ls[0]), saldo);
    var g := Distribuir(ls[1..], espaco, saldo - c).0;
    DistribuirPorLinha(ls[1..], espaco, saldo - c);
    assert Distribuir(ls, espaco, saldo).0 == [ls[0].(liquida := ls[0].liquida + c)] + g;
    if j > 0 {
      DistribuirEmOrdem(ls[1..], espaco, saldo - c, j - 1, k - 1);
    } else if saldo == c {
      SemSaldo(ls[1..], espaco);
    }
  }

  /** All the room the rows have. */
  function EspacoTotal(ls: seq<Linha>, espaco: Linha -> nat): int { Soma(ls, ComoInteiro(espaco)) }

  function ComoInteiro(espaco: Linha -> nat): Linha -> int { (l: Linha) => espaco(l) }

  lemma EspacoNaoNegativo(ls: seq<Linha>, espaco: Linha -> nat)
    ensures EspacoTotal(ls, espaco) >= 0
  {
    SomaNaoNegativa(ls, ComoInteiro(espaco));
  }

  /** Nothing of the allowance is left over while there is room for it. */
  lemma {:induction false} DistribuirExato(ls: seq<Linha>, espaco: Linha -> nat, saldo: nat)
    ensures Distribuir(ls, espaco, saldo).1 == Max(0, saldo - EspacoTotal(ls, espaco))
  {
    if ls != [] {
      EspacoNaoNegativo(ls[1..], espaco);
      DistribuirExato(ls[1..], espaco, saldo - Min(espaco(ls[0]), saldo));
    }
  }

  /** Pass 2 only raises quantities, never past the stock, and only at an extreme size;
      it stops short of the stock at an extreme size only when the allowance is spent, and
      raises no row before the extreme rows ahead of it have all their stock. */
  lemma ConcederPorLinha(ls: seq<Linha>, est: Estoque, cd: string, saldo: nat)
    ensures var (rs, s) := Conceder(ls, est, cd, saldo);
            && |rs| == |ls| && s <= saldo
            && (forall k :: 0 <= k < |ls| ==>
              rs[k] == ls[k].(liquida := rs[k].liquida) && ls[k].liquida <= rs[k].liquida)
            && (forall k :: 0 <= k < |ls| ==> rs[k].liquida <= Max(ls[k].liquida, Disp(est, Chave(cd, ls[k].tam))))
            && (forall k :: 0 <= k < |ls| && !Extremo(ls, ls[k]) ==> rs[k] == ls[k])
            && (forall k :: 0 <= k < |ls| && Extremo(ls, ls[k]) ==>
              rs[k].liquida >= Disp(est, Chave(cd, ls[k].tam)) || s == 0)
            && (forall j, k :: 0 <= j < k < |ls| && Extremo(ls, ls[j]) && rs[k].liquida > ls[k].liquida ==>
              rs[j].liquida >= Disp(est, Chave(cd, ls[j].tam)))
  {
    hide Distribuir;
    var rs := Distribuir(ls, EspacoDe(ls, est, cd), saldo).0;
    DistribuirPorLinha(ls, EspacoDe(ls, est, cd), saldo);
    forall j, k | 0 <= j < k < |ls| && Extremo(ls, ls[j]) && rs[k].liquida > ls[k].liquida
      ensures rs[j].liquida >= Disp(est, Chave(cd, ls[j].tam))
    {
      DistribuirEmOrdem(ls, EspacoDe(ls, est, cd), saldo, j, k);
    }
  }

  /** The pieces added are exactly those charged to the ledger. */
  lemma {:induction false} AdicaoEhConcedida(ls: seq<Linha>, espaco: Linha -> nat, saldo: nat)
    requires forall l :: l in ls ==> l.liquida == l.solicitada
    ensures var g := Distribuir(ls, espaco, saldo);
            Total(g.0, AdicaoDe()) == saldo - g.1 && Total(g.0, CorteDe()) == 0
  {
    if ls != [] {
      var c := Min(espaco(ls[0]), saldo);
      AdicaoEhConcedida(ls[1..], espaco, saldo - c);
      assert Distribuir(ls, espaco, saldo).0[1..] == Distribuir(ls[1..], espaco, saldo - c).0;
    }
  }

  // ----- the money step

  lemma {:induction false} PesosSomamLiquida(ls: seq<Linha>)
    ensures Rateio.PesoTotal(Pesos(ls)) == Total(ls, LiquidaDe())
  {
    SomaMapeada(ls, ParaPeso(), Rateio.QtdDe(), LiquidaDe());
  }

  lemma FinanceiroSoMudaValor(ls: seq<Linha>)
    requires Rateio.PesoTotal(Pesos(ls)) > 0
    ensures var rs := Financeiro(ls);
            |rs| == |ls| && forall k :: 0 <= k < |ls| ==> rs[k] == ls[k].(vl := rs[k].vl, diff := rs[k].vl - ls[k].vl)
  {}

  /** The rounded total is within half a cent of the exact product; half a cent rounds away
      from zero. */
  lemma MeioAcimaProximo(n: int, d: nat)
    requires d > 0
    ensures -(d as int) <= 2 * (n - d * MeioAcima(n, d)) <= d
    ensures n >= 0 ==> 2 * (n - d * MeioAcima(n, d)) < d
    ensures n <= 0 ==> -(d as int) < 2 * (n - d * MeioAcima(n, d))
  {
    var a := if n >= 0 then n else -n;
    DivisaoEuclidiana(2 * a + d, 2 * d);
    var q := (2 * a + d) / (2 * d);
    assert (2 * d) * q == 2 * (d * q);
    assert d * -q == -(d * q);
  }

  lemma MeioAcimaExato(v: int, s: nat)
    requires s > 0
    ensures MeioAcima(v * s, s) == v
  {
    hide MeioAcima;
    var m := MeioAcima(v * s, s);
    MeioAcimaProximo(v * s, s);
    assert 2 * (v * s - s * m) == 2 * (s * (v - m));
    if v > m { MultMonotona(s, 1, v - m); }
    if v < m { MultMonotona(s, v - m, -1); }
  }

  /** The repriced rows add up to the apportioned total to the cent, which is within half a
      cent of the average original price times the final pieces; their differences add up
      to the change of the pair's value. */
  lemma FinanceiroExato(ls: seq<Linha>)
    requires Rateio.PesoTotal(Pesos(ls)) > 0 && LinhasUnicas(ls)
    ensures Total(Financeiro(ls), ValorDe()) == TotalARatear(ls)
    ensures Total(Financeiro(ls), OriginalDe()) == Total(ls, ValorDe())
    ensures var s := Total(ls, SolicitadaDe());
            var exato := Total(ls, ValorDe()) * Total(ls, LiquidaDe());
            var sobra := 2 * (exato - s * Total(Financeiro(ls), ValorDe()));
            s > 0 ==> if exato >= 0 then -s <= sobra < s else -s < sobra <= s
  {
    hide MeioAcima;
    var t, ps := TotalARatear(ls), Pesos(ls);
    Rateio.SomaExataComSinal(t, ps);
    var g := Reprecificar(t, ps);
    SomaMapeada(ls, g, OriginalDe(), ValorDe());
    SomaReprecificada(ls, t, ps);
    if Total(ls, SolicitadaDe()) > 0 {
      MeioAcimaProximo(Total(ls, ValorDe()) * Total(ls, LiquidaDe()), Total(ls, SolicitadaDe()));
    }
  }

  lemma {:induction false} SomaReprecificada(ls: seq<Linha>, t: int, ps: seq<Rateio.Peso>)
    requires Rateio.PesoTotal(ps) > 0
    ensures Total(Mapear(ls, Reprecificar(t, ps)), ValorDe()) == Soma(Pesos(ls), Rateio.ParteComSinalDe(t, ps))
  {
    if ls != [] {
      SomaReprecificada(ls[1..], t, ps);
      assert Mapear(ls, Reprecificar(t, ps))[1..] == Mapear(ls[1..], Reprecificar(t, ps));
      assert Pesos(ls)[1..] == Pesos(ls[1..]);
    }
  }

  /** What each size holds in some column. */
  function Coluna(ls: seq<Linha>, f: Linha -> int): map<string, int> {
    if ls == [] then map[] else Coluna(ls[..|ls| - 1], f)[ls[|ls| - 1].tam := f(ls[|ls| - 1])]
  }

  lemma {:induction false} ColunaSao(ls: seq<Linha>, f: Linha -> int)
    requires LinhasUnicas(ls)
    ensures forall l :: l in ls ==> l.tam in Coluna(ls, f) && Coluna(ls, f)[l.tam] == f(l)
  {
    if ls != [] {
      var p, x := ls[..|ls| - 1], ls[|ls| - 1];
      ColunaSao(p, f);
      forall l | l in ls ensures l.tam in Coluna(ls, f) && Coluna(ls, f)[l.tam] == f(l) {
        var k :| 0 <= k < |ls| && ls[k] == l;
        if k < |p| { assert p[k] == l && l.tam != x.tam; }
      }
    }
  }

  lemma LinhaReprecificada(ls: seq<Linha>, k: nat)
    requires Rateio.PesoTotal(Pesos(ls)) > 0 && k < |ls|
    ensures |Financeiro(ls)| == |Pesos(ls)| == |ls| && Financeiro(ls)[k].tam == Pesos(ls)[k].tam == ls[k].tam
    ensures Financeiro(ls)[k].vl == Rateio.ParteComSinal(TotalARatear(ls), Pesos(ls), Pesos(ls)[k])
  {}

  /** Each size gets its share of the rounded total by largest remainder over the final
      pieces. */
  lemma FinanceiroPorMaiorResto(ls: seq<Linha>)
    requires Rateio.PesoTotal(Pesos(ls)) > 0 && LinhasUnicas(ls)
    ensures var t := TotalARatear(ls);
            Rateio.PorMaiorResto(if t < 0 then -t else t, Rateio.PesoTotal(Pesos(ls)), Pesos(ls),
                                 Rateio.Modulos(Coluna(Financeiro(ls), ValorDe()), t < 0))
  {
    hide Rateio.PorMaiorResto, Rateio.Modulos, TotalARatear, Rateio.ParteComSinal, Financeiro, Pesos;
    var t, rs, ps := TotalARatear(ls), Financeiro(ls), Pesos(ls);
    forall k | 0 <= k < |ls|
      ensures |rs| == |ps| == |ls| && rs[k].tam == ps[k].tam == ls[k].tam
        && rs[k].vl == Rateio.ParteComSinal(t, ps, ps[k])
    {
      LinhaReprecificada(ls, k);
    }
    assert |rs| == |ps| == |ls| by { FinanceiroSoMudaValor(ls); PesosContam(ls); }
    ColunaSao(rs, ValorDe());
    forall p | p in ps
      ensures p.tam in Coluna(rs, ValorDe()) && Coluna(rs, ValorDe())[p.tam] == Rateio.ParteComSinal(t, ps, p)
    {
      var k :| 0 <= k < |ps| && ps[k] == p;
      assert rs[k] in rs;
    }
    Rateio.SinalDasPartes(t, ps, Coluna(rs, ValorDe()));
  }

  lemma PesosContam(ls: seq<Linha>)
    ensures |Pesos(ls)| == |ls|
  {}

  /** When pieces neither leave nor enter, the pair's value does not move. */
  lemma SemVariacaoMantemValor(ls: seq<Linha>)
    requires Total(ls, LiquidaDe()) == Total(ls, SolicitadaDe()) > 0
    ensures TotalARatear(ls) == Total(ls, ValorDe())
  {
    MeioAcimaExato(Total(ls, ValorDe()), Total(ls, SolicitadaDe()));
  }

  // ----- when the money step divides by zero

  /** The run aborts on an approved pair exactly when no size with a positive request
      has any stock: the pair would be cut to nothing. */
  lemma AbortaSse(itens: seq<Item>, est: Estoque, cd: string)
    ensures Fechar(Passada1(itens, est, cd)).DivisaoPorZero?
        <==> itens != [] && forall i :: i in itens ==> i.qt == 0 || Disp(est, Chave(cd, i.tam)) == 0
  {
    var ls := Passada1(itens, est, cd);
    PesosSomamLiquida(ls);
    SomaNaoNegativa(ls, LiquidaDe());
    Passada1Responde(itens, est, cd);
    forall i | i in itens && 0 < i.qt && 0 < Disp(est, Chave(cd, i.tam)) ensures Total(ls, LiquidaDe()) > 0 {
      var k :| 0 <= k < |itens| && itens[k] == i;
      Passada1EhMinimo(itens, est, cd, k);
      assert ls[k] in ls;
    }
    if forall i :: i in itens ==> i.qt == 0 || Disp(est, Chave(cd, i.tam)) == 0 {
      forall l | l in ls ensures l.liquida == 0 {
        var k :| 0 <= k < |ls| && ls[k] == l;
        Passada1EhMinimo(itens, est, cd, k);
        assert itens[k] in itens;
      }
      SomaDeZeros(ls, LiquidaDe());
    }
  }

  // ----- the grade-hole test

  /** Of three known sizes asked for, in the order of the grade, the middle one has no stock. */
  ghost predicate MeioVazio(est: Estoque, cd: string, a: Item, i: Item, b: Item) {
    && a.idx < i.idx < b.idx && a.idx != 999 && i.idx != 999 && b.idx != 999
    && a.qt > 0 && i.qt > 0 && b.qt > 0 && Disp(est, Chave(cd, i.tam)) == 0
  }

  /** There is a hole exactly when some three sizes of the pair are so. */
  lemma FuroSse(itens: seq<Item>, est: Estoque, cd: string)
    ensures TemFuro(itens, est, cd)
      <==> exists a, i, b :: a in itens && i in itens && b in itens && MeioVazio(est, cd, a, i, b)
  {
    if TemFuro(itens, est, cd) {
      var i :| i in itens && InteriorVazio(itens, est, cd, i);
      var a :| a in itens && Reconhecido(a) && a.idx < i.idx;
      var b :| b in itens && Reconhecido(b) && i.idx < b.idx;
      assert MeioVazio(est, cd, a, i, b);
    }
    if a, i, b :| a in itens && i in itens && b in itens && MeioVazio(est, cd, a, i, b) {
      assert Reconhecido(a) && Reconhecido(b) && InteriorVazio(itens, est, cd, i);
    }
  }

  /** A hole implies a shortage, so in the all-or-nothing policy the test decides only
      the recorded motive, never the outcome. */
  lemma FuroImplicaFalta(itens: seq<Item>, est: Estoque, cd: string)
    requires TemFuro(itens, est, cd)
    ensures FaltaNecessaria(itens, est, cd) > 0
  {
    var i :| i in itens && InteriorVazio(itens, est, cd, i);
    SomaNaoNegativa(itens, FaltaDe(est, cd));
  }

  /** All or nothing reserves the requested grade if and only if every size is in stock. */
  lemma TudoOuNadaSse(itens: seq<Item>, est: Estoque, cd: string, blacklist: bool)
    ensures var d := TudoOuNada(itens, est, cd, blacklist);
            && (d.GerarOR? <==> itens != [] && forall i :: i in itens ==> i.qt <= Disp(est, Chave(cd, i.tam)))
            && (d.GerarOR? ==> Responde(d.linhas, itens) && CabeNoEstoque(d.linhas, est, cd)
                               && forall l :: l in d.linhas ==> l.liquida == l.solicitada && l.diff == 0)
            && !d.DivisaoPorZero?
            && (d.StandBy? && blacklist ==> d.motivo == Blacklist)
            && (d.StandBy? && !blacklist ==> d.motivo == if TemFuro(itens, est, cd) then FuroGrade else SemEstoque)
  {
    SomaNaoNegativa(itens, FaltaDe(est, cd));
    if TemFuro(itens, est, cd) { FuroImplicaFalta(itens, est, cd); }
    if FaltaNecessaria(itens, est, cd) == 0 {
      forall i | i in itens ensures i.qt <= Disp(est, Chave(cd, i.tam)) { SemFaltaCabe(itens, est, cd, i); }
    } else if forall i :: i in itens ==> i.qt <= Disp(est, Chave(cd, i.tam)) {
      SomaDeZeros(itens, FaltaDe(est, cd));
      assert false;
    }
  }

  // ----- stock

  lemma {:induction false} ReservadoUnico(ls: seq<Linha>, t: string, est: Estoque, cd: string)
    requires LinhasUnicas(ls) && CabeNoEstoque(ls, est, cd)
    ensures 0 <= Reservado(ls, t) <= Disp(est, Chave(cd, t))
    ensures (forall l :: l in ls ==> l.tam != t) ==> Reservado(ls, t) == 0
  {
    if ls != [] {
      assert ls == [ls[0]] + ls[1..];
      ReservadoUnico(ls[1..], t, est, cd);
      assert forall k :: 0 <= k < |ls| - 1 ==> ls[1..][k] == ls[k + 1];
      assert ls[0] in ls;
    }
  }

  /** Committing rows that fit takes exactly the reserved pieces out of each size: the
      floor at zero never bites, and no other key moves. */
  lemma {:induction false} DebitarExato(est: Estoque, cd: string, ls: seq<Linha>, t: string)
    requires forall s :: Reservado(ls, s) <= Disp(est, Chave(cd, s))
    ensures Disp(Debitar(est, cd, ls), Chave(cd, t)) == Disp(est, Chave(cd, t)) - Reservado(ls, t)
    decreases ls
  {
    if ls != [] {
      var k := Chave(cd, ls[0].tam);
      var e := est[k := Max(0, Disp(est, k) - ls[0].liquida)];
      ReservadoNaoNegativo(ls[1..], ls[0].tam);
      assert Reservado(ls, ls[0].tam) == ls[0].liquida + Reservado(ls[1..], ls[0].tam);
      forall s ensures Reservado(ls[1..], s) <= Disp(e, Chave(cd, s)) {
        ChaveInjetiva(cd, s, ls[0].tam);
        assert Reservado(ls, s) <= Disp(est, Chave(cd, s));
      }
      DebitarExato(e, cd, ls[1..], t);
      ChaveInjetiva(cd, t, ls[0].tam);
    }
  }

  lemma ReservadoNaoNegativo(ls: seq<Linha>, t: string)
    ensures Reservado(ls, t) >= 0
  {
    SomaNaoNegativa(ls, ReservaDe(t));
  }
}
