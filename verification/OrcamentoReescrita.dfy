/** "com" edits, which overwrite what was requested, and new imports: what they forget,
    and what the budget still guarantees over every kind of step. */
module OrcamentoReescrita {
  import opened Aritmetica
  import opened Listas
  import opened Orcamento
  import opened Motor
  import opened MotorPar
  import opened Edicao
  import opened OrcamentoVivo
  import opened OrcamentoCadeia
  import Rateio

  // ----- one "com" edit

  lemma LinhasComIguais(ls: seq<Linha>, sizes: seq<Rateio.Peso>)
    requires MontarGrade(ls, sizes, false).Aceita?
    ensures forall l :: l in MontarGrade(ls, sizes, false).valor ==> l.liquida == l.solicitada
  {
    var rs := MontarGrade(ls, sizes, false).valor;
    forall l | l in rs ensures l.liquida == l.solicitada {
      var k :| 0 <= k < |rs| && rs[k] == l;
    }
  }

  /** When a "com" edit is accepted: exactly when it keeps the pair's pieces, which must be some. */
  lemma ReescritaAceitaSse(st: Estado, r: Reserva, sizes: seq<Rateio.Peso>)
    requires Formado(st) && r in st.reservas && r.tipo == Com
    ensures Reescrever(st, r.cd, sizes).Aceita? <==> Rateio.PesoTotal(sizes) == Total(r.linhas, LiquidaDe()) > 0
  {
    LinhasDaReserva(st.reservas, r.cd, r);
    RecusaSse(r.linhas, sizes, false);
    MantidosSomam(sizes);
    if forall p :: p in sizes ==> p.qtd == 0 { SomaDeZeros(sizes, Rateio.QtdDe()); }
    if p :| p in sizes && p.qtd > 0 { ParcelaCabe(sizes, Rateio.QtdDe(), p); }
  }

  /** Pieces the pair still asks for beyond what it reserved. */
  function Deficit(r: Reserva): int { Total(r.linhas, SolicitadaDe()) - Total(r.linhas, LiquidaDe()) }

  /** An accepted "com" edit forgets what the pair had consumed: both consumptions drop by
      the pair's own contribution, and once the pair left the snapshot the order's original
      total drops by its deficit. Each is kept exactly when that amount is zero. */
  lemma EdicaoComEsqueceConsumo(st: Estado, r: Reserva, sizes: seq<Rateio.Peso>)
    requires Formado(st) && Rateio.TamanhosDistintos(sizes) && r in st.reservas && r.tipo == Com
    requires Reescrever(st, r.cd, sizes).Aceita?
    ensures var st' := Reescrever(st, r.cd, sizes).valor;
            && ConsumidoCorte(st') == ConsumidoCorte(st) - CorteDaReserva()(r)
            && ConsumidoAdicao(st') == ConsumidoAdicao(st) - AdicaoDaReserva()(r)
            && TotalOriginal(st') == TotalOriginal(st) - (if NoSnapshot(st.pendentes, r.cd) then 0 else Deficit(r))
            && (ConsumidoCorte(st') == ConsumidoCorte(st) <==> CorteDaReserva()(r) == 0)
            && (ConsumidoAdicao(st') == ConsumidoAdicao(st) <==> AdicaoDaReserva()(r) == 0)
            && (TotalOriginal(st') == TotalOriginal(st) <==> NoSnapshot(st.pendentes, r.cd) || Deficit(r) == 0)
  {
    LinhasDaReserva(st.reservas, r.cd, r);
    var ls := MontarGrade(r.linhas, sizes, false).valor;
    LinhasComIguais(r.linhas, sizes);
    EdicaoConserva(r.linhas, sizes, false);
    SomaDeZeros(ls, CorteDe());
    SomaDeZeros(ls, AdicaoDe());
    TrocarTroca(st.reservas, r.cd, ls, CorteDaReserva(), r);
    TrocarTroca(st.reservas, r.cd, ls, AdicaoDaReserva(), r);
    TrocarTroca(st.reservas, r.cd, ls, SolicitadaAusente(st.pendentes), r);
  }

  /** It keeps one row per pair; and, of a pair that already left the snapshot, everything
      the other steps rely on. */
  lemma ReescritaMantemForma(st: Estado, cd: string, sizes: seq<Rateio.Peso>)
    requires Formado(st) && Reescrever(st, cd, sizes).Aceita?
    ensures Formado(Reescrever(st, cd, sizes).valor)
    ensures BemFormado(st) && !NoSnapshot(st.pendentes, cd) ==> BemFormado(Reescrever(st, cd, sizes).valor)
  {
    var ls := MontarGrade(LinhasDe(st.reservas, cd), sizes, false).valor;
    TrocaMantemForma(st, cd, ls);
    TrocarMantemPares(st.reservas, cd, ls);
  }

  /** 40 pieces cut to 38 spend the whole 5% cut budget; saving the pair again unchanged
      gives the two pieces back and shrinks the order's original total to 38. */
  lemma ExemploEdicaoCom(vl: int, diff: int)
    ensures var st, t := Estado([], [Reserva("A", Com, [Linha("P", 1, 40, 38, vl, diff)])]), Fracao(5, 100);
            var depois := Reescrever(st, "A", [Rateio.Peso("P", 38)]);
            && ConsumidoCorte(st) == Limite(TotalOriginal(st), t) == 2
            && depois.Aceita? && ConsumidoCorte(depois.valor) == 0 && TotalOriginal(depois.valor) == 38
  {
    var l := Linha("P", 1, 40, 38, vl, diff);
    var r := Reserva("A", Com, [l]);
    var st, sizes := Estado([], [r]), [Rateio.Peso("P", 38)];
    SomaUnitaria(l, CorteDe());
    SomaUnitaria(l, SolicitadaDe());
    SomaUnitaria(l, LiquidaDe());
    SomaUnitaria(r, CorteDaReserva());
    SomaUnitaria(r, SolicitadaAusente([]));
    SomaUnitaria(sizes[0], Rateio.QtdDe());
    LinhasDaReserva(st.reservas, "A", r);
    MantidosSomam(sizes);
    assert Mantidos(sizes) != [] by { assert Positivo()(sizes[0]) && sizes[0] in sizes; }
    EdicaoComEsqueceConsumo(st, r, sizes);
  }

  // ----- the limit after the edit

  lemma DescontarProporcional(num: nat, den: nat, total: nat, x: nat, l: nat)
    requires num <= den && l * den <= num * total && x <= total
    ensures den * (l - x) <= num * (total - x)
  {
    MultMonotona(x, num, den);
    assert den * (l - x) == l * den - x * den;
    assert num * (total - x) == num * total - x * num;
  }

  /** Taking pieces out of the total lowers the limit by no more than as many. */
  lemma LimiteCai(total: nat, x: nat, t: Tolerancia)
    requires x <= total
    ensures Limite(total - x, t) >= Limite(total, t) - x
  {
    hide Limite;
    var l, m := Limite(total, t), Limite(total - x, t);
    LimiteEhPiso(total, t);
    LimiteEhPiso(total - x, t);
    DescontarProporcional(t.num, t.den, total, x, l);
    if m < l - x { MultMonotona(t.den, m + 1, l - x); }
  }

  lemma LimiteSobe(a: nat, b: nat, t: Tolerancia)
    requires a <= b
    ensures Limite(a, t) <= Limite(b, t)
  {
    MultMonotona(t.num, a, b);
    DivMonotona(t.num * a, t.num * b, t.den);
  }

  lemma {:induction false} DeficitCabeNoCorte(ls: seq<Linha>)
    ensures Total(ls, SolicitadaDe()) - Total(ls, LiquidaDe()) == Total(ls, CorteDe()) - Total(ls, AdicaoDe())
  {
    if ls != [] { DeficitCabeNoCorte(ls[1..]); }
  }

  /** After a "com" edit of a pair that left the snapshot, an order within its cut limit is
      still within it, although the limit may have dropped. For the addition there is no
      such luck: it stays within exactly when what the other pairs added fits the new limit. */
  lemma LimiteAposReescrita(st: Estado, t: Tolerancia, r: Reserva, sizes: seq<Rateio.Peso>)
    requires Formado(st) && Rateio.TamanhosDistintos(sizes) && r in st.reservas && r.tipo == Com
    requires Reescrever(st, r.cd, sizes).Aceita? && !NoSnapshot(st.pendentes, r.cd)
    ensures Deficit(r) <= TotalOriginal(st)
    ensures var st' := Reescrever(st, r.cd, sizes).valor;
            && (ConsumidoCorte(st) <= Limite(TotalOriginal(st), t) ==>
              ConsumidoCorte(st') <= Limite(TotalOriginal(st'), t))
            && (ConsumidoAdicao(st') <= Limite(TotalOriginal(st'), t)
                <==> ConsumidoAdicao(st) - AdicaoDaReserva()(r) <= Limite(TotalOriginal(st) - Deficit(r), t))
  {
    hide Reescrever, ConsumidoCorte, ConsumidoAdicao, TotalOriginal, Limite;
    EdicaoComEsqueceConsumo(st, r, sizes);
    if Deficit(r) > 0 {
      LimiteCai(TotalOriginal(st), Deficit(r), t);
    } else {
      LimiteSobe(TotalOriginal(st), TotalOriginal(st) - Deficit(r), t);
    }
    DeficitCabeNoCorte(r.linhas);
    ReservaNaoNegativa([r]);
    assert r in [r];
  }

  function DuasReservas(): seq<Reserva> {
    [Reserva("A", Com, [Linha("P", 1, 20, 18, 0, 0)]), Reserva("B", Com, [Linha("P", 1, 20, 22, 0, 0)])]
  }

  lemma DuasReservasConsomem()
    ensures var st := Estado([], DuasReservas());
            Formado(st) && ConsumidoAdicao(st) == ConsumidoCorte(st) == 2 && TotalOriginal(st) == 40
    ensures CorteDaReserva()(DuasReservas()[0]) == 2 && AdicaoDaReserva()(DuasReservas()[0]) == 0
      && Deficit(DuasReservas()[0]) == 2
  {
    var x, y := DuasReservas()[0], DuasReservas()[1];
    assert "A"[0] != "B"[0];
    assert Mapear([x, y], CdDaReserva()) == ["A", "B"];
    LinhaSoma(x.linhas[0]);
    LinhaSoma(y.linhas[0]);
    SomaDeDois(x, y, CorteDaReserva());
    SomaDeDois(x, y, AdicaoDaReserva());
    SomaDeDois(x, y, SolicitadaAusente([]));
  }

  /** One product added the two pieces the limit allows, another was cut by two: saving the
      cut one again drops the limit to one, below what was added. */
  lemma ExemploAdicaoAcimaDoLimite()
    ensures var st, t := Estado([], DuasReservas()), Fracao(5, 100);
            var depois := Reescrever(st, "A", [Rateio.Peso("P", 18)]);
            && ConsumidoAdicao(st) == ConsumidoCorte(st) == Limite(TotalOriginal(st), t) == 2
            && depois.Aceita? && ConsumidoAdicao(depois.valor) == 2 && Limite(TotalOriginal(depois.valor), t) == 1
  {
    hide TotalOriginal, ConsumidoCorte, ConsumidoAdicao, NovaLinha, Formado;
    var x, st, sizes := DuasReservas()[0], Estado([], DuasReservas()), [Rateio.Peso("P", 18)];
    DuasReservasConsomem();
    LinhasDaReserva(st.reservas, "A", x);
    LinhaSoma(x.linhas[0]);
    SomaUnitaria(sizes[0], Rateio.QtdDe());
    MantidosSomam(sizes);
    assert Mantidos(sizes) != [] by { assert Positivo()(sizes[0]) && sizes[0] in sizes; }
    EdicaoComEsqueceConsumo(st, x, sizes);
  }

  lemma LinhaSoma(l: Linha)
    ensures Total([l], CorteDe()) == CorteDe()(l) && Total([l], AdicaoDe()) == AdicaoDe()(l)
    ensures Total([l], SolicitadaDe()) == l.solicitada && Total([l], LiquidaDe()) == l.liquida
  {
    SomaUnitaria(l, CorteDe());
    SomaUnitaria(l, AdicaoDe());
    SomaUnitaria(l, SolicitadaDe());
    SomaUnitaria(l, LiquidaDe());
  }

  // ----- every kind of step

  /** The steps that can add to a consumption. */
  predicate Gasta(p: Passo) { p.Execucao? || p.EditarSem? }

  /** The largest limit any spending step of the run was checked against. */
  ghost function MaiorLimite(st: Estado, t: Tolerancia, ps: seq<Passo>): nat
    decreases ps
  {
    if ps == [] || !Proximo(st, t, ps[0]).Aceita? then 0
    else
      var resto := MaiorLimite(Proximo(st, t, ps[0]).valor, t, ps[1..]);
      if Gasta(ps[0]) then Max(Limite(TotalOriginal(st), t), resto) else resto
  }

  /** A step that does not spend never raises a consumption. */
  lemma PassoSemGasto(st: Estado, t: Tolerancia, p: Passo)
    requires Formado(st) && !Gasta(p) && Proximo(st, t, p).Aceita?
      && (p.EditarCom? ==> Rateio.TamanhosDistintos(p.sizes))
    ensures var st' := Proximo(st, t, p).valor;
            Formado(st') && ConsumidoCorte(st') <= ConsumidoCorte(st) && ConsumidoAdicao(st') <= ConsumidoAdicao(st)
  {
    match p {
      case SaiDoSnapshot(cd) =>
        FiltrarMapeadoDistinto(st.pendentes, OutroPar(cd), CdDoPendente());
      case EditarCom(cd, sizes) =>
        var r :| r in st.reservas && r.cd == cd && r.tipo == Com;
        EdicaoComEsqueceConsumo(st, r, sizes);
        ReescritaMantemForma(st, cd, sizes);
        ReservaNaoNegativa(st.reservas);
      case TrocarSnapshot(_) =>
    }
  }

  lemma PassoControla(st: Estado, t: Tolerancia, p: Passo)
    requires Formado(st) && Proximo(st, t, p).Aceita?
    requires p.EditarSem? || p.EditarCom? ==> Rateio.TamanhosDistintos(p.sizes)
    ensures var st', l := Proximo(st, t, p).valor, if Gasta(p) then Limite(TotalOriginal(st), t) else 0;
            && Formado(st') && ConsumidoCorte(st') <= Max(ConsumidoCorte(st), l)
            && ConsumidoAdicao(st') <= Max(ConsumidoAdicao(st), l)
  {
    hide Proximo, ConsumidoCorte, ConsumidoAdicao, TotalOriginal, Limite, Formado;
    match p {
      case Execucao(_, _, _) =>
        ExecucaoControla(st, t, p);
        ExecucaoMantemForma(st, t, p);
      case EditarSem(cd, sizes) => EdicaoControla(st, t, cd, sizes);
      case _ => PassoSemGasto(st, t, p);
    }
  }

  /** Main result, over every kind of step: runs, departures, "sem" edits, "com" edits and
      imports that change the snapshot in any way. What the aggregate counts as cut or as
      added never exceeds the larger of where it started and the largest limit in force
      when something was spent. */
  lemma {:induction false} ConsumoSobMaiorLimite(st: Estado, t: Tolerancia, ps: seq<Passo>, fim: Estado)
    requires Formado(st) && Evolui(st, t, ps, fim)
    ensures Formado(fim)
    ensures ConsumidoCorte(fim) <= Max(ConsumidoCorte(st), MaiorLimite(st, t, ps))
    ensures ConsumidoAdicao(fim) <= Max(ConsumidoAdicao(st), MaiorLimite(st, t, ps))
    decreases ps
  {
    if ps != [] {
      hide Proximo, ConsumidoCorte, ConsumidoAdicao, TotalOriginal, Limite, Formado;
      PassoControla(st, t, ps[0]);
      ConsumoSobMaiorLimite(Proximo(st, t, ps[0]).valor, t, ps[1..], fim);
    }
  }
}
