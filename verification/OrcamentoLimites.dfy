/** When an order stays within its limits, over every kind of step. */
module OrcamentoLimites {
  import opened Aritmetica
  import opened Listas
  import opened Orcamento
  import opened Motor
  import opened MotorPar
  import opened MotorPedido
  import opened Edicao
  import opened OrcamentoVivo
  import opened OrcamentoCadeia
  import opened OrcamentoReescrita
  import Rateio

  datatype Lado = Corte | Adicao

  function Consumido(st: Estado, l: Lado): nat {
    match l
    case Corte => ConsumidoCorte(st)
    case Adicao => ConsumidoAdicao(st)
  }

  /** Within the limit of the order's current total. */
  predicate Dentro(st: Estado, t: Tolerancia, l: Lado) { Consumido(st, l) <= Limite(TotalOriginal(st), t) }

  function TotalSem(st: Estado, x: int): nat { Max(0, TotalOriginal(st) - x) }

  /** What to check before a step: only departures, imports and, for the addition, "com"
      edits of pairs that left the snapshot can take an order out of its limit, and only by
      lowering the total. */
  predicate Cabe(st: Estado, t: Tolerancia, p: Passo, l: Lado) {
    match p
    case SaiDoSnapshot(cd) => Consumido(st, l) <= Limite(TotalSem(st, Encolhe(st, cd)), t)
    case TrocarSnapshot(novos) => Consumido(st, l) <= Limite(TotalOriginal(st.(pendentes := novos)), t)
    case EditarCom(cd, _) =>
      l == Adicao && !NoSnapshot(st.pendentes, cd) ==>
        var r := Reserva(cd, Com, LinhasDe(st.reservas, cd));
        Consumido(st, l) - AdicaoDaReserva()(r) <= Limite(TotalSem(st, Deficit(r)), t)
    case _ => true
  }

  // ----- one step

  lemma SaidaDentroSse(st: Estado, t: Tolerancia, cd: string, l: Lado)
    requires Formado(st) && Proximo(st, t, SaiDoSnapshot(cd)).Aceita?
    ensures var st' := Proximo(st, t, SaiDoSnapshot(cd)).valor;
            Formado(st') && (Dentro(st', t, l) <==> Cabe(st, t, SaiDoSnapshot(cd), l))
  {
    hide Proximo, ConsumidoCorte, ConsumidoAdicao, TotalOriginal, Limite, Formado, Encolhe;
    SaidaMantem(st, t, cd);
  }

  lemma ImportacaoDentroSse(st: Estado, t: Tolerancia, novos: seq<Pendente>, l: Lado)
    requires Formado(st) && Proximo(st, t, TrocarSnapshot(novos)).Aceita?
    ensures var st' := Proximo(st, t, TrocarSnapshot(novos)).valor;
            Formado(st') && (Dentro(st', t, l) <==> Cabe(st, t, TrocarSnapshot(novos), l))
  {}

  lemma ReescritaDentroSse(st: Estado, t: Tolerancia, p: Passo, l: Lado)
    requires Formado(st) && p.EditarCom? && Rateio.TamanhosDistintos(p.sizes) && Proximo(st, t, p).Aceita?
    requires Dentro(st, t, l)
    ensures var st' := Proximo(st, t, p).valor; Formado(st') && (Dentro(st', t, l) <==> Cabe(st, t, p, l))
  {
    hide ConsumidoCorte, ConsumidoAdicao, TotalOriginal, Limite, AdicaoDaReserva, CorteDaReserva, MontarGrade, Deficit;
    var r :| r in st.reservas && r.cd == p.cd && r.tipo == Com;
    LinhasDaReserva(st.reservas, p.cd, r);
    EdicaoComEsqueceConsumo(st, r, p.sizes);
    ReescritaMantemForma(st, p.cd, p.sizes);
    ReservaNaoNegativa([r]);
    assert r in [r] && r == Reserva(p.cd, Com, LinhasDe(st.reservas, p.cd));
    if !NoSnapshot(st.pendentes, p.cd) { LimiteAposReescrita(st, t, r, p.sizes); }
  }

  /** From within the limit, the next state is within it exactly when the step passes. */
  lemma PassoDentroSse(st: Estado, t: Tolerancia, p: Passo, l: Lado)
    requires Formado(st) && Dentro(st, t, l) && Proximo(st, t, p).Aceita?
    requires p.EditarSem? || p.EditarCom? ==> Rateio.TamanhosDistintos(p.sizes)
    ensures var st' := Proximo(st, t, p).valor; Formado(st') && (Dentro(st', t, l) <==> Cabe(st, t, p, l))
  {
    hide Proximo, ConsumidoCorte, ConsumidoAdicao, TotalOriginal, Limite, Formado;
    match p {
      case Execucao(_, _, _) =>
        ExecucaoControla(st, t, p);
        ExecucaoMantemTotal(st, t, p);
        ExecucaoMantemForma(st, t, p);
      case EditarSem(cd, sizes) => EdicaoControla(st, t, cd, sizes);
      case SaiDoSnapshot(cd) => SaidaDentroSse(st, t, cd, l);
      case TrocarSnapshot(novos) => ImportacaoDentroSse(st, t, novos, l);
      case EditarCom(_, _) => ReescritaDentroSse(st, t, p, l);
    }
  }

  // ----- the whole life of an order

  /** Every state the steps go through is within the limit. */
  ghost predicate SempreDentro(st: Estado, t: Tolerancia, ps: seq<Passo>, l: Lado)
    decreases ps
  {
    && Dentro(st, t, l)
    && (ps != [] && Proximo(st, t, ps[0]).Aceita? ==> SempreDentro(Proximo(st, t, ps[0]).valor, t, ps[1..], l))
  }

  /** Every step passes its check. */
  ghost predicate SempreCabe(st: Estado, t: Tolerancia, ps: seq<Passo>, l: Lado)
    decreases ps
  {
    ps != [] && Proximo(st, t, ps[0]).Aceita? ==>
      Cabe(st, t, ps[0], l) && SempreCabe(Proximo(st, t, ps[0]).valor, t, ps[1..], l)
  }

  /** Main result, over every kind of step: an order that starts within its cut limit is
      within its current limit at every step if and only if each departure and each import
      passes its check; the same holds of the addition, "com" edits of departed pairs
      included among the steps to check. */
  lemma {:induction false} DentroParaSempreSse(st: Estado, t: Tolerancia, ps: seq<Passo>, fim: Estado, l: Lado)
    requires Formado(st) && Evolui(st, t, ps, fim) && Dentro(st, t, l)
    ensures SempreDentro(st, t, ps, l) <==> SempreCabe(st, t, ps, l)
    ensures SempreCabe(st, t, ps, l) ==> Formado(fim) && Dentro(fim, t, l)
    decreases ps
  {
    if ps != [] {
      hide Proximo, Dentro, Cabe, Formado;
      PassoDentroSse(st, t, ps[0], l);
      if Cabe(st, t, ps[0], l) {
        DentroParaSempreSse(Proximo(st, t, ps[0]).valor, t, ps[1..], fim, l);
      } else {
        assert !SempreDentro(Proximo(st, t, ps[0]).valor, t, ps[1..], l);
      }
    }
  }

  /** No import, and no departing pair has more pending than its reservation asks for. */
  ghost predicate SaidasLeves(st: Estado, t: Tolerancia, ps: seq<Passo>)
    decreases ps
  {
    ps == [] ||
    (&& !ps[0].TrocarSnapshot? && (ps[0].SaiDoSnapshot? ==> Encolhe(st, ps[0].cd) <= 0)
     && (Proximo(st, t, ps[0]).Aceita? ==> SaidasLeves(Proximo(st, t, ps[0]).valor, t, ps[1..])))
  }

  lemma {:induction false} SaidasLevesCabem(st: Estado, t: Tolerancia, ps: seq<Passo>, fim: Estado)
    requires Formado(st) && Evolui(st, t, ps, fim) && Dentro(st, t, Corte) && SaidasLeves(st, t, ps)
    ensures SempreCabe(st, t, ps, Corte)
    decreases ps
  {
    if ps != [] {
      hide Proximo, Formado, TotalOriginal, ConsumidoCorte, Limite, Encolhe;
      if ps[0].SaiDoSnapshot? { LimiteSobe(TotalOriginal(st), TotalSem(st, Encolhe(st, ps[0].cd)), t); }
      PassoDentroSse(st, t, ps[0], Corte);
      SaidasLevesCabem(Proximo(st, t, ps[0]).valor, t, ps[1..], fim);
    }
  }

  /** So an order stays within its cut limit, "com" edits of any pair included, as long as
      no departure takes pieces out of its total. */
  lemma CorteDentroParaSempre(st: Estado, t: Tolerancia, ps: seq<Passo>, fim: Estado)
    requires Formado(st) && Evolui(st, t, ps, fim) && Dentro(st, t, Corte) && SaidasLeves(st, t, ps)
    ensures SempreDentro(st, t, ps, Corte) && Dentro(fim, t, Corte)
  {
    SaidasLevesCabem(st, t, ps, fim);
    DentroParaSempreSse(st, t, ps, fim, Corte);
  }

  /** No import, and "com" edits only of pairs that already left the snapshot. */
  ghost predicate SoReescreveAusentes(st: Estado, t: Tolerancia, ps: seq<Passo>)
    decreases ps
  {
    ps == [] ||
    (&& !ps[0].TrocarSnapshot? && (ps[0].EditarCom? ==> !NoSnapshot(st.pendentes, ps[0].cd))
     && (Proximo(st, t, ps[0]).Aceita? ==> SoReescreveAusentes(Proximo(st, t, ps[0]).valor, t, ps[1..])))
  }

  lemma PassoMantemBemFormado(st: Estado, t: Tolerancia, p: Passo)
    requires BemFormado(st) && !p.TrocarSnapshot? && Proximo(st, t, p).Aceita?
    requires p.EditarCom? ==> !NoSnapshot(st.pendentes, p.cd)
    requires p.EditarSem? || p.EditarCom? ==> Rateio.TamanhosDistintos(p.sizes)
    ensures BemFormado(Proximo(st, t, p).valor)
  {
    match p {
      case Execucao(_, _, _) => ExecucaoMantem(st, t, p);
      case EditarSem(cd, sizes) => EdicaoMantem(st, t, cd, sizes);
      case SaiDoSnapshot(cd) => SaidaMantem(st, t, cd);
      case EditarCom(cd, sizes) => ReescritaMantemForma(st, cd, sizes);
    }
  }

  /** In particular when reservations start out asking for what is pending and only departed
      pairs are rewritten. */
  lemma {:induction false} AusentesSaoLeves(st: Estado, t: Tolerancia, ps: seq<Passo>, fim: Estado)
    requires BemFormado(st) && Evolui(st, t, ps, fim) && SoReescreveAusentes(st, t, ps)
    ensures SaidasLeves(st, t, ps) && BemFormado(fim)
    decreases ps
  {
    if ps != [] {
      hide BemFormado, Formado, Encolhe, Proximo;
      if ps[0].SaiDoSnapshot? { SaidaMantem(st, t, ps[0].cd); }
      PassoMantemBemFormado(st, t, ps[0]);
      AusentesSaoLeves(Proximo(st, t, ps[0]).valor, t, ps[1..], fim);
    }
  }

  // ----- a departure that takes the order out of its limit

  const CINCO := Fracao(5, 100)

  function ItemDe(cd: string): Item { Item(1, cd, "P", 1, 20, 0, false, false) }
  function LinhaCortada(): Linha { Linha("P", 1, 20, 18, 0, 0) }
  function EstoqueDoExemplo(): Estoques { map["B" := map["B_P" := 18]] }

  /** Twenty pieces pending of each product; A was cut to eighteen, B is not reserved yet. */
  function Inicio(): Estado {
    Estado([Pendente("A", [ItemDe("A")]), Pendente("B", [ItemDe("B")])], [Reserva("A", Com, [LinhaCortada()])])
  }

  /** A is saved again unchanged, a run cuts B by the two pieces given back, A leaves. */
  function Percurso(): seq<Passo> {
    [EditarCom("A", [Rateio.Peso("P", 18)]), Execucao(Adequar, false, EstoqueDoExemplo()), SaiDoSnapshot("A")]
  }

  function SoB(): Grades { map["B" := [ItemDe("B")]] }

  lemma FaltamDois()
    ensures FaltaPar(SoB(), EstoqueDoExemplo(), "B") == 2 && Disp(Local(EstoqueDoExemplo(), "B"), Chave("B", "P")) == 18
    ensures Passada1([ItemDe("B")], Local(EstoqueDoExemplo(), "B"), "B") == [LinhaCortada()]
  {
    assert Chave("B", "P") == "B_P";
    SomaUnitaria(ItemDe("B"), FaltaDe(Local(EstoqueDoExemplo(), "B"), "B"));
  }

  lemma BAprovado()
    ensures Aprovados(["B"], SoB(), EstoqueDoExemplo(), 2) == ["B"]
    ensures FilaPassada2(["B"], SoB(), EstoqueDoExemplo()) == []
  {
    hide FaltaPar;
    var m, e := SoB(), EstoqueDoExemplo();
    FaltamDois();
    assert SemFuro(m, e)("B") && ["B"][1..] == [];
    assert Filtrar(["B"], SemFuro(m, e)) == ["B"] && FilaPassada1(["B"], m, e) == ["B"];
    assert Aprovar(["B"], FaltaPor(m, e), 2) == ["B"] + Aprovar([], FaltaPor(m, e), 0);
    assert !SemCorte(m, e)("B") && Filtrar(["B"], SemCorte(m, e)) == [];
  }

  lemma BFechado()
    ensures var d := Fechar([LinhaCortada()]);
            d.GerarOR? && Total(d.linhas, CorteDe()) == 2 && Total(d.linhas, SolicitadaDe()) == 20
              && Total(d.linhas, AdicaoDe()) == 0
  {
    LinhaSoma(LinhaCortada());
    assert Pesos([LinhaCortada()]) == [Rateio.Peso("P", 18)];
    SomaUnitaria(Rateio.Peso("P", 18), Rateio.QtdDe());
    FinanceiroMantemDesvios([LinhaCortada()]);
  }

  /** The run's only candidate is B, and it is cut to its eighteen pieces. */
  lemma CortaDois()
    ensures var ds := DecidirAdequar(["B"], SoB(), EstoqueDoExemplo(), Saldo(2, 2));
            && ds.Keys == {"B"} && ds["B"] == Fechar([LinhaCortada()])
  {
    hide Aprovados, FilaPassada2, FaltaPar, Fechar, Passada1;
    FaltamDois();
    BAprovado();
    assert SemFuro(SoB(), EstoqueDoExemplo())("B");
  }

  const ATUAIS := [Rateio.Peso("P", 18)]

  lemma LimitesDoExemplo()
    ensures Limite(40, CINCO) == 2 && Limite(38, CINCO) == 1
  {}

  lemma InicioForma()
    ensures Formado(Inicio()) && BemFormado(Inicio()) && NoSnapshot(Inicio().pendentes, "A")
  {
    var ps := Inicio().pendentes;
    LinhaSoma(LinhaCortada());
    SomaUnitaria(ItemDe("A"), QtDe());
    assert ps[0] in ps && "A"[0] != "B"[0];
    assert Mapear(ps, CdDoPendente()) == ["A", "B"] && Mapear(Inicio().reservas, CdDaReserva()) == ["A"];
  }

  lemma InicioOk()
    ensures TotalOriginal(Inicio()) == 40 && ConsumidoCorte(Inicio()) == 2 && ConsumidoAdicao(Inicio()) == 0
    ensures Deficit(Inicio().reservas[0]) == 2
  {
    hide Formado, BemFormado;
    var r, ps := Inicio().reservas[0], Inicio().pendentes;
    InicioForma();
    LinhaSoma(LinhaCortada());
    SomaUnitaria(r, CorteDaReserva());
    SomaUnitaria(r, AdicaoDaReserva());
    SomaUnitaria(r, SolicitadaAusente(ps));
    SomaUnitaria(ItemDe("A"), QtDe());
    SomaUnitaria(ItemDe("B"), QtDe());
    SomaDeDois(ps[0], ps[1], QtDoPendente());
  }

  lemma EditaA() returns (st: Estado)
    ensures Proximo(Inicio(), CINCO, EditarCom("A", ATUAIS)) == Aceita(st)
    ensures Formado(st) && TotalOriginal(st) == 40 && ConsumidoCorte(st) == ConsumidoAdicao(st) == 0
    ensures st.pendentes == Inicio().pendentes && |st.reservas| == 1 && st.reservas[0].cd == "A"
    ensures Total(st.reservas[0].linhas, SolicitadaDe()) == 18
  {
    hide TotalOriginal, ConsumidoCorte, ConsumidoAdicao, Soma, Limite, BemFormado, NovaLinha;
    var r := Inicio().reservas[0];
    InicioForma();
    InicioOk();
    assert r in Inicio().reservas;
    LinhasDaReserva(Inicio().reservas, "A", r);
    LinhaSoma(LinhaCortada());
    SomaUnitaria(ATUAIS[0], Rateio.QtdDe());
    MantidosSomam(ATUAIS);
    assert Mantidos(ATUAIS) != [] by { assert Positivo()(ATUAIS[0]) && ATUAIS[0] in ATUAIS; }
    st := Reescrever(Inicio(), "A", ATUAIS).valor;
    EdicaoComEsqueceConsumo(Inicio(), r, ATUAIS);
    EdicaoConserva(r.linhas, ATUAIS, false);
    ReescritaMantemForma(Inicio(), "A", ATUAIS);
    LadosDoA();
  }

  lemma LadosDoA()
    ensures CorteDaReserva()(Inicio().reservas[0]) == 2 && AdicaoDaReserva()(Inicio().reservas[0]) == 0
  {
    LinhaSoma(LinhaCortada());
  }

  lemma CortaB(st: Estado) returns (fim: Estado)
    requires Formado(st) && TotalOriginal(st) == 40 && ConsumidoCorte(st) == ConsumidoAdicao(st) == 0
    requires st.pendentes == Inicio().pendentes && |st.reservas| == 1 && st.reservas[0].cd == "A"
    ensures Proximo(st, CINCO, Execucao(Adequar, false, EstoqueDoExemplo())) == Aceita(fim)
    ensures Formado(fim) && TotalOriginal(fim) == 40 && ConsumidoCorte(fim) == 2
    ensures fim.pendentes == st.pendentes && |fim.reservas| == 2 && fim.reservas[0] == st.reservas[0]
  {
    hide TotalOriginal, Soma, Limite, DecidirAdequar, Fechar, Formado, Inicio, SoB;
    var p := Execucao(Adequar, false, EstoqueDoExemplo());
    LimitesDoExemplo();
    SoBSemReserva(st);
    CortaDois();
    BFechado();
    var ds := DecisoesDaExecucao(st, CINCO, p);
    var b := Reserva("B", Com, ds["B"].linhas);
    assert Novas(["B"], ds, Com) == [b] + Novas([], ds, Com);
    fim := Proximo(st, CINCO, p).valor;
    assert fim.reservas == st.reservas + [b];
    ExecucaoMantemTotal(st, CINCO, p);
    ExecucaoMantemForma(st, CINCO, p);
    SomaUltimo(st.reservas, b, CorteDaReserva());
  }

  lemma SoBSemReserva(st: Estado)
    requires st.pendentes == Inicio().pendentes && |st.reservas| == 1 && st.reservas[0].cd == "A"
    ensures Filtrar(st.pendentes, AReservar(st)) == [Pendente("B", [ItemDe("B")])]
    ensures Mapear(Filtrar(st.pendentes, AReservar(st)), CdDoPendente()) == ["B"]
    ensures GradesDe(Filtrar(st.pendentes, AReservar(st))) == SoB()
  {
    var a, b := Pendente("A", [ItemDe("A")]), Pendente("B", [ItemDe("B")]);
    assert "A"[0] != "B"[0] && st.reservas[0] in st.reservas;
    assert st.pendentes == [a, b] && [a, b][1..] == [b] && [b][1..] == [];
    assert !AReservar(st)(a) && AReservar(st)(b);
  }

  /** Consumption was forgotten, spent again on another pair, and then the total shrank:
      the cut stands at two with a limit of one, although every step was accepted. */
  lemma ExemploSaidaAcimaDoLimite() returns (fim: Estado)
    ensures BemFormado(Inicio()) && Dentro(Inicio(), CINCO, Corte) && Evolui(Inicio(), CINCO, Percurso(), fim)
    ensures ConsumidoCorte(fim) == 2 && TotalOriginal(fim) == 38 && Limite(TotalOriginal(fim), CINCO) == 1
  {
    hide TotalOriginal, ConsumidoCorte, ConsumidoAdicao, Limite, Formado, BemFormado, Proximo;
    LimitesDoExemplo();
    InicioForma();
    InicioOk();
    var e := EditaA();
    var c := CortaB(e);
    fim := AFora(c);
    assert Percurso()[1..] == [Percurso()[1], Percurso()[2]] && Percurso()[1..][1..] == [Percurso()[2]];
    assert [Percurso()[2]][1..] == [];
    assert Evolui(c, CINCO, [Percurso()[2]], fim);
    assert Evolui(e, CINCO, Percurso()[1..], fim);
  }

  lemma AFora(st: Estado) returns (fim: Estado)
    requires Formado(st) && TotalOriginal(st) == 40 && ConsumidoCorte(st) == 2
    requires st.pendentes == Inicio().pendentes && |st.reservas| == 2
    requires st.reservas[0].cd == "A" && Total(st.reservas[0].linhas, SolicitadaDe()) == 18
    ensures Proximo(st, CINCO, SaiDoSnapshot("A")) == Aceita(fim)
    ensures TotalOriginal(fim) == 38 && ConsumidoCorte(fim) == 2
  {
    hide TotalOriginal, ConsumidoCorte, Limite;
    assert st.reservas[0] in st.reservas && Inicio().pendentes[0] in Inicio().pendentes;
    SomaUnitaria(ItemDe("A"), QtDe());
    SaidaMantem(st, CINCO, "A");
    fim := Proximo(st, CINCO, SaiDoSnapshot("A")).valor;
  }
}
