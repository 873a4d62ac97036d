/** The live budget of one order: what the aggregate re-reads from the saved
    reservations, and how it evolves over engine runs, snapshot changes and edits. */
module OrcamentoVivo {
  import opened Aritmetica
  import opened Listas
  import opened Orcamento
  import opened Motor
  import opened MotorPar
  import opened MotorPedido
  import opened Edicao
  import Rateio

  datatype Tipo = Com | Sem

  /** One saved reservation of the order. */
  datatype Reserva = Reserva(cd: string, tipo: Tipo, linhas: seq<Linha>)

  /** One product of the order in the pending snapshot. */
  datatype Pendente = Pendente(cd: string, itens: seq<Item>)

  datatype Estado = Estado(pendentes: seq<Pendente>, reservas: seq<Reserva>)

  // ----- the aggregate

  /** "com" deviates size by size, "sem" by the total of the pair. */
  function AdicaoDaReserva(): Reserva -> int {
    (r: Reserva) =>
      if r.tipo == Com then Total(r.linhas, AdicaoDe())
      else Max(0, Total(r.linhas, LiquidaDe()) - Total(r.linhas, SolicitadaDe()))
  }

  function CorteDaReserva(): Reserva -> int {
    (r: Reserva) =>
      if r.tipo == Com then Total(r.linhas, CorteDe())
      else Max(0, Total(r.linhas, SolicitadaDe()) - Total(r.linhas, LiquidaDe()))
  }

  function QtDoPendente(): Pendente -> int { (p: Pendente) => Soma(p.itens, QtDe()) }

  predicate NoSnapshot(ps: seq<Pendente>, cd: string) { exists p | p in ps :: p.cd == cd }

  /** Requested pieces of a reservation whose pair already left the snapshot. */
  function SolicitadaAusente(ps: seq<Pendente>): Reserva -> int {
    (r: Reserva) => if NoSnapshot(ps, r.cd) then 0 else Total(r.linhas, SolicitadaDe())
  }

  function ConsumidoAdicao(st: Estado): nat {
    ReservaNaoNegativa(st.reservas);
    SomaNaoNegativa(st.reservas, AdicaoDaReserva());
    Soma(st.reservas, AdicaoDaReserva())
  }

  function ConsumidoCorte(st: Estado): nat {
    ReservaNaoNegativa(st.reservas);
    SomaNaoNegativa(st.reservas, CorteDaReserva());
    Soma(st.reservas, CorteDaReserva())
  }

  function TotalOriginal(st: Estado): nat {
    TotaisNaoNegativos(st);
    Soma(st.pendentes, QtDoPendente()) + Soma(st.reservas, SolicitadaAusente(st.pendentes))
  }

  lemma ReservaNaoNegativa(rs: seq<Reserva>)
    ensures forall r :: r in rs ==> AdicaoDaReserva()(r) >= 0 && CorteDaReserva()(r) >= 0
  {
    forall r | r in rs ensures AdicaoDaReserva()(r) >= 0 && CorteDaReserva()(r) >= 0 {
      SomaNaoNegativa(r.linhas, AdicaoDe());
      SomaNaoNegativa(r.linhas, CorteDe());
    }
  }

  lemma TotaisNaoNegativos(st: Estado)
    ensures Soma(st.pendentes, QtDoPendente()) >= 0 && Soma(st.reservas, SolicitadaAusente(st.pendentes)) >= 0
  {
    forall p | p in st.pendentes ensures QtDoPendente()(p) >= 0 { SomaNaoNegativa(p.itens, QtDe()); }
    forall r | r in st.reservas
      ensures SolicitadaAusente(st.pendentes)(r) >= 0
    {
      SomaNaoNegativa(r.linhas, SolicitadaDe());
    }
    SomaNaoNegativa(st.pendentes, QtDoPendente());
    SomaNaoNegativa(st.reservas, SolicitadaAusente(st.pendentes));
  }

  // ----- the edit check

  datatype Contribuicao = Contribuicao(adicao: nat, corte: nat)

  function CalcularContribuicao(base: nat, quantidade: nat): Contribuicao {
    Contribuicao(Max(0, quantidade - base), Max(0, base - quantidade))
  }

  datatype Veredito = Permitida | ExcedeAdicao | ExcedeCorte

  /** Rewinds the pair's own contribution, then charges only the increment above it. */
  function ValidarEdicao(total: nat, consumidoAdicao: nat, consumidoCorte: nat, t: Tolerancia, atual: Contribuicao,
                         nova: Contribuicao): Veredito {
    var ledger := SaldoInicial(total, Max(consumidoAdicao - atual.adicao, 0), Max(consumidoCorte - atual.corte, 0), t);
    var maisAdicao := Max(nova.adicao - atual.adicao, 0);
    var maisCorte := Max(nova.corte - atual.corte, 0);
    if maisAdicao > 0 && maisAdicao > Max(ledger.adicao - atual.adicao, 0) then ExcedeAdicao
    else if maisCorte > 0 && maisCorte > Max(ledger.corte - atual.corte, 0) then ExcedeCorte
    else Permitida
  }

  /** The check passes exactly when, for each budget, the pair does not consume more
      than before or the other pairs plus its new contribution fit the limit. */
  lemma ValidarSse(total: nat, ca: nat, cc: nat, t: Tolerancia, atual: Contribuicao, nova: Contribuicao)
    ensures ValidarEdicao(total, ca, cc, t, atual, nova) == Permitida
        <==> && (nova.adicao <= atual.adicao || Max(ca - atual.adicao, 0) + nova.adicao <= Limite(total, t))
             && (nova.corte <= atual.corte || Max(cc - atual.corte, 0) + nova.corte <= Limite(total, t))
  {}

  /** Saving a pair again with the same total is always permitted. */
  lemma ResalvarPermitido(total: nat, ca: nat, cc: nat, t: Tolerancia, c: Contribuicao)
    ensures ValidarEdicao(total, ca, cc, t, c, c) == Permitida
  {
    ValidarSse(total, ca, cc, t, c, c);
  }

  // ----- steps of an order's life

  datatype Passo =
    | Execucao(modo: Modo, blacklist: bool, ests: Estoques)  // an engine run that saves the selected pairs
    | SaiDoSnapshot(cd: string)                              // a reserved pair leaves the pending snapshot
    | EditarSem(cd: string, sizes: seq<Rateio.Peso>)         // an accepted edit of a "sem" reservation
    | EditarCom(cd: string, sizes: seq<Rateio.Peso>)         // an accepted edit of a "com" reservation
    | TrocarSnapshot(novos: seq<Pendente>)                   // a new import replaces the pending snapshot

  predicate TemReserva(st: Estado, cd: string) { exists r | r in st.reservas :: r.cd == cd }

  function AReservar(st: Estado): Pendente -> bool { (p: Pendente) => !TemReserva(st, p.cd) }

  function CdDoPendente(): Pendente -> string { (p: Pendente) => p.cd }

  function GradesDe(ps: seq<Pendente>): Grades {
    if ps == [] then map[] else GradesDe(ps[1..])[ps[0].cd := ps[0].itens]
  }

  function SaldoDe(st: Estado, t: Tolerancia): Saldo {
    SaldoInicial(TotalOriginal(st), ConsumidoAdicao(st), ConsumidoCorte(st), t)
  }

  function DecisoesDaExecucao(st: Estado, t: Tolerancia, p: Passo): map<string, Decisao> requires p.Execucao? {
    var ps := Filtrar(st.pendentes, AReservar(st));
    DecidirPedido(p.modo, p.blacklist, Mapear(ps, CdDoPendente()), GradesDe(ps), p.ests, SaldoDe(st, t))
  }

  /** The reservations saved for the selected products. */
  function Novas(cds: seq<string>, ds: map<string, Decisao>, tipo: Tipo): seq<Reserva> {
    if cds == [] then []
    else
      (if cds[0] in ds && ds[cds[0]].GerarOR? then [Reserva(cds[0], tipo, ds[cds[0]].linhas)] else [])
      + Novas(cds[1..], ds, tipo)
  }

  function OutroPar(cd: string): Pendente -> bool { (p: Pendente) => p.cd != cd }

  /** Replaces the rows of the reservation of `cd`. */
  function Trocar(rs: seq<Reserva>, cd: string, linhas: seq<Linha>): seq<Reserva> {
    if rs == [] then []
    else [if rs[0].cd == cd then rs[0].(linhas := linhas) else rs[0]] + Trocar(rs[1..], cd, linhas)
  }

  /** The effect of a step; nothing when the run aborts or the edit is refused. */
  function Proximo(st: Estado, t: Tolerancia, p: Passo): (r: Resposta<Estado>) {
    match p
    case Execucao(modo, _, _) =>
      var cds := Mapear(Filtrar(st.pendentes, AReservar(st)), CdDoPendente());
      var ds := DecisoesDaExecucao(st, t, p);
      if Aborta(ds) then Recusada(QuantidadeInvalida)
      else Aceita(st.(reservas := st.reservas + Novas(cds, ds, if modo == Adequar then Com else Sem)))
    case SaiDoSnapshot(cd) =>
      if TemReserva(st, cd) then Aceita(st.(pendentes := Filtrar(st.pendentes, OutroPar(cd)))) else Recusada(SemItens)
    case EditarSem(cd, sizes) => Redistribuir(st, t, cd, sizes)
    case EditarCom(cd, sizes) => Reescrever(st, cd, sizes)
    case TrocarSnapshot(novos) => if SnapshotOk(novos) then Aceita(st.(pendentes := novos)) else Recusada(SemItens)
  }

  /** Saving a "sem" reservation again: the new total is checked against the budget. */
  function Redistribuir(st: Estado, t: Tolerancia, cd: string, sizes: seq<Rateio.Peso>): Resposta<Estado> {
    if !(exists r | r in st.reservas :: r.cd == cd && r.tipo == Sem) then Recusada(SemItens)
    else
      var ls := LinhasDe(st.reservas, cd);
      var base, atual := TotalNat(ls, SolicitadaDe()), TotalNat(ls, LiquidaDe());
      var v := ValidarEdicao(TotalOriginal(st), ConsumidoAdicao(st), ConsumidoCorte(st), t,
                             CalcularContribuicao(base, atual), CalcularContribuicao(base, Rateio.PesoTotal(sizes)));
      if v != Permitida then Recusada(TotalAlterado)
      else
        match MontarGrade(ls, sizes, true)
        case Recusada(f) => Recusada(f)
        case Aceita(rs) => Aceita(st.(reservas := Trocar(st.reservas, cd, rs)))
  }

  /** Saving a "com" reservation again: the total must stay, and every row's requested
      quantity is overwritten with the reserved one. */
  function Reescrever(st: Estado, cd: string, sizes: seq<Rateio.Peso>): Resposta<Estado> {
    if !(exists r | r in st.reservas :: r.cd == cd && r.tipo == Com) then Recusada(SemItens)
    else
      match MontarGrade(LinhasDe(st.reservas, cd), sizes, false)
      case Recusada(f) => Recusada(f)
      case Aceita(rs) => Aceita(st.(reservas := Trocar(st.reservas, cd, rs)))
  }

  function LinhasDe(rs: seq<Reserva>, cd: string): seq<Linha> {
    if rs == [] then [] else if rs[0].cd == cd then rs[0].linhas else LinhasDe(rs[1..], cd)
  }

  // ----- well-formed orders

  function CdDaReserva(): Reserva -> string { (r: Reserva) => r.cd }

  /** One row per pair, with at least one size. */
  predicate SnapshotOk(ps: seq<Pendente>) {
    Distintos(Mapear(ps, CdDoPendente())) && forall p | p in ps :: p.itens != []
  }

  /** One row per pair on each side. */
  ghost predicate Formado(st: Estado) { SnapshotOk(st.pendentes) && Distintos(Mapear(st.reservas, CdDaReserva())) }

  /** Besides, while a reserved pair is still in the snapshot, its reservation asks for
      the same number of pieces. */
  ghost predicate BemFormado(st: Estado) {
    && Formado(st)
    && (forall p, r :: p in st.pendentes && r in st.reservas && p.cd == r.cd ==>
          Total(r.linhas, SolicitadaDe()) == Soma(p.itens, QtDe()))
  }

  lemma {:induction false} GradesSao(ps: seq<Pendente>, cd: string)
    requires Distintos(Mapear(ps, CdDoPendente()))
    ensures cd in GradesDe(ps) <==> cd in Mapear(ps, CdDoPendente())
    ensures forall p :: p in ps ==> p.cd in GradesDe(ps) && GradesDe(ps)[p.cd] == p.itens
  {
    if ps != [] {
      var m := Mapear(ps, CdDoPendente());
      assert m[1..] == Mapear(ps[1..], CdDoPendente());
      GradesSao(ps[1..], cd);
      forall p | p in ps[1..] ensures p.cd != ps[0].cd {
        var k :| 0 <= k < |ps[1..]| && ps[1..][k] == p;
        assert m[k + 1] == p.cd && m[0] == ps[0].cd;
      }
    }
  }

  lemma {:induction false} FiltrarMapeadoDistinto<T, U>(s: seq<T>, p: T -> bool, f: T -> U)
    requires Distintos(Mapear(s, f))
    ensures Distintos(Mapear(Filtrar(s, p), f)) && forall x :: x in Mapear(Filtrar(s, p), f) ==> x in Mapear(s, f)
  {
    if s != [] {
      var m := Mapear(s, f);
      assert m[1..] == Mapear(s[1..], f);
      FiltrarMapeadoDistinto(s[1..], p, f);
      if p(s[0]) {
        assert Mapear(Filtrar(s, p), f) == [f(s[0])] + Mapear(Filtrar(s[1..], p), f);
        assert m[0] !in m[1..];
        DistintosConcat([f(s[0])], Mapear(Filtrar(s[1..], p), f));
      } else {
        assert Filtrar(s, p) == Filtrar(s[1..], p);
      }
      assert forall x :: x in m[1..] ==> x in m;
      assert m[0] in m;
    }
  }

  // ----- an engine run

  function NovaReserva(cd: string, ds: map<string, Decisao>, tipo: Tipo): seq<Reserva> {
    if cd in ds && ds[cd].GerarOR? then [Reserva(cd, tipo, ds[cd].linhas)] else []
  }

  /** Under "com", what the aggregate counts of the new rows is what the run decided. */
  lemma {:induction false} NovasComConsomem(cds: seq<string>, ds: map<string, Decisao>)
    ensures Soma(Novas(cds, ds, Com), CorteDaReserva()) == Soma(cds, CorteDaDecisao(ds))
    ensures Soma(Novas(cds, ds, Com), AdicaoDaReserva()) == Soma(cds, AdicaoDaDecisao(ds))
  {
    if cds != [] {
      NovasComConsomem(cds[1..], ds);
      var n := NovaReserva(cds[0], ds, Com);
      SomaConcat(n, Novas(cds[1..], ds, Com), CorteDaReserva());
      SomaConcat(n, Novas(cds[1..], ds, Com), AdicaoDaReserva());
    }
  }

  /** Exact reservations consume nothing under either measure. */
  lemma {:induction false} NovasExatasNaoConsomem(cds: seq<string>, ds: map<string, Decisao>, tipo: Tipo)
    requires forall cd, l | cd in ds && ds[cd].GerarOR? && l in ds[cd].linhas :: l.liquida == l.solicitada
    ensures Soma(Novas(cds, ds, tipo), CorteDaReserva()) == 0 && Soma(Novas(cds, ds, tipo), AdicaoDaReserva()) == 0
  {
    if cds != [] {
      NovasExatasNaoConsomem(cds[1..], ds, tipo);
      var n := NovaReserva(cds[0], ds, tipo);
      if n != [] {
        var ls := ds[cds[0]].linhas;
        SomaDeZeros(ls, CorteDe());
        SomaDeZeros(ls, AdicaoDe());
        SomaIgual(ls, LiquidaDe(), SolicitadaDe());
      }
      SomaConcat(n, Novas(cds[1..], ds, tipo), CorteDaReserva());
      SomaConcat(n, Novas(cds[1..], ds, tipo), AdicaoDaReserva());
    }
  }

  lemma {:induction false} NovasSao(cds: seq<string>, ds: map<string, Decisao>, tipo: Tipo)
    requires Distintos(cds)
    ensures var ns := Novas(cds, ds, tipo);
            && Distintos(Mapear(ns, CdDaReserva()))
            && (forall c :: c in Mapear(ns, CdDaReserva()) ==> c in cds)
            && (forall r :: r in ns ==> r.cd in cds && r.cd in ds && ds[r.cd] == GerarOR(r.linhas))
  {
    if cds != [] {
      NovasSao(cds[1..], ds, tipo);
      var n, resto := NovaReserva(cds[0], ds, tipo), Novas(cds[1..], ds, tipo);
      if n != [] {
        assert Mapear(n + resto, CdDaReserva()) == [cds[0]] + Mapear(resto, CdDaReserva());
        assert cds[0] !in cds[1..];
        DistintosConcat([cds[0]], Mapear(resto, CdDaReserva()));
      } else {
        assert n + resto == resto;
      }
      assert forall c :: c in cds[1..] ==> c in cds;
    }
  }

  /** Rows that answer a grade ask for as many pieces as the grade. */
  lemma {:induction false} RespondeMantemSolicitada(ls: seq<Linha>, itens: seq<Item>)
    requires Responde(ls, itens)
    ensures Total(ls, SolicitadaDe()) == Soma(itens, QtDe())
  {
    if ls != [] {
      assert Responde(ls[1..], itens[1..]) by {
        assert forall k :: 0 <= k < |ls| - 1 ==> ls[1..][k] == ls[k + 1] && itens[1..][k] == itens[k + 1];
      }
      RespondeMantemSolicitada(ls[1..], itens[1..]);
    }
  }

  /** The products the run may reserve: listed once, with their grades. */
  lemma CandidatosSao(st: Estado)
    requires Formado(st)
    ensures var ps := Filtrar(st.pendentes, AReservar(st));
            var cds, m := Mapear(ps, CdDoPendente()), GradesDe(ps);
            && Distintos(cds) && (forall cd :: cd in cds <==> cd in m)
            && (forall cd :: cd in m ==> m[cd] != [])
            && (forall cd :: cd in cds ==>
              !TemReserva(st, cd) && exists p :: p in st.pendentes && p.cd == cd && p.itens == m[cd])
  {
    var ps := Filtrar(st.pendentes, AReservar(st));
    var cds, m := Mapear(ps, CdDoPendente()), GradesDe(ps);
    FiltrarMapeadoDistinto(st.pendentes, AReservar(st), CdDoPendente());
    forall cd ensures cd in cds <==> cd in m { GradesSao(ps, cd); }
    forall cd | cd in cds
      ensures !TemReserva(st, cd) && exists p :: p in st.pendentes && p.cd == cd && p.itens == m[cd] && p.itens != []
    {
      var k :| 0 <= k < |cds| && cds[k] == cd;
      GradesSao(ps, cd);
      assert ps[k] in ps && ps[k].cd == cd;
    }
  }

  /** A run charges no more than the budget it read, so the totals stay within it. */
  lemma ExecucaoConsome(st: Estado, t: Tolerancia, p: Passo)
    requires Formado(st) && p.Execucao? && !Aborta(DecisoesDaExecucao(st, t, p))
    ensures var cds := Mapear(Filtrar(st.pendentes, AReservar(st)), CdDoPendente());
            var ns := Novas(cds, DecisoesDaExecucao(st, t, p), if p.modo == Adequar then Com else Sem);
            && 0 <= Soma(ns, CorteDaReserva()) <= SaldoDe(st, t).corte
            && 0 <= Soma(ns, AdicaoDaReserva()) <= SaldoDe(st, t).adicao
  {
    var ps := Filtrar(st.pendentes, AReservar(st));
    var cds, m := Mapear(ps, CdDoPendente()), GradesDe(ps);
    var ds := DecisoesDaExecucao(st, t, p);
    var tipo := if p.modo == Adequar then Com else Sem;
    CandidatosSao(st);
    if p.modo == SemAdequar || p.blacklist {
      forall cd, l | cd in ds && ds[cd].GerarOR? && l in ds[cd].linhas ensures l.liquida == l.solicitada {
        TudoOuNadaSse(m[cd], Local(p.ests, cd), cd, p.blacklist);
      }
      NovasExatasNaoConsomem(cds, ds, tipo);
    } else {
      ConsumoEhODoLedger(cds, m, p.ests, SaldoDe(st, t));
      NovasComConsomem(cds, ds);
      ReservaNaoNegativa(Novas(cds, ds, tipo));
      SomaNaoNegativa(Novas(cds, ds, tipo), CorteDaReserva());
      SomaNaoNegativa(Novas(cds, ds, tipo), AdicaoDaReserva());
    }
  }
}
