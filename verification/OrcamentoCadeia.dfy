/** Theorems about any sequence of engine runs, snapshot departures and "sem" edits
    of one order. */
module OrcamentoCadeia {
  import opened Aritmetica
  import opened Listas
  import opened Orcamento
  import opened Motor
  import opened MotorPar
  import opened MotorPedido
  import opened Edicao
  import opened OrcamentoVivo
  import Rateio

  /** Within the limit, or no worse than it already was. */
  predicate Controlado(limite: nat, antes: nat, depois: nat) { depois <= Max(limite, antes) }

  /** Both consumptions end within the limit of `st`, or no worse than they were. */
  ghost predicate Controla(st: Estado, t: Tolerancia, st': Estado) {
    && Controlado(Limite(TotalOriginal(st), t), ConsumidoAdicao(st), ConsumidoAdicao(st'))
    && Controlado(Limite(TotalOriginal(st), t), ConsumidoCorte(st), ConsumidoCorte(st'))
  }

  ghost predicate Mantem(st: Estado, t: Tolerancia, st': Estado) {
    BemFormado(st') && TotalOriginal(st') == TotalOriginal(st) && Controla(st, t, st')
  }

  // ----- engine runs

  lemma {:induction false} ReservadoNaLista(rs: seq<Reserva>, cd: string)
    ensures cd in Mapear(rs, CdDaReserva()) <==> exists r :: r in rs && r.cd == cd
  {
    var m := Mapear(rs, CdDaReserva());
    if cd in m {
      var k :| 0 <= k < |m| && m[k] == cd;
      assert rs[k] in rs;
    }
    if r :| r in rs && r.cd == cd {
      var k :| 0 <= k < |rs| && rs[k] == r;
      assert m[k] == cd;
    }
  }

  /** A run saves only pairs of the snapshot that had no reservation. */
  lemma NovaEstaNoSnapshot(st: Estado, t: Tolerancia, p: Passo, r: Reserva)
    requires Formado(st) && p.Execucao?
    requires var cds := Mapear(Filtrar(st.pendentes, AReservar(st)), CdDoPendente());
             r in Novas(cds, DecisoesDaExecucao(st, t, p), if p.modo == Adequar then Com else Sem)
    ensures !TemReserva(st, r.cd) && NoSnapshot(st.pendentes, r.cd)
  {
    CandidatosSao(st);
    NovasSao(Mapear(Filtrar(st.pendentes, AReservar(st)), CdDoPendente()), DecisoesDaExecucao(st, t, p),
             if p.modo == Adequar then Com else Sem);
  }

  /** What the run saves for a product asks for as many pieces as its pending grade. */
  lemma NovaSolicitaOPedido(st: Estado, t: Tolerancia, p: Passo, r: Reserva)
    requires Formado(st) && p.Execucao?
    requires var cds := Mapear(Filtrar(st.pendentes, AReservar(st)), CdDoPendente());
             r in Novas(cds, DecisoesDaExecucao(st, t, p), if p.modo == Adequar then Com else Sem)
    ensures forall q :: q in st.pendentes && q.cd == r.cd ==> Total(r.linhas, SolicitadaDe()) == Soma(q.itens, QtDe())
  {
    var ps := Filtrar(st.pendentes, AReservar(st));
    var cds, m := Mapear(ps, CdDoPendente()), GradesDe(ps);
    CandidatosSao(st);
    NovasSao(cds, DecisoesDaExecucao(st, t, p), if p.modo == Adequar then Com else Sem);
    DecisaoCorreta(p.modo, p.blacklist, cds, m, p.ests, SaldoDe(st, t), r.cd);
    RespondeMantemSolicitada(r.linhas, m[r.cd]);
    GradesSao(ps, r.cd);
    forall q | q in st.pendentes && q.cd == r.cd ensures q.itens == m[r.cd] {
      assert AReservar(st)(q) && q in ps;
    }
  }

  /** What a run saves: one reservation, of the kind of its mode, for each pair of the
      snapshot without one that the engine decided to reserve, with the rows it decided;
      nothing else changes. */
  lemma ExecucaoSalva(st: Estado, t: Tolerancia, p: Passo, r: Reserva)
    requires Formado(st) && p.Execucao? && Proximo(st, t, p).Aceita?
    ensures var (st', ds) := (Proximo(st, t, p).valor, DecisoesDaExecucao(st, t, p));
            && st'.pendentes == st.pendentes && st.reservas <= st'.reservas
            && (r in st'.reservas[|st.reservas|..] <==>
                 && (exists q :: q in st.pendentes && q.cd == r.cd) && (forall x :: x in st.reservas ==> x.cd != r.cd)
                 && r.cd in ds && ds[r.cd] == GerarOR(r.linhas) && r.tipo == if p.modo == Adequar then Com else Sem)
  {
    hide DecisoesDaExecucao, Filtrar, Mapear;
    var ps, ds := Filtrar(st.pendentes, AReservar(st)), DecisoesDaExecucao(st, t, p);
    var cds, tipo := Mapear(ps, CdDoPendente()), if p.modo == Adequar then Com else Sem;
    NovasContem(cds, ds, tipo, r);
    assert Proximo(st, t, p).valor == st.(reservas := st.reservas + Novas(cds, ds, tipo));
    if r.cd in cds {
      var k :| 0 <= k < |cds| && cds[k] == r.cd;
      assert ps[k] in ps;
    }
    if q :| q in st.pendentes && q.cd == r.cd && !TemReserva(st, r.cd) {
      assert AReservar(st)(q) && q in ps;
      MapearContem(ps, CdDoPendente(), q);
    }
  }

  lemma {:induction false} NovasContem(cds: seq<string>, ds: map<string, Decisao>, tipo: Tipo, r: Reserva)
    ensures r in Novas(cds, ds, tipo)
      <==> r.cd in cds && r.cd in ds && ds[r.cd] == GerarOR(r.linhas) && r.tipo == tipo
  {
    if cds != [] { NovasContem(cds[1..], ds, tipo, r); }
  }

  /** A run spends within the limit it read. */
  lemma ExecucaoControla(st: Estado, t: Tolerancia, p: Passo)
    requires Formado(st) && p.Execucao? && Proximo(st, t, p).Aceita?
    ensures Controla(st, t, Proximo(st, t, p).valor)
  {
    hide Novas, DecisoesDaExecucao, Filtrar, Mapear, Formado;
    var cds := Mapear(Filtrar(st.pendentes, AReservar(st)), CdDoPendente());
    var ns := Novas(cds, DecisoesDaExecucao(st, t, p), if p.modo == Adequar then Com else Sem);
    var st' := Proximo(st, t, p).valor;
    assert st' == st.(reservas := st.reservas + ns);
    ExecucaoConsome(st, t, p);
    SomaConcat(st.reservas, ns, CorteDaReserva());
    SomaConcat(st.reservas, ns, AdicaoDaReserva());
  }

  /** It does not move the original total either. */
  lemma ExecucaoMantemTotal(st: Estado, t: Tolerancia, p: Passo)
    requires Formado(st) && p.Execucao? && Proximo(st, t, p).Aceita?
    ensures TotalOriginal(Proximo(st, t, p).valor) == TotalOriginal(st)
  {
    hide Novas, DecisoesDaExecucao, Filtrar, Mapear, Formado;
    var cds := Mapear(Filtrar(st.pendentes, AReservar(st)), CdDoPendente());
    var ns := Novas(cds, DecisoesDaExecucao(st, t, p), if p.modo == Adequar then Com else Sem);
    assert Proximo(st, t, p).valor == st.(reservas := st.reservas + ns);
    SomaConcat(st.reservas, ns, SolicitadaAusente(st.pendentes));
    forall r | r in ns ensures SolicitadaAusente(st.pendentes)(r) == 0 { NovaEstaNoSnapshot(st, t, p, r); }
    SomaDeZeros(ns, SolicitadaAusente(st.pendentes));
  }

  lemma ExecucaoMantem(st: Estado, t: Tolerancia, p: Passo)
    requires BemFormado(st) && p.Execucao? && Proximo(st, t, p).Aceita?
    ensures Mantem(st, t, Proximo(st, t, p).valor)
  {
    hide Novas, DecisoesDaExecucao, Filtrar, Mapear, Formado;
    var cds := Mapear(Filtrar(st.pendentes, AReservar(st)), CdDoPendente());
    var ns := Novas(cds, DecisoesDaExecucao(st, t, p), if p.modo == Adequar then Com else Sem);
    assert Proximo(st, t, p).valor == st.(reservas := st.reservas + ns);
    ExecucaoControla(st, t, p);
    ExecucaoMantemTotal(st, t, p);
    ExecucaoMantemForma(st, t, p);
    forall q, r | q in st.pendentes && r in st.reservas + ns && q.cd == r.cd
      ensures Total(r.linhas, SolicitadaDe()) == Soma(q.itens, QtDe())
    {
      if r in ns { NovaSolicitaOPedido(st, t, p, r); }
    }
  }

  lemma ExecucaoMantemForma(st: Estado, t: Tolerancia, p: Passo)
    requires Formado(st) && p.Execucao? && Proximo(st, t, p).Aceita?
    ensures Formado(Proximo(st, t, p).valor)
  {
    var cds := Mapear(Filtrar(st.pendentes, AReservar(st)), CdDoPendente());
    var ns := Novas(cds, DecisoesDaExecucao(st, t, p), if p.modo == Adequar then Com else Sem);
    CandidatosSao(st);
    NovasSao(cds, DecisoesDaExecucao(st, t, p), if p.modo == Adequar then Com else Sem);
    MapearConcat(st.reservas, ns, CdDaReserva());
    forall c | c in Mapear(st.reservas, CdDaReserva()) ensures c !in Mapear(ns, CdDaReserva()) {
      ReservadoNaLista(st.reservas, c);
      ReservadoNaLista(ns, c);
      if r :| r in ns && r.cd == c { NovaEstaNoSnapshot(st, t, p, r); }
    }
    DistintosConcat(Mapear(st.reservas, CdDaReserva()), Mapear(ns, CdDaReserva()));
  }

  // ----- a reserved pair leaves the snapshot

  function SoDoPar(cd: string, f: Reserva -> int): Reserva -> int { (r: Reserva) => if r.cd == cd then f(r) else 0 }

  /** Only one reservation of a pair contributes to a sum restricted to it. */
  lemma {:induction false} SomaDoPar(rs: seq<Reserva>, cd: string, f: Reserva -> int, r: Reserva)
    requires Distintos(Mapear(rs, CdDaReserva())) && r in rs && r.cd == cd
    ensures Soma(rs, SoDoPar(cd, f)) == f(r)
  {
    var m := Mapear(rs, CdDaReserva());
    assert m[1..] == Mapear(rs[1..], CdDaReserva());
    ReservadoNaLista(rs[1..], cd);
    if rs[0] == r {
      assert m[0] !in m[1..];
      SomaDeZeros(rs[1..], SoDoPar(cd, f));
    } else {
      SomaDoPar(rs[1..], cd, f, r);
      ReservadoNaLista(rs[1..], rs[0].cd);
    }
  }

  lemma SemOPar(ps: seq<Pendente>, cd: string, c: string)
    ensures NoSnapshot(Filtrar(ps, OutroPar(cd)), c) <==> NoSnapshot(ps, c) && c != cd
  {
    if p :| p in ps && p.cd == c && c != cd { assert p in Filtrar(ps, OutroPar(cd)); }
  }

  lemma CaudaDistinta<T>(s: seq<T>)
    requires s != [] && Distintos(s)
    ensures Distintos(s[1..]) && s[0] !in s[1..]
  {}

  /** In a list with one row per pair, the first row's pair is not seen again. */
  lemma PrimeiroUnico<T>(s: seq<T>, f: T -> string)
    requires s != [] && Distintos(Mapear(s, f))
    ensures Distintos(Mapear(s[1..], f)) && forall x :: x in s[1..] ==> f(x) != f(s[0])
  {
    CaudaConcat([f(s[0])], Mapear(s[1..], f));
    CaudaDistinta(Mapear(s, f));
    forall x | x in s[1..] ensures f(x) != f(s[0]) { MapearContem(s[1..], f, x); }
  }

  lemma {:induction false} RetirarPendente(ps: seq<Pendente>, cd: string, p: Pendente)
    requires Distintos(Mapear(ps, CdDoPendente())) && p in ps && p.cd == cd
    ensures Soma(ps, QtDoPendente()) == QtDoPendente()(p) + Soma(Filtrar(ps, OutroPar(cd)), QtDoPendente())
  {
    PrimeiroUnico(ps, CdDoPendente());
    var resto := Filtrar(ps[1..], OutroPar(cd));
    if ps[0] == p {
      forall x | x in ps[1..] ensures OutroPar(cd)(x) { assert CdDoPendente()(x) != CdDoPendente()(ps[0]); }
      FiltrarTodos(ps[1..], OutroPar(cd));
      assert Filtrar(ps, OutroPar(cd)) == [] + resto == resto;
    } else {
      assert p in ps[1..];
      RetirarPendente(ps[1..], cd, p);
      assert CdDoPendente()(p) != CdDoPendente()(ps[0]);
      SomaConcat([ps[0]], resto, QtDoPendente());
    }
  }

  function SolicitadaDaReserva(): Reserva -> int { (r: Reserva) => Total(r.linhas, SolicitadaDe()) }

  /** The pieces leave the snapshot's sum, and those its reservation asks for enter the
      reservations' sum. */
  lemma SaidaMoveTotal(st: Estado, cd: string, p: Pendente, r: Reserva)
    requires Formado(st) && p in st.pendentes && p.cd == cd && r in st.reservas && r.cd == cd
    ensures TotalOriginal(st.(pendentes := Filtrar(st.pendentes, OutroPar(cd))))
      == TotalOriginal(st) - (QtDoPendente()(p) - SolicitadaDaReserva()(r))
  {
    var ps' := Filtrar(st.pendentes, OutroPar(cd));
    RetirarPendente(st.pendentes, cd, p);
    forall c ensures NoSnapshot(ps', c) <==> NoSnapshot(st.pendentes, c) && c != cd { SemOPar(st.pendentes, cd, c); }
    var f := SolicitadaAusente(st.pendentes);
    var g := SoDoPar(cd, SolicitadaDaReserva());
    forall x | x in st.reservas ensures SolicitadaAusente(ps')(x) == Mais(f, g)(x) {
      if x.cd == cd { assert NoSnapshot(st.pendentes, cd); }
    }
    SomaIgual(st.reservas, SolicitadaAusente(ps'), Mais(f, g));
    SomaMais(st.reservas, f, g);
    SomaDoPar(st.reservas, cd, SolicitadaDaReserva(), r);
  }

  function ItensDe(ps: seq<Pendente>, cd: string): seq<Item> {
    if ps == [] then [] else if ps[0].cd == cd then ps[0].itens else ItensDe(ps[1..], cd)
  }

  /** Pieces a pair in the snapshot has pending beyond those its reservation asks for. */
  function Encolhe(st: Estado, cd: string): int {
    if NoSnapshot(st.pendentes, cd) then Soma(ItensDe(st.pendentes, cd), QtDe())
      - Total(LinhasDe(st.reservas, cd), SolicitadaDe())
    else 0
  }

  lemma {:induction false} ItensDoPendente(ps: seq<Pendente>, cd: string, p: Pendente)
    requires Distintos(Mapear(ps, CdDoPendente())) && p in ps && p.cd == cd
    ensures ItensDe(ps, cd) == p.itens
  {
    PrimeiroUnico(ps, CdDoPendente());
    if ps[0] != p { ItensDoPendente(ps[1..], cd, p); }
  }

  lemma SaidaEncolhe(st: Estado, cd: string)
    requires Formado(st) && TemReserva(st, cd)
    ensures TotalOriginal(st.(pendentes := Filtrar(st.pendentes, OutroPar(cd)))) == TotalOriginal(st) - Encolhe(st, cd)
    ensures BemFormado(st) ==> Encolhe(st, cd) == 0
  {
    var r :| r in st.reservas && r.cd == cd;
    if p :| p in st.pendentes && p.cd == cd {
      hide TotalOriginal, Filtrar, Formado;
      SaidaMoveTotal(st, cd, p, r);
      ItensDoPendente(st.pendentes, cd, p);
      LinhasDaReserva(st.reservas, cd, r);
    } else {
      FiltrarTodos(st.pendentes, OutroPar(cd));
    }
  }

  /** A departure consumes nothing, and the original total drops by what the pair had
      pending beyond what its reservation asks for: by nothing in a well-formed order. */
  lemma SaidaMantem(st: Estado, t: Tolerancia, cd: string)
    requires Formado(st) && Proximo(st, t, SaiDoSnapshot(cd)).Aceita?
    ensures var st' := Proximo(st, t, SaiDoSnapshot(cd)).valor;
            && Formado(st') && TotalOriginal(st') == TotalOriginal(st) - Encolhe(st, cd)
            && ConsumidoCorte(st') == ConsumidoCorte(st) && ConsumidoAdicao(st') == ConsumidoAdicao(st)
    ensures BemFormado(st) ==>
      Encolhe(st, cd) == 0 && Mantem(st, t, Proximo(st, t, SaiDoSnapshot(cd)).valor)
  {
    hide TotalOriginal, Encolhe;
    FiltrarMapeadoDistinto(st.pendentes, OutroPar(cd), CdDoPendente());
    SaidaEncolhe(st, cd);
  }

  // ----- an accepted "sem" edit

  lemma {:induction false} TrocarTroca(rs: seq<Reserva>, cd: string, ls: seq<Linha>, f: Reserva -> int, r: Reserva)
    requires Distintos(Mapear(rs, CdDaReserva())) && r in rs && r.cd == cd
    ensures Soma(Trocar(rs, cd, ls), f) == Soma(rs, f) - f(r) + f(r.(linhas := ls))
  {
    PrimeiroUnico(rs, CdDaReserva());
    if rs[0] == r {
      TrocarNada(rs[1..], cd, ls);
      SomaConcat([r.(linhas := ls)], rs[1..], f);
    } else {
      TrocarTroca(rs[1..], cd, ls, f, r);
      SomaConcat([rs[0]], Trocar(rs[1..], cd, ls), f);
    }
  }

  lemma {:induction false} TrocarMantemPares(rs: seq<Reserva>, cd: string, ls: seq<Linha>)
    ensures Mapear(Trocar(rs, cd, ls), CdDaReserva()) == Mapear(rs, CdDaReserva())
    ensures forall x :: x in Trocar(rs, cd, ls) ==> if x.cd == cd then x.linhas == ls else x in rs
  {
    if rs != [] {
      TrocarMantemPares(rs[1..], cd, ls);
      assert Mapear(Trocar(rs, cd, ls), CdDaReserva()) == [rs[0].cd] + Mapear(Trocar(rs[1..], cd, ls), CdDaReserva());
      assert Mapear(rs, CdDaReserva()) == [rs[0].cd] + Mapear(rs[1..], CdDaReserva());
    }
  }

  lemma {:induction false} LinhasDaReserva(rs: seq<Reserva>, cd: string, r: Reserva)
    requires Distintos(Mapear(rs, CdDaReserva())) && r in rs && r.cd == cd
    ensures LinhasDe(rs, cd) == r.linhas
  {
    PrimeiroUnico(rs, CdDaReserva());
    if rs[0] != r { LinhasDaReserva(rs[1..], cd, r); }
  }

  lemma {:induction false} TrocarNada(rs: seq<Reserva>, cd: string, ls: seq<Linha>)
    requires forall x :: x in rs ==> x.cd != cd
    ensures Trocar(rs, cd, ls) == rs
  {
    if rs != [] {
      assert rs[0] in rs;
      TrocarNada(rs[1..], cd, ls);
    }
  }

  /** Replacing the rows of a "sem" reservation within the validated contribution keeps
      the budgets. */
  lemma TrocaControla(st: Estado, t: Tolerancia, r: Reserva, ls: seq<Linha>)
    requires Formado(st) && r in st.reservas && r.tipo == Sem
    requires Total(ls, SolicitadaDe()) == Total(r.linhas, SolicitadaDe())
    requires var base := TotalNat(r.linhas, SolicitadaDe());
             ValidarEdicao(TotalOriginal(st), ConsumidoAdicao(st), ConsumidoCorte(st), t,
               CalcularContribuicao(base, TotalNat(r.linhas, LiquidaDe())),
                 CalcularContribuicao(base, TotalNat(ls, LiquidaDe()))) == Permitida
    ensures var st' := st.(reservas := Trocar(st.reservas, r.cd, ls));
            TotalOriginal(st') == TotalOriginal(st) && Controla(st, t, st')
  {
    var base, atual, nova :=
      TotalNat(r.linhas, SolicitadaDe()), TotalNat(r.linhas, LiquidaDe()), TotalNat(ls, LiquidaDe());
    ValidarSse(TotalOriginal(st), ConsumidoAdicao(st), ConsumidoCorte(st), t, CalcularContribuicao(base, atual),
               CalcularContribuicao(base, nova));
    ConsumoDaTroca(st, r, ls);
    TrocarTroca(st.reservas, r.cd, ls, SolicitadaAusente(st.pendentes), r);
  }

  /** Consumption moves by exactly the change of the pair's own contribution. */
  lemma ConsumoDaTroca(st: Estado, r: Reserva, ls: seq<Linha>)
    requires Formado(st) && r in st.reservas && r.tipo == Sem
    requires Total(ls, SolicitadaDe()) == Total(r.linhas, SolicitadaDe())
    ensures var base := TotalNat(r.linhas, SolicitadaDe());
            var atual, nova :=
              CalcularContribuicao(base, TotalNat(r.linhas, LiquidaDe())),
              CalcularContribuicao(base, TotalNat(ls, LiquidaDe()));
            var st' := st.(reservas := Trocar(st.reservas, r.cd, ls));
            && ConsumidoAdicao(st') - nova.adicao == ConsumidoAdicao(st) - atual.adicao >= 0
            && ConsumidoCorte(st') - nova.corte == ConsumidoCorte(st) - atual.corte >= 0
  {
    hide Trocar, Soma;
    var st' := st.(reservas := Trocar(st.reservas, r.cd, ls));
    TrocarTroca(st.reservas, r.cd, ls, CorteDaReserva(), r);
    TrocarTroca(st.reservas, r.cd, ls, AdicaoDaReserva(), r);
    ReservaNaoNegativa(st.reservas);
    ParcelaCabe(st.reservas, CorteDaReserva(), r);
    ParcelaCabe(st.reservas, AdicaoDaReserva(), r);
  }

  lemma {:induction false} ParcelaCabe<T>(s: seq<T>, f: T -> int, x: T)
    requires x in s && forall y :: y in s ==> f(y) >= 0
    ensures f(x) <= Soma(s, f)
  {
    SomaNaoNegativa(s[1..], f);
    if s[0] != x { ParcelaCabe(s[1..], f, x); }
  }

  lemma TrocaMantemForma(st: Estado, cd: string, ls: seq<Linha>)
    requires Formado(st)
    ensures Formado(st.(reservas := Trocar(st.reservas, cd, ls)))
  {
    TrocarMantemPares(st.reservas, cd, ls);
  }

  lemma EdicaoControla(st: Estado, t: Tolerancia, cd: string, sizes: seq<Rateio.Peso>)
    requires Formado(st) && Rateio.TamanhosDistintos(sizes) && Proximo(st, t, EditarSem(cd, sizes)).Aceita?
    ensures var st' := Proximo(st, t, EditarSem(cd, sizes)).valor;
            Formado(st') && TotalOriginal(st') == TotalOriginal(st) && Controla(st, t, st')
    ensures BemFormado(st) ==> BemFormado(Proximo(st, t, EditarSem(cd, sizes)).valor)
  {
    var r :| r in st.reservas && r.cd == cd && r.tipo == Sem;
    LinhasDaReserva(st.reservas, cd, r);
    var ls := MontarGrade(r.linhas, sizes, true).valor;
    EdicaoConserva(r.linhas, sizes, true);
    TrocaControla(st, t, r, ls);
    TrocaMantemForma(st, cd, ls);
    TrocarMantemPares(st.reservas, cd, ls);
  }

  /** When a "sem" edit is accepted: the grade can be rebuilt and, for each budget, the pair
      consumes no more than before or what the other pairs consume plus what this one now
      would fits the limit. */
  lemma EdicaoAceitaSse(st: Estado, t: Tolerancia, r: Reserva, sizes: seq<Rateio.Peso>)
    requires Formado(st) && r in st.reservas && r.tipo == Sem
    ensures var pedido, atual, novo :=
              Total(r.linhas, SolicitadaDe()), Total(r.linhas, LiquidaDe()), Rateio.PesoTotal(sizes);
            var mais, menos := Max(0, novo - pedido), Max(0, pedido - novo);
            var eramMais, eramMenos := Max(0, atual - pedido), Max(0, pedido - atual);
            && (Redistribuir(st, t, r.cd, sizes).Aceita? <==>
                 && (exists p :: p in sizes && p.qtd > 0) && atual > 0
                 && (mais <= eramMais || ConsumidoAdicao(st) - eramMais + mais <= Limite(TotalOriginal(st), t))
                 && (menos <= eramMenos || ConsumidoCorte(st) - eramMenos + menos <= Limite(TotalOriginal(st), t)))
  {
    hide Limite, TotalOriginal, Trocar;
    LinhasDaReserva(st.reservas, r.cd, r);
    RecusaSse(r.linhas, sizes, true);
    var base, atual := TotalNat(r.linhas, SolicitadaDe()), TotalNat(r.linhas, LiquidaDe());
    ConsumoDaTroca(st, r, r.linhas);
    ValidarSse(TotalOriginal(st), ConsumidoAdicao(st), ConsumidoCorte(st), t, CalcularContribuicao(base, atual),
               CalcularContribuicao(base, Rateio.PesoTotal(sizes)));
    if r.linhas == [] { assert Total(r.linhas, LiquidaDe()) == 0; }
  }

  lemma EdicaoMantem(st: Estado, t: Tolerancia, cd: string, sizes: seq<Rateio.Peso>)
    requires BemFormado(st) && Rateio.TamanhosDistintos(sizes) && Proximo(st, t, EditarSem(cd, sizes)).Aceita?
    ensures Mantem(st, t, Proximo(st, t, EditarSem(cd, sizes)).valor)
  {
    EdicaoControla(st, t, cd, sizes);
  }

  // ----- the whole life of an order

  /** `st` becomes `fim` by accepted steps. */
  ghost predicate Evolui(st: Estado, t: Tolerancia, ps: seq<Passo>, fim: Estado)
    decreases ps
  {
    if ps == [] then fim == st
    else
      && (ps[0].EditarSem? || ps[0].EditarCom? ==> Rateio.TamanhosDistintos(ps[0].sizes))
      && Proximo(st, t, ps[0]).Aceita? && Evolui(Proximo(st, t, ps[0]).valor, t, ps[1..], fim)
  }

  /** Neither a "com" edit nor a new import. */
  predicate Comum(p: Passo) { !p.EditarCom? && !p.TrocarSnapshot? }

  /** Main result: over any interleaving of engine runs (in either mode, against any
      stock), departures of reserved pairs from the snapshot and accepted "sem" edits,
      the order's original total never changes, and its total cut and total addition
      never exceed the larger of the limit and what they started with. */
  lemma {:induction false} OrcamentoNuncaEstoura(st: Estado, t: Tolerancia, ps: seq<Passo>, fim: Estado)
    requires BemFormado(st) && Evolui(st, t, ps, fim) && forall p :: p in ps ==> Comum(p)
    ensures Mantem(st, t, fim)
    decreases ps
  {
    if ps != [] {
      hide Proximo, BemFormado, ConsumidoAdicao, ConsumidoCorte, TotalOriginal, Limite;
      assert ps[0] in ps && forall p :: p in ps[1..] ==> p in ps;
      match ps[0] {
        case Execucao(_, _, _) => ExecucaoMantem(st, t, ps[0]);
        case SaiDoSnapshot(cd) => SaidaMantem(st, t, cd);
        case EditarSem(cd, sizes) => EdicaoMantem(st, t, cd, sizes);
      }
      OrcamentoNuncaEstoura(Proximo(st, t, ps[0]).valor, t, ps[1..], fim);
    }
  }

  /** Started within the limit, an order stays within it for life. */
  lemma DentroDoLimiteParaSempre(st: Estado, t: Tolerancia, ps: seq<Passo>, fim: Estado)
    requires BemFormado(st) && Evolui(st, t, ps, fim) && forall p :: p in ps ==> Comum(p)
    requires ConsumidoCorte(st) <= Limite(TotalOriginal(st), t) && ConsumidoAdicao(st) <= Limite(TotalOriginal(st), t)
    ensures ConsumidoCorte(fim) <= Limite(TotalOriginal(fim), t)
      && ConsumidoAdicao(fim) <= Limite(TotalOriginal(fim), t)
  {
    OrcamentoNuncaEstoura(st, t, ps, fim);
  }
}
