/** The delivery repository and the batch loop that drains it, running among other
    workers. */
module Entregas {
  import opened Aritmetica
  import opened Listas
  import opened EntregasProtocolo
  import opened EntregasFila

  /** What one pass of the loop meets: steps of other workers around each of its own
      transactions, the rows other sessions leave unlocked, the clock, and the mail server. */
  datatype Rodada = Rodada(
    antes: seq<Passo>, livres: set<string>, agora: nat, prazo: nat,
    durante: seq<Passo>, aceita: bool, resposta: Resposta, fim: nat, espera: nat, depois: seq<Passo>)

  datatype Resultado = Resultado(claimed: nat, sent: nat, retried: nat, failed: nat, unknown: nat, stale: nat,
                                 reconciled: nat)

  datatype Notificacao = Notificacao(status: StatusComunicacao, comunicacao: string)

  function ComStatus(st: StatusComunicacao): Notificacao -> bool { (n: Notificacao) => n.status == st }

  predicate RodadaOk(x: Rodada, eu: nat) {
    && (forall a | a in x.antes :: Alheio(a, eu)) && (forall a | a in x.durante :: Alheio(a, eu))
    && (forall a | a in x.depois :: Alheio(a, eu)) && (x.resposta == Sucesso ==> x.aceita)
  }

  /** Claims and sends made by worker `eu`. */
  function ReivindicouEu(eu: nat): Passo -> bool { (a: Passo) => a.Reivindicar? && a.p == eu }
  function EnviouEu(eu: nat): Passo -> bool { (a: Passo) => a.Enviar? && a.p == eu }

  function FoiObsoleto(): Desfecho -> bool { (d: Desfecho) => d.Obsoleto? }

  /** The counters count the outcomes by kind. */
  ghost predicate Apurado(r: Resultado, ds: seq<Desfecho>, reconciliadas: nat) {
    && r.claimed == |ds| && r.sent == Conta(ds, Foi(Enviada)) && r.retried == Conta(ds, Foi(Pendente))
    && r.failed == Conta(ds, Foi(Falha)) && r.unknown == Conta(ds, Foi(Incerta)) && r.stale == Conta(ds, FoiObsoleto())
    && r.reconciled == reconciliadas
  }

  function Contar(r: Resultado, d: Desfecho): Resultado {
    match d
    case Obsoleto => r.(claimed := r.claimed + 1, stale := r.stale + 1)
    case Transicao(_, Enviada) => r.(claimed := r.claimed + 1, sent := r.sent + 1)
    case Transicao(_, Pendente) => r.(claimed := r.claimed + 1, retried := r.retried + 1)
    case Transicao(_, Falha) => r.(claimed := r.claimed + 1, failed := r.failed + 1)
    case Transicao(_, _) => r.(claimed := r.claimed + 1, unknown := r.unknown + 1)
  }

  lemma ContarApura(r: Resultado, ds: seq<Desfecho>, n: nat, d: Desfecho)
    requires Apurado(r, ds, n) && (d.Transicao? ==> d.status != Processando)
    ensures Apurado(Contar(r, d), ds + [d], n)
  {
    SomaUltimo(ds, d, Indicador(Foi(Enviada)));
    SomaUltimo(ds, d, Indicador(Foi(Pendente)));
    SomaUltimo(ds, d, Indicador(Foi(Falha)));
    SomaUltimo(ds, d, Indicador(Foi(Incerta)));
    SomaUltimo(ds, d, Indicador(FoiObsoleto()));
  }

  /** The notification of one outcome: retries and stale reports are silent. */
  function Notificar(d: Desfecho): seq<Notificacao> {
    match d
    case Transicao(com, Enviada) => [Notificacao(ComEnviado, com)]
    case Transicao(com, Falha) => [Notificacao(ComFalhou, com)]
    case Transicao(com, Incerta) => [Notificacao(ComIncerto, com)]
    case _ => []
  }

  /** The notifications of a list of outcomes, in order. */
  function Avisos(ds: seq<Desfecho>): seq<Notificacao> {
    if ds == [] then [] else Avisos(ds[..|ds| - 1]) + Notificar(ds[|ds| - 1])
  }

  lemma AvisosMais(ds: seq<Desfecho>, d: Desfecho)
    ensures Avisos(ds + [d]) == Avisos(ds) + Notificar(d)
  {
    assert (ds + [d])[..|ds|] == ds;
  }

  /** A notification is sent of exactly the communications that an outcome moved, as sent,
      failed or uncertain. */
  lemma {:induction false} AvisoSse(ds: seq<Desfecho>, n: Notificacao)
    ensures n in Avisos(ds)
       <==> exists d :: d in ds && d.Transicao? && d.comunicacao == n.comunicacao
                        && ((d.status == Enviada && n.status == ComEnviado)
                            || (d.status == Falha && n.status == ComFalhou)
                            || (d.status == Incerta && n.status == ComIncerto))
  {
    if ds != [] {
      AvisoSse(ds[..|ds| - 1], n);
      assert ds == ds[..|ds| - 1] + [ds[|ds| - 1]];
    }
  }

  lemma {:induction false} IncertosSao(coms: seq<string>, n: Notificacao)
    ensures n in Incertos(coms) <==> n.status == ComIncerto && n.comunicacao in coms
  {
    if coms != [] {
      IncertosSao(coms[..|coms| - 1], n);
      assert coms == coms[..|coms| - 1] + [coms[|coms| - 1]];
    }
  }

  function Incertos(coms: seq<string>): seq<Notificacao> {
    if coms == [] then [] else Incertos(coms[..|coms| - 1]) + [Notificacao(ComIncerto, coms[|coms| - 1])]
  }

  /** The counters of a batch match its notifications. */
  lemma {:induction false} AvisosConferem(r: Resultado, ds: seq<Desfecho>, coms: seq<string>)
    requires Apurado(r, ds, |coms|)
    ensures var eventos := Incertos(coms) + Avisos(ds);
            && Conta(eventos, ComStatus(ComEnviado)) == r.sent && Conta(eventos, ComStatus(ComFalhou)) == r.failed
            && Conta(eventos, ComStatus(ComIncerto)) == r.unknown + r.reconciled
            && |eventos| == r.sent + r.failed + r.unknown + r.reconciled
  {
    hide Foi, ComStatus;
    ContarIncertos(coms);
    ContarAvisos(ds);
    SomaConcat(Incertos(coms), Avisos(ds), Indicador(ComStatus(ComEnviado)));
    SomaConcat(Incertos(coms), Avisos(ds), Indicador(ComStatus(ComFalhou)));
    SomaConcat(Incertos(coms), Avisos(ds), Indicador(ComStatus(ComIncerto)));
  }

  lemma {:induction false} ContarIncertos(coms: seq<string>)
    ensures Conta(Incertos(coms), ComStatus(ComEnviado)) == 0 && Conta(Incertos(coms), ComStatus(ComFalhou)) == 0
    ensures Conta(Incertos(coms), ComStatus(ComIncerto)) == |coms| == |Incertos(coms)|
  {
    if coms != [] {
      var p := Incertos(coms[..|coms| - 1]);
      ContarIncertos(coms[..|coms| - 1]);
      var n := Notificacao(ComIncerto, coms[|coms| - 1]);
      SomaUltimo(p, n, Indicador(ComStatus(ComEnviado)));
      SomaUltimo(p, n, Indicador(ComStatus(ComFalhou)));
      SomaUltimo(p, n, Indicador(ComStatus(ComIncerto)));
    }
  }

  lemma UmAviso(n: Notificacao, st: StatusComunicacao)
    ensures Conta([n], ComStatus(st)) == if n.status == st then 1 else 0
  {
    SomaUnitaria(n, Indicador(ComStatus(st)));
  }

  lemma ContarAviso(d: Desfecho)
    ensures Conta(Notificar(d), ComStatus(ComEnviado)) == Indicador(Foi(Enviada))(d)
    ensures Conta(Notificar(d), ComStatus(ComFalhou)) == Indicador(Foi(Falha))(d)
    ensures Conta(Notificar(d), ComStatus(ComIncerto)) == Indicador(Foi(Incerta))(d)
    ensures |Notificar(d)| == Indicador(Foi(Enviada))(d) + Indicador(Foi(Falha))(d) + Indicador(Foi(Incerta))(d)
  {
    if Notificar(d) != [] {
      var n := Notificar(d)[0];
      UmAviso(n, ComEnviado);
      UmAviso(n, ComFalhou);
      UmAviso(n, ComIncerto);
    }
  }

  lemma {:induction false} ContarAvisos(ds: seq<Desfecho>)
    ensures Conta(Avisos(ds), ComStatus(ComEnviado)) == Conta(ds, Foi(Enviada))
    ensures Conta(Avisos(ds), ComStatus(ComFalhou)) == Conta(ds, Foi(Falha))
    ensures Conta(Avisos(ds), ComStatus(ComIncerto)) == Conta(ds, Foi(Incerta))
    ensures |Avisos(ds)| == Conta(ds, Foi(Enviada)) + Conta(ds, Foi(Falha)) + Conta(ds, Foi(Incerta))
  {
    if ds != [] {
      hide Notificar, Foi, ComStatus, Soma, Indicador;
      var p, d := ds[..|ds| - 1], ds[|ds| - 1];
      ContarAvisos(p);
      ContarAviso(d);
      assert ds == p + [d];
      SomaUltimo(p, d, Indicador(Foi(Enviada)));
      SomaUltimo(p, d, Indicador(Foi(Falha)));
      SomaUltimo(p, d, Indicador(Foi(Incerta)));
      SomaConcat(Avisos(p), Notificar(d), Indicador(ComStatus(ComEnviado)));
      SomaConcat(Avisos(p), Notificar(d), Indicador(ComStatus(ComFalhou)));
      SomaConcat(Avisos(p), Notificar(d), Indicador(ComStatus(ComIncerto)));
    }
  }

  /** A step of some worker other than `eu`. */
  predicate Alheio(a: Passo, eu: nat) {
    match a
    case Criar(_, _, _, _) => true
    case Reconciliar(_, _) => true
    case Reivindicar(p, _, _, _, _) => p != eu
    case Enviar(p, _, _) => p != eu
    case Concluir(p, _, _) => p != eu
    case Cair(p) => p != eu
  }

  lemma {:induction false} JuntarPasso(s: Sistema, passos: seq<Passo>, meio: Sistema, a: Passo)
    requires Executa(s, passos, meio) && Habilitado(meio, a)
    ensures Executa(s, passos + [a], Aplicar(meio, a))
  {
    Encadear(meio, a, [], Aplicar(meio, a));
    assert [a] + [] == [a];
    Juntar(s, passos, meio, [a], Aplicar(meio, a));
  }

  /** Between the two histories, worker `eu` made `n` claims and `n` sends, and its reports
      had the outcomes `ds`. */
  ghost predicate Agiu(a: seq<Passo>, b: seq<Passo>, eu: nat, n: nat, ds: seq<Desfecho>) {
    && Conta(b, ReivindicouEu(eu)) == Conta(a, ReivindicouEu(eu)) + n
    && Conta(b, EnviouEu(eu)) == Conta(a, EnviouEu(eu)) + n
    && Desfechos(VAZIO, b, eu) == Desfechos(VAZIO, a, eu) + ds
  }

  lemma AcaoMais(h: seq<Passo>, s: Sistema, a: Passo, eu: nat)
    requires Executa(VAZIO, h, s) && Habilitado(s, a)
    ensures Conta(h + [a], ReivindicouEu(eu)) == Conta(h, ReivindicouEu(eu)) + (if ReivindicouEu(eu)(a) then 1 else 0)
    ensures Conta(h + [a], EnviouEu(eu)) == Conta(h, EnviouEu(eu)) + (if EnviouEu(eu)(a) then 1 else 0)
    ensures Desfechos(VAZIO, h + [a], eu) == Desfechos(VAZIO, h, eu) + DoPasso(s, a, eu)
  {
    SomaUltimo(h, a, Indicador(ReivindicouEu(eu)));
    SomaUltimo(h, a, Indicador(EnviouEu(eu)));
    DesfechosMais(VAZIO, h, s, a, eu);
  }

  lemma AlheioNaoAge(h: seq<Passo>, s: Sistema, a: Passo, eu: nat)
    requires Executa(VAZIO, h, s) && Habilitado(s, a) && Alheio(a, eu)
    ensures Agiu(h, h + [a], eu, 0, [])
  {
    hide Executa, Habilitado, Desfechos, Conta;
    AcaoMais(h, s, a, eu);
  }

  lemma AgiuNada(h: seq<Passo>, eu: nat)
    ensures Agiu(h, h, eu, 0, [])
  {}

  lemma AgiuEmSequencia(a: seq<Passo>, b: seq<Passo>, c: seq<Passo>, eu: nat, n: nat, m: nat, ds: seq<Desfecho>,
                        es: seq<Desfecho>)
    requires Agiu(a, b, eu, n, ds) && Agiu(b, c, eu, m, es)
    ensures Agiu(a, c, eu, n + m, ds + es)
  {
    hide Desfechos, Conta;
    ConcatAssocia(Desfechos(VAZIO, a, eu), ds, es);
  }

  /** The second history extends the first, and its further steps lead from `s` to `fim`. */
  ghost predicate Seguiu(a: seq<Passo>, s: Sistema, b: seq<Passo>, fim: Sistema) {
    a <= b && Executa(s, b[|a|..], fim)
  }

  lemma SeguiuNada(h: seq<Passo>, s: Sistema)
    ensures Seguiu(h, s, h, s)
  {}

  lemma SeguiuUm(h: seq<Passo>, s: Sistema, a: Passo)
    requires Habilitado(s, a)
    ensures Seguiu(h, s, h + [a], Aplicar(s, a))
  {
    Encadear(s, a, [], Aplicar(s, a));
    assert (h + [a])[|h|..] == [a] + [];
  }

  lemma SeguiuMais(a: seq<Passo>, s: Sistema, b: seq<Passo>, meio: Sistema, c: seq<Passo>, fim: Sistema)
    requires Seguiu(a, s, b, meio) && Seguiu(b, meio, c, fim)
    ensures Seguiu(a, s, c, fim)
  {
    Juntar(s, b[|a|..], meio, c[|b|..], fim);
    assert c[|a|..] == b[|a|..] + c[|b|..];
  }

  lemma SeguiuMaisUm(a: seq<Passo>, s: Sistema, b: seq<Passo>, meio: Sistema, x: Passo)
    requires Seguiu(a, s, b, meio) && Habilitado(meio, x)
    ensures Seguiu(a, s, b + [x], Aplicar(meio, x))
  {
    SeguiuUm(b, meio, x);
    SeguiuMais(a, s, b, meio, b + [x], Aplicar(meio, x));
  }

  /** The rows given up stay given up, whatever follows. */
  lemma IncertasFicam(a: seq<Passo>, s: Sistema, b: seq<Passo>, fim: Sistema, ids: seq<string>)
    requires Seguiu(a, s, b, fim) && forall id :: id in ids ==> id in s.entregas && s.entregas[id].status == Incerta
    ensures forall id :: id in ids ==> id in fim.entregas && fim.entregas[id] == s.entregas[id]
  {
    forall id | id in ids ensures id in fim.entregas && fim.entregas[id] == s.entregas[id] {
      TerminalParaSempre(s, b[|a|..], fim, id);
    }
  }

  /** The row became uncertain: no lease, and failed at `agora`. */
  ghost predicate DadaComoIncerta(e: Entrega, x: Entrega, agora: nat) {
    x == Entrega(e.comunicacao, Incerta, e.tentativas, e.maximo, e.proxima, Nada, Nada, Nada, Algo(agora))
  }

  lemma IncertaEmColunas(e: Entrega, agora: nat)
    ensures DadaComoIncerta(e, Concluida(e, Incerta, agora, 0), agora)
  {}

  lemma IncertaComunicada(passos: seq<Passo>, s: Sistema, id: string)
    requires Executa(VAZIO, passos, s) && id in s.entregas && s.entregas[id].status == Incerta
    ensures s.entregas[id].comunicacao in s.comunicacoes && s.comunicacoes[s.entregas[id].comunicacao] == ComIncerto
  {
    AceitaNoMaximoUmaVez(passos, s, id);
  }

  /** The counters count, over the steps of the batch, this worker's answers on rows that
      were still its claim's; the other reports are stale. */
  ghost predicate RelatosContados(r: Resultado, s: Sistema, passos: seq<Passo>, eu: nat) {
    && r.sent == Relatos(s, passos, eu, DeuCerto()) && r.retried == Relatos(s, passos, eu, Repete())
    && r.failed == Relatos(s, passos, eu, NaoVai()) && r.unknown == Relatos(s, passos, eu, NaoSeSabe())
    && r.claimed == r.sent + r.retried + r.failed + r.unknown + r.stale
  }

  lemma {:induction false} TodosClassificados(ds: seq<Desfecho>)
    requires forall d :: d in ds ==> d.Obsoleto? || d.status != Processando
    ensures |ds| == Conta(ds, Foi(Enviada)) + Conta(ds, Foi(Pendente)) + Conta(ds, Foi(Falha)) + Conta(ds, Foi(Incerta))
      + Conta(ds, FoiObsoleto())
  {
    if ds != [] { TodosClassificados(ds[1..]); }
  }

  lemma RelatosDoLote(a: seq<Passo>, s: Sistema, b: seq<Passo>, fim: Sistema, eu: nat, ds: seq<Desfecho>, r: Resultado,
                      n: nat)
    requires Executa(VAZIO, a, s) && Seguiu(a, s, b, fim) && Agiu(a, b, eu, r.claimed, ds) && Apurado(r, ds, n)
    requires forall d :: d in ds ==> d.Obsoleto? || d.status != Processando
    ensures RelatosContados(r, s, b[|a|..], eu)
  {
    hide Executa, Desfechos, Conta;
    var passos := b[|a|..];
    assert b == a + passos;
    DesfechosJuntam(VAZIO, a, s, passos, eu);
    var d0 := Desfechos(VAZIO, a, eu);
    assert ds == (d0 + ds)[|d0|..] == Desfechos(s, passos, eu);
    DesfechosRelatam(s, passos, eu);
    TodosClassificados(ds);
  }

  function PorComunicacao(es: Tabela): string -> string { id => if id in es then es[id].comunicacao else "" }

  class Correio {
    var entregas: map<string, Entrega>
    var comunicacoes: map<string, StatusComunicacao>
    var maos: map<nat, Mao>
    var aceites: map<string, nat>
    var enganos: map<string, nat>
    ghost var historico: seq<Passo>

    function Estado(): Sistema
      reads this
    {
      Sistema(entregas, comunicacoes, maos, aceites, enganos)
    }

    /** Reached from the empty system by the steps recorded in `historico`. */
    ghost predicate Valid()
      reads this
    {
      Executa(VAZIO, historico, Estado())
    }

    constructor ()
      ensures Valid() && historico == []
    {
      entregas, comunicacoes, maos, aceites, enganos, historico := map[], map[], map[], map[], map[], [];
    }

    /** One atomic step, by anyone. */
    method Dar(a: Passo)
      requires Valid() && Habilitado(Estado(), a)
      modifies this
      ensures Valid() && Estado() == Aplicar(old(Estado()), a) && historico == old(historico) + [a]
    {
      hide Executa, Habilitado, Aplicar;
      var s := Aplicar(Estado(), a);
      JuntarPasso(VAZIO, historico, Estado(), a);
      entregas, comunicacoes, maos, aceites, enganos := s.entregas, s.comunicacoes, s.maos, s.aceites, s.enganos;
      historico := historico + [a];
      assert Estado() == s;
    }

    /** Other workers run: each listed step happens if it is enabled when its turn comes. */
    method Outros(passos: seq<Passo>, eu: nat)
      requires Valid() && forall a :: a in passos ==> Alheio(a, eu)
      modifies this
      ensures Valid() && Agiu(old(historico), historico, eu, 0, [])
      ensures Seguiu(old(historico), old(Estado()), historico, Estado())
      ensures (eu in maos) == (eu in old(maos)) && (eu in maos ==> maos[eu] == old(maos)[eu])
    {
      hide Executa, Habilitado, Conta, Desfechos, Seguiu;
      SeguiuNada(historico, Estado());
      for i := 0 to |passos|
        invariant Valid() && Agiu(old(historico), historico, eu, 0, [])
        invariant Seguiu(old(historico), old(Estado()), historico, Estado())
        invariant (eu in maos) == (eu in old(maos)) && (eu in maos ==> maos[eu] == old(maos)[eu])
      {
        if Habilitado(Estado(), passos[i]) {
          AlheioNaoAge(historico, Estado(), passos[i], eu);
          AgiuEmSequencia(old(historico), historico, historico + [passos[i]], eu, 0, 0, [], []);
          AlheioNaoToca(Estado(), passos[i], eu);
          SeguiuMaisUm(old(historico), old(Estado()), historico, Estado(), passos[i]);
          Dar(passos[i]);
        }
      }
    }

    lemma AlheioNaoToca(s: Sistema, a: Passo, eu: nat)
      requires Habilitado(s, a) && Alheio(a, eu)
      ensures (eu in Aplicar(s, a).maos) == (eu in s.maos) && (eu in s.maos ==> Aplicar(s, a).maos[eu] == s.maos[eu])
    {}

    /** Gives up exactly the first `limite` expired rows that no other session locked, and
        returns their communications. */
    method ReconciliarProcessamentosExpirados(livres: set<string>, agora: nat, limite: nat, eu: nat)
      returns (coms: seq<string>, ghost ids: seq<string>)
      requires Valid()
      modifies this
      ensures Valid() && maos == old(maos) && Agiu(old(historico), historico, eu, 0, [])
      ensures Seguiu(old(historico), old(Estado()), historico, Estado())
      ensures SaoOsPrimeiros(ids, Vencidas(old(entregas), livres, agora), PorPrazo(old(entregas)), limite)
      ensures PrimeirosVencidos(ids, old(entregas), livres, agora, limite)
      ensures coms == Mapear(ids, PorComunicacao(old(entregas)))
      ensures entregas.Keys == old(entregas).Keys
      ensures forall id :: id in ids ==>
        && id in entregas && DadaComoIncerta(old(entregas)[id], entregas[id], agora)
        && entregas[id].comunicacao in comunicacoes && comunicacoes[entregas[id].comunicacao] == ComIncerto
      ensures forall id :: id in entregas ==>
        entregas[id] == if id in ids then Concluida(old(entregas)[id], Incerta, agora, 0) else old(entregas)[id]
    {
      hide Executa, Conta, Desfechos, SaoOsPrimeiros, Seguiu, Agiu, Concluida, StatusDe, Distintos, PorPrazo, Mapear;
      ghost var nada: seq<Desfecho> := [];
      AgiuNada(historico, eu);
      SeguiuNada(historico, Estado());
      PrazoEhOrdem(entregas);
      var escolhidas := Selecionar(Vencidas(entregas, livres, agora), PorPrazo(entregas), limite);
      ids := escolhidas;
      PrimeirosDistintos(ids, Vencidas(entregas, livres, agora), PorPrazo(entregas), limite);
      VencidosEmColunas(ids, entregas, livres, agora, limite);
      coms := Mapear(escolhidas, PorComunicacao(entregas));
      for i := 0 to |escolhidas|
        invariant Valid() && maos == old(maos) && Agiu(old(historico), historico, eu, 0, [])
        invariant Seguiu(old(historico), old(Estado()), historico, Estado())
        invariant entregas.Keys == old(entregas).Keys
        invariant forall id :: id in entregas ==>
          entregas[id] == if id in ids[..i] then Concluida(old(entregas)[id], Incerta, agora, 0) else old(entregas)[id]
      {
        var id := escolhidas[i];
        assert id in ids && id !in ids[..i];
        var a := Reconciliar(id, agora);
        AlheioNaoAge(historico, Estado(), a, eu);
        AgiuEmSequencia(old(historico), historico, historico + [a], eu, 0, 0, nada, nada);
        assert nada + nada == nada;
        SeguiuMaisUm(old(historico), old(Estado()), historico, Estado(), a);
        Dar(a);
        PrefixoMais(ids, i);
      }
      PrefixoTodo(ids);
      forall id | id in ids
        ensures DadaComoIncerta(old(entregas)[id], entregas[id], agora)
        ensures entregas[id].comunicacao in comunicacoes && comunicacoes[entregas[id].comunicacao] == ComIncerto
      {
        IncertaEmColunas(old(entregas)[id], agora);
        IncertaComunicada(historico, Estado(), id);
      }
    }

    /** Claims the first due row that no other session locked, if there is one. */
    method ReivindicarProxima(eu: nat, dono: string, agora: nat, ate: nat, livres: set<string>) returns (m: Opcao<Mao>)
      requires Valid() && eu !in maos
      modifies this
      ensures Valid() && (m.Nada? <==> Disponiveis(old(entregas), livres, agora) == {})
      ensures m.Nada? <==> forall id :: !NaHora(old(entregas), livres, agora, id)
      ensures m.Nada? ==> Estado() == old(Estado()) && historico == old(historico)
      ensures m.Algo? ==>
        && SaoOsPrimeiros([m.valor.entrega], Disponiveis(old(entregas), livres, agora), PorVez(old(entregas)), 1)
        && historico == old(historico) + [Reivindicar(eu, m.valor.entrega, dono, agora, ate)]
        && old(Habilitado(Estado(), Reivindicar(eu, m.valor.entrega, dono, agora, ate)))
        && Estado() == Aplicar(old(Estado()), Reivindicar(eu, m.valor.entrega, dono, agora, ate))
        && eu in maos && maos[eu] == m.valor && m.valor.resposta.Nada? && m.valor.dono == dono
      ensures m.Algo? ==>
        && var id := m.valor.entrega;
        && PrimeiraDaVez(id, old(entregas), livres, agora)
        && var e := old(entregas)[id];
        && entregas == old(entregas)[id := Entrega(e.comunicacao, Processando, e.tentativas + 1, e.maximo, e.proxima,
                                                   Algo(dono), Algo(ate), e.enviadaEm, e.falhouEm)]
        && m.valor == Mao(id, dono, e.tentativas + 1, e.maximo, Nada)
        && comunicacoes == old(comunicacoes)
    {
      hide Executa;
      m := Nada;
      VezEhOrdem(entregas);
      NinguemNaHora(entregas, livres, agora);
      var ids := Selecionar(Disponiveis(entregas, livres, agora), PorVez(entregas), 1);
      if ids != [] {
        assert ids == [ids[0]] && ids[0] in ids;
        DaVezEmColunas(entregas, livres, agora, ids[0]);
        AceitaNoMaximoUmaVez(historico, Estado(), ids[0]);
        Dar(Reivindicar(eu, ids[0], dono, agora, ate));
        m := Algo(maos[eu]);
      }
    }

    method EnviarEmail(eu: nat, aceita: bool, resposta: Resposta)
      requires Valid() && eu in maos && maos[eu].resposta.Nada? && (resposta == Sucesso ==> aceita)
      modifies this
      ensures Valid() && eu in maos && maos[eu] == old(maos)[eu].(resposta := Algo(resposta))
      ensures historico == old(historico) + [Enviar(eu, aceita, resposta)]
      ensures Estado() == Aplicar(old(Estado()), Enviar(eu, aceita, resposta))
    {
      Dar(Enviar(eu, aceita, resposta));
    }

    /** Marks the row sent, or records the failure; nothing happens to a row that is no
        longer this claim's. */
    method RegistrarDesfecho(eu: nat, agora: nat, proxima: nat) returns (d: Desfecho)
      requires Valid() && eu in maos && maos[eu].resposta.Algo?
      modifies this
      ensures Valid() && historico == old(historico) + [Concluir(eu, agora, proxima)] && eu !in maos
      ensures Estado() == Aplicar(old(Estado()), Concluir(eu, agora, proxima))
        && d == old(DesfechoDe(Estado(), maos[eu]))
      ensures Registrou(old(Estado()), old(maos)[eu], agora, proxima, Estado(), d) && maos == old(maos) - {eu}
      ensures var m := old(maos)[eu];
              if old(AindaDono(Estado(), m)) then
                && d == Transicao(old(entregas)[m.entrega].comunicacao, Destino(m))
                && entregas
                  == old(entregas)[m.entrega := Concluida(old(entregas)[m.entrega], Destino(m), agora, proxima)]
              else d == Obsoleto && entregas == old(entregas)
    {
      var m := maos[eu];
      ConcluirRegistra(Estado(), eu, agora, proxima);
      d := if AindaDono(Estado(), m) then Transicao(entregas[m.entrega].comunicacao, Destino(m)) else Obsoleto;
      Dar(Concluir(eu, agora, proxima));
    }

    /** One pass of the loop after the claim: send, and report in a second transaction. */
    method EntregarReivindicada(eu: nat, x: Rodada) returns (d: Desfecho)
      requires Valid() && eu in maos && maos[eu].resposta.Nada? && RodadaOk(x, eu)
      modifies this
      ensures Valid() && eu !in maos && (d.Transicao? ==> d.status != Processando)
      ensures Conta(historico, ReivindicouEu(eu)) == Conta(old(historico), ReivindicouEu(eu))
      ensures Conta(historico, EnviouEu(eu)) == Conta(old(historico), EnviouEu(eu)) + 1
      ensures Desfechos(VAZIO, historico, eu) == Desfechos(VAZIO, old(historico), eu) + [d]
      ensures Seguiu(old(historico), old(Estado()), historico, Estado())
    {
      hide Executa, Conta, Desfechos, Seguiu, Aplicar;
      ghost var h, s := historico, Estado();
      AcaoMais(historico, Estado(), Enviar(eu, x.aceita, x.resposta), eu);
      SeguiuUm(h, s, Enviar(eu, x.aceita, x.resposta));
      EnviarEmail(eu, x.aceita, x.resposta);
      ghost var h1, s1 := historico, Estado();
      Outros(x.durante, eu);
      SeguiuMais(h, s, h1, s1, historico, Estado());
      AcaoMais(historico, Estado(), Concluir(eu, x.fim, x.fim + x.espera), eu);
      SeguiuMaisUm(h, s, historico, Estado(), Concluir(eu, x.fim, x.fim + x.espera));
      d := RegistrarDesfecho(eu, x.fim, x.fim + x.espera);
      ghost var h2, s2 := historico, Estado();
      Outros(x.depois, eu);
      SeguiuMais(h, s, h2, s2, historico, Estado());
    }

    /** One pass of the loop: other workers run, then the first free due row is claimed,
        sent and reported, or there is none. */
    method EntregarProxima(eu: nat, dono: string, x: Rodada) returns (d: Opcao<Desfecho>)
      requires Valid() && eu !in maos && RodadaOk(x, eu)
      modifies this
      ensures Valid() && eu !in maos && (d.Algo? && d.valor.Transicao? ==> d.valor.status != Processando)
      ensures Seguiu(old(historico), old(Estado()), historico, Estado())
      ensures d.Algo? ==> Agiu(old(historico), historico, eu, 1, [d.valor])
      ensures d.Nada? ==>
        Agiu(old(historico), historico, eu, 0, []) && forall id :: !NaHora(entregas, x.livres, x.agora, id)
    {
      hide Executa, Conta, Desfechos, Habilitado, Aplicar, SaoOsPrimeiros, Seguiu;
      ghost var h0, s0 := historico, Estado();
      Outros(x.antes, eu);
      ghost var h, s := historico, Estado();
      var m := ReivindicarProxima(eu, dono, x.agora, x.agora + x.prazo, x.livres);
      if m.Nada? { return Nada; }
      AcaoMais(h, s, Reivindicar(eu, m.valor.entrega, dono, x.agora, x.agora + x.prazo), eu);
      SeguiuMaisUm(h0, s0, h, s, Reivindicar(eu, m.valor.entrega, dono, x.agora, x.agora + x.prazo));
      ghost var h1, s1 := historico, Estado();
      var r := EntregarReivindicada(eu, x);
      SeguiuMais(h0, s0, h1, s1, historico, Estado());
      return Algo(r);
    }

    /** Drains one batch among other workers. Whatever they do: the rows given up are the
        first expired ones and stay uncertain, each claim is followed by exactly one send and one report, the
        counters count this worker's outcomes by kind, each notification names the
        communication of the row that moved, and the batch ends early only when nothing
        free is due. */
    method ProcessarEntregasPendentes(eu: nat, dono: string, livres: set<string>, agora: nat, lote: seq<Rodada>)
      returns (r: Resultado, eventos: seq<Notificacao>, ghost ids: seq<string>, ghost ds: seq<Desfecho>)
      requires Valid() && eu !in maos && forall x :: x in lote ==> RodadaOk(x, eu)
      modifies this
      ensures Valid() && eu !in maos && Agiu(old(historico), historico, eu, r.claimed, ds)
      ensures Seguiu(old(historico), old(Estado()), historico, Estado())
      ensures SaoOsPrimeiros(ids, Vencidas(old(entregas), livres, agora), PorPrazo(old(entregas)), |lote|)
      ensures PrimeirosVencidos(ids, old(entregas), livres, agora, |lote|) && r.reconciled == |ids|
      ensures forall id :: id in ids ==>
        id in old(entregas) && id in entregas && DadaComoIncerta(old(entregas)[id], entregas[id], agora)
      ensures Apurado(r, ds, |ids|) && eventos == Incertos(Mapear(ids, PorComunicacao(old(entregas)))) + Avisos(ds)
      ensures r.claimed <= |lote|
      ensures RelatosContados(r, old(Estado()), historico[|old(historico)|..], eu)
      ensures r.claimed < |lote| ==> forall id :: !NaHora(entregas, lote[r.claimed].livres, lote[r.claimed].agora, id)
    {
      hide Executa, Conta, Desfechos, SaoOsPrimeiros, Agiu, Seguiu, PorPrazo, Mapear, Avisos, Incertos;
      var coms;
      ghost var h0, s0 := historico, Estado();
      coms, ids := ReconciliarProcessamentosExpirados(livres, agora, |lote|, eu);
      VencidasNaTabela(ids, s0.entregas, livres, agora, |lote|);
      ghost var h1, s1 := historico, Estado();
      SeguiuNada(h1, s1);
      r, eventos, ds := Resultado(0, 0, 0, 0, 0, 0, |coms|), Incertos(coms), [];
      NadaApurado(|coms|);
      var i := 0;
      while i < |lote|
        invariant Valid() && eu !in maos && Agiu(old(historico), historico, eu, r.claimed, ds)
        invariant Seguiu(h0, s0, historico, Estado()) && Seguiu(h1, s1, historico, Estado())
        invariant forall d :: d in ds ==> d.Obsoleto? || d.status != Processando
        invariant Apurado(r, ds, |coms|) && eventos == Incertos(coms) + Avisos(ds) && r.claimed == i <= |lote|
      {
        assert lote[i] in lote;
        ghost var h, s := historico, Estado();
        var d := EntregarProxima(eu, dono, lote[i]);
        SeguiuMais(h0, s0, h, s, historico, Estado());
        SeguiuMais(h1, s1, h, s, historico, Estado());
        ghost var n, mais := if d.Algo? then 1 else 0, if d.Algo? then [d.valor] else [];
        AgiuEmSequencia(old(historico), h, historico, eu, i, n, ds, mais);
        if d.Nada? {
          assert ds + [] == ds;
          break;
        }
        ContarApura(r, ds, |coms|, d.valor);
        AvisosMais(ds, d.valor);
        ConcatAssocia(Incertos(coms), Avisos(ds), Notificar(d.valor));
        r, eventos, ds := Contar(r, d.valor), eventos + Notificar(d.valor), ds + [d.valor];
        i := i + 1;
      }
      IncertasFicam(h1, s1, historico, Estado(), ids);
      RelatosDoLote(h0, s0, historico, Estado(), eu, ds, r, |coms|);
    }
  }

  lemma VencidasNaTabela(ids: seq<string>, es: Tabela, livres: set<string>, agora: nat, limite: nat)
    requires SaoOsPrimeiros(ids, Vencidas(es, livres, agora), PorPrazo(es), limite)
    ensures forall id :: id in ids ==> id in es
  {
    PrazoEhOrdem(es);
    PrimeirosDistintos(ids, Vencidas(es, livres, agora), PorPrazo(es), limite);
  }

  lemma NadaApurado(n: nat)
    ensures Apurado(Resultado(0, 0, 0, 0, 0, 0, n), [], n) && forall s: seq<Notificacao> :: s + Avisos([]) == s
  {}

  lemma PrimeirosDistintos(ids: seq<string>, cands: set<string>, menor: (string, string) -> bool, limite: nat)
    requires SaoOsPrimeiros(ids, cands, menor, limite) && Ordem(menor)
    ensures Distintos(ids) && forall x :: x in ids ==> x in cands
  {
    CrescenteDistinta(ids, menor);
  }
}
