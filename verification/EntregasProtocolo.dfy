/** The e-mail delivery outbox as a state machine: workers that claim, send and report,
    a mail server whose answer may lie or get lost, crashes and expired leases. */
module EntregasProtocolo {
  import opened Listas

  datatype Status = Pendente | Processando | Enviada | Falha | Incerta
  datatype StatusComunicacao = ComPendente | ComEnviado | ComFalhou | ComIncerto

  /** A row of `communication_email_deliveries`. */
  datatype Entrega = Entrega(
    comunicacao: string, status: Status, tentativas: nat, maximo: nat, proxima: nat,
    dono: Opcao<string>, ate: Opcao<nat>, enviadaEm: Opcao<nat>, falhouEm: Opcao<nat>)

  /** What the sender reports: success, a transient or terminal refusal, or no idea. */
  datatype Resposta = Sucesso | Transitoria | Terminal | Desconhecida

  /** A claim held in memory by a worker, and the answer once the send returned. */
  datatype Mao = Mao(entrega: string, dono: string, tentativa: nat, maximo: nat, resposta: Opcao<Resposta>)

  /** `aceites` counts what the mail server really accepted; `enganos` the accepted sends
      that were reported as refused. Neither is known to the program. */
  datatype Sistema = Sistema(
    entregas: map<string, Entrega>, comunicacoes: map<string, StatusComunicacao>, maos: map<nat, Mao>,
    aceites: map<string, nat>, enganos: map<string, nat>)

  datatype Passo =
    | Criar(id: string, comunicacao: string, maximo: nat, agora: nat)
    | Reconciliar(vencidas: string, agora: nat)
    | Reivindicar(p: nat, entrega: string, dono: string, agora: nat, ate: nat)
    | Enviar(p: nat, aceita: bool, resposta: Resposta)
    | Concluir(p: nat, agora: nat, proxima: nat)
    | Cair(p: nat)

  // ----- transitions

  function StatusDe(s: Status): StatusComunicacao {
    match s
    case Pendente => ComPendente
    case Processando => ComPendente
    case Enviada => ComEnviado
    case Falha => ComFalhou
    case Incerta => ComIncerto
  }

  predicate Expirada(e: Entrega, agora: nat) { e.status == Processando && e.ate.Algo? && e.ate.valor < agora }

  predicate Disponivel(e: Entrega, agora: nat) { e.status == Pendente && e.proxima <= agora }

  predicate Habilitado(s: Sistema, a: Passo) {
    match a
    case Criar(id, com, maximo, _) => id !in s.entregas && com !in s.comunicacoes && 1 <= maximo <= 20
    case Reconciliar(id, agora) => id in s.entregas && Expirada(s.entregas[id], agora)
    case Reivindicar(p, id, _, agora, _) => p !in s.maos && id in s.entregas && Disponivel(s.entregas[id], agora)
    case Enviar(p, aceita, resposta) => p in s.maos && s.maos[p].resposta.Nada? && (resposta == Sucesso ==> aceita)
    case Concluir(p, _, _) => p in s.maos && s.maos[p].resposta.Algo?
    case Cair(p) => p in s.maos
  }

  /** The row is still the claim's: processing, and owned by the same worker name. */
  predicate AindaDono(s: Sistema, m: Mao) {
    m.entrega in s.entregas && s.entregas[m.entrega].status == Processando && s.entregas[m.entrega].dono == Algo(m.dono)
  }

  /** Where a reported answer leads: a transient failure is retried while attempts remain. */
  function Destino(m: Mao): Status
    requires m.resposta.Algo?
  {
    match m.resposta.valor
    case Sucesso => Enviada
    case Transitoria => if m.tentativa >= m.maximo then Falha else Pendente
    case Terminal => Falha
    case Desconhecida => Incerta
  }

  function Concluida(e: Entrega, destino: Status, agora: nat, proxima: nat): Entrega {
    e.(status := destino, dono := Nada, ate := Nada,
       proxima := if destino == Pendente then proxima else e.proxima,
       enviadaEm := if destino == Enviada then Algo(agora) else Nada,
       falhouEm := if destino == Falha || destino == Incerta then Algo(agora) else Nada)
  }

  function Reivindicada(e: Entrega, dono: string, ate: nat): Entrega {
    e.(status := Processando, dono := Algo(dono), ate := Algo(ate), tentativas := e.tentativas + 1)
  }

  function Gravar(s: Sistema, id: string, e: Entrega): Sistema {
    s.(entregas := s.entregas[id := e], comunicacoes := s.comunicacoes[e.comunicacao := StatusDe(e.status)])
  }

  function Contagem(m: map<string, nat>, id: string): nat { if id in m then m[id] else 0 }

  function Soma1(m: map<string, nat>, id: string, soma: bool): map<string, nat> {
    if soma then m[id := Contagem(m, id) + 1] else m
  }

  predicate Recusou(r: Resposta) { r == Transitoria || r == Terminal }

  function Aplicar(s: Sistema, a: Passo): Sistema
    requires Habilitado(s, a)
  {
    match a
    case Criar(id, com, maximo, agora) =>
      Gravar(s, id, Entrega(com, Pendente, 0, maximo, agora, Nada, Nada, Nada, Nada))
    case Reconciliar(id, agora) =>
      Gravar(s, id, Concluida(s.entregas[id], Incerta, agora, 0))
    case Reivindicar(p, id, dono, _, ate) =>
      var e := Reivindicada(s.entregas[id], dono, ate);
      Gravar(s, id, e).(maos := s.maos[p := Mao(id, dono, e.tentativas, e.maximo, Nada)])
    case Enviar(p, aceita, resposta) =>
      var m := s.maos[p];
      s.(maos := s.maos[p := m.(resposta := Algo(resposta))], aceites := Soma1(s.aceites, m.entrega, aceita),
         enganos := Soma1(s.enganos, m.entrega, aceita && Recusou(resposta)))
    case Concluir(p, agora, proxima) =>
      var m := s.maos[p];
      var t :=
        if AindaDono(s, m) then Gravar(s, m.entrega, Concluida(s.entregas[m.entrega], Destino(m), agora, proxima))
        else s;
      t.(maos := s.maos - {p})
    case Cair(p) =>
      s.(maos := s.maos - {p})
  }

  // ----- the invariant

  /** The table's CHECK constraints. */
  predicate LinhaOk(e: Entrega) {
    && 1 <= e.maximo <= 20 && e.tentativas <= e.maximo
    && (e.status == Pendente ==> e.tentativas < e.maximo)
    && (if e.status == Processando then e.dono.Algo? && e.ate.Algo? else e.dono.Nada? && e.ate.Nada?)
    && (e.status == Enviada <==> e.enviadaEm.Algo?)
    && (e.status == Falha || e.status == Incerta <==> e.falhouEm.Algo?)
  }

  ghost predicate LinhasOk(s: Sistema) {
    && (forall id :: id in s.entregas ==>
          && LinhaOk(s.entregas[id]) && s.entregas[id].comunicacao in s.comunicacoes
          && s.comunicacoes[s.entregas[id].comunicacao] == StatusDe(s.entregas[id].status))
    && (forall a, b :: a in s.entregas && b in s.entregas && s.entregas[a].comunicacao == s.entregas[b].comunicacao ==>
      a == b)
  }

  /** A claim in hand is of the row's current attempt; the row is either processing under
      that worker or was given up as uncertain. No row is in two hands. */
  ghost predicate MaosOk(s: Sistema) {
    && (forall p :: p in s.maos ==>
          var m := s.maos[p];
          && m.entrega in s.entregas && m.tentativa == s.entregas[m.entrega].tentativas
            && m.maximo == s.entregas[m.entrega].maximo
          && (s.entregas[m.entrega].status == Incerta
            || (s.entregas[m.entrega].status == Processando && s.entregas[m.entrega].dono == Algo(m.dono))))
    && (forall p, q :: p in s.maos && q in s.maos && s.maos[p].entrega == s.maos[q].entrega ==> p == q)
  }

  /** What a claim says about the excess of accepted sends over misreported ones. */
  predicate SaldoDaMao(m: Mao, saldo: int) {
    match m.resposta
    case Nada => saldo == 0
    case Algo(Sucesso) => saldo == 1
    case Algo(Desconhecida) => 0 <= saldo <= 1
    case Algo(_) => saldo == 0
  }

  predicate SaldoDoStatus(st: Status, saldo: int) {
    match st
    case Pendente => saldo == 0
    case Falha => saldo == 0
    case Enviada => saldo == 1
    case _ => 0 <= saldo <= 1
  }

  /** Accepted sends the program was not told were refused. */
  function Saldo(s: Sistema, id: string): int { Contagem(s.aceites, id) as int - Contagem(s.enganos, id) as int }

  ghost predicate SaldosOk(s: Sistema) {
    && (forall id :: id in s.entregas ==> SaldoDoStatus(s.entregas[id].status, Saldo(s, id)))
    && (forall p :: p in s.maos ==> SaldoDaMao(s.maos[p], Saldo(s, s.maos[p].entrega)))
    && (forall id :: id !in s.entregas ==> Contagem(s.aceites, id) == Contagem(s.enganos, id) == 0)
  }

  ghost predicate Inv(s: Sistema) { LinhasOk(s) && MaosOk(s) && SaldosOk(s) }

  // ----- every step keeps it

  /** The row a step writes. */
  lemma GravarLinhas(s: Sistema, id: string, e: Entrega)
    requires LinhasOk(s) && LinhaOk(e)
    requires if id in s.entregas then e.comunicacao == s.entregas[id].comunicacao else e.comunicacao !in s.comunicacoes
    ensures LinhasOk(Gravar(s, id, e))
  {
    hide LinhaOk, StatusDe;
  }

  lemma LinhasMantem(s: Sistema, a: Passo)
    requires Inv(s) && Habilitado(s, a)
    ensures LinhasOk(Aplicar(s, a))
  {
    match a {
      case Criar(id, com, maximo, agora) =>
        GravarLinhas(s, id, Entrega(com, Pendente, 0, maximo, agora, Nada, Nada, Nada, Nada));
      case Reconciliar(id, agora) => GravarLinhas(s, id, Concluida(s.entregas[id], Incerta, agora, 0));
      case Reivindicar(_, id, dono, _, ate) => GravarLinhas(s, id, Reivindicada(s.entregas[id], dono, ate));
      case Concluir(p, agora, proxima) =>
        var m := s.maos[p];
        if AindaDono(s, m) { GravarLinhas(s, m.entrega, Concluida(s.entregas[m.entrega], Destino(m), agora, proxima)); }
      case _ =>
    }
  }

  lemma GravarMaos(s: Sistema, id: string, e: Entrega)
    requires MaosOk(s)
    requires forall p :: p in s.maos && s.maos[p].entrega == id ==>
               s.maos[p].tentativa == e.tentativas && s.maos[p].maximo == e.maximo && e.status == Incerta
    ensures MaosOk(Gravar(s, id, e))
  {}

  lemma SoltarMao(s: Sistema, p: nat)
    requires MaosOk(s)
    ensures MaosOk(s.(maos := s.maos - {p}))
  {}

  /** A pending row is in nobody's hand, so the new claim is its only one. */
  lemma ReivindicarMaos(s: Sistema, a: Passo)
    requires MaosOk(s) && a.Reivindicar? && Habilitado(s, a)
    ensures MaosOk(Aplicar(s, a))
  {
    var e := Reivindicada(s.entregas[a.entrega], a.dono, a.ate);
    GravarMaos(s, a.entrega, e);
    NovaMao(Gravar(s, a.entrega, e), a.p, Mao(a.entrega, a.dono, e.tentativas, e.maximo, Nada));
  }

  lemma NovaMao(s: Sistema, p: nat, m: Mao)
    requires MaosOk(s) && p !in s.maos && m.entrega in s.entregas
      && (forall q :: q in s.maos ==> s.maos[q].entrega != m.entrega)
    requires var e := s.entregas[m.entrega];
      e.status == Processando && e.dono == Algo(m.dono) && e.tentativas == m.tentativa && e.maximo == m.maximo
    ensures MaosOk(s.(maos := s.maos[p := m]))
  {}

  lemma ConcluirMaos(s: Sistema, a: Passo)
    requires MaosOk(s) && a.Concluir? && Habilitado(s, a)
    ensures MaosOk(Aplicar(s, a))
  {
    var m := s.maos[a.p];
    SoltarMao(s, a.p);
    if AindaDono(s, m) {
      GravarMaos(s.(maos := s.maos - {a.p}), m.entrega,
                 Concluida(s.entregas[m.entrega], Destino(m), a.agora, a.proxima));
    }
  }

  lemma MaosMantem(s: Sistema, a: Passo)
    requires Inv(s) && Habilitado(s, a)
    ensures MaosOk(Aplicar(s, a))
  {
    match a {
      case Criar(id, com, maximo, agora) =>
        GravarMaos(s, id, Entrega(com, Pendente, 0, maximo, agora, Nada, Nada, Nada, Nada));
      case Reconciliar(id, agora) => GravarMaos(s, id, Concluida(s.entregas[id], Incerta, agora, 0));
      case Reivindicar(_, _, _, _, _) => ReivindicarMaos(s, a);
      case Enviar(_, _, _) => EnviarMaos(s, a);
      case Concluir(_, _, _) => ConcluirMaos(s, a);
      case Cair(p) => SoltarMao(s, p);
    }
  }

  lemma EnviarMaos(s: Sistema, a: Passo)
    requires MaosOk(s) && SaldosOk(s) && a.Enviar? && Habilitado(s, a)
    ensures MaosOk(Aplicar(s, a))
  {}

  lemma GravarSaldos(s: Sistema, id: string, e: Entrega)
    requires SaldosOk(s) && SaldoDoStatus(e.status, Saldo(s, id))
    ensures SaldosOk(Gravar(s, id, e))
  {
    hide SaldoDoStatus, SaldoDaMao;
  }

  lemma ReivindicarSaldos(s: Sistema, a: Passo)
    requires SaldosOk(s) && a.Reivindicar? && Habilitado(s, a)
    ensures SaldosOk(Aplicar(s, a))
  {
    GravarSaldos(s, a.entrega, Reivindicada(s.entregas[a.entrega], a.dono, a.ate));
  }

  lemma ConcluirSaldos(s: Sistema, a: Passo)
    requires SaldosOk(s) && a.Concluir? && Habilitado(s, a)
    ensures SaldosOk(Aplicar(s, a))
  {
    var m := s.maos[a.p];
    if AindaDono(s, m) { GravarSaldos(s, m.entrega, Concluida(s.entregas[m.entrega], Destino(m), a.agora, a.proxima)); }
  }

  lemma SaldosMantem(s: Sistema, a: Passo)
    requires Inv(s) && Habilitado(s, a)
    ensures SaldosOk(Aplicar(s, a))
  {
    hide LinhaOk, MaosOk, SaldoDaMao;
    match a {
      case Criar(id, com, maximo, agora) =>
        GravarSaldos(s, id, Entrega(com, Pendente, 0, maximo, agora, Nada, Nada, Nada, Nada));
      case Reconciliar(id, agora) => GravarSaldos(s, id, Concluida(s.entregas[id], Incerta, agora, 0));
      case Reivindicar(_, _, _, _, _) => ReivindicarSaldos(s, a);
      case Enviar(p, aceita, resposta) => EnviarSaldos(s, p, aceita, resposta);
      case Concluir(_, _, _) => ConcluirSaldos(s, a);
      case Cair(_) =>
    }
  }

  lemma EnviarSaldos(s: Sistema, p: nat, aceita: bool, resposta: Resposta)
    requires MaosOk(s) && SaldosOk(s) && Habilitado(s, Enviar(p, aceita, resposta))
    ensures SaldosOk(Aplicar(s, Enviar(p, aceita, resposta)))
  {
    var s' := Aplicar(s, Enviar(p, aceita, resposta));
    var d := s.maos[p].entrega;
    assert Saldo(s', d) == Saldo(s, d) + (if aceita && !Recusou(resposta) then 1 else 0);
    forall q | q in s'.maos ensures SaldoDaMao(s'.maos[q], Saldo(s', s'.maos[q].entrega)) {}
  }

  lemma PassoMantem(s: Sistema, a: Passo)
    requires Inv(s) && Habilitado(s, a)
    ensures Inv(Aplicar(s, a))
  {
    LinhasMantem(s, a);
    MaosMantem(s, a);
    SaldosMantem(s, a);
  }

  // ----- whole runs

  /** `s` becomes `fim` by enabled steps of any workers, in any interleaving. */
  ghost predicate Executa(s: Sistema, passos: seq<Passo>, fim: Sistema)
    decreases |passos|
  {
    if passos == [] then fim == s
    else Habilitado(s, passos[0]) && Executa(Aplicar(s, passos[0]), passos[1..], fim)
  }

  const VAZIO := Sistema(map[], map[], map[], map[], map[])

  lemma {:induction false} ExecucaoMantem(s: Sistema, passos: seq<Passo>, fim: Sistema)
    requires Inv(s) && Executa(s, passos, fim)
    ensures Inv(fim)
    decreases |passos|
  {
    if passos != [] {
      PassoMantem(s, passos[0]);
      ExecucaoMantem(Aplicar(s, passos[0]), passos[1..], fim);
    }
  }

  /** Main result: in every reachable state the mail server has accepted a delivery at
      most once more than it falsely reported a refusal, and the status tells how often: a
      sent delivery once more, a pending or failed one not. */
  lemma AceitaNoMaximoUmaVez(passos: seq<Passo>, fim: Sistema, id: string)
    requires Executa(VAZIO, passos, fim) && id in fim.entregas
    ensures Contagem(fim.enganos, id) <= Contagem(fim.aceites, id) <= Contagem(fim.enganos, id) + 1
    ensures match fim.entregas[id].status
            case Enviada => Contagem(fim.aceites, id) == Contagem(fim.enganos, id) + 1
            case Pendente => Contagem(fim.aceites, id) == Contagem(fim.enganos, id)
            case Falha => Contagem(fim.aceites, id) == Contagem(fim.enganos, id)
            case _ => true
    ensures LinhaOk(fim.entregas[id]) && fim.entregas[id].comunicacao in fim.comunicacoes
    ensures fim.comunicacoes[fim.entregas[id].comunicacao]
      == if fim.entregas[id].status.Enviada? then ComEnviado
         else if fim.entregas[id].status.Falha? then ComFalhou
         else if fim.entregas[id].status.Incerta? then ComIncerto
         else ComPendente
  {
    ExecucaoMantem(VAZIO, passos, fim);
    assert SaldoDoStatus(fim.entregas[id].status, Saldo(fim, id));
  }

  predicate EhTerminal(st: Status) { st == Enviada || st == Falha || st == Incerta }

  /** A terminal row is never written again. */
  lemma {:induction false} TerminalParaSempre(s: Sistema, passos: seq<Passo>, fim: Sistema, id: string)
    requires Executa(s, passos, fim) && id in s.entregas && EhTerminal(s.entregas[id].status)
    ensures id in fim.entregas && fim.entregas[id] == s.entregas[id]
    decreases |passos|
  {
    if passos != [] { TerminalParaSempre(Aplicar(s, passos[0]), passos[1..], fim, id); }
  }

  function Reivindicou(id: string): Passo -> bool { (a: Passo) => a.Reivindicar? && a.entrega == id }

  function Tentativas(s: Sistema, id: string): nat { if id in s.entregas then s.entregas[id].tentativas else 0 }

  /** The attempt counter counts the claims, so there are at most `maximo` of them. */
  lemma {:induction false} TentativasContam(s: Sistema, passos: seq<Passo>, fim: Sistema, id: string)
    requires Executa(s, passos, fim)
    ensures Tentativas(fim, id) == Tentativas(s, id) + Conta(passos, Reivindicou(id))
    decreases |passos|
  {
    if passos != [] { TentativasContam(Aplicar(s, passos[0]), passos[1..], fim, id); }
  }

  /** How many times the run contacts the mail server for `id`. */
  ghost function Envios(s: Sistema, passos: seq<Passo>, id: string): nat
    decreases |passos|
  {
    if passos == [] || !Habilitado(s, passos[0]) then 0
    else
      var contatou := passos[0].Enviar? && s.maos[passos[0].p].entrega == id;
      (if contatou then 1 else 0) + Envios(Aplicar(s, passos[0]), passos[1..], id)
  }

  ghost predicate Armada(s: Sistema, id: string) {
    exists p :: p in s.maos && s.maos[p].entrega == id && s.maos[p].resposta.Nada?
  }

  /** A claim sends at most once. */
  lemma {:induction false} EnviosPorReivindicacao(s: Sistema, passos: seq<Passo>, fim: Sistema, id: string)
    requires Inv(s) && Executa(s, passos, fim)
    ensures Envios(s, passos, id) <= Conta(passos, Reivindicou(id)) + (if Armada(s, id) then 1 else 0)
    decreases |passos|
  {
    if passos != [] {
      var s' := Aplicar(s, passos[0]);
      PassoMantem(s, passos[0]);
      EnviosPorReivindicacao(s', passos[1..], fim, id);
      ArmadaDepois(s, passos[0], id);
    }
  }

  lemma ArmadaDepois(s: Sistema, a: Passo, id: string)
    requires Inv(s) && Habilitado(s, a)
    ensures Armada(Aplicar(s, a), id) ==> Armada(s, id) || Reivindicou(id)(a)
    ensures a.Enviar? && s.maos[a.p].entrega == id ==> Armada(s, id) && !Armada(Aplicar(s, a), id)
  {}

  /** From the start, a delivery is sent at most `maximo` times. */
  lemma EnviosLimitados(passos: seq<Passo>, fim: Sistema, id: string)
    requires Executa(VAZIO, passos, fim) && id in fim.entregas
    ensures Envios(VAZIO, passos, id) <= fim.entregas[id].tentativas <= fim.entregas[id].maximo <= 20
  {
    EnviosPorReivindicacao(VAZIO, passos, fim, id);
    TentativasContam(VAZIO, passos, fim, id);
    ExecucaoMantem(VAZIO, passos, fim);
  }

  lemma Encadear(s: Sistema, a: Passo, resto: seq<Passo>, fim: Sistema)
    requires Habilitado(s, a) && Executa(Aplicar(s, a), resto, fim)
    ensures Executa(s, [a] + resto, fim)
  {
    assert ([a] + resto)[1..] == resto;
  }

  /** One attempt by worker 0: claim, send, report. */
  function Tentativa(aceita: bool, resposta: Resposta): seq<Passo> {
    [Reivindicar(0, "d", "w", 0, 9), Enviar(0, aceita, resposta), Concluir(0, 0, 0)]
  }

  lemma TentarUmaVez(s: Sistema, aceita: bool, resposta: Resposta) returns (fim: Sistema)
    requires s.maos == map[] && "d" in s.entregas && Disponivel(s.entregas["d"], 0) && (resposta == Sucesso ==> aceita)
    ensures Executa(s, Tentativa(aceita, resposta), fim) && fim.maos == map[]
    ensures Contagem(fim.aceites, "d") == Contagem(s.aceites, "d") + (if aceita then 1 else 0)
    ensures "d" in fim.entregas && fim.entregas["d"].maximo == s.entregas["d"].maximo
    ensures resposta == Transitoria && s.entregas["d"].tentativas + 1 < s.entregas["d"].maximo ==>
      Disponivel(fim.entregas["d"], 0)
  {
    var s1 := Aplicar(s, Reivindicar(0, "d", "w", 0, 9));
    var s2 := Aplicar(s1, Enviar(0, aceita, resposta));
    fim := Aplicar(s2, Concluir(0, 0, 0));
    Encadear(s2, Concluir(0, 0, 0), [], fim);
    Encadear(s1, Enviar(0, aceita, resposta), [Concluir(0, 0, 0)], fim);
    Encadear(s, Reivindicar(0, "d", "w", 0, 9), [Enviar(0, aceita, resposta)] + [Concluir(0, 0, 0)], fim);
    assert fim.maos == map[];
  }

  lemma {:induction false} Juntar(s: Sistema, a: seq<Passo>, meio: Sistema, b: seq<Passo>, fim: Sistema)
    requires Executa(s, a, meio) && Executa(meio, b, fim)
    ensures Executa(s, a + b, fim)
    decreases |a|
  {
    hide Habilitado, Aplicar;
    if a == [] {
      assert a + b == b;
    } else {
      Juntar(Aplicar(s, a[0]), a[1..], meio, b, fim);
      assert (a + b)[1..] == a[1..] + b;
    }
  }

  /** Why truthful refusals are needed: a transient error reported for an accepted message
      is retried, and the message is accepted twice. */
  lemma ExemploAceitaDuasVezes() returns (fim: Sistema)
    ensures Executa(VAZIO, [Criar("d", "c", 2, 0)] + (Tentativa(true, Transitoria) + Tentativa(true, Sucesso)), fim)
    ensures Contagem(fim.aceites, "d") == 2
  {
    var s := Aplicar(VAZIO, Criar("d", "c", 2, 0));
    var meio := TentarUmaVez(s, true, Transitoria);
    fim := TentarUmaVez(meio, true, Sucesso);
    Juntar(s, Tentativa(true, Transitoria), meio, Tentativa(true, Sucesso), fim);
    Encadear(VAZIO, Criar("d", "c", 2, 0), Tentativa(true, Transitoria) + Tentativa(true, Sucesso), fim);
  }

  // ----- one worker's outcomes along a run

  /** What a report does: it moves the row to the answer's destination and tells which
      communication moved, or finds that the row is no longer the claim's. */
  datatype Desfecho = Obsoleto | Transicao(comunicacao: string, status: Status)

  function DesfechoDe(s: Sistema, m: Mao): Desfecho
    requires m.resposta.Algo?
  {
    if AindaDono(s, m) then Transicao(s.entregas[m.entrega].comunicacao, Destino(m)) else Obsoleto
  }

  function DoPasso(s: Sistema, a: Passo, eu: nat): seq<Desfecho>
    requires Habilitado(s, a)
  {
    if a.Concluir? && a.p == eu then [DesfechoDe(s, s.maos[eu])] else []
  }

  /** The outcomes of worker `eu` along the run, in order. */
  ghost function Desfechos(s: Sistema, passos: seq<Passo>, eu: nat): seq<Desfecho>
    decreases |passos|
  {
    if passos == [] || !Habilitado(s, passos[0]) then []
    else DoPasso(s, passos[0], eu) + Desfechos(Aplicar(s, passos[0]), passos[1..], eu)
  }

  lemma {:induction false} DesfechosMais(s: Sistema, passos: seq<Passo>, meio: Sistema, a: Passo, eu: nat)
    requires Executa(s, passos, meio) && Habilitado(meio, a)
    ensures Desfechos(s, passos + [a], eu) == Desfechos(s, passos, eu) + DoPasso(meio, a, eu)
    decreases |passos|
  {
    if passos == [] {
      assert ([] + [a])[1..] == [];
    } else {
      hide Habilitado, Aplicar;
      DesfechosMais(Aplicar(s, passos[0]), passos[1..], meio, a, eu);
      assert (passos + [a])[1..] == passos[1..] + [a];
      ConcatAssocia(DoPasso(s, passos[0], eu), Desfechos(Aplicar(s, passos[0]), passos[1..], eu), DoPasso(meio, a, eu));
    }
  }

  lemma {:induction false} DesfechosJuntam(s: Sistema, a: seq<Passo>, meio: Sistema, b: seq<Passo>, eu: nat)
    requires Executa(s, a, meio)
    ensures Desfechos(s, a + b, eu) == Desfechos(s, a, eu) + Desfechos(meio, b, eu)
    decreases |a|
  {
    if a == [] {
      assert a + b == b;
    } else {
      hide Habilitado, Aplicar, DoPasso;
      DesfechosJuntam(Aplicar(s, a[0]), a[1..], meio, b, eu);
      assert (a + b)[1..] == a[1..] + b;
      ConcatAssocia(DoPasso(s, a[0], eu), Desfechos(Aplicar(s, a[0]), a[1..], eu), Desfechos(meio, b, eu));
    }
  }

  // ----- what a report does, answer by answer

  /** The row is still being processed under the name of the claim. */
  ghost predicate Continua(s: Sistema, m: Mao) {
    m.entrega in s.entregas && s.entregas[m.entrega].status.Processando? && s.entregas[m.entrega].dono == Algo(m.dono)
  }

  /** The row was written with this status, and its communication with that one; nothing
      else of the row changed but its lease, its dates and, for a retry, its due time. */
  ghost predicate Gravou(s: Sistema, id: string, t: Sistema, status: Status, com: StatusComunicacao, proxima: nat,
                         enviada: Opcao<nat>, falhou: Opcao<nat>)
    requires id in s.entregas
  {
    var e := s.entregas[id];
    && t.entregas
      == s.entregas[id := Entrega(e.comunicacao, status, e.tentativas, e.maximo, proxima, Nada, Nada, enviada,
                                              falhou)]
    && t.comunicacoes == s.comunicacoes[e.comunicacao := com]
  }

  /** What reporting the claim `m` must leave, and the outcome it must return. */
  ghost predicate Registrou(s: Sistema, m: Mao, agora: nat, proxima: nat, t: Sistema, d: Desfecho)
    requires m.resposta.Algo?
  {
    if !Continua(s, m) then t.entregas == s.entregas && t.comunicacoes == s.comunicacoes && d == Obsoleto
    else
      var e := s.entregas[m.entrega];
      match m.resposta.valor
      case Sucesso =>
        Gravou(s, m.entrega, t, Enviada, ComEnviado, e.proxima, Algo(agora), Nada)
        && d == Transicao(e.comunicacao, Enviada)
      case Terminal =>
        Gravou(s, m.entrega, t, Falha, ComFalhou, e.proxima, Nada, Algo(agora)) && d == Transicao(e.comunicacao, Falha)
      case Desconhecida =>
        Gravou(s, m.entrega, t, Incerta, ComIncerto, e.proxima, Nada, Algo(agora))
        && d == Transicao(e.comunicacao, Incerta)
      case Transitoria =>
        if m.tentativa < m.maximo then
          Gravou(s, m.entrega, t, Pendente, ComPendente, proxima, Nada, Nada) && d == Transicao(e.comunicacao, Pendente)
        else
          Gravou(s, m.entrega, t, Falha, ComFalhou, e.proxima, Nada, Algo(agora))
            && d == Transicao(e.comunicacao, Falha)
  }

  /** A report writes the answer it was given, and nothing once the row is someone else's. */
  lemma ConcluirRegistra(s: Sistema, p: nat, agora: nat, proxima: nat)
    requires p in s.maos && s.maos[p].resposta.Algo?
    ensures var t := Aplicar(s, Concluir(p, agora, proxima));
            Registrou(s, s.maos[p], agora, proxima, t, DesfechoDe(s, s.maos[p])) && t.maos == s.maos - {p}
  {}

  function DeuCerto(): Mao -> bool { (m: Mao) => m.resposta == Algo(Sucesso) }
  function Repete(): Mao -> bool { (m: Mao) => m.resposta == Algo(Transitoria) && m.tentativa < m.maximo }
  function NaoVai(): Mao -> bool {
    (m: Mao) => m.resposta == Algo(Terminal) || (m.resposta == Algo(Transitoria) && m.tentativa >= m.maximo)
  }
  function NaoSeSabe(): Mao -> bool { (m: Mao) => m.resposta == Algo(Desconhecida) }

  /** Worker `eu` reports, on a row that is still its claim's, an answer that satisfies `q`. */
  ghost predicate Relatou(s: Sistema, a: Passo, eu: nat, q: Mao -> bool) {
    a.Concluir? && a.p == eu && eu in s.maos && Continua(s, s.maos[eu]) && q(s.maos[eu])
  }

  /** How many such reports the run makes. */
  ghost function Relatos(s: Sistema, passos: seq<Passo>, eu: nat, q: Mao -> bool): nat
    decreases |passos|
  {
    if passos == [] || !Habilitado(s, passos[0]) then 0
    else (if Relatou(s, passos[0], eu, q) then 1 else 0) + Relatos(Aplicar(s, passos[0]), passos[1..], eu, q)
  }

  function Foi(st: Status): Desfecho -> bool { (d: Desfecho) => d.Transicao? && d.status == st }

  lemma DoPassoRelata(s: Sistema, a: Passo, eu: nat)
    requires Habilitado(s, a)
    ensures Conta(DoPasso(s, a, eu), Foi(Enviada)) == (if Relatou(s, a, eu, DeuCerto()) then 1 else 0)
    ensures Conta(DoPasso(s, a, eu), Foi(Pendente)) == (if Relatou(s, a, eu, Repete()) then 1 else 0)
    ensures Conta(DoPasso(s, a, eu), Foi(Falha)) == (if Relatou(s, a, eu, NaoVai()) then 1 else 0)
    ensures Conta(DoPasso(s, a, eu), Foi(Incerta)) == (if Relatou(s, a, eu, NaoSeSabe()) then 1 else 0)
  {
    if a.Concluir? && a.p == eu {
      var d := DesfechoDe(s, s.maos[eu]);
      SomaUnitaria(d, Indicador(Foi(Enviada)));
      SomaUnitaria(d, Indicador(Foi(Pendente)));
      SomaUnitaria(d, Indicador(Foi(Falha)));
      SomaUnitaria(d, Indicador(Foi(Incerta)));
    }
  }

  /** The outcomes of a run, counted by kind, are its answers on rows still owned. */
  lemma {:induction false} DesfechosRelatam(s: Sistema, passos: seq<Passo>, eu: nat)
    ensures Conta(Desfechos(s, passos, eu), Foi(Enviada)) == Relatos(s, passos, eu, DeuCerto())
    ensures Conta(Desfechos(s, passos, eu), Foi(Pendente)) == Relatos(s, passos, eu, Repete())
    ensures Conta(Desfechos(s, passos, eu), Foi(Falha)) == Relatos(s, passos, eu, NaoVai())
    ensures Conta(Desfechos(s, passos, eu), Foi(Incerta)) == Relatos(s, passos, eu, NaoSeSabe())
    decreases |passos|
  {
    if passos != [] && Habilitado(s, passos[0]) {
      hide Habilitado, Aplicar, DoPasso, Relatou, Foi, Indicador;
      var x, resto := DoPasso(s, passos[0], eu), Desfechos(Aplicar(s, passos[0]), passos[1..], eu);
      DesfechosRelatam(Aplicar(s, passos[0]), passos[1..], eu);
      DoPassoRelata(s, passos[0], eu);
      SomaConcat(x, resto, Indicador(Foi(Enviada)));
      SomaConcat(x, resto, Indicador(Foi(Pendente)));
      SomaConcat(x, resto, Indicador(Foi(Falha)));
      SomaConcat(x, resto, Indicador(Foi(Incerta)));
    }
  }
}
