/** The tables of the realtime outbox and what they owe to the committed history. */
module OutboxInvariantes {
  import opened Listas
  import opened Eventos

  /** A row of `realtime_outbox`. */
  datatype Registro = Registro(evento: Evento, publicado: Opcao<nat>, dono: Opcao<string>, ate: Opcao<nat>,
                               proxima: nat, tentativas: nat)

  /** A row of `realtime_topic_state`: the topic's watermark and its replay floor. */
  datatype Topico = Topico(ultimo: nat, ordem: nat, evento: Opcao<Evento>, piso: nat)

  /** A row of `realtime_read_cursors`. */
  datatype Cursor = Cursor(lido: nat, ordem: nat)

  type Topicos = map<string, Topico>
  type Cursores = map<(int, string), Cursor>

  function TopicoDe(ts: Topicos, t: string): Topico { if t in ts then ts[t] else Topico(0, 0, Nada, 0) }
  function CursorDe(cs: Cursores, u: int, t: string): Cursor { if (u, t) in cs then cs[(u, t)] else Cursor(0, 0) }
  function EventoDe(): Registro -> Evento { (r: Registro) => r.evento }

  // ----- invariants

  /** The watermark of a topic is its last event; its floor is 0 or an older event of it. */
  ghost predicate TopicoOk(h: seq<Evento>, t: string, tp: Topico) {
    && tp.ordem == Conta(h, DoTopico(t))
    && (tp.evento.Nada? ==> tp.ultimo == 0 && tp.ordem == 0)
    && (tp.evento.Algo? ==> tp.evento.valor in h && tp.evento.valor.topico == t && tp.evento.valor.numero == tp.ultimo)
    && (forall e :: e in h && e.topico == t ==> e.numero <= tp.ultimo)
    && (tp.piso == 0 || (tp.piso < tp.ultimo && exists e :: e in h && e.topico == t && e.numero == tp.piso))
  }

  ghost predicate TopicosOk(h: seq<Evento>, ts: Topicos) { forall t :: TopicoOk(h, t, TopicoDe(ts, t)) }

  /** Not yet cleaned up. */
  function Retido(ts: Topicos): Evento -> bool { (e: Evento) => e.numero > TopicoDe(ts, e.topico).piso }

  /** The table holds exactly the events above the floor of their topic, in commit order. */
  ghost predicate RegistrosOk(h: seq<Evento>, ts: Topicos, rs: seq<Registro>) {
    && Mapear(rs, EventoDe()) == Filtrar(h, Retido(ts))
    && (forall a, b :: a in rs && b in rs && a.evento.id == b.evento.id ==> a.evento.numero == b.evento.numero)
  }

  /** The cursor's topic sequence counts the topic's events it has read. */
  ghost predicate CursorOk(h: seq<Evento>, t: string, tp: Topico, c: Cursor) {
    c.lido <= tp.ultimo && c.ordem == Conta(h, AteNumero(t, c.lido))
  }

  ghost predicate CursoresOk(h: seq<Evento>, ts: Topicos, cs: Cursores) {
    forall u, t :: CursorOk(h, t, TopicoDe(ts, t), CursorDe(cs, u, t))
  }

  /** `r` is the first event not yet published. */
  ghost predicate Cabeca(h: seq<Evento>, marca: nat, r: Registro) {
    r.evento.numero > marca && forall e :: e in h && e.numero < r.evento.numero ==> e.numero <= marca
  }

  /** Published rows are exactly those up to `marca`, published in order; only published
      rows were cleaned up; only the head of the queue is ever claimed. */
  ghost predicate PublicacaoOk(h: seq<Evento>, ts: Topicos, rs: seq<Registro>, marca: nat, relogio: nat) {
    && (forall r :: r in rs ==> (r.publicado.Algo? <==> r.evento.numero <= marca))
    && (forall t :: TopicoDe(ts, t).piso <= marca)
    && (forall r :: r in rs && r.publicado.Algo? ==> r.publicado.valor <= relogio)
    && (forall a, b ::
      a in rs && b in rs && a.evento.numero <= b.evento.numero && a.publicado.Algo? && b.publicado.Algo? ==>
          a.publicado.valor <= b.publicado.valor)
    && (forall r :: r in rs && r.dono.Algo? ==> Cabeca(h, marca, r))
  }

  /** What the stream carries: its first appearances are a prefix of the history. */
  ghost predicate FluxoOk(h: seq<Evento>, marca: nat, fluxo: seq<nat>, tentados: set<nat>) {
    && Chegada(fluxo) <= Numeros(h)
    && (forall e :: e in h && e.numero <= marca ==> e.numero in fluxo)
    && (forall n :: n in tentados ==> n in Numeros(h) && forall e :: e in h && e.numero < n ==> e.numero in fluxo)
  }

  /** Everything the tables and the history owe each other. */
  ghost predicate TabelasOk(h: seq<Evento>, ts: Topicos, rs: seq<Registro>, cs: Cursores, sequencia: nat, marca: nat,
                            relogio: nat) {
    && Numerada(h) && TopicosOk(h, ts) && RegistrosOk(h, ts, rs) && CursoresOk(h, ts, cs)
    && PublicacaoOk(h, ts, rs, marca, relogio)
    && marca <= sequencia && forall e :: e in h ==> e.numero <= sequencia
  }

  /** The tables, the stream and the history agree. */
  ghost predicate Coerente(h: seq<Evento>, ts: Topicos, rs: seq<Registro>, cs: Cursores, sequencia: nat,
                           marca: nat, relogio: nat, fluxo: seq<nat>, tentados: set<nat>) {
    TabelasOk(h, ts, rs, cs, sequencia, marca, relogio) && FluxoOk(h, marca, fluxo, tentados)
  }

  // ----- reading the table through its history

  lemma RegistroEhRetido(h: seq<Evento>, ts: Topicos, rs: seq<Registro>, r: Registro)
    requires RegistrosOk(h, ts, rs) && r in rs
    ensures r.evento in h && Retido(ts)(r.evento)
  {
    MapearContem(rs, EventoDe(), r);
  }

  lemma RetidoTemRegistro(h: seq<Evento>, ts: Topicos, rs: seq<Registro>, e: Evento) returns (r: Registro)
    requires RegistrosOk(h, ts, rs) && e in h && Retido(ts)(e)
    ensures r in rs && r.evento == e
  {
    var m := Mapear(rs, EventoDe());
    var k :| 0 <= k < |m| && m[k] == e;
    r := rs[k];
  }

  /** Rows come in increasing sequence. */
  lemma RegistrosCrescem(h: seq<Evento>, ts: Topicos, rs: seq<Registro>)
    requires Numerada(h) && RegistrosOk(h, ts, rs)
    ensures forall i, j :: 0 <= i < j < |rs| ==> rs[i].evento.numero < rs[j].evento.numero
  {
    var f := Filtrar(h, Retido(ts));
    FiltrarCrescente(h, Retido(ts), MenorNumero);
    forall i, j | 0 <= i < j < |rs| ensures rs[i].evento.numero < rs[j].evento.numero {
      assert f[i] == rs[i].evento && f[j] == rs[j].evento;
      assert MenorNumero(f[i], f[j]);
    }
  }

  /** A query on the table that asks for events above every relevant floor reads the history. */
  lemma ConsultaExata(h: seq<Evento>, ts: Topicos, rs: seq<Registro>, p: Evento -> bool)
    requires RegistrosOk(h, ts, rs)
    requires forall e :: e in h && p(e) ==> Retido(ts)(e)
    ensures Mapear(Filtrar(rs, Por(p, EventoDe())), EventoDe()) == Filtrar(h, p)
  {
    FiltrarMapear(rs, EventoDe(), p);
    FiltrarFiltrar(h, Retido(ts), p);
    FiltrarIgual(h, Ambos(Retido(ts), p), p);
  }
}
