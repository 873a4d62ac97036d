/** What the outbox answers to readers, compared with the committed history: unseen
    counts, acknowledgements, replays and the stream-gap check. */
module OutboxLeituras {
  import opened Aritmetica
  import opened Listas
  import opened Eventos
  import opened OutboxInvariantes
  import opened OutboxPassos

  // ----- unseen

  function NaoVistos(tp: Topico, c: Cursor): nat { if tp.ordem > c.ordem then tp.ordem - c.ordem else 0 }

  /** The subtraction of two counters is the number of history events after the cursor,
      whatever was cleaned up. */
  lemma NaoVistosConta(h: seq<Evento>, t: string, tp: Topico, c: Cursor)
    requires TopicoOk(h, t, tp) && CursorOk(h, t, tp, c)
    ensures NaoVistos(tp, c) == Contagem(h, DepoisDe(t, c.lido))
  {
    ContaPartida(h, t, c.lido);
    ContaLimites(h, DepoisDe(t, c.lido));
  }

  /** A cursor placed at the topic's watermark has read everything. */
  lemma CursorNoFim(h: seq<Evento>, t: string, tp: Topico)
    requires TopicoOk(h, t, tp)
    ensures CursorOk(h, t, tp, Cursor(tp.ultimo, tp.ordem))
  {
    ContaIgual(h, AteNumero(t, tp.ultimo), DoTopico(t));
  }

  // ----- acknowledging

  datatype Confirmacao = Confirmado(cursor: Cursor) | CursorAdiante | Reconciliar

  function LidoAte(t: string, n: nat): Registro -> bool {
    (r: Registro) => r.evento.topico == t && r.evento.numero <= n
  }

  function MaiorOrdem(rs: seq<Registro>): (m: Opcao<nat>)
    ensures m.Nada? <==> rs == []
    ensures m.Algo? ==>
      (exists r :: r in rs && r.evento.ordem == m.valor) && forall r :: r in rs ==> r.evento.ordem <= m.valor
  {
    if rs == [] then Nada
    else
      match MaiorOrdem(rs[1..])
      case Nada => Algo(rs[0].evento.ordem)
      case Algo(n) => Algo(Max(rs[0].evento.ordem, n))
  }

  /** The upsert: both components only grow. */
  function Avancar(c: Cursor, ate: nat, ordem: nat): Cursor { Cursor(Max(c.lido, ate), Max(c.ordem, ordem)) }

  function Confirmar(ts: Topicos, rs: seq<Registro>, cs: Cursores, u: int, t: string, ate: nat): Confirmacao {
    var tp, c := TopicoDe(ts, t), CursorDe(cs, u, t);
    if ate > tp.ultimo then CursorAdiante
    else if ate == 0 then Confirmado(Avancar(c, 0, 0))
    else if ate == tp.ultimo then Confirmado(Avancar(c, ate, tp.ordem))
    else
      match MaiorOrdem(Filtrar(rs, LidoAte(t, ate)))
      case Algo(ordem) => Confirmado(Avancar(c, ate, ordem))
      case Nada => if (u, t) in cs && ate <= c.lido then Confirmado(c) else Reconciliar
  }

  /** No event of the topic lies between its last retained row up to `ate` and `ate`. */
  lemma ContaAteOUltimoRetido(h: seq<Evento>, ts: Topicos, rs: seq<Registro>, t: string, ate: nat, w: Registro)
    requires RegistrosOk(h, ts, rs) && w in rs && LidoAte(t, ate)(w)
    requires forall r :: r in rs && LidoAte(t, ate)(r) ==> r.evento.numero <= w.evento.numero
    ensures Conta(h, AteNumero(t, w.evento.numero)) == Conta(h, AteNumero(t, ate))
  {
    RegistroEhRetido(h, ts, rs, w);
    forall e | e in h ensures AteNumero(t, w.evento.numero)(e) == AteNumero(t, ate)(e) {
      if e.topico == t && w.evento.numero < e.numero <= ate {
        var r := RetidoTemRegistro(h, ts, rs, e);
      }
    }
    ContaIgual(h, AteNumero(t, w.evento.numero), AteNumero(t, ate));
  }

  lemma OrdemDoRetido(h: seq<Evento>, ts: Topicos, rs: seq<Registro>, t: string, ate: nat, v: Registro)
    requires Numerada(h) && RegistrosOk(h, ts, rs) && v in rs && LidoAte(t, ate)(v)
    ensures v.evento.ordem == Conta(h, AteNumero(t, v.evento.numero)) <= Conta(h, AteNumero(t, ate))
  {
    RegistroEhRetido(h, ts, rs, v);
    ContaMonotona(h, t, v.evento.numero, ate);
  }

  lemma OrdemDosRetidos(h: seq<Evento>, ts: Topicos, rs: seq<Registro>, t: string, ate: nat)
    requires Numerada(h) && RegistrosOk(h, ts, rs) && Filtrar(rs, LidoAte(t, ate)) != []
    ensures MaiorOrdem(Filtrar(rs, LidoAte(t, ate))) == Algo(Contagem(h, AteNumero(t, ate)))
  {
    var f := Filtrar(rs, LidoAte(t, ate));
    var w := Ultimo(f);
    ContaAteOUltimoRetido(h, ts, rs, t, ate, w);
    forall v | v in f ensures v.evento.ordem <= Contagem(h, AteNumero(t, ate)) { OrdemDoRetido(h, ts, rs, t, ate, v); }
    OrdemDoRetido(h, ts, rs, t, ate, w);
    MaximoEh(f, w.evento.ordem);
  }

  lemma Ultimo(rs: seq<Registro>) returns (w: Registro)
    requires rs != []
    ensures w in rs && forall r :: r in rs ==> r.evento.numero <= w.evento.numero
  {
    var m := MaiorNumero(rs).valor;
    w :| w in rs && w.evento.numero == m;
  }

  lemma MaximoEh(rs: seq<Registro>, n: nat)
    requires (exists r :: r in rs && r.evento.ordem == n) && forall r :: r in rs ==> r.evento.ordem <= n
    ensures MaiorOrdem(rs) == Algo(n)
  {}

  /** An acknowledgement moves the cursor to the larger of its position and the requested
      one, and its counter still counts what was read. */
  lemma ConfirmarExato(h: seq<Evento>, ts: Topicos, rs: seq<Registro>, cs: Cursores, u: int, t: string, ate: nat)
    requires Numerada(h) && TopicosOk(h, ts) && RegistrosOk(h, ts, rs) && CursoresOk(h, ts, cs)
    ensures var r := Confirmar(ts, rs, cs, u, t, ate);
            r.Confirmado? ==>
              r.cursor.lido == Max(CursorDe(cs, u, t).lido, ate) && CursorOk(h, t, TopicoDe(ts, t), r.cursor)
  {
    var tp, c := TopicoDe(ts, t), CursorDe(cs, u, t);
    assert CursorOk(h, t, tp, c) && TopicoOk(h, t, tp);
    ContaMonotona(h, t, Min(c.lido, ate), Max(c.lido, ate));
    ContaLimites(h, AteNumero(t, c.lido));
    CursorNoFim(h, t, tp);
    if Filtrar(rs, LidoAte(t, ate)) != [] { OrdemDosRetidos(h, ts, rs, t, ate); }
  }

  /** On a coherent state, the acknowledged cursor is within the topic and leaves unseen
      exactly the events after it. */
  lemma ConfirmarCoerente(h: seq<Evento>, ts: Topicos, rs: seq<Registro>, cs: Cursores, sequencia: nat,
                          marca: nat, relogio: nat, fluxo: seq<nat>, tentados: set<nat>, u: int, t: string, ate: nat)
    requires Coerente(h, ts, rs, cs, sequencia, marca, relogio, fluxo, tentados)
    requires Confirmar(ts, rs, cs, u, t, ate).Confirmado?
    ensures var c := Confirmar(ts, rs, cs, u, t, ate).cursor;
            && c.lido == Max(CursorDe(cs, u, t).lido, ate) && CursorOk(h, t, TopicoDe(ts, t), c)
            && NaoVistos(TopicoDe(ts, t), c) == Contagem(h, DepoisDe(t, c.lido))
  {
    ConfirmarExato(h, ts, rs, cs, u, t, ate);
    LinhaDoUsuario(h, ts, rs, cs, sequencia, marca, relogio, fluxo, tentados, u, t);
    NaoVistosConta(h, t, TopicoDe(ts, t), Confirmar(ts, rs, cs, u, t, ate).cursor);
  }

  /** It is refused exactly when it is ahead of the topic, or strictly inside the topic
      with nothing retained up to it and beyond the user's own cursor. */
  lemma ConfirmarRecusa(h: seq<Evento>, ts: Topicos, rs: seq<Registro>, cs: Cursores, u: int, t: string, ate: nat)
    requires RegistrosOk(h, ts, rs)
    ensures Confirmar(ts, rs, cs, u, t, ate) == CursorAdiante <==> ate > TopicoDe(ts, t).ultimo
    ensures Confirmar(ts, rs, cs, u, t, ate) == Reconciliar
       <==> && 0 < ate < TopicoDe(ts, t).ultimo
            && (forall e :: e in h && AteNumero(t, ate)(e) ==> !Retido(ts)(e))
            && ((u, t) !in cs || ate > CursorDe(cs, u, t).lido)
  {
    var f := Filtrar(rs, LidoAte(t, ate));
    if f != [] { RegistroEhRetido(h, ts, rs, f[0]); }
    forall e | e in h && AteNumero(t, ate)(e) && Retido(ts)(e) ensures f != [] {
      var r := RetidoTemRegistro(h, ts, rs, e);
      assert LidoAte(t, ate)(r);
    }
  }

  // ----- watermarks over all topics

  function UltimoDe(): Topico -> nat { (tp: Topico) => tp.ultimo }
  function PisoDe(): Topico -> nat { (tp: Topico) => tp.piso }

  /** SQL's `max(f)` over the topic rows, 0 when there is none. */
  ghost predicate EhMaximo(ts: Topicos, f: Topico -> nat, n: nat) {
    (forall t :: t in ts ==> f(ts[t]) <= n) && (n == 0 || exists t :: t in ts && f(ts[t]) == n)
  }

  /** The global watermark is the last committed event. */
  lemma UltimoGlobal(h: seq<Evento>, ts: Topicos, n: nat, m: nat)
    requires TopicosOk(h, ts) && EhMaximo(ts, UltimoDe(), n)
    ensures m > n <==> m > 0 && forall e :: e in h ==> e.numero < m
  {
    forall e | e in h ensures e.numero <= n {
      assert TopicoOk(h, e.topico, TopicoDe(ts, e.topico));
      ContaLimites(h, DoTopico(e.topico));
      assert DoTopico(e.topico)(e);
      if e.topico in ts { assert UltimoDe()(ts[e.topico]) <= n; }
    }
    if n > 0 {
      var t :| t in ts && UltimoDe()(ts[t]) == n;
      assert TopicoOk(h, t, TopicoDe(ts, t));
    }
  }

  // ----- replay

  function Entre(alvo: set<string>, apos: nat, ate: Opcao<nat>): Evento -> bool {
    (e: Evento) => e.topico in alvo && e.numero > apos && (ate.Algo? ==> e.numero <= ate.valor)
  }

  predicate AbaixoDoPiso(ts: Topicos, alvo: set<string>, apos: nat) {
    exists t | t in alvo :: t in ts && apos < ts[t].piso && ts[t].ultimo > apos
  }

  function Replay(ts: Topicos, rs: seq<Registro>, global: nat, alvo: set<string>, apos: nat, limite: nat,
                  ate: Opcao<nat>): Opcao<seq<Evento>> {
    if apos > global then Nada
    else if AbaixoDoPiso(ts, alvo, apos) then Nada
    else
      var linhas := Filtrar(rs, Por(Entre(alvo, apos, ate), EventoDe()));
      if |linhas| > limite then Nada else Algo(Mapear(linhas, EventoDe()))
  }

  /** Below the floor of a requested topic: an event after the cursor was cleaned up. */
  lemma AbaixoDoPisoSse(h: seq<Evento>, ts: Topicos, alvo: set<string>, apos: nat)
    requires TopicosOk(h, ts)
    ensures AbaixoDoPiso(ts, alvo, apos)
      <==> exists e :: e in h && e.topico in alvo && e.numero > apos && !Retido(ts)(e)
  {
    if AbaixoDoPiso(ts, alvo, apos) {
      var t :| t in alvo && t in ts && apos < ts[t].piso && ts[t].ultimo > apos;
      assert TopicoOk(h, t, TopicoDe(ts, t));
      var e :| e in h && e.topico == t && e.numero == ts[t].piso;
      assert !Retido(ts)(e);
    }
    forall e | e in h && e.topico in alvo && e.numero > apos && !Retido(ts)(e) ensures AbaixoDoPiso(ts, alvo, apos) {
      assert TopicoOk(h, e.topico, TopicoDe(ts, e.topico));
      assert e.topico in ts;
    }
  }

  /** A replay without error is exactly the history of the requested topics in the
      window, in commit order, whatever was cleaned up; it fails exactly when the cursor
      is beyond the history, an event of the window's topics after it was cleaned up, or
      the window is larger than the limit. */
  lemma ReplayExato(h: seq<Evento>, ts: Topicos, rs: seq<Registro>, global: nat, alvo: set<string>, apos: nat,
                    limite: nat, ate: Opcao<nat>)
    requires TopicosOk(h, ts) && RegistrosOk(h, ts, rs) && EhMaximo(ts, UltimoDe(), global)
    ensures var r := Replay(ts, rs, global, alvo, apos, limite, ate);
            && (r.Algo? ==> r.valor == Filtrar(h, Entre(alvo, apos, ate)))
            && (r.Nada? <==>
                 || (apos > 0 && forall e :: e in h ==> e.numero < apos)
                 || (exists e :: e in h && e.topico in alvo && e.numero > apos && !Retido(ts)(e))
                 || |Filtrar(h, Entre(alvo, apos, ate))| > limite)
  {
    UltimoGlobal(h, ts, global, apos);
    AbaixoDoPisoSse(h, ts, alvo, apos);
    if !AbaixoDoPiso(ts, alvo, apos) {
      ConsultaExata(h, ts, rs, Entre(alvo, apos, ate));
    }
  }

  // ----- gaps in the stream

  predicate Lacuna(rs: seq<Registro>, piso: nat, apos: nat, antes: nat) {
    (exists r | r in rs :: apos < r.evento.numero < antes) || piso > apos
  }

  /** The check answers true exactly when a retained event lies strictly between, or some
      event after the first sequence was already cleaned up. */
  lemma LacunaSse(h: seq<Evento>, ts: Topicos, rs: seq<Registro>, piso: nat, apos: nat, antes: nat)
    requires TopicosOk(h, ts) && RegistrosOk(h, ts, rs) && EhMaximo(ts, PisoDe(), piso)
    ensures Lacuna(rs, piso, apos, antes)
       <==> exists e :: e in h && e.numero > apos && (Retido(ts)(e) ==> e.numero < antes)
  {
    if r :| r in rs && apos < r.evento.numero < antes { RegistroEhRetido(h, ts, rs, r); }
    if piso > apos {
      var t :| t in ts && PisoDe()(ts[t]) == piso;
      assert TopicoOk(h, t, TopicoDe(ts, t));
      var e :| e in h && e.topico == t && e.numero == ts[t].piso;
      assert !Retido(ts)(e);
    }
    forall e | e in h && e.numero > apos && (Retido(ts)(e) ==> e.numero < antes) ensures Lacuna(rs, piso, apos, antes) {
      if Retido(ts)(e) {
        var r := RetidoTemRegistro(h, ts, rs, e);
      } else {
        assert e.topico in ts && PisoDe()(ts[e.topico]) <= piso;
      }
    }
  }

  /** Answering false, no committed event lies strictly between the two sequences. */
  lemma SemLacunaNadaSePerdeu(h: seq<Evento>, ts: Topicos, rs: seq<Registro>, piso: nat, apos: nat, antes: nat)
    requires TopicosOk(h, ts) && RegistrosOk(h, ts, rs) && EhMaximo(ts, PisoDe(), piso)
      && !Lacuna(rs, piso, apos, antes)
    ensures forall e :: e in h && apos < e.numero ==> e.numero >= antes
  {
    LacunaSse(h, ts, rs, piso, apos, antes);
  }
}
