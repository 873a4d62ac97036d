/** The websocket handshake of one socket: the replay loop, the drain of the live queue at
    its end, and what the client has received then. */
module Sessoes {
  import opened Aritmetica
  import opened Listas
  import opened Eventos
  import opened OutboxPassos
  import opened OutboxInvariantes
  import opened OutboxLeituras
  import opened OutboxRepositorio
  import opened Janelas
  import opened Conexoes
  import opened Transmissao
  import opened Reconexao

  lemma NadaChegou()
    ensures Aceitas([]) == [] && EventosEm([], DoReplay()) == []
  {}

  class Sessao {
    const c: Conexao
    /** The client's cursor, the watermark read after registering, and the rows replayed. */
    const apos: nat
    const ate: nat
    const replay: seq<Evento>
    var k: nat
    var enviados: seq<Evento>

    /** The first `k` rows were replayed; live events only queued. */
    ghost predicate EmReplay()
      reads this, c
    {
      && c.Valid() && k <= |replay| && EventosEm(c.chegadas, DoReplay()) == replay[..k]
      && enviados == EventosEm(Aceitas(c.chegadas), DoReplay()) && c.fila == c.entregues
    }

    constructor (c: Conexao, apos: nat, ate: nat, replay: seq<Evento>)
      requires c.Valid() && c.chegadas == [] && c.fila == c.entregues
      ensures EmReplay() && this.c == c && this.apos == apos && this.ate == ate && this.replay == replay
      ensures k == 0 && enviados == []
    {
      hide PorUltimaChegada, FilaOk, NaJanela, EventosEm, Filtrar, Mapear, Finais, Ids, Aceitas;
      this.c, this.apos, this.ate, this.replay := c, apos, ate, replay;
      k, enviados := 0, [];
      NadaChegou();
    }

    /** The next row is sent unless the live side took it first. */
    method Reenviar()
      requires EmReplay() && k < |replay|
      modifies this, c
      ensures EmReplay() && k == old(k) + 1 && c.oferta == old(c.oferta) && c.fila == old(c.fila)
        && c.estourou == old(c.estourou)
      ensures c.chegadas == old(c.chegadas) + [Entrada(replay[old(k)], true)]
      ensures enviados == old(enviados) + Se(!NaJanela(Ids(old(c.chegadas)), JANELA, replay[old(k)].id), replay[old(k)])
    {
      hide PorUltimaChegada, FilaOk, NaJanela, EventosEm, Aceitas, Filtrar, Mapear, Finais, Ids;
      var e := replay[k];
      ghost var x := Entrada(e, true);
      RepetirMantem(c.chegadas, c.entregues, c.fila, c.estourou, e);
      EventosMais(c.chegadas, x, AoVivo());
      EventosMais(c.chegadas, x, DoReplay());
      AceitasMais(c.chegadas, x);
      EventosMais(Aceitas(c.chegadas), x, DoReplay());
      PrefixoMais(replay, k);
      var novo := c.RememberEvent(e, true);
      if novo { enviados := enviados + [e]; }
      k := k + 1;
    }

    /** Empties the live queue: what the watermark covers and the client lacks is sent, in
        order of number; what comes after the watermark goes back to the queue. */
    method Drenar()
      requires EmReplay() && Crescente(c.fila, MenorNumero)
      modifies `enviados, c`fila
      ensures c.Valid()
      ensures enviados == old(enviados) + Filtrar(old(c.fila), Janela(apos, ate))
        && c.fila == Filtrar(old(c.fila), Apos(ate))
    {
      hide PorUltimaChegada, EventosEm, Aceitas, Filtrar, Mapear, Finais, Ids, Assinado, Separados, FilaOk;
      ghost var q := c.fila;
      var guardados: seq<Evento>, retidos: seq<Evento> := [], [];
      NadaSeparado(q, apos, ate);
      while c.fila != []
        invariant c.Valid() && Separados(q, c.fila, apos, ate, guardados, retidos) && enviados == old(enviados)
        decreases |c.fila|
      {
        SepararMais(q, c.fila, apos, ate, guardados, retidos);
        var m := c.Consumir();
        if m.numero <= ate {
          if m.numero > apos { guardados := guardados + [m]; }
        } else {
          retidos := retidos + [m];
        }
      }
      TudoSeparado(c.chegadas, c.entregues, c.estourou, q, apos, ate, guardados, retidos);
      c.fila := retidos;
      enviados := enviados + Ordenar(guardados, MenorNumero);
    }
  }

  /** A broadcast does not touch what the replay asked or sent. */
  lemma VivoNaoDisturba(f: seq<Entrada>, e: Evento, assinado: bool)
    ensures EventosEm(f + Se(assinado, Entrada(e, false)), DoReplay()) == EventosEm(f, DoReplay())
    ensures EventosEm(Aceitas(f + Se(assinado, Entrada(e, false))), DoReplay()) == EventosEm(Aceitas(f), DoReplay())
  {
    hide EventosEm, Aceitas, NaJanela;
    var x := Entrada(e, false);
    EventosMais(f, x, DoReplay());
    AceitasMais(f, x);
    EventosMais(Aceitas(f), x, DoReplay());
    assert f + [] == f;
  }

  /** Whatever the listener reads and whoever joins, a session in replay stays one. */
  method ReceberDurante(o: Ouvinte, db: Outbox, e: Evento, s: Sessao, chegam: seq<Pedido>, entram: seq<Pedido>)
    returns (transmitido: bool, novas: seq<Conexao>)
    requires db.Valid() && o.Valid(db.historia) && e in db.historia && s.EmReplay() && s.c in o.central.conexoes
    modifies o`ultimo, o`posicao, o.central, o.central.conexoes
    ensures o.Valid(db.historia) && s.EmReplay()
  {
    hide Coerente, Completo, FilaOk, PorUltimaChegada, NaJanela, EventosEm, Aceitas, Filtrar, Mapear, Finais, Ids;
    VivoNaoDisturba(s.c.chegadas, e, e.topico in s.c.topicos);
    transmitido, novas := o.Receber(e, db, chegam, entram);
  }

  /** What was taken out of the queue `q` so far, `resto` being what is left of it. */
  ghost predicate Separados(q: seq<Evento>, resto: seq<Evento>, apos: nat, ate: nat, guardados: seq<Evento>,
                            retidos: seq<Evento>) {
    && |resto| <= |q| && q[|q| - |resto|..] == resto
    && guardados == Filtrar(q[..|q| - |resto|], Janela(apos, ate)) && retidos == Filtrar(q[..|q| - |resto|], Apos(ate))
  }

  lemma NadaSeparado(q: seq<Evento>, apos: nat, ate: nat)
    ensures Separados(q, q, apos, ate, [], [])
  {
    assert q[..0] == [];
  }

  lemma SepararMais(q: seq<Evento>, resto: seq<Evento>, apos: nat, ate: nat, guardados: seq<Evento>,
                    retidos: seq<Evento>)
    requires Separados(q, resto, apos, ate, guardados, retidos) && resto != []
    ensures var m := resto[0];
            && (m.numero > ate ==> Separados(q, resto[1..], apos, ate, guardados, retidos + [m]))
            && (apos < m.numero <= ate ==> Separados(q, resto[1..], apos, ate, guardados + [m], retidos))
            && (m.numero <= ate && m.numero <= apos ==> Separados(q, resto[1..], apos, ate, guardados, retidos))
  {
    hide Filtrar;
    var n := |q| - |resto|;
    assert q[n] == resto[0] && q[n + 1..] == resto[1..];
    PrefixoMais(q, n);
    FiltrarMaisUm(q[..n], q[n], Janela(apos, ate));
    FiltrarMaisUm(q[..n], q[n], Apos(ate));
  }

  lemma TudoSeparado(chegadas: seq<Entrada>, entregues: seq<Evento>, estourou: bool, q: seq<Evento>, apos: nat,
                     ate: nat,
                     guardados: seq<Evento>, retidos: seq<Evento>)
    requires Separados(q, [], apos, ate, guardados, retidos) && Crescente(q, MenorNumero)
    requires FilaOk(chegadas, entregues, [], estourou) && q == entregues
    ensures FilaOk(chegadas, entregues, retidos, estourou)
    ensures Ordenar(guardados, MenorNumero) == Filtrar(q, Janela(apos, ate)) && retidos == Filtrar(q, Apos(ate))
  {
    hide Aceitas, EventosEm, Filtrar, Ordenar;
    PrefixoTodo(q);
    OrdenarOrdenado(q, Janela(apos, ate));
    FinalDaFila(q, ate);
  }

  /** Sorting what a filter kept of an increasing queue changes nothing. */
  lemma OrdenarOrdenado(q: seq<Evento>, p: Evento -> bool)
    requires Crescente(q, MenorNumero)
    ensures Ordenar(Filtrar(q, p), MenorNumero) == Filtrar(q, p)
  {
    var f := Filtrar(q, p);
    FiltrarCrescente(q, p, MenorNumero);
    OrdenarPermuta(f, MenorNumero);
    OrdenarCrescente(f, MenorNumero);
    CrescenteUnica(Ordenar(f, MenorNumero), f, MenorNumero);
  }

  /** What comes after a number is the end of an increasing queue. */
  lemma {:induction false} FinalDaFila(q: seq<Evento>, n: nat)
    requires Crescente(q, MenorNumero)
    ensures var f := Filtrar(q, Apos(n)); |f| <= |q| && f == q[|q| - |f|..]
  {
    if q != [] {
      if Apos(n)(q[0]) {
        forall e | e in q ensures Apos(n)(e) {
          var i :| 0 <= i < |q| && q[i] == e;
          assert i > 0 ==> MenorNumero(q[0], q[i]);
        }
        FiltrarTodos(q, Apos(n));
      } else {
        FinalDaFila(q[1..], n);
      }
    }
  }

  // ----- what the client has when the handshake ends

  /** The listener, an open socket whose whole replay was sent, and the history. */
  ghost predicate Concluindo(o: Ouvinte, h: seq<Evento>, s: Sessao)
    reads o, o.central, o.central.conexoes, s, s.c
  {
    && o.Valid(h) && o.posicao.Algo? && s.c in o.central.conexoes && s.EmReplay() && s.k == |s.replay|
    && s.apos <= s.ate && s.replay == Filtrar(h, Entre(s.c.topicos, s.apos, Algo(s.ate)))
    && Numerada(h) && Identifica(h, IdDe()) && RepeticoesNaJanela(Ids(s.c.chegadas), JANELA)
  }

  /** Such a session is an instance of the value-level theorems, and its queue is in order. */
  lemma SessaoEncontra(o: Ouvinte, h: seq<Evento>, s: Sessao)
    requires Concluindo(o, h, s)
    ensures Desde(s.c.registro, s.c.oferta).Algo?
    ensures Encontro(h, s.c.topicos, s.c.chegadas, s.apos, s.ate, Desde(s.c.registro, s.c.oferta).valor,
                     o.posicao.valor)
    ensures Crescente(s.c.fila, MenorNumero) && s.c.fila == EventosEm(Aceitas(s.c.chegadas), AoVivo())
  {
    hide PorUltimaChegada, NaJanela, Aceitas, EventosEm, RepeticoesNaJanela, Filtrar;
    var d, u := Desde(s.c.registro, s.c.oferta).valor, o.posicao.valor;
    assert s.c.Valid() && !s.c.estourou && Completo(h, s.c.registro, o.posicao, s.c.oferta);
    PrefixoTodo(s.replay);
    FiltrarFiltrar(h, Janela(d, u), Assinado(s.c.topicos));
    FiltrarCrescente(h, Ambos(Janela(d, u), Assinado(s.c.topicos)), MenorNumero);
    AceitasCrescem(s.c.chegadas, AoVivo());
  }

  lemma SessaoEnviou(o: Ouvinte, h: seq<Evento>, s: Sessao)
    requires Concluindo(o, h, s)
    ensures s.enviados == EventosEm(Aceitas(s.c.chegadas), DoReplay()) && o.posicao.Algo? && s.c.Valid()
    ensures s.replay == Filtrar(h, Entre(s.c.topicos, s.apos, Algo(s.ate)))
  {}

  /** The queue holds exactly the history of the topics after `ate`, as far as the connection
      was offered it. */
  ghost predicate FilaDepoisDe(ate: nat, h: seq<Evento>, c: Conexao, posicao: Opcao<nat>)
    reads c
  {
    var d := Desde(c.registro, c.oferta);
    && d.Algo? && posicao.Algo?
    && c.fila == Filtrar(h, Ambos(Janela(Max(d.valor, ate), posicao.valor), Assinado(c.topicos)))
  }

  /** The end of the replay: the client has each of its events once, in commit order exactly
      when none that arrived live before its turn is followed by one that did not, and the
      queue holds what the socket was offered of the history after the watermark. */
  method ConcluirReplay(o: Ouvinte, ghost h: seq<Evento>, s: Sessao)
    requires Concluindo(o, h, s)
    modifies s`enviados, s.c`fila
    ensures s.c.Valid() && Distintos(s.enviados) && MesmosElementos(s.enviados, s.replay)
    ensures s.enviados == s.replay <==> VivosNoFim(s.c.chegadas, s.replay)
    ensures FilaDepoisDe(s.ate, h, s.c, o.posicao)
  {
    hide Encontro, Concluindo, Aceitas, EventosEm, RepeticoesNaJanela, Filtrar, Distintos, MesmosElementos, VivosNoFim,
      Crescente, FilaOk;
    SessaoEnviou(o, h, s);
    SessaoEncontra(o, h, s);
    ghost var d, u := Desde(s.c.registro, s.c.oferta).valor, o.posicao.valor;
    ReplayUmaVez(h, s.c.topicos, s.c.chegadas, s.apos, s.ate, d, u);
    ReplayEmOrdemSse(h, s.c.topicos, s.c.chegadas, s.apos, s.ate, d, u);
    FilaAposReplay(h, s.c.topicos, s.c.chegadas, s.apos, s.ate, d, u);
    EmReplayAoConcluir(o, h, s);
    s.Drenar();
  }

  lemma EmReplayAoConcluir(o: Ouvinte, h: seq<Evento>, s: Sessao)
    requires Concluindo(o, h, s)
    ensures s.EmReplay()
  {}

  /** Over the replay, the drain and the live queue the client receives distinct events, and
      all those of its topics after its cursor exactly when none lies between the watermark
      and the point where its record begins; so whenever that point is not after the watermark. */
  lemma RegistradoRecebeTudo(o: Ouvinte, h: seq<Evento>, s: Sessao)
    requires Concluindo(o, h, s)
    ensures Desde(s.c.registro, s.c.oferta).Algo?
    ensures var d := Desde(s.c.registro, s.c.oferta).valor;
            var recebidos := s.enviados + Filtrar(s.c.fila, Janela(s.apos, s.ate)) + Filtrar(s.c.fila, Apos(s.ate));
            var alvo := Filtrar(h, Ambos(Janela(s.apos, Max(s.ate, o.posicao.valor)), Assinado(s.c.topicos)));
            && Distintos(recebidos)
            && (MesmosElementos(recebidos, alvo)
                <==> forall e :: e in h && e.topico in s.c.topicos ==> !(s.ate < e.numero <= d))
            && (d <= s.ate ==> MesmosElementos(recebidos, alvo))
  {
    hide Encontro, Concluindo, Aceitas, EventosEm, RepeticoesNaJanela, Filtrar, Distintos, MesmosElementos;
    SessaoEnviou(o, h, s);
    SessaoEncontra(o, h, s);
    RecebeTudoSse(h, s.c.topicos, s.c.chegadas, s.apos, s.ate, Desde(s.c.registro, s.c.oferta).valor, o.posicao.valor);
  }

  /** Events committed after the watermark do not change what the replay had to read. */
  lemma ReplayEstavel(h: seq<Evento>, topicos: set<string>, apos: nat, ate: nat, e: Evento)
    requires e.numero > ate
    ensures Filtrar(h + [e], Entre(topicos, apos, Algo(ate))) == Filtrar(h, Entre(topicos, apos, Algo(ate)))
  {
    FiltrarMaisUm(h, e, Entre(topicos, apos, Algo(ate)));
  }
}
