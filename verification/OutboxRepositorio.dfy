/** The realtime outbox repository and the relay that drains it. Every method is one
    atomic transaction; any interleaving of them keeps the tables, the cursors and the
    stream faithful to the committed history. */
module OutboxRepositorio {
  import opened Aritmetica
  import opened Listas
  import opened Eventos
  import opened OutboxInvariantes
  import opened OutboxPassos
  import opened OutboxLeituras
  import opened OutboxRele

  datatype Persistencia = Persistido(evento: Evento) | Divergente

  datatype Situacao = Situacao(ultimo: nat, lido: nat, naoVistos: nat, evento: Opcao<Evento>)

  function PosicaoDe(rs: seq<Registro>, numero: nat): (k: nat)
    ensures k <= |rs| && (k < |rs| ==> rs[k].evento.numero == numero)
    ensures k == |rs| ==> forall r :: r in rs ==> r.evento.numero != numero
  {
    if rs == [] || rs[0].evento.numero == numero then 0 else 1 + PosicaoDe(rs[1..], numero)
  }

  predicate EhDono(rs: seq<Registro>, numero: nat, instancia: string) {
    var k := PosicaoDe(rs, numero);
    k < |rs| && rs[k].dono == Algo(instancia)
  }

  datatype Passo = SemTrabalho | Enviou(evento: Evento) | Interrompeu(caiu: bool)

  /** Marking finds the row of the lease holder. */
  lemma DonoMarca(h: seq<Evento>, ts: Topicos, rs: seq<Registro>, cs: Cursores, sequencia: nat,
                  marca: nat, relogio: nat, fluxo: seq<nat>, tentados: set<nat>, k: nat)
    requires Coerente(h, ts, rs, cs, sequencia, marca, relogio, fluxo, tentados) && k < |rs|
    ensures PosicaoDe(rs, rs[k].evento.numero) == k
  {
    hide TopicosOk, CursoresOk, PublicacaoOk, FluxoOk;
    RegistrosCrescem(h, ts, rs);
    assert rs[k] in rs;
  }

  lemma EscopoDaLimpeza(h: seq<Evento>, ts: Topicos, rs: seq<Registro>, cs: Cursores, sequencia: nat, marca: nat,
                        relogio: nat, fluxo: seq<nat>, tentados: set<nat>)
    requires Coerente(h, ts, rs, cs, sequencia, marca, relogio, fluxo, tentados)
    ensures Numerada(h) && TopicosOk(h, ts) && RegistrosOk(h, ts, rs)
  {}

  class Outbox {
    var registros: seq<Registro>
    var topicos: Topicos
    var cursores: Cursores
    var sequencia: nat
    var fluxo: seq<nat>
    ghost var historia: seq<Evento>
    ghost var marca: nat
    ghost var relogio: nat
    ghost var tentados: set<nat>

    ghost predicate Valid()
      reads this
    {
      Coerente(historia, topicos, registros, cursores, sequencia, marca, relogio, fluxo, tentados)
    }

    /** The tables owe nothing to the stream. */
    ghost predicate ValidTables()
      reads this
    {
      TabelasOk(historia, topicos, registros, cursores, sequencia, marca, relogio)
    }

    constructor ()
      ensures Valid() && historia == [] && registros == [] && topicos == map[] && cursores == map[]
      ensures fluxo == [] && sequencia == 0 && marca == 0 && relogio == 0 && tentados == {}
    {
      registros, topicos, cursores, sequencia, fluxo := [], map[], map[], 0, [];
      historia, marca, relogio, tentados := [], 0, 0, {};
    }

    /** `pulados` numbers of the database sequence were lost to rolled-back transactions. */
    method PersistEvent(id: string, topico: string, conteudo: Conteudo, pulados: nat, agora: nat)
      returns (r: Persistencia)
      requires Valid() && relogio <= agora
      modifies `registros, `topicos, `sequencia, `historia, `relogio
      ensures Valid() && relogio == agora
      ensures var x := BuscarId(old(registros), id);
              match x
              case Algo(ja) =>
                && r == (if ja.evento.topico == topico && ja.evento.conteudo == conteudo then Persistido(ja.evento)
                  else Divergente)
                && historia == old(historia) && registros == old(registros) && topicos == old(topicos)
                  && sequencia == old(sequencia)
              case Nada =>
                var e := Evento(old(sequencia) + pulados + 1, id, topico, TopicoDe(old(topicos), topico).ordem
                  + 1, conteudo);
                && r == Persistido(e) && historia == old(historia) + [e] && sequencia == e.numero
                && registros == old(registros) + [RegistroNovo(e, agora)] && topicos == TopicoMais(old(topicos), e)
                && RegistroNovo(e, agora) == Registro(e, Nada, Nada, Nada, agora, 0)
                && topicos[topico] == Topico(e.numero, e.ordem, Algo(e), TopicoDe(old(topicos), topico).piso)
    {
      hide Coerente;
      match BuscarId(registros, id) {
        case Algo(ja) =>
          RelogioAvanca(historia, topicos, registros, cursores, sequencia, marca, relogio, fluxo, tentados, agora);
          r := if ja.evento.topico == topico && ja.evento.conteudo == conteudo then Persistido(ja.evento)
            else Divergente;
        case Nada =>
          var e := Evento(sequencia + pulados + 1, id, topico, TopicoDe(topicos, topico).ordem + 1, conteudo);
          PersistirMantem(historia, topicos, registros, cursores, sequencia, marca, relogio, fluxo, tentados, e, agora);
          registros, topicos, sequencia := registros + [RegistroNovo(e, agora)], TopicoMais(topicos, e), e.numero;
          historia := historia + [e];
          r := Persistido(e);
      }
      relogio := agora;
    }

    // ----- readers

    method CriarCursor(u: int, t: string)
      requires Valid()
      modifies `cursores
      ensures Valid()
      ensures forall x: int, y: string :: (x, y) in cursores <==> (x, y) in old(cursores) || (x == u && y == t)
      ensures forall x: int, y: string ::
        CursorDe(cursores, x, y) ==
          if x == u && y == t && (u, t) !in old(cursores) then
            Cursor(TopicoDe(topicos, t).ultimo, TopicoDe(topicos, t).ordem)
          else CursorDe(old(cursores), x, y)
    {
      hide Coerente;
      if (u, t) !in cursores {
        var tp := TopicoDe(topicos, t);
        LinhaDoUsuario(historia, topicos, registros, cursores, sequencia, marca, relogio, fluxo, tentados, u, t);
        CursorNoFim(historia, t, tp);
        CursorMantem(historia, topicos, registros, cursores, sequencia, marca, relogio, fluxo, tentados, u, t,
                     Cursor(tp.ultimo, tp.ordem));
        cursores := cursores[(u, t) := Cursor(tp.ultimo, tp.ordem)];
      }
    }

    method InitializeReadCursors(u: int, alvo: seq<string>)
      requires Valid()
      modifies `cursores
      ensures Valid()
      ensures forall x: int, t: string ::
        CursorDe(cursores, x, t) ==
          if x == u && t in alvo && (u, t) !in old(cursores) then
            Cursor(TopicoDe(topicos, t).ultimo, TopicoDe(topicos, t).ordem)
          else CursorDe(old(cursores), x, t)
      ensures forall x: int, t: string :: (x, t) in cursores <==> (x, t) in old(cursores) || (x == u && t in alvo)
    {
      hide Coerente;
      for i := 0 to |alvo|
        invariant Valid()
        invariant forall x: int, t: string ::
          CursorDe(cursores, x, t) ==
            if x == u && t in alvo[..i] && (u, t) !in old(cursores) then
              Cursor(TopicoDe(topicos, t).ultimo, TopicoDe(topicos, t).ordem)
            else CursorDe(old(cursores), x, t)
        invariant forall x: int, t: string ::
          (x, t) in cursores <==> (x, t) in old(cursores) || (x == u && t in alvo[..i])
      {
        CriarCursor(u, alvo[i]);
        PrefixoMais(alvo, i);
      }
    }

    method GetTopicStatuses(u: int, alvo: seq<string>) returns (m: map<string, Situacao>)
      requires Valid()
      ensures forall t :: t in m <==> t in alvo
      ensures forall t :: t in alvo ==>
        && m[t].naoVistos == Contagem(historia, DepoisDe(t, m[t].lido))
        && m[t].lido == CursorDe(cursores, u, t).lido <= m[t].ultimo
        && m[t].evento == TopicoDe(topicos, t).evento && m[t].ultimo == TopicoDe(topicos, t).ultimo
    {
      hide Coerente;
      m := map[];
      for i := 0 to |alvo|
        invariant forall t :: t in m <==> t in alvo[..i]
        invariant forall t :: t in m ==>
          && m[t].naoVistos == Contagem(historia, DepoisDe(t, m[t].lido))
          && m[t].lido == CursorDe(cursores, u, t).lido <= m[t].ultimo
          && m[t].evento == TopicoDe(topicos, t).evento && m[t].ultimo == TopicoDe(topicos, t).ultimo
      {
        var t := alvo[i];
        var tp, c := TopicoDe(topicos, t), CursorDe(cursores, u, t);
        LinhaDoUsuario(historia, topicos, registros, cursores, sequencia, marca, relogio, fluxo, tentados, u, t);
        NaoVistosConta(historia, t, tp, c);
        m := m[t := Situacao(tp.ultimo, c.lido, NaoVistos(tp, c), tp.evento)];
      }
    }

    /** The cursor never moves back nor passes the topic's watermark, and after it moves
        exactly the events after it are unseen. */
    method AcknowledgeThrough(u: int, t: string, ate: nat) returns (r: Confirmacao)
      requires Valid()
      modifies `cursores
      ensures Valid() && r == Confirmar(topicos, registros, old(cursores), u, t, ate)
      ensures r.Confirmado? ==>
        && CursorDe(cursores, u, t) == r.cursor
        && r.cursor.lido == Max(CursorDe(old(cursores), u, t).lido, ate) <= TopicoDe(topicos, t).ultimo
        && NaoVistos(TopicoDe(topicos, t), r.cursor) == Contagem(historia, DepoisDe(t, r.cursor.lido))
      ensures !r.Confirmado? ==> cursores == old(cursores)
      ensures forall x: int, y: string :: (x, y) != (u, t) ==> CursorDe(cursores, x, y) == CursorDe(old(cursores), x, y)
    {
      hide Coerente;
      r := Confirmar(topicos, registros, cursores, u, t, ate);
      if r.Confirmado? {
        ConfirmarCoerente(historia, topicos, registros, cursores, sequencia, marca, relogio, fluxo, tentados, u, t,
                          ate);
        CursorMantem(historia, topicos, registros, cursores, sequencia, marca, relogio, fluxo, tentados, u, t,
                     r.cursor);
        cursores := cursores[(u, t) := r.cursor];
      }
    }

    method MaximoDosTopicos(f: Topico -> nat) returns (n: nat)
      ensures EhMaximo(topicos, f, n)
    {
      n := 0;
      var restam := topicos.Keys;
      while restam != {}
        invariant restam <= topicos.Keys
        invariant forall t :: t in topicos && t !in restam ==> f(topicos[t]) <= n
        invariant n == 0 || exists t :: t in topicos && f(topicos[t]) == n
        decreases restam
      {
        var t :| t in restam;
        if f(topicos[t]) > n { n := f(topicos[t]); }
        restam := restam - {t};
      }
    }

    method ReplayEvents(alvo: set<string>, apos: nat, limite: nat, ate: Opcao<nat>) returns (r: Opcao<seq<Evento>>)
      requires Valid()
      ensures r.Algo? ==> r.valor == Filtrar(historia, Entre(alvo, apos, ate))
      ensures r.Nada? <==>
        || (apos > 0 && forall e :: e in historia ==> e.numero < apos)
        || (exists e :: e in historia && e.topico in alvo && e.numero > apos && !Retido(topicos)(e))
        || |Filtrar(historia, Entre(alvo, apos, ate))| > limite
    {
      var global := MaximoDosTopicos(UltimoDe());
      ReplayExato(historia, topicos, registros, global, alvo, apos, limite, ate);
      r := Replay(topicos, registros, global, alvo, apos, limite, ate);
    }

    method StreamGapRequiresResync(apos: nat, antes: nat) returns (lacuna: bool)
      requires Valid()
      ensures lacuna <==> exists e :: e in historia && e.numero > apos && (Retido(topicos)(e) ==> e.numero < antes)
      ensures !lacuna ==> forall e :: e in historia && apos < e.numero ==> e.numero >= antes
    {
      var piso := MaximoDosTopicos(PisoDe());
      LacunaSse(historia, topicos, registros, piso, apos, antes);
      lacuna := Lacuna(registros, piso, apos, antes);
    }

    // ----- relay

    /** Only the head of the queue can be claimed, and only when it is due and free. */
    method ClaimOutboxBatch(instancia: string, prazo: nat, agora: nat) returns (r: Opcao<Registro>)
      requires Valid() && relogio <= agora
      modifies `registros, `tentados, `relogio
      ensures Valid() && relogio == agora
      ensures var k := PrimeiroPendente(old(registros));
              && (r.Algo? <==> k < |old(registros)| && DevidoELivre(old(registros)[k], agora))
              && (r.Algo? ==>
                var x := old(registros)[k];
                && r.valor
                  == Registro(x.evento, Nada, Algo(instancia), Algo(agora + prazo), x.proxima, x.tentativas + 1)
                && registros == old(registros)[k := r.valor])
              && (r.Nada? ==> registros == old(registros))
      ensures tentados == old(tentados) + (if r.Algo? then {r.valor.evento.numero} else {})
      ensures r.Algo? ==> Cabeca(historia, marca, r.valor) && r.valor in registros
    {
      hide Coerente;
      r := Nada;
      var k := PrimeiroPendente(registros);
      if k < |registros| && Elegivel(registros[k], agora) {
        var x := Reivindicado(registros[k], instancia, agora, prazo);
        CabecaDaFila(historia, topicos, registros, cursores, sequencia, marca, relogio, fluxo, tentados);
        ReivindicarMantem(historia, topicos, registros, cursores, sequencia, marca, relogio, fluxo, tentados, x, agora);
        registros := registros[k := x];
        tentados := tentados + {x.evento.numero};
        r := Algo(x);
        assert registros[k] == x;
      } else {
        RelogioAvanca(historia, topicos, registros, cursores, sequencia, marca, relogio, fluxo, tentados, agora);
      }
      relogio := agora;
    }

    /** A relay sends an event it claimed at some time, perhaps late, perhaps again. */
    method PublishEnvelope(numero: nat)
      requires Valid() && numero in tentados
      modifies `fluxo
      ensures Valid() && fluxo == old(fluxo) + [numero]
    {
      hide Coerente;
      EnviarMantem(historia, topicos, registros, cursores, sequencia, marca, relogio, fluxo, tentados, numero);
      fluxo := fluxo + [numero];
    }

    /** Marking succeeds exactly for the current owner of the lease. It does not look at the
        stream: the stream keeps what was marked exactly when the event had been sent. */
    method MarkPublished(numero: nat, instancia: string, agora: nat) returns (ok: bool)
      requires Valid() && relogio <= agora
      modifies `registros, `marca, `relogio
      ensures ValidTables() && (Valid() <==> !ok || numero in fluxo) && relogio == agora
      ensures ok == EhDono(old(registros), numero, instancia)
      ensures var k := PosicaoDe(old(registros), numero);
              registros == if ok then
                old(registros)[k := old(registros)[k].(publicado := Algo(agora), dono := Nada, ate := Nada)]
                else old(registros)
      ensures marca == (if ok then numero else old(marca)) && marca >= old(marca)
    {
      hide TabelasOk, FluxoOk;
      var k := PosicaoDe(registros, numero);
      ok := EhDono(registros, numero, instancia);
      if ok {
        var x := registros[k].(publicado := Algo(agora), dono := Nada, ate := Nada);
        PublicarMantem(historia, topicos, registros, cursores, sequencia, marca, relogio, fluxo, tentados, k, x, agora);
        registros, marca := registros[k := x], numero;
      } else {
        RelogioAvanca(historia, topicos, registros, cursores, sequencia, marca, relogio, fluxo, tentados, agora);
      }
      relogio := agora;
    }

    method MarkPublishFailed(numero: nat, instancia: string, tentativas: nat, agora: nat)
      requires Valid() && relogio <= agora
      modifies `registros, `relogio
      ensures Valid() && relogio == agora
      ensures var k := PosicaoDe(old(registros), numero);
              registros == if EhDono(old(registros), numero, instancia)
                           then old(registros)[k :=
                             old(registros)[k].(dono := Nada, ate := Nada, proxima := agora + Espera(tentativas))]
                           else old(registros)
      ensures Espera(tentativas) == DobraAte256(tentativas)
    {
      hide Coerente;
      var k := PosicaoDe(registros, numero);
      if EhDono(registros, numero, instancia) {
        var x := registros[k].(dono := Nada, ate := Nada, proxima := agora + Espera(tentativas));
        DevolverMantem(historia, topicos, registros, cursores, sequencia, marca, relogio, fluxo, tentados, k, x, agora);
        registros := registros[k := x];
      } else {
        RelogioAvanca(historia, topicos, registros, cursores, sequencia, marca, relogio, fluxo, tentados, agora);
      }
      relogio := agora;
    }

    // ----- cleanup

    method LimparTopico(t: string, corte: nat) returns (apagados: nat)
      requires Valid() && t in topicos
      modifies `registros, `topicos
      ensures Valid() && SoPisosSubiram(old(topicos), topicos)
      ensures registros == Filtrar(old(registros), Vigente(t, old(topicos)[t].ultimo, corte))
      ensures apagados == |old(registros)| - |registros|
    {
      hide Coerente, Filtrar, MaiorNumero;
      apagados := 0;
      var ultimo := topicos[t].ultimo;
      match MaiorNumero(Filtrar(registros, VencidoDe(t, ultimo, corte))) {
        case Nada =>
          NadaVencido(registros, t, ultimo, corte);
        case Algo(m) =>
          var restam := Filtrar(registros, Fica(t, ultimo, corte, m));
          LimparMantem(historia, topicos, registros, cursores, sequencia, marca, relogio, fluxo, tentados, t, corte, m);
          FicaEhVigente(registros, t, ultimo, corte, m);
          apagados := |registros| - |restam|;
          registros, topicos := restam, PisoNovo(topicos, t, m);
      }
    }

    /** The topics `feitos` were cleaned up since the tables held `rs` and `ts`. */
    ghost predicate EmLimpeza(rs: seq<Registro>, ts: Topicos, corte: nat, feitos: set<string>)
      reads this
    {
      Valid() && SoPisosSubiram(ts, topicos) && registros == Filtrar(rs, VigenteEm(ts, corte, feitos))
    }

    method LimparMais(t: string, corte: nat, ghost rs: seq<Registro>, ghost ts: Topicos, ghost feitos: set<string>)
      returns (apagados: nat)
      requires EmLimpeza(rs, ts, corte, feitos) && t in ts
      modifies `registros, `topicos
      ensures EmLimpeza(rs, ts, corte, feitos + {t}) && apagados == |old(registros)| - |registros|
    {
      hide Coerente, Filtrar, Vigente, VigenteEm;
      TopicoLimpo(rs, ts, corte, feitos, t);
      apagados := LimparTopico(t, corte);
    }

    /** The loop over the topics. */
    method ApagarVencidos(agora: nat, corte: nat) returns (apagados: nat)
      requires Valid() && relogio <= agora
      modifies `registros, `topicos, `relogio
      ensures Valid() && relogio == agora && SoPisosSubiram(old(topicos), topicos)
      ensures registros == Filtrar(old(registros), VigenteEm(old(topicos), corte, old(topicos).Keys))
      ensures apagados == |old(registros)| - |registros|
    {
      hide Coerente, Filtrar, VigenteEm;
      apagados := 0;
      var restam := topicos.Keys;
      ghost var feitos: set<string> := {};
      NenhumTopicoLimpo(registros, topicos, corte);
      RelogioAvanca(historia, topicos, registros, cursores, sequencia, marca, relogio, fluxo, tentados, agora);
      relogio := agora;
      while restam != {}
        invariant EmLimpeza(old(registros), old(topicos), corte, feitos) && relogio == agora
        invariant restam <= old(topicos).Keys && feitos == old(topicos).Keys - restam
        invariant apagados == |old(registros)| - |registros|
        decreases restam
      {
        var t :| t in restam;
        var n := LimparMais(t, corte, old(registros), old(topicos), feitos);
        apagados, restam, feitos := apagados + n, restam - {t}, feitos + {t};
      }
      assert feitos == old(topicos).Keys;
    }

    /** Keeps exactly the rows that are unpublished, younger than the retention or the last
        of their topic, in order, and raises each floor over what it deleted. */
    method CleanupPublished(agora: nat, retencao: nat) returns (apagados: nat)
      requires Valid() && relogio <= agora
      modifies `registros, `topicos, `relogio
      ensures Valid() && relogio == agora && SoPisosSubiram(old(topicos), topicos)
      ensures registros == Filtrar(old(registros), VigenteEm(old(topicos), Corte(agora, retencao), old(topicos).Keys))
      ensures forall r :: r in registros <==> r in old(registros) && DeveFicar(historia, r, agora, retencao)
      ensures forall t :: t in topicos ==>
        PisoDoApagado(old(registros), registros, t, old(topicos)[t].piso, topicos[t].piso)
      ensures apagados == |old(registros)| - |registros|
    {
      hide Coerente, Filtrar, VigenteEm, DeveFicar, PisoDoApagado, TopicosOk, RegistrosOk, Numerada, Corte;
      ghost var rs, ts := registros, topicos;
      EscopoDaLimpeza(historia, topicos, registros, cursores, sequencia, marca, relogio, fluxo, tentados);
      LimpezaSse(historia, ts, rs, agora, retencao);
      apagados := ApagarVencidos(agora, Corte(agora, retencao));
      EscopoDaLimpeza(historia, topicos, registros, cursores, sequencia, marca, relogio, fluxo, tentados);
      forall t | t in topicos ensures PisoDoApagado(rs, registros, t, ts[t].piso, topicos[t].piso) {
        PisoSse(historia, ts, rs, topicos, registros, t);
      }
    }

    // ----- one cycle of the relay leader, in one transaction

    /** Sends and marks the claimed row `k`. */
    method EnviarEMarcar(k: nat, instancia: string, agora: nat)
      requires Valid() && relogio <= agora && k < |registros| && registros[k].dono == Algo(instancia)
      requires registros[k].evento.numero in tentados
      modifies `registros, `fluxo, `marca, `relogio
      ensures Valid() && relogio == agora
      ensures marca == old(registros[k]).evento.numero >= old(marca) && fluxo == old(fluxo) + [marca]
      ensures registros == old(registros)[k := old(registros[k]).(publicado := Algo(agora), dono := Nada, ate := Nada)]
    {
      hide Coerente, PosicaoDe;
      var n := registros[k].evento.numero;
      PublishEnvelope(n);
      DonoMarca(historia, topicos, registros, cursores, sequencia, marca, relogio, fluxo, tentados, k);
      var ok := MarkPublished(n, instancia, agora);
      assert ok && n in fluxo;
    }

    /** Sends the claimed row `k` and fails; unless the relay went down, the row backs off. */
    method FalharEnvio(k: nat, instancia: string, agora: nat, envio: Envio)
      requires Valid() && relogio <= agora && k < |registros| && registros[k].dono == Algo(instancia)
      requires registros[k].evento.numero in tentados && !envio.Enviado?
      modifies `registros, `fluxo, `relogio
      ensures Valid() && relogio == agora
      ensures fluxo == old(fluxo) + Se(envio.gravado, old(registros[k]).evento.numero)
      ensures envio.Falhou? ==>
        registros
          == old(registros)[k :=
          old(registros[k]).(dono := Nada, ate := Nada, proxima := agora + Espera(old(registros[k]).tentativas))]
    {
      hide Coerente, PosicaoDe;
      var n := registros[k].evento.numero;
      var t := registros[k].tentativas;
      if envio.gravado { PublishEnvelope(n); }
      DonoMarca(historia, topicos, registros, cursores, sequencia, marca, relogio, fluxo, tentados, k);
      RelogioAvanca(historia, topicos, registros, cursores, sequencia, marca, relogio, fluxo, tentados, agora);
      if envio.Falhou? { MarkPublishFailed(n, instancia, t, agora); }
      relogio := agora;
    }

    /** One iteration: claim the head and try to send it. `base` is where the cycle began. */
    method PassoDoRelay(instancia: string, prazo: nat, agora: nat, envio: Envio, ghost base: nat) returns (p: Passo)
      requires Valid() && relogio <= agora && base <= marca
      modifies `registros, `fluxo, `marca, `relogio, `tentados
      ensures Valid() && relogio == agora
      ensures var k := PrimeiroPendente(old(registros));
              && (p.SemTrabalho? <==> k == |old(registros)| || !Elegivel(old(registros)[k], agora))
              && (p.SemTrabalho? <==> k == |old(registros)| || !DevidoELivre(old(registros)[k], agora))
              && (p.SemTrabalho? ==> registros == old(registros) && fluxo == old(fluxo) && marca == old(marca))
              && (!p.SemTrabalho? ==>
                p == if envio.Enviado? then Enviou(old(registros)[k].evento) else Interrompeu(envio.Caiu?))
              && (p.Enviou? ==>
                    && registros == old(registros)[k := Publicado(old(registros)[k], agora)]
                    && Publicado(old(registros)[k], agora)
                      == Registro(p.evento, Algo(agora), Nada, Nada, old(registros)[k].proxima,
                                  old(registros)[k].tentativas + 1)
                    && marca == p.evento.numero >= old(marca) && fluxo == old(fluxo) + [marca]
                    && Filtrar(historia, Janela(base, marca))
                      == Filtrar(historia, Janela(base, old(marca))) + [p.evento])
              && (p.Interrompeu? ==>
                    && marca == old(marca) && fluxo == old(fluxo) + Se(envio.gravado, old(registros)[k].evento.numero)
                    && (envio.Falhou? ==> registros == old(registros)[k := Adiado(old(registros)[k], agora)])
                    && Adiado(old(registros)[k], agora)
                      == Registro(old(registros)[k].evento, Nada, Nada, Nada,
                                  agora + DobraAte256(old(registros)[k].tentativas + 1), old(registros)[k].tentativas
                                    + 1))
    {
      hide Coerente, Filtrar, PosicaoDe;
      var k := PrimeiroPendente(registros);
      var r := ClaimOutboxBatch(instancia, prazo, agora);
      if r.Nada? { return SemTrabalho; }
      if envio.Enviado? {
        ProximoPublicado(historia, topicos, registros, cursores, sequencia, base, marca, relogio, fluxo, tentados,
                         r.valor);
        EnviarEMarcar(k, instancia, agora);
        p := Enviou(r.valor.evento);
      } else {
        FalharEnvio(k, instancia, agora, envio);
        p := Interrompeu(envio.Caiu?);
      }
    }

    /** Claims, sends and marks the next events in order, until nothing is due or a send
        fails. What it appends to the stream is exactly the run of events after the mark,
        none skipped, plus the one whose send failed if it was stored all the same. */
    method CicloRelay(instancia: string, prazo: nat, agora: nat, envios: seq<Envio>) returns (confirmado: bool)
      requires Valid() && relogio <= agora
      modifies `registros, `fluxo, `marca, `relogio, `tentados
      ensures Valid() && relogio == agora
      ensures ResultadoDoCiclo(historia, old(registros), agora, envios, old(marca), old(fluxo), confirmado, registros,
                               marca, fluxo)
    {
      hide Coerente, Publicou, ResultadoDoCiclo, Pendentes, Publicado, Adiado, PrimeiroPendente, Filtrar, Elegivel;
      var salvos := registros;
      ghost var n := 0;
      PublicouNada(historia, registros, agora, marca, fluxo);
      RelogioAvanca(historia, topicos, registros, cursores, sequencia, marca, relogio, fluxo, tentados, agora);
      relogio := agora;
      for i := 0 to |envios|
        invariant Valid() && relogio == agora && i == n <= Prontos(envios)
          && n <= Elegiveis(Pendentes(old(registros)), agora)
        invariant old(marca) <= marca
        invariant Publicou(historia, old(registros), n, agora, old(marca), old(fluxo), registros, marca, fluxo)
      {
        ghost var rs, m, f, k := registros, marca, fluxo, PrimeiroPendente(registros);
        var p := PassoDoRelay(instancia, prazo, agora, envios[i], old(marca));
        if p.SemTrabalho? { break; }
        if p.Enviou? {
          PublicouMais(historia, old(registros), n, agora, old(marca), old(fluxo), rs, m, f, k, rs[k].evento);
          n := n + 1;
        } else {
          CicloFalha(historia, old(registros), n, agora, envios, old(marca), old(fluxo), rs, m, f);
          if p.caiu {
            DesfazerMantem(historia, topicos, old(registros), registros, cursores, sequencia, old(marca), marca,
                           old(relogio), agora, old(fluxo), fluxo, old(tentados), tentados);
            registros, marca := salvos, old(marca);
          }
          return !p.caiu;
        }
      }
      CicloTermina(historia, old(registros), n, agora, envios, old(marca), old(fluxo), registros, marca, fluxo);
      confirmado := true;
    }
  }
}
