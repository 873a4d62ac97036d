/** A socket that reconnects: replay from the database while live events already arrive,
    both deduplicated by the same window, and then the live queue alone. */
module Reconexao {
  import opened Aritmetica
  import opened Listas
  import opened Eventos
  import opened OutboxPassos
  import opened OutboxLeituras
  import opened Janelas
  import opened Conexoes

  function Apos(n: nat): Evento -> bool { (e: Evento) => e.numero > n }

  // ----- each event is accepted once, from one of the two sides

  lemma EventoDaEntrada(f: seq<Entrada>, p: Entrada -> bool, e: Evento)
    ensures e in EventosEm(f, p) <==> exists x :: x in f && p(x) && x.evento == e
  {
    var g := Filtrar(f, p);
    if e in EventosEm(f, p) {
      var k :| 0 <= k < |g| && EventosEm(f, p)[k] == e;
      assert g[k] in g;
    }
    if x :| x in f && p(x) && x.evento == e { MapearContem(g, EventoDa(), x); }
  }

  /** The accepted entries carry each identifier once, and every identifier that arrived. */
  lemma AceitasUmaVez(f: seq<Entrada>)
    requires RepeticoesNaJanela(Ids(f), JANELA)
    ensures Distintos(Ids(Aceitas(f))) && MesmosElementos(Ids(Aceitas(f)), Ids(f))
  {
    AceitasSao(f);
    UmaVezSse(Ids(f), JANELA);
  }

  lemma MesmaEntrada(s: seq<Entrada>, x: Entrada, y: Entrada)
    requires Distintos(Ids(s)) && x in s && y in s && x.evento.id == y.evento.id
    ensures x == y
  {
    var i :| 0 <= i < |s| && s[i] == x;
    var j :| 0 <= j < |s| && s[j] == y;
    assert Ids(s)[i] == Ids(s)[j];
  }

  lemma EventoNovo(r: seq<Entrada>, x: Entrada, p: Entrada -> bool)
    requires Distintos(Ids(r + [x]))
    ensures x.evento !in EventosEm(r, p) && Distintos(Ids(r))
  {
    hide EventosEm;
    IdsMais(r, x);
    DistintoDoPrefixo(Ids(r + [x]), |r|);
    PrefixoSoma(Ids(r), [x.evento.id]);
    EventoDaEntrada(r, p, x.evento);
    if y :| y in r && y.evento == x.evento { MapearContem(r, IdDa(), y); }
  }

  lemma PrefixoSoma<T>(a: seq<T>, b: seq<T>)
    ensures (a + b)[..|a|] == a
  {}

  lemma {:induction false} DistintosSeIds(s: seq<Entrada>, p: Entrada -> bool)
    requires Distintos(Ids(s))
    ensures Distintos(EventosEm(s, p))
  {
    if s == [] {
      assert EventosEm([], p) == [];
    } else {
      hide EventosEm, Ids;
      var r, x := s[..|s| - 1], s[|s| - 1];
      assert s == r + [x];
      EventoNovo(r, x, p);
      DistintosSeIds(r, p);
      EventosMais(r, x, p);
      if p(x) { DistintosConcat(EventosEm(r, p), [x.evento]); }
    }
  }

  ghost predicate TodosDe(f: seq<Entrada>, h: seq<Evento>) { forall x :: x in f ==> x.evento in h }

  lemma ChegouSse(f: seq<Entrada>, e: Evento)
    ensures e in EventosEm(f, DoReplay()) || e in EventosEm(f, AoVivo()) <==> exists x :: x in f && x.evento == e
  {
    hide EventosEm;
    EventoDaEntrada(f, DoReplay(), e);
    EventoDaEntrada(f, AoVivo(), e);
    if x :| x in f && x.evento == e { assert DoReplay()(x) || AoVivo()(x); }
  }

  lemma AceitaVem(f: seq<Entrada>, h: seq<Evento>, x: Entrada) returns (y: Entrada)
    requires RepeticoesNaJanela(Ids(f), JANELA) && TodosDe(f, h) && Identifica(h, IdDe()) && x in f
    ensures y in Aceitas(f) && y.evento == x.evento
  {
    hide Aceitas, RepeticoesNaJanela, NaJanela;
    var a := Aceitas(f);
    AceitasUmaVez(f);
    AceitasSao(f);
    MapearContem(f, IdDa(), x);
    var k :| 0 <= k < |a| && Ids(a)[k] == x.evento.id;
    y := a[k];
    assert y in a && IdDe()(y.evento) == IdDe()(x.evento);
  }

  lemma AceitoSse(f: seq<Entrada>, h: seq<Evento>, e: Evento)
    requires RepeticoesNaJanela(Ids(f), JANELA) && TodosDe(f, h) && Identifica(h, IdDe())
    ensures (exists x :: x in Aceitas(f) && x.evento == e) <==> exists x :: x in f && x.evento == e
  {
    hide Aceitas, Ids, RepeticoesNaJanela, NaJanela;
    AceitasSao(f);
    if x :| x in f && x.evento == e { var y := AceitaVem(f, h, x); }
  }

  /** Every event that reached the window was accepted exactly once: by the replay or live. */
  lemma UmLadoSo(f: seq<Entrada>, h: seq<Evento>, e: Evento)
    requires RepeticoesNaJanela(Ids(f), JANELA) && TodosDe(f, h) && Identifica(h, IdDe())
    ensures e in EventosEm(Aceitas(f), DoReplay()) || e in EventosEm(Aceitas(f), AoVivo())
       <==> e in EventosEm(f, DoReplay()) || e in EventosEm(f, AoVivo())
    ensures !(e in EventosEm(Aceitas(f), DoReplay()) && e in EventosEm(Aceitas(f), AoVivo()))
  {
    hide Aceitas, EventosEm, RepeticoesNaJanela, NaJanela, Ids;
    ChegouSse(f, e);
    ChegouSse(Aceitas(f), e);
    AceitoSse(f, h, e);
    AceitasUmaVez(f);
    EventoDaEntrada(Aceitas(f), DoReplay(), e);
    EventoDaEntrada(Aceitas(f), AoVivo(), e);
    forall x, y | x in Aceitas(f) && y in Aceitas(f) && x.evento == e && y.evento == e
      ensures x == y
    {
      MesmaEntrada(Aceitas(f), x, y);
    }
  }

  // ----- the order of each side

  lemma CrescentePrefixo(a: seq<Evento>, b: seq<Evento>)
    requires Crescente(b, MenorNumero) && a <= b
    ensures Crescente(a, MenorNumero)
  {}

  lemma CrescenteEstendida(a: seq<Evento>, b: seq<Evento>, e: Evento)
    requires Crescente(a, MenorNumero) && Contidos(a, b) && Crescente(b + [e], MenorNumero)
    ensures Crescente(a + [e], MenorNumero)
  {
    forall x | x in a ensures MenorNumero(x, e) {
      var k :| 0 <= k < |b| && b[k] == x;
      assert (b + [e])[k] == x && (b + [e])[|b|] == e;
    }
    CrescenteMais(a, e);
  }

  /** What is accepted of an increasing side is increasing. */
  lemma {:induction false} AceitasCrescem(f: seq<Entrada>, p: Entrada -> bool)
    requires Crescente(EventosEm(f, p), MenorNumero)
    ensures Crescente(EventosEm(Aceitas(f), p), MenorNumero)
  {
    if f == [] {
      assert EventosEm([], p) == [];
    } else {
      hide NaJanela, EventosEm, Aceitas, Crescente, Contidos;
      var q, x := f[..|f| - 1], f[|f| - 1];
      assert f == q + [x];
      EventosMais(q, x, p);
      CrescentePrefixo(EventosEm(q, p), EventosEm(f, p));
      AceitasCrescem(q, p);
      AceitasMais(q, x);
      EventosMais(Aceitas(q), x, p);
      EventosDasAceitas(q, p);
      if p(x) { CrescenteEstendida(EventosEm(Aceitas(q), p), EventosEm(q, p), x.evento); }
    }
  }

  // ----- what the client receives

  /** The socket was registered, every event on its topics after `d` up to `u` was offered
      to it, and the whole replay of the window after `apos` up to `ate` was read. */
  ghost predicate Encontro(h: seq<Evento>, topicos: set<string>, f: seq<Entrada>, apos: nat, ate: nat, d: nat, u: nat) {
    && Numerada(h) && Identifica(h, IdDe()) && RepeticoesNaJanela(Ids(f), JANELA) && d <= u && apos <= ate
    && EventosEm(f, DoReplay()) == Filtrar(h, Entre(topicos, apos, Algo(ate)))
    && EventosEm(f, AoVivo()) == Filtrar(h, Ambos(Janela(d, u), Assinado(topicos)))
  }

  lemma EncontroTodosDe(h: seq<Evento>, topicos: set<string>, f: seq<Entrada>, apos: nat, ate: nat, d: nat, u: nat)
    requires Encontro(h, topicos, f, apos, ate, d, u)
    ensures TodosDe(f, h)
  {
    hide EventosEm, Filtrar, RepeticoesNaJanela, Numerada;
    forall x | x in f ensures x.evento in h {
      EventoDaEntrada(f, DoReplay(), x.evento);
      EventoDaEntrada(f, AoVivo(), x.evento);
      assert DoReplay()(x) || AoVivo()(x);
    }
  }

  /** When the replay ends, what was sent during it and what is drained from the live queue
      up to its watermark are together exactly the replay's events, each once. */
  lemma ReplayUmaVez(h: seq<Evento>, topicos: set<string>, f: seq<Entrada>, apos: nat, ate: nat, d: nat, u: nat)
    requires Encontro(h, topicos, f, apos, ate, d, u)
    ensures var enviados :=
      EventosEm(Aceitas(f), DoReplay()) + Filtrar(EventosEm(Aceitas(f), AoVivo()), Janela(apos, ate));
            Distintos(enviados) && MesmosElementos(enviados, Filtrar(h, Entre(topicos, apos, Algo(ate))))
  {
    hide EventosEm, Aceitas, RepeticoesNaJanela, Numerada, Filtrar;
    var r, v := EventosEm(Aceitas(f), DoReplay()), EventosEm(Aceitas(f), AoVivo());
    EncontroTodosDe(h, topicos, f, apos, ate, d, u);
    AceitasUmaVez(f);
    DistintosSeIds(Aceitas(f), DoReplay());
    DistintosSeIds(Aceitas(f), AoVivo());
    DistintosFiltrar(v, Janela(apos, ate));
    forall e
      ensures e in r || e in v <==> e in EventosEm(f, DoReplay()) || e in EventosEm(f, AoVivo())
        ensures !(e in r && e in v)
    {
      UmLadoSo(f, h, e);
    }
    EventosDasAceitas(f, DoReplay());
    EventosDasAceitas(f, AoVivo());
    DistintosConcat(r, Filtrar(v, Janela(apos, ate)));
  }

  /** What stays queued is exactly the history of the topics after the watermark, as far
      as the socket was offered it, each event once and in commit order. */
  lemma FilaAposReplay(h: seq<Evento>, topicos: set<string>, f: seq<Entrada>, apos: nat, ate: nat, d: nat, u: nat)
    requires Encontro(h, topicos, f, apos, ate, d, u)
    ensures Filtrar(EventosEm(Aceitas(f), AoVivo()), Apos(ate))
      == Filtrar(h, Ambos(Janela(Max(d, ate), u), Assinado(topicos)))
  {
    hide EventosEm, Aceitas, RepeticoesNaJanela, Filtrar;
    var v, alvo := EventosEm(Aceitas(f), AoVivo()), Filtrar(h, Ambos(Janela(Max(d, ate), u), Assinado(topicos)));
    EncontroTodosDe(h, topicos, f, apos, ate, d, u);
    FiltrarCrescente(h, Ambos(Janela(d, u), Assinado(topicos)), MenorNumero);
    FiltrarCrescente(h, Ambos(Janela(Max(d, ate), u), Assinado(topicos)), MenorNumero);
    AceitasCrescem(f, AoVivo());
    FiltrarCrescente(v, Apos(ate), MenorNumero);
    EventosDasAceitas(f, DoReplay());
    EventosDasAceitas(f, AoVivo());
    forall e ensures e in Filtrar(v, Apos(ate)) <==> e in alvo { UmLadoSo(f, h, e); }
    forall x, y | x in alvo && y in alvo && x != y ensures MenorNumero(x, y) || MenorNumero(y, x) {
      if x.numero == y.numero { MesmoNumero(h, x, y); }
    }
    CrescenteUnica(alvo, Filtrar(v, Apos(ate)), MenorNumero);
  }

  /** Main result: a reconnected client receives, over the replay and the live queue,
      distinct events only, and all those of its topics after `apos` that were committed up
      to the watermark or the listener's position, if and only if none of them lies between
      the watermark and the point from which the socket was offered live events. */
  lemma RecebeTudoSse(h: seq<Evento>, topicos: set<string>, f: seq<Entrada>, apos: nat, ate: nat, d: nat, u: nat)
    requires Encontro(h, topicos, f, apos, ate, d, u)
    ensures var v := EventosEm(Aceitas(f), AoVivo());
            var recebidos := EventosEm(Aceitas(f), DoReplay()) + Filtrar(v, Janela(apos, ate)) + Filtrar(v, Apos(ate));
            && Distintos(recebidos)
            && (MesmosElementos(recebidos, Filtrar(h, Ambos(Janela(apos, Max(ate, u)), Assinado(topicos))))
                <==> forall e :: e in h && e.topico in topicos ==> !(ate < e.numero <= d))
  {
    hide EventosEm, Aceitas, RepeticoesNaJanela, Numerada, Filtrar, Ids;
    var v := EventosEm(Aceitas(f), AoVivo());
    var drenados, fila := EventosEm(Aceitas(f), DoReplay()) + Filtrar(v, Janela(apos, ate)), Filtrar(v, Apos(ate));
    ReplayUmaVez(h, topicos, f, apos, ate, d, u);
    FilaAposReplay(h, topicos, f, apos, ate, d, u);
    FilaDistinta(f, ate);
    DistintosConcat(drenados, fila);
    ParteDaHistoria(h, topicos, apos, ate, d, u, drenados, fila);
  }

  lemma FilaDistinta(f: seq<Entrada>, ate: nat)
    requires RepeticoesNaJanela(Ids(f), JANELA)
    ensures Distintos(Filtrar(EventosEm(Aceitas(f), AoVivo()), Apos(ate)))
  {
    hide EventosEm, Aceitas, RepeticoesNaJanela, Filtrar, Ids;
    AceitasUmaVez(f);
    DistintosSeIds(Aceitas(f), AoVivo());
    DistintosFiltrar(EventosEm(Aceitas(f), AoVivo()), Apos(ate));
  }

  /** The replay's window and the live window cover everything unless something lies between. */
  lemma ParteDaHistoria(h: seq<Evento>, topicos: set<string>, apos: nat, ate: nat, d: nat, u: nat,
                        a: seq<Evento>, b: seq<Evento>)
    requires apos <= ate && d <= u && MesmosElementos(a, Filtrar(h, Entre(topicos, apos, Algo(ate))))
    requires b == Filtrar(h, Ambos(Janela(Max(d, ate), u), Assinado(topicos)))
    ensures MesmosElementos(a + b, Filtrar(h, Ambos(Janela(apos, Max(ate, u)), Assinado(topicos))))
       <==> forall e :: e in h && e.topico in topicos ==> !(ate < e.numero <= d)
  {
    hide Filtrar;
    var todos := Filtrar(h, Ambos(Janela(apos, Max(ate, u)), Assinado(topicos)));
    forall e ensures e in a + b ==> e in todos {}
    forall e | e in h && e.topico in topicos && ate < e.numero <= d ensures e in todos && e !in a + b {}
    forall e | e in todos && e !in a + b ensures e in h && e.topico in topicos && ate < e.numero <= d {}
  }

  // ----- the order of the replay

  /** The entry at `i` is the window's first sight of its event. */
  ghost predicate Primeira(f: seq<Entrada>, i: nat)
    requires i < |f|
  {
    forall k :: 0 <= k < i ==> f[k].evento != f[i].evento
  }

  /** The event arrived live before its turn in the replay. */
  ghost predicate VivoAntes(f: seq<Entrada>, e: Evento) {
    exists i :: 0 <= i < |f| && f[i] == Entrada(e, false) && Entrada(e, true) !in f[..i]
  }

  /** An entry is accepted where the window does not hold its identifier. */
  lemma {:induction false} AceitaOnde(f: seq<Entrada>, x: Entrada)
    ensures x in Aceitas(f) <==> exists i :: 0 <= i < |f| && f[i] == x && !NaJanela(Ids(f[..i]), JANELA, x.evento.id)
  {
    hide NaJanela, Ids;
    if f != [] {
      var p, y := f[..|f| - 1], f[|f| - 1];
      assert f == p + [y];
      AceitaOnde(p, x);
      assert forall i :: 0 <= i < |p| ==> f[..i] == p[..i] && f[i] == p[i];
      assert f[..|p|] == p;
    }
  }

  lemma IdJaVisto(f: seq<Entrada>, i: nat, h: seq<Evento>)
    requires i < |f| && TodosDe(f, h) && Identifica(h, IdDe())
    ensures f[i].evento.id in Ids(f[..i]) <==> !Primeira(f, i)
  {
    var p := f[..i];
    assert f[i] in f;
    if f[i].evento.id in Ids(p) {
      var k :| 0 <= k < |p| && Ids(p)[k] == f[i].evento.id;
      assert f[k] in f && IdDe()(f[k].evento) == IdDe()(f[i].evento);
    }
    if k :| 0 <= k < i && f[k].evento == f[i].evento { assert p[k] == f[k] && Ids(p)[k] == f[i].evento.id; }
  }

  lemma IdsDoPrefixo(f: seq<Entrada>, i: nat)
    requires i < |f|
    ensures Ids(f)[..i] == Ids(f[..i]) && Ids(f)[i] == f[i].evento.id
  {}

  /** Without late repetitions the window holds an identifier exactly when its event came before. */
  lemma JanelaSse(f: seq<Entrada>, i: nat, h: seq<Evento>)
    requires RepeticoesNaJanela(Ids(f), JANELA) && i < |f| && TodosDe(f, h) && Identifica(h, IdDe())
    ensures NaJanela(Ids(f[..i]), JANELA, f[i].evento.id) <==> !Primeira(f, i)
  {
    hide NaJanela, Primeira;
    IdsDoPrefixo(f, i);
    IdJaVisto(f, i, h);
    if f[i].evento.id in Ids(f[..i]) {
      assert Ids(f)[i] in Ids(f)[..i];
    } else {
      NuncaVistoForaDaJanela(Ids(f[..i]), JANELA, f[i].evento.id);
    }
  }

  lemma PrimeiraVez(f: seq<Entrada>, i: nat) returns (k: nat)
    requires i < |f|
    ensures k <= i && Primeira(f, k) && f[k].evento == f[i].evento
  {
    k := i;
    while !Primeira(f, k)
      invariant k <= i && f[k].evento == f[i].evento
      decreases k
    {
      var j :| 0 <= j < k && f[j].evento == f[k].evento;
      k := j;
    }
  }

  /** The live side took an event exactly when it arrived live before its turn. */
  lemma AceitoAoVivoSse(f: seq<Entrada>, h: seq<Evento>, e: Evento)
    requires RepeticoesNaJanela(Ids(f), JANELA) && TodosDe(f, h) && Identifica(h, IdDe())
    ensures e in EventosEm(Aceitas(f), AoVivo()) <==> VivoAntes(f, e)
  {
    hide Aceitas, EventosEm, NaJanela, Ids, RepeticoesNaJanela, TodosDe;
    var x := Entrada(e, false);
    EventoDaEntrada(Aceitas(f), AoVivo(), e);
    AceitaOnde(f, x);
    if x in Aceitas(f) {
      var i :| 0 <= i < |f| && f[i] == x && !NaJanela(Ids(f[..i]), JANELA, e.id);
      JanelaSse(f, i, h);
    }
    if VivoAntes(f, e) {
      var i :| 0 <= i < |f| && f[i] == x && Entrada(e, true) !in f[..i];
      var k := PrimeiraVez(f, i);
      JanelaSse(f, k, h);
      assert k < i ==> f[k] == f[..i][k];
    }
  }

  lemma CrescenteConcatSse(a: seq<Evento>, b: seq<Evento>)
    requires Crescente(a, MenorNumero) && Crescente(b, MenorNumero)
    ensures Crescente(a + b, MenorNumero) <==> forall x, y :: x in a && y in b ==> x.numero < y.numero
  {
    if Crescente(a + b, MenorNumero) {
      forall x, y | x in a && y in b ensures x.numero < y.numero {
        var i :| 0 <= i < |a| && a[i] == x;
        var j :| 0 <= j < |b| && b[j] == y;
        assert (a + b)[i] == x && (a + b)[|a| + j] == y;
      }
    }
  }

  /** No event of the replay that arrived live before its turn is followed by one that did not. */
  ghost predicate VivosNoFim(f: seq<Entrada>, r: seq<Evento>) {
    forall x, y :: x in r && y in r && x.numero < y.numero && VivoAntes(f, x) ==> VivoAntes(f, y)
  }

  /** Which side of the connection sends each event of the replay. */
  lemma LadosDoReplay(h: seq<Evento>, topicos: set<string>, f: seq<Entrada>, apos: nat, ate: nat, d: nat, u: nat)
    requires Encontro(h, topicos, f, apos, ate, d, u)
    ensures var r, v := EventosEm(Aceitas(f), DoReplay()), Filtrar(EventosEm(Aceitas(f), AoVivo()), Janela(apos, ate));
            var todos := Filtrar(h, Entre(topicos, apos, Algo(ate)));
            && Crescente(r, MenorNumero) && Crescente(v, MenorNumero) && Crescente(todos, MenorNumero)
            && (forall e :: e in r <==> e in todos && !VivoAntes(f, e))
            && (forall e :: e in v <==> e in todos && VivoAntes(f, e))
  {
    hide EventosEm, Aceitas, RepeticoesNaJanela, Filtrar, Ids, VivoAntes;
    var v := EventosEm(Aceitas(f), AoVivo());
    EncontroTodosDe(h, topicos, f, apos, ate, d, u);
    FiltrarCrescente(h, Entre(topicos, apos, Algo(ate)), MenorNumero);
    FiltrarCrescente(h, Ambos(Janela(d, u), Assinado(topicos)), MenorNumero);
    AceitasCrescem(f, DoReplay());
    AceitasCrescem(f, AoVivo());
    FiltrarCrescente(v, Janela(apos, ate), MenorNumero);
    EventosDasAceitas(f, DoReplay());
    EventosDasAceitas(f, AoVivo());
    forall e
      ensures e in v <==> VivoAntes(f, e)
        ensures e in EventosEm(Aceitas(f), DoReplay()) <==> e in EventosEm(f, DoReplay()) && !VivoAntes(f, e)
    {
      AceitoAoVivoSse(f, h, e);
      UmLadoSo(f, h, e);
    }
  }

  lemma CrescenteLigada(s: seq<Evento>, x: Evento, y: Evento)
    requires Crescente(s, MenorNumero) && x in s && y in s && x != y
    ensures x.numero != y.numero
  {
    var i :| 0 <= i < |s| && s[i] == x;
    var j :| 0 <= j < |s| && s[j] == y;
    assert i < j ==> MenorNumero(s[i], s[j]);
    assert j < i ==> MenorNumero(s[j], s[i]);
  }

  lemma MesmaOrdemSse(a: seq<Evento>, b: seq<Evento>)
    requires Crescente(b, MenorNumero) && MesmosElementos(a, b)
    ensures Crescente(a, MenorNumero) <==> a == b
  {
    forall x, y | x in b && y in b && x != y
      ensures MenorNumero(x, y) || MenorNumero(y, x)
    {
      CrescenteLigada(b, x, y);
    }
    if Crescente(a, MenorNumero) { CrescenteUnica(b, a, MenorNumero); }
  }

  /** Two sides that share an increasing list keep its order one after the other exactly
      when what the second sends is the end of it. */
  lemma UmDepoisDoOutro(f: seq<Entrada>, r: seq<Evento>, v: seq<Evento>, todos: seq<Evento>)
    requires Crescente(todos, MenorNumero)
    requires forall e :: e in r <==> e in todos && !VivoAntes(f, e)
    requires forall e :: e in v <==> e in todos && VivoAntes(f, e)
    ensures (forall x, y :: x in r && y in v ==> x.numero < y.numero) <==> VivosNoFim(f, todos)
  {
    hide VivoAntes, Crescente;
    if VivosNoFim(f, todos) {
      forall x, y | x in r && y in v ensures x.numero < y.numero { CrescenteLigada(todos, x, y); }
    } else {
      var x, y :| x in todos && y in todos && x.numero < y.numero && VivoAntes(f, x) && !VivoAntes(f, y);
      assert y in r && x in v;
    }
  }

  /** Main result: when the replay ends the client has exactly its window of the history,
      in commit order, if and only if no event of the window that arrived live before its
      turn in the replay is followed by one that did not. */
  lemma ReplayEmOrdemSse(h: seq<Evento>, topicos: set<string>, f: seq<Entrada>, apos: nat, ate: nat, d: nat, u: nat)
    requires Encontro(h, topicos, f, apos, ate, d, u)
    ensures var r, v := EventosEm(Aceitas(f), DoReplay()), Filtrar(EventosEm(Aceitas(f), AoVivo()), Janela(apos, ate));
            var todos := Filtrar(h, Entre(topicos, apos, Algo(ate)));
            && (Crescente(r + v, MenorNumero) <==> VivosNoFim(f, todos))
            && (r + v == todos <==> VivosNoFim(f, todos))
  {
    hide EventosEm, Aceitas, RepeticoesNaJanela, Filtrar, Ids, VivoAntes, Numerada, Encontro;
    var r, v := EventosEm(Aceitas(f), DoReplay()), Filtrar(EventosEm(Aceitas(f), AoVivo()), Janela(apos, ate));
    var todos := Filtrar(h, Entre(topicos, apos, Algo(ate)));
    LadosDoReplay(h, topicos, f, apos, ate, d, u);
    ReplayUmaVez(h, topicos, f, apos, ate, d, u);
    CrescenteConcatSse(r, v);
    MesmaOrdemSse(r + v, todos);
    UmDepoisDoOutro(f, r, v, todos);
  }
}
