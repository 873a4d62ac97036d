/** The sockets of one instance: deduplication by a bounded window of recent identifiers,
    bounded queues, and disconnection under backpressure. */
module Conexoes {
  import opened Aritmetica
  import opened Listas
  import opened Eventos
  import opened Janelas

  const JANELA := 2048

  function IdDe(): Evento -> string { (e: Evento) => e.id }
  function Assinado(topicos: set<string>): Evento -> bool { (e: Evento) => e.topico in topicos }

  // ----- what reaches the window of a connection

  /** One question to the window: about a broadcast event, or about a replayed one. */
  datatype Entrada = Entrada(evento: Evento, replay: bool)

  function EventoDa(): Entrada -> Evento { (x: Entrada) => x.evento }
  function IdDa(): Entrada -> string { (x: Entrada) => x.evento.id }
  function AoVivo(): Entrada -> bool { (x: Entrada) => !x.replay }
  function DoReplay(): Entrada -> bool { (x: Entrada) => x.replay }

  function Ids(f: seq<Entrada>): seq<string> { Mapear(f, IdDa()) }

  /** The events of the entries that satisfy `p`. */
  function EventosEm(f: seq<Entrada>, p: Entrada -> bool): seq<Evento> { Mapear(Filtrar(f, p), EventoDa()) }

  /** The entries the window answers "new" to. */
  function Aceitas(f: seq<Entrada>): seq<Entrada> {
    if f == [] then []
    else
      var p, x := f[..|f| - 1], f[|f| - 1];
      Aceitas(p) + Se(!NaJanela(Ids(p), JANELA, x.evento.id), x)
  }

  lemma AceitasMais(f: seq<Entrada>, x: Entrada)
    ensures Aceitas(f + [x]) == if NaJanela(Ids(f), JANELA, x.evento.id) then Aceitas(f) else Aceitas(f) + [x]
  {
    assert (f + [x])[..|f|] == f && Aceitas(f) + [] == Aceitas(f);
  }

  lemma {:induction false} AceitasSao(f: seq<Entrada>)
    ensures Ids(Aceitas(f)) == Aceitos(Ids(f), JANELA)
    ensures forall x :: x in Aceitas(f) ==> x in f
  {
    hide NaJanela;
    if f != [] {
      var p, x := f[..|f| - 1], f[|f| - 1];
      assert f == p + [x];
      AceitasSao(p);
      IdsMais(p, x);
      IdsMais(Aceitas(p), x);
      AceitosMais(Ids(p), JANELA, x.evento.id);
    }
  }

  lemma IdsMais(f: seq<Entrada>, x: Entrada)
    ensures Ids(f + [x]) == Ids(f) + [x.evento.id]
  {
    MapearConcat(f, [x], IdDa());
  }

  lemma EventosMais(f: seq<Entrada>, x: Entrada, p: Entrada -> bool)
    ensures EventosEm(f + [x], p) == if p(x) then EventosEm(f, p) + [x.evento] else EventosEm(f, p)
  {
    FiltrarMaisUm(f, x, p);
    MapearConcat(Filtrar(f, p), [x], EventoDa());
  }

  // ----- one connection

  /** Until the queue overflows, what was enqueued is what the window accepted of the
      broadcasts; the queue is the unread end of what was enqueued. */
  ghost predicate FilaOk(chegadas: seq<Entrada>, entregues: seq<Evento>, fila: seq<Evento>, estourou: bool) {
    && entregues <= EventosEm(Aceitas(chegadas), AoVivo())
    && (!estourou ==> entregues == EventosEm(Aceitas(chegadas), AoVivo()))
    && |fila| <= |entregues| && fila == entregues[|entregues| - |fila|..]
  }

  lemma OferecerMantem(chegadas: seq<Entrada>, entregues: seq<Evento>, fila: seq<Evento>, e: Evento)
    requires FilaOk(chegadas, entregues, fila, false)
    ensures var f := chegadas + [Entrada(e, false)];
            if NaJanela(Ids(chegadas), JANELA, e.id) then FilaOk(f, entregues, fila, false)
            else FilaOk(f, entregues + [e], fila + [e], false) && FilaOk(f, entregues, fila, true)
  {
    hide NaJanela, Aceitas, EventosEm;
    AceitasMais(chegadas, Entrada(e, false));
    EventosMais(Aceitas(chegadas), Entrada(e, false), AoVivo());
  }

  lemma OfertaMantem(oferta: seq<Evento>, chegadas: seq<Entrada>, topicos: set<string>, e: Evento)
    requires EventosEm(chegadas, AoVivo()) == Filtrar(oferta, Assinado(topicos))
    ensures EventosEm(chegadas + Se(e.topico in topicos, Entrada(e, false)), AoVivo())
      == Filtrar(oferta + [e], Assinado(topicos))
  {
    hide EventosEm, Filtrar;
    FiltrarMaisUm(oferta, e, Assinado(topicos));
    EventosMais(chegadas, Entrada(e, false), AoVivo());
    assert chegadas + [] == chegadas;
  }

  lemma RepetirMantem(chegadas: seq<Entrada>, entregues: seq<Evento>, fila: seq<Evento>, estourou: bool, e: Evento)
    requires FilaOk(chegadas, entregues, fila, estourou)
    ensures FilaOk(chegadas + [Entrada(e, true)], entregues, fila, estourou)
  {
    hide NaJanela, Aceitas, EventosEm;
    AceitasMais(chegadas, Entrada(e, true));
    EventosMais(Aceitas(chegadas), Entrada(e, true), AoVivo());
  }

  /** The window is the ordered dictionary's content after the questions `chegadas`. */
  class Conexao {
    const topicos: set<string>
    const capacidade: nat
    /** The ordered dictionary of recent identifiers, oldest first. */
    var vistos: seq<string>
    var fila: seq<Evento>
    /** Every event broadcast since the connection was registered, on any topic. */
    ghost var oferta: seq<Evento>
    ghost var chegadas: seq<Entrada>
    ghost var entregues: seq<Evento>
    ghost var estourou: bool
    /** The listener's position when the connection was registered. */
    ghost const registro: Opcao<nat>

    ghost predicate JanelaOk()
      reads this
    {
      vistos == Finais(PorUltimaChegada(Ids(chegadas)), JANELA)
    }

    ghost predicate Valid()
      reads this
    {
      && JanelaOk() && FilaOk(chegadas, entregues, fila, estourou)
      && EventosEm(chegadas, AoVivo()) == Filtrar(oferta, Assinado(topicos))
    }

    constructor (topicos: set<string>, capacidade: nat, ghost registro: Opcao<nat>)
      ensures Valid() && this.topicos == topicos && this.capacidade == capacidade && this.registro == registro
      ensures oferta == [] && chegadas == [] && fila == [] && entregues == [] && !estourou
    {
      this.topicos, this.capacidade, this.registro := topicos, capacidade, registro;
      vistos, fila, oferta, chegadas, entregues, estourou := [], [], [], [], [], false;
    }

    method RememberEvent(e: Evento, ghost replay: bool) returns (novo: bool)
      requires JanelaOk()
      modifies `vistos, `chegadas
      ensures JanelaOk() && chegadas == old(chegadas) + [Entrada(e, replay)]
      ensures novo == !NaJanela(Ids(old(chegadas)), 2048, e.id)
      ensures |vistos| <= 2048
    {
      hide PorUltimaChegada;
      if e.id in vistos {
        JanelaRepetido(Ids(chegadas), JANELA, e.id);
        vistos := Filtrar(vistos, Outro(e.id)) + [e.id];
        novo := false;
      } else {
        JanelaNovo(Ids(chegadas), JANELA, e.id);
        vistos := vistos + [e.id];
        if |vistos| > JANELA { vistos := vistos[1..]; }
        novo := true;
      }
      IdsMais(chegadas, Entrada(e, replay));
      chegadas := chegadas + [Entrada(e, replay)];
    }

    ghost function EfeitoDe(e: Evento): Efeito
      reads this
    {
      if e.topico !in topicos || NaJanela(Ids(chegadas), JANELA, e.id) then Ignora
      else if capacidade > 0 && |fila| >= capacidade then Estoura
      else Enfileira
    }

    /** The body of the broadcast loop for one connection. */
    method Oferecer(e: Evento) returns (sobrecarga: bool)
      requires Valid() && !estourou
      modifies this
      ensures Valid() && sobrecarga == estourou == old(EfeitoDe(e)).Estoura?
      ensures oferta == old(oferta) + [e]
      ensures chegadas == old(chegadas) + Se(e.topico in topicos, Entrada(e, false))
      ensures fila == old(fila) + Se(old(EfeitoDe(e)).Enfileira?, e)
      ensures entregues == old(entregues) + Se(old(EfeitoDe(e)).Enfileira?, e)
    {
      hide PorUltimaChegada, FilaOk, NaJanela, EventosEm, Filtrar, Mapear, Finais, Ids;
      sobrecarga := false;
      OfertaMantem(oferta, chegadas, topicos, e);
      OferecerMantem(chegadas, entregues, fila, e);
      oferta := oferta + [e];
      assert chegadas + Se(false, Entrada(e, false)) == chegadas;
      if e.topico !in topicos { return; }
      var novo := RememberEvent(e, false);
      if novo {
        if capacidade > 0 && |fila| >= capacidade {
          sobrecarga, estourou := true, true;
        } else {
          fila, entregues := fila + [e], entregues + [e];
        }
      }
    }

    /** The socket writer takes the oldest envelope. */
    method Consumir() returns (e: Evento)
      requires Valid() && fila != []
      modifies `fila
      ensures Valid() && old(fila) == [e] + fila
    {
      hide PorUltimaChegada, Aceitas, EventosEm;
      e, fila := fila[0], fila[1..];
    }
  }

  datatype Efeito = Ignora | Enfileira | Estoura

  // ----- what a connection receives of a feed

  ghost predicate Contidos(a: seq<Evento>, b: seq<Evento>) { forall e :: e in a ==> e in b }

  lemma {:induction false} SoAoVivo(f: seq<Entrada>)
    requires forall x :: x in f ==> !x.replay
    ensures Mapear(EventosEm(f, AoVivo()), IdDe()) == Ids(f)
  {
    FiltrarTodos(f, AoVivo());
  }

  /** Relays may repeat and delay what they send. Of a feed whose first appearances are a
      prefix of the history, a subscriber without late repetitions accepts a prefix of its
      own part of the history. */
  lemma FeedSegueHistoria(h: seq<Evento>, feed: seq<Evento>, topicos: set<string>, n: nat)
    requires Numerada(h) && Contidos(feed, h) && Chegada(Numeros(feed)) <= Numeros(h) && Identifica(h, IdDe())
    requires RepeticoesNaJanela(Mapear(Filtrar(feed, Assinado(topicos)), IdDe()), n)
    ensures Aceitos(Mapear(Filtrar(feed, Assinado(topicos)), IdDe()), n)
      <= Mapear(Filtrar(h, Assinado(topicos)), IdDe())
  {
    var p := Assinado(topicos);
    ChegadasSaoPrefixo(h, feed);
    UmaVezSse(Mapear(Filtrar(feed, p), IdDe()), n);
    ChegadaMapeada(Filtrar(feed, p), IdDe());
    ChegadaFiltrada(feed, p);
    FiltrarDoPrefixo(Chegada(feed), h, p);
    MapearDoPrefixo(Filtrar(Chegada(feed), p), Filtrar(h, p), IdDe());
  }

  lemma ChegadasSaoPrefixo(h: seq<Evento>, feed: seq<Evento>)
    requires Numerada(h) && Contidos(feed, h) && Chegada(Numeros(feed)) <= Numeros(h)
    ensures Chegada(feed) <= h
  {
    hide Numerada;
    forall a, b | a in h && b in h && a.numero == b.numero ensures a == b { MesmoNumero(h, a, b); }
    ChegadaMapeada(feed, NumeroDe());
    PrefixoPorChave(Chegada(feed), h, NumeroDe());
  }

  /** The same on the connection itself: what it enqueued, overflowed or not, is a prefix
      of the committed events of its topics, each once and in commit order. */
  lemma ConexaoSegueHistoria(c: Conexao, h: seq<Evento>)
    requires c.Valid() && (forall x :: x in c.chegadas ==> !x.replay)
    requires Numerada(h) && Contidos(c.oferta, h) && Chegada(Numeros(c.oferta)) <= Numeros(h) && Identifica(h, IdDe())
    requires RepeticoesNaJanela(Ids(c.chegadas), JANELA)
    ensures c.entregues <= Filtrar(h, Assinado(c.topicos))
  {
    hide Numerada, NaJanela, Chegada, RepeticoesNaJanela, PorUltimaChegada, Aceitas, Aceitos;
    var p, a := Assinado(c.topicos), Aceitas(c.chegadas);
    SoAoVivo(c.chegadas);
    FeedSegueHistoria(h, c.oferta, c.topicos, JANELA);
    AceitasSao(c.chegadas);
    SoAoVivo(a);
    EventosDasAceitas(c.chegadas, AoVivo());
    PrefixoPorChave(EventosEm(a, AoVivo()), Filtrar(h, p), IdDe());
  }

  lemma EventosDasAceitas(f: seq<Entrada>, p: Entrada -> bool)
    ensures Contidos(EventosEm(Aceitas(f), p), EventosEm(f, p))
  {
    hide NaJanela, PorUltimaChegada, Aceitas;
    AceitasSao(f);
    var s := Filtrar(Aceitas(f), p);
    forall e | e in EventosEm(Aceitas(f), p) ensures e in EventosEm(f, p) {
      var k :| 0 <= k < |s| && s[k].evento == e;
      assert s[k] in Filtrar(f, p);
      MapearContem(Filtrar(f, p), EventoDa(), s[k]);
    }
  }

  lemma {:induction false} AceitasTodas(f: seq<Entrada>)
    ensures |Aceitas(f)| <= |f| && (|Aceitas(f)| == |f| ==> Aceitas(f) == f)
  {
    hide NaJanela;
    if f != [] { AceitasTodas(f[..|f| - 1]); }
  }

  /** While it is open, a connection without replays enqueues everything it was offered on
      its topics if and only if none of it reuses an identifier still in the window. */
  lemma TudoEnfileiradoSse(c: Conexao)
    requires c.Valid() && !c.estourou && forall x :: x in c.chegadas ==> !x.replay
    ensures var s := Filtrar(c.oferta, Assinado(c.topicos));
            c.entregues == s <==> SemRepeticaoNaJanela(Mapear(s, IdDe()), JANELA)
  {
    hide NaJanela, PorUltimaChegada, Aceitas, Aceitos, SemRepeticaoNaJanela;
    SoAoVivo(c.chegadas);
    AceitasSao(c.chegadas);
    SoAoVivo(Aceitas(c.chegadas));
    AceitasTodas(c.chegadas);
    NadaDescartadoSse(Ids(c.chegadas), JANELA);
  }

  // ----- all the connections of the instance

  /** The connection was offered the event and did with it what its own state requires. */
  twostate predicate Ofertada(c: Conexao, e: Evento)
    reads c
  {
    && c.Valid() && c.estourou == old(c.EfeitoDe(e)).Estoura?
    && c.oferta == old(c.oferta) + [e]
    && c.chegadas == old(c.chegadas) + Se(e.topico in c.topicos, Entrada(e, false))
    && c.fila == old(c.fila) + Se(old(c.EfeitoDe(e)).Enfileira?, e)
    && c.entregues == old(c.entregues) + Se(old(c.EfeitoDe(e)).Enfileira?, e)
  }

  class Central {
    var conexoes: seq<Conexao>

    ghost predicate Valid()
      reads this, conexoes
    {
      Distintos(conexoes) && forall c :: c in conexoes ==> c.Valid() && !c.estourou
    }

    constructor ()
      ensures Valid() && conexoes == []
    {
      conexoes := [];
    }

    method Register(topicos: set<string>, capacidade: nat, ghost registro: Opcao<nat>) returns (c: Conexao)
      requires Valid()
      modifies this
      ensures Valid() && fresh(c) && conexoes == old(conexoes) + [c] && c.oferta == [] && c.chegadas == []
        && c.fila == c.entregues == []
      ensures c.topicos == topicos && c.capacidade == capacidade && c.registro == registro
    {
      hide FilaOk, PorUltimaChegada, NaJanela, EventosEm;
      c := new Conexao(topicos, capacidade, registro);
      conexoes := conexoes + [c];
    }

    /** Offers the event to every connection; those whose queue overflowed are dropped,
        the others are undisturbed. */
    method Broadcast(e: Evento)
      requires Valid()
      modifies this, conexoes
      ensures Valid() && |conexoes| <= |old(conexoes)|
      ensures forall c :: c in old(conexoes) ==> Ofertada(c, e)
      ensures forall c :: c in conexoes <==> c in old(conexoes) && !old(c.EfeitoDe(e)).Estoura?
    {
      hide PorUltimaChegada, FilaOk, NaJanela, Filtrar, EventosEm, Mapear, Ids, Finais, Aceitas;
      var todas := conexoes;
      var sobrecarregadas: seq<Conexao> := [];
      for i := 0 to |todas|
        modifies todas
        invariant forall j :: i <= j < |todas| ==> unchanged(todas[j])
        invariant forall j :: 0 <= j < i ==> Ofertada(todas[j], e)
        invariant forall c :: c in sobrecarregadas <==> c in todas[..i] && old(c.EfeitoDe(e)).Estoura?
      {
        var s := todas[i].Oferecer(e);
        if s { sobrecarregadas := sobrecarregadas + [todas[i]]; }
        PrefixoMais(todas, i);
      }
      PrefixoTodo(todas);
      conexoes := Filtrar(todas, ForaDe(sobrecarregadas));
      DistintosFiltrar(todas, ForaDe(sobrecarregadas));
    }

    /** Every socket is closed; what a client already received stays what it was. */
    method DisconnectAll()
      requires Valid()
      modifies `conexoes
      ensures Valid() && conexoes == []
    {
      var restam := conexoes;
      while restam != []
        invariant Valid() && conexoes == restam
      {
        DistintosFiltrar(conexoes, ForaDe([restam[0]]));
        PrimeiraSai(conexoes);
        conexoes := Filtrar(conexoes, ForaDe([restam[0]]));
        restam := restam[1..];
      }
    }
  }

  lemma PrimeiraSai<T>(s: seq<T>)
    requires Distintos(s) && s != []
    ensures Filtrar(s, ForaDe([s[0]])) == s[1..]
  {
    FiltrarTodos(s[1..], ForaDe([s[0]]));
  }
}
