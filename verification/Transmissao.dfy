/** The stream listener of one instance, which watches for gaps and feeds its sockets. */
module Transmissao {
  import opened Aritmetica
  import opened Listas
  import opened Eventos
  import opened OutboxInvariantes
  import opened OutboxPassos
  import opened OutboxRepositorio
  import opened Janelas
  import opened Conexoes

  // ----- what a connection was offered

  /** Where the record of a connection begins: at the listener's position when it was
      registered or, if there was none, just before the first event it was offered. */
  function Desde(registro: Opcao<nat>, oferta: seq<Evento>): Opcao<nat> {
    if registro.Algo? then registro
    else if oferta == [] then Nada
    else Algo(if oferta[0].numero > 0 then oferta[0].numero - 1 else 0)
  }

  /** The connection was offered everything committed since its record begins, in order. */
  ghost predicate Completo(h: seq<Evento>, registro: Opcao<nat>, ultimo: Opcao<nat>, oferta: seq<Evento>) {
    match ultimo
    case Nada => registro.Nada? && oferta == []
    case Algo(u) =>
      var d := Desde(registro, oferta);
      d.Algo? && d.valor <= u && u in Numeros(h) && oferta == Filtrar(h, Janela(d.valor, u))
  }

  /** What was offered stays complete when later events are committed. */
  lemma CompletoEstavel(h: seq<Evento>, registro: Opcao<nat>, ultimo: Opcao<nat>, oferta: seq<Evento>, e: Evento)
    requires Completo(h, registro, ultimo, oferta) && forall x :: x in h ==> x.numero < e.numero
    ensures Completo(h + [e], registro, ultimo, oferta)
  {
    if ultimo.Algo? {
      var p := Janela(Desde(registro, oferta).valor, ultimo.valor);
      NumerosSao(h, ultimo.valor);
      NumerosSao(h + [e], ultimo.valor);
      FiltrarConcat(h, [e], p);
      assert Filtrar([e], p) == [];
    }
  }

  /** Nothing committed lies between the listener's position and `e`. */
  ghost predicate Seguinte(h: seq<Evento>, ultimo: Opcao<nat>, e: Evento) {
    && e in h
    && (ultimo.Algo? ==>
      ultimo.valor < e.numero && forall x :: x in h && ultimo.valor < x.numero ==> x.numero >= e.numero)
  }

  lemma OfertaSegue(h: seq<Evento>, registro: Opcao<nat>, ultimo: Opcao<nat>, oferta: seq<Evento>, e: Evento)
    requires Numerada(h) && Completo(h, registro, ultimo, oferta) && Seguinte(h, ultimo, e)
    ensures Completo(h, registro, Algo(e.numero), oferta + [e])
  {
    hide Filtrar, Mapear;
    var d := Desde(registro, oferta + [e]).valor;
    var u := if ultimo.Algo? then ultimo.valor else e.numero - 1;
    NumerosSao(h, e.numero);
    forall x | x in h && x.numero < e.numero ensures x.numero <= u {}
    JanelaMais(h, d, u, e);
    JanelaVazia(h, u);
  }

  lemma RegistroCompleto(h: seq<Evento>, ultimo: Opcao<nat>)
    requires ultimo.Algo? ==> ultimo.valor in Numeros(h)
    ensures Completo(h, ultimo, ultimo, [])
  {
    if ultimo.Algo? { JanelaVazia(h, ultimo.valor); }
  }

  // ----- the stream listener

  /** What a client asks for when its socket joins. */
  datatype Pedido = Pedido(topicos: set<string>, capacidade: nat)

  /** The socket joined as asked when the listener stood at `registro`, and got `oferta` since. */
  ghost predicate Entrou(c: Conexao, p: Pedido, registro: Opcao<nat>, oferta: seq<Evento>)
    reads c
  {
    c.topicos == p.topicos && c.capacidade == p.capacidade && c.registro == registro && c.oferta == oferta
  }

  class Ouvinte {
    const central: Central
    var ultimo: Opcao<nat>
    /** The transport failed and nothing was read from it since. */
    var degradado: bool
    /** The event up to which open sockets were served; none once all were closed. */
    ghost var posicao: Opcao<nat>

    /** Every open socket was offered the committed history of its interval, none missing,
        none repeated, in order. */
    ghost predicate Valid(h: seq<Evento>)
      reads this, central, central.conexoes
    {
      && central.Valid() && (ultimo.Algo? ==> ultimo.valor in Numeros(h)) && (posicao.Algo? ==> posicao == ultimo)
      && forall c :: c in central.conexoes ==> Completo(h, c.registro, posicao, c.oferta)
    }

    constructor ()
      ensures ultimo.Nada? && posicao.Nada? && !degradado && fresh(central) && central.conexoes == []
        && forall h :: Valid(h)
    {
      ultimo, posicao, degradado := Nada, Nada, false;
      central := new Central();
    }

    /** A socket joins, before, between or during deliveries. */
    method Registrar(p: Pedido, ghost h: seq<Evento>) returns (c: Conexao)
      requires Valid(h)
      modifies central
      ensures Valid(h) && fresh(c) && central.conexoes == old(central.conexoes) + [c]
      ensures Entrou(c, p, posicao, []) && c.chegadas == [] && c.fila == c.entregues == []
    {
      hide Completo;
      RegistroCompleto(h, posicao);
      c := central.Register(p.topicos, p.capacidade, posicao);
    }

    method RegistrarTodos(ps: seq<Pedido>, ghost h: seq<Evento>) returns (novas: seq<Conexao>)
      requires Valid(h)
      modifies central
      ensures Valid(h) && fresh(novas) && central.conexoes == old(central.conexoes) + novas && |novas| == |ps|
      ensures forall i :: 0 <= i < |ps| ==> Entrou(novas[i], ps[i], posicao, []) && novas[i].fila == []
    {
      hide Completo;
      novas := [];
      for k := 0 to |ps|
        invariant Valid(h) && fresh(novas) && central.conexoes == old(central.conexoes) + novas && |novas| == k
        invariant forall i :: 0 <= i < k ==> Entrou(novas[i], ps[i], posicao, []) && novas[i].fila == []
      {
        var c := Registrar(ps[k], h);
        novas := novas + [c];
      }
    }

    /** Some event after the listener's position was cleaned up or precedes `e`. */
    ghost predicate Falta(e: Evento, db: Outbox)
      reads this, db
    {
      && ultimo.Algo? && e.numero > ultimo.valor + 1
      && exists x :: x in db.historia && x.numero > ultimo.valor && (Retido(db.topicos)(x) ==> x.numero < e.numero)
    }

    /** The gap check of the envelope read. */
    method VerificarLacuna(e: Evento, db: Outbox) returns (lacuna: bool)
      requires db.Valid() && Valid(db.historia) && e in db.historia && (ultimo.Algo? ==> ultimo.valor < e.numero)
      ensures lacuna == Falta(e, db) && Seguinte(db.historia, if lacuna then Nada else posicao, e)
    {
      hide Coerente, Completo, Numerada;
      ListaNumerada(db);
      lacuna := false;
      if ultimo.Algo? && e.numero > ultimo.valor + 1 {
        lacuna := db.StreamGapRequiresResync(ultimo.valor, e.numero);
      }
    }

    /** Closes the sockets of the moment; those that join from now on start afresh. */
    method Fechar()
      requires central.Valid()
      modifies `posicao, central
      ensures posicao.Nada? && central.conexoes == []
        && forall h :: (ultimo.Algo? ==> ultimo.valor in Numeros(h)) ==> Valid(h)
    {
      central.DisconnectAll();
      posicao := Nada;
    }

    method Transmitir(e: Evento, ghost h: seq<Evento>)
      requires Valid(h) && Numerada(h) && Seguinte(h, posicao, e)
      modifies `ultimo, `posicao, central, central.conexoes
      ensures Valid(h) && ultimo == posicao == Algo(e.numero) && |central.conexoes| <= |old(central.conexoes)|
      ensures forall c :: c in old(central.conexoes) ==> Ofertada(c, e)
      ensures forall c :: c in central.conexoes <==> c in old(central.conexoes) && !old(c.EfeitoDe(e)).Estoura?
    {
      hide Completo, Numerada, FilaOk, PorUltimaChegada, NaJanela, EventosEm, Filtrar, Mapear;
      forall c | c in central.conexoes ensures Completo(h, c.registro, Algo(e.numero), c.oferta + [e]) {
        OfertaSegue(h, c.registro, posicao, c.oferta, e);
      }
      NumerosSao(h, e.numero);
      central.Broadcast(e);
      ultimo, posicao := Algo(e.numero), Algo(e.numero);
    }

    /** Those that just joined get the event too, and none of them overflows. */
    method TransmitirComNovas(e: Evento, ghost h: seq<Evento>, ghost novas: seq<Conexao>, ghost ps: seq<Pedido>,
                              ghost registro: Opcao<nat>)
      requires Valid(h) && Numerada(h) && Seguinte(h, posicao, e) && |novas| == |ps|
      requires forall i :: 0 <= i < |novas| ==>
        novas[i] in central.conexoes && Entrou(novas[i], ps[i], registro, []) && novas[i].fila == []
      modifies `ultimo, `posicao, central, central.conexoes
      ensures Valid(h) && ultimo == posicao == Algo(e.numero)
      ensures forall c :: c in old(central.conexoes) ==> Ofertada(c, e)
      ensures forall c :: c in central.conexoes <==> c in old(central.conexoes) && !old(c.EfeitoDe(e)).Estoura?
      ensures forall c :: c in novas ==> c in central.conexoes
      ensures forall i :: 0 <= i < |novas| ==> Entrou(novas[i], ps[i], registro, [e])
    {
      hide Completo, Numerada, FilaOk, PorUltimaChegada, NaJanela, EventosEm, Filtrar, Mapear;
      Transmitir(e, h);
      forall i | 0 <= i < |novas| ensures Entrou(novas[i], ps[i], registro, [e]) && novas[i] in central.conexoes {
        assert Ofertada(novas[i], e) && old(Entrou(novas[i], ps[i], registro, []));
      }
    }

    /** Nothing is missing: the event goes to the open sockets and to those that join first. */
    method ReceberSeguinte(e: Evento, ghost h: seq<Evento>, chegam: seq<Pedido>) returns (novas: seq<Conexao>)
      requires Valid(h) && Numerada(h) && Seguinte(h, posicao, e)
      modifies `ultimo, `posicao, central, central.conexoes
      ensures Valid(h) && ultimo == posicao == Algo(e.numero) && fresh(novas) && |novas| == |chegam|
      ensures forall c :: c in old(central.conexoes) ==> Ofertada(c, e)
      ensures forall c :: c in central.conexoes <==>
        c in novas || (c in old(central.conexoes) && !old(c.EfeitoDe(e)).Estoura?)
      ensures forall i :: 0 <= i < |chegam| ==> Entrou(novas[i], chegam[i], old(posicao), [e])
    {
      hide Completo, Numerada, FilaOk, PorUltimaChegada, NaJanela, EventosEm, Filtrar, Mapear, Ids, Finais, Seguinte;
      novas := RegistrarTodos(chegam, h);
      assert forall c :: c in old(central.conexoes) ==> unchanged(c) && c.EfeitoDe(e) == old(c.EfeitoDe(e));
      label Antes:
      TransmitirComNovas(e, h, novas, chegam, posicao);
      forall c | c in old(central.conexoes) ensures Ofertada(c, e) { assert Ofertada@Antes(c, e); }
    }

    /** Something may be missing: the open sockets close, and the event goes to those that
        join during the closing. */
    method ReceberAposLacuna(e: Evento, ghost h: seq<Evento>, chegam: seq<Pedido>, entram: seq<Pedido>)
      returns (novas: seq<Conexao>)
      requires Valid(h) && Numerada(h) && e in h
      modifies `ultimo, `posicao, central, central.conexoes
      ensures Valid(h) && ultimo == posicao == Algo(e.numero) && fresh(novas) && |novas| == |entram|
      ensures forall c :: c in old(central.conexoes) ==> unchanged(c)
      ensures forall c :: c in central.conexoes <==> c in novas
      ensures forall i :: 0 <= i < |entram| ==> Entrou(novas[i], entram[i], Nada, [e])
    {
      hide Completo, Numerada, FilaOk, PorUltimaChegada, NaJanela, EventosEm, Filtrar, Mapear, Ids, Finais;
      novas := RegistrarTodos(chegam, h);
      Fechar();
      novas := RegistrarTodos(entram, h);
      TransmitirComNovas(e, h, novas, entram, posicao);
    }

    /** One envelope read from the stream, repeated, late or with others missing. It goes to
        every socket unless it is old; if any event may be missing, the sockets open at the
        check's end close first. Sockets may join during the check (`chegam`) and during the
        closing (`entram`); `novas` are those of them that stay open. */
    method Receber(e: Evento, db: Outbox, chegam: seq<Pedido>, entram: seq<Pedido>)
      returns (transmitido: bool, novas: seq<Conexao>)
      requires db.Valid() && Valid(db.historia) && e in db.historia
      modifies `ultimo, `posicao, central, central.conexoes
      ensures Valid(db.historia)
      ensures transmitido <==> old(ultimo).Nada? || old(ultimo).valor < e.numero
      ensures ultimo == if transmitido then Algo(e.numero) else old(ultimo)
      ensures posicao == if transmitido then Algo(e.numero) else old(posicao)
      ensures !transmitido ==> novas == [] && unchanged(central)
      ensures !transmitido || old(Falta(e, db)) ==> forall c :: c in old(central.conexoes) ==> unchanged(c)
      ensures transmitido ==> fresh(novas) && |novas| == |if old(Falta(e, db)) then entram else chegam|
      ensures transmitido && old(Falta(e, db)) ==>
        && (forall c :: c in central.conexoes <==> c in novas)
        && forall i :: 0 <= i < |entram| ==> Entrou(novas[i], entram[i], Nada, [e])
      ensures transmitido && !old(Falta(e, db)) ==>
        && (forall c :: c in old(central.conexoes) ==> Ofertada(c, e))
        && (forall c :: c in central.conexoes <==>
          c in novas || (c in old(central.conexoes) && !old(c.EfeitoDe(e)).Estoura?))
        && forall i :: 0 <= i < |chegam| ==> Entrou(novas[i], chegam[i], old(posicao), [e])
    {
      hide Coerente, Completo, Numerada, FilaOk, PorUltimaChegada, NaJanela, EventosEm, Filtrar, Mapear, Ids, Finais,
        Seguinte, Entrou;
      ListaNumerada(db);
      transmitido, novas := false, [];
      if ultimo.Algo? && e.numero <= ultimo.valor { return; }
      var lacuna := VerificarLacuna(e, db);
      if lacuna {
        novas := ReceberAposLacuna(e, db.historia, chegam, entram);
      } else {
        novas := ReceberSeguinte(e, db.historia, chegam);
      }
      transmitido := true;
    }

    /** The transport failed: every socket is closed and the listener starts over. */
    method Falhar()
      requires central.Valid()
      modifies this, central
      ensures ultimo.Nada? && posicao.Nada? && degradado && central.conexoes == [] && forall h :: Valid(h)
    {
      Fechar();
      ultimo, degradado := Nada, true;
    }

    /** The first successful read after a failure closes the sockets that joined meanwhile. */
    method Ler(ghost h: seq<Evento>)
      requires Valid(h)
      modifies `degradado, `posicao, central
      ensures Valid(h) && !degradado && central.conexoes == if old(degradado) then [] else old(central.conexoes)
    {
      if degradado { Fechar(); }
      degradado := false;
    }
  }

  lemma ListaNumerada(db: Outbox)
    requires db.Valid()
    ensures Numerada(db.historia)
  {}

  /** A commit disturbs no listener, not even between its gap check and its broadcast. */
  lemma HistoriaCresce(o: Ouvinte, h: seq<Evento>, e: Evento)
    requires o.Valid(h) && forall x :: x in h ==> x.numero < e.numero
    ensures o.Valid(h + [e]) && forall x :: Seguinte(h, o.posicao, x) ==> Seguinte(h + [e], o.posicao, x)
  {
    hide Completo;
    if o.ultimo.Algo? {
      NumerosSao(h, o.ultimo.valor);
      NumerosSao(h + [e], o.ultimo.valor);
    }
    forall c | c in o.central.conexoes ensures Completo(h + [e], c.registro, o.posicao, c.oferta) {
      CompletoEstavel(h, c.registro, o.posicao, c.oferta, e);
    }
  }

  /** An open socket enqueued exactly the committed events of its topics since its record
      began if and only if none of them reuses an identifier still in its window. */
  lemma SocketAbertoSse(o: Ouvinte, h: seq<Evento>, c: Conexao)
    requires o.Valid(h) && c in o.central.conexoes && o.posicao.Algo? && forall x :: x in c.chegadas ==> !x.replay
    ensures Desde(c.registro, c.oferta).Algo?
    ensures var s := Filtrar(h, Ambos(Janela(Desde(c.registro, c.oferta).valor, o.posicao.valor), Assinado(c.topicos)));
            c.entregues == s <==> SemRepeticaoNaJanela(Mapear(s, IdDe()), JANELA)
  {
    hide FilaOk, NaJanela, PorUltimaChegada, SemRepeticaoNaJanela;
    FiltrarFiltrar(h, Janela(Desde(c.registro, c.oferta).valor, o.posicao.valor), Assinado(c.topicos));
    TudoEnfileiradoSse(c);
  }

  /** In particular when identifiers are never committed again. */
  lemma SocketAbertoRecebeTudo(o: Ouvinte, h: seq<Evento>, c: Conexao)
    requires o.Valid(h) && c in o.central.conexoes && o.posicao.Algo? && forall x :: x in c.chegadas ==> !x.replay
    requires Numerada(h) && Identifica(h, IdDe())
    ensures Desde(c.registro, c.oferta).Algo?
    ensures c.entregues
      == Filtrar(h, Ambos(Janela(Desde(c.registro, c.oferta).valor, o.posicao.valor), Assinado(c.topicos)))
  {
    hide FilaOk, NaJanela, PorUltimaChegada, SemRepeticaoNaJanela, Aceitos;
    SocketAbertoSse(o, h, c);
    var p := Ambos(Janela(Desde(c.registro, c.oferta).valor, o.posicao.valor), Assinado(c.topicos));
    IdsDistintos(h, p);
    DistintosPassam(Mapear(Filtrar(h, p), IdDe()), JANELA);
    NadaDescartadoSse(Mapear(Filtrar(h, p), IdDe()), JANELA);
  }

  lemma IdsDistintos(h: seq<Evento>, p: Evento -> bool)
    requires Numerada(h) && Identifica(h, IdDe())
    ensures Distintos(Mapear(Filtrar(h, p), IdDe()))
  {
    hide Filtrar;
    var s := Filtrar(h, p);
    FiltrarCrescente(h, p, MenorNumero);
    forall i, j | 0 <= i < j < |s| ensures Mapear(s, IdDe())[i] != Mapear(s, IdDe())[j] {
      assert MenorNumero(s[i], s[j]) && s[i] in h && s[j] in h;
    }
  }
}
