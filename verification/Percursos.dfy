/** Runs that show what the stream does not promise: an identifier committed twice whose
    second event never reaches an open socket, a replay out of order, and a socket that
    misses the events before the listener's first. */
module Percursos {
  import opened Listas
  import opened Eventos
  import opened OutboxInvariantes
  import opened OutboxPassos
  import opened OutboxLeituras
  import opened OutboxRele
  import opened OutboxRepositorio
  import opened Janelas
  import opened Conexoes
  import opened Transmissao
  import opened Reconexao
  import opened Sessoes

  function Primeiro(c: Conteudo): Evento { Evento(1, "a", "t", 1, c) }
  function Segundo(c: Conteudo): Evento { Evento(2, "b", "t", 2, c) }
  function Terceiro(c: Conteudo): Evento { Evento(3, "a", "t", 3, c) }

  function LinhaUm(c: Conteudo): Registro { RegistroNovo(Primeiro(c), 0) }
  function LinhaDois(c: Conteudo): Registro { RegistroNovo(Segundo(c), 0) }
  function LinhaTres(c: Conteudo): Registro { RegistroNovo(Terceiro(c), 2) }

  lemma DoisPendentes(a: Registro, b: Registro, agora: nat)
    requires Pendente(a) && Pendente(b) && Elegivel(a, agora) && Elegivel(b, agora)
    ensures Pendentes([a, b]) == [a, b] && Elegiveis([a, b], agora) == 2
    ensures Publicados([a, b], 1, agora) == [Publicado(a, agora), b]
  {
    assert [a, b][1..] == [b] && [b][1..] == [];
    assert Publicados([b], 0, agora) == [b] + Publicados([], 0, agora);
  }

  lemma UmEnvio()
    ensures Prontos([Enviado]) == 1 && Prontos([Enviado, Enviado]) == 2
  {
    assert [Enviado, Enviado][1..] == [Enviado] && [Enviado][1..] == [];
  }

  /** A cycle with one send publishes the first of two due rows. */
  lemma CicloDeUm(h: seq<Evento>, a: Registro, b: Registro, agora: nat, marca: nat, ok: bool, rs: seq<Registro>,
                  marca': nat, fluxo: seq<nat>)
    requires Pendente(a) && Pendente(b) && Elegivel(a, agora) && Elegivel(b, agora)
    requires ResultadoDoCiclo(h, [a, b], agora, [Enviado], marca, [], ok, rs, marca', fluxo)
    ensures rs == [Publicado(a, agora), b] && fluxo == [a.evento.numero]
  {
    hide Pendente, Elegivel, Publicado, Publicados, Pendentes;
    DoisPendentes(a, b, agora);
    UmEnvio();
    assert [a, b][..1] == [a];
    MapearUm(a, EventoDe());
    MapearUm(a.evento, NumeroDe());
  }

  /** A cycle with two sends publishes both. */
  lemma CicloDeDois(h: seq<Evento>, a: Registro, b: Registro, agora: nat, marca: nat, n: nat, ok: bool,
                    rs: seq<Registro>, marca': nat, fluxo: seq<nat>)
    requires Pendente(a) && Pendente(b) && Elegivel(a, agora) && Elegivel(b, agora)
    requires ResultadoDoCiclo(h, [a, b], agora, [Enviado, Enviado], marca, [n], ok, rs, marca', fluxo)
    ensures fluxo == [n, a.evento.numero, b.evento.numero]
  {
    hide Pendente, Elegivel, Publicado, Publicados, Pendentes;
    DoisPendentes(a, b, agora);
    UmEnvio();
    assert [a, b][..2] == [a] + [b];
    MapearConcat([a], [b], EventoDe());
    MapearConcat([a.evento], [b.evento], NumeroDe());
  }

  ghost predicate Vazio(db: Outbox)
    reads db
  {
    && db.Valid() && db.historia == [] && db.registros == [] && db.topicos == map[] && db.fluxo == []
    && db.sequencia == 0 && db.relogio == 0
  }

  method CommitarDois(db: Outbox, c: Conteudo)
    requires Vazio(db)
    modifies db
    ensures db.Valid() && db.relogio == 0 && db.sequencia == 2 && db.fluxo == []
    ensures db.historia == [Primeiro(c), Segundo(c)] && db.registros == [LinhaUm(c), LinhaDois(c)]
    ensures db.topicos == map["t" := Topico(2, 2, Algo(Segundo(c)), 0)]
  {
    hide Coerente;
    var p := db.PersistEvent("a", "t", c, 0, 0);
    p := db.PersistEvent("b", "t", c, 0, 0);
  }

  /** Events 1 and 2 are committed and the relay publishes the first. */
  method PublicarPrimeiro(db: Outbox, c: Conteudo)
    requires Vazio(db)
    modifies db
    ensures db.Valid() && db.relogio == 0 && db.sequencia == 2 && db.fluxo == [1]
    ensures db.historia == [Primeiro(c), Segundo(c)] && db.registros == [Publicado(LinhaUm(c), 0), LinhaDois(c)]
    ensures db.topicos == map["t" := Topico(2, 2, Algo(Segundo(c)), 0)]
  {
    hide Coerente, ResultadoDoCiclo;
    CommitarDois(db, c);
    ghost var m := db.marca;
    var ok := db.CicloRelay("relay", 30, 0, [Enviado]);
    CicloDeUm(db.historia, LinhaUm(c), LinhaDois(c), 0, m, ok, db.registros, db.marca, db.fluxo);
  }

  lemma SoOPrimeiroVence(c: Conteudo)
    ensures Filtrar([Publicado(LinhaUm(c), 0), LinhaDois(c)],
                    VigenteEm(map["t" := Topico(2, 2, Algo(Segundo(c)), 0)], 1, {"t"})) == [LinhaDois(c)]
  {
    var p := VigenteEm(map["t" := Topico(2, 2, Algo(Segundo(c)), 0)], 1, {"t"});
    assert [Publicado(LinhaUm(c), 0), LinhaDois(c)][1..] == [LinhaDois(c)];
    assert Filtrar([LinhaDois(c)], p) == [LinhaDois(c)];
  }

  method LimparPrimeiro(db: Outbox, c: Conteudo)
    requires db.Valid() && db.relogio == 0 && db.sequencia == 2 && db.fluxo == [1]
    requires db.historia == [Primeiro(c), Segundo(c)] && db.registros == [Publicado(LinhaUm(c), 0), LinhaDois(c)]
    requires db.topicos == map["t" := Topico(2, 2, Algo(Segundo(c)), 0)]
    modifies db
    ensures db.Valid() && db.relogio == 2 && db.sequencia == 2 && db.fluxo == [1]
    ensures db.historia == [Primeiro(c), Segundo(c)] && db.registros == [LinhaDois(c)]
    ensures "t" in db.topicos && db.topicos["t"].ordem == 2
  {
    hide Coerente, Filtrar, VigenteEm, DeveFicar, PisoDoApagado;
    SoOPrimeiroVence(c);
    assert db.topicos.Keys == {"t"} && Corte(2, 1) == 1;
    var n := db.CleanupPublished(2, 1);
  }

  /** "a" was committed and published; it is cleaned up, and the repository no longer knows
      it: a second event with the same identifier is committed as new and published too. */
  method CommitarDeNovo(db: Outbox, c: Conteudo)
    requires db.Valid() && db.relogio == 0 && db.sequencia == 2 && db.fluxo == [1]
    requires db.historia == [Primeiro(c), Segundo(c)] && db.registros == [Publicado(LinhaUm(c), 0), LinhaDois(c)]
    requires db.topicos == map["t" := Topico(2, 2, Algo(Segundo(c)), 0)]
    modifies db
    ensures db.Valid() && db.historia == [Primeiro(c), Segundo(c)] + [Terceiro(c)] && db.fluxo == [1, 2, 3]
  {
    hide Coerente, ResultadoDoCiclo, Filtrar, VigenteEm;
    LimparPrimeiro(db, c);
    var p := db.PersistEvent("a", "t", c, 0, 2);
    assert db.registros == [LinhaDois(c), LinhaTres(c)];
    ghost var m := db.marca;
    var ok := db.CicloRelay("relay", 30, 2, [Enviado, Enviado]);
    CicloDeDois(db.historia, LinhaDois(c), LinhaTres(c), 2, m, 1, ok, db.registros, db.marca, db.fluxo);
  }

  /** The listener delivers the next event to a socket with room that subscribed to it. */
  method Entregar(o: Ouvinte, db: Outbox, s: Conexao, e: Evento)
    requires db.Valid() && o.Valid(db.historia) && e in db.historia && s in o.central.conexoes
    requires o.ultimo.Algo? ==> o.ultimo.valor + 1 == e.numero
    requires e.topico in s.topicos && |s.fila| < s.capacidade
    modifies o, o.central, o.central.conexoes
    ensures o.Valid(db.historia) && s in o.central.conexoes && o.ultimo == o.posicao == Algo(e.numero)
    ensures forall i :: 0 <= i < |o.central.conexoes| ==> o.central.conexoes[i] in old(o.central.conexoes)
    ensures s.chegadas == old(s.chegadas) + [Entrada(e, false)] && s.oferta == old(s.oferta) + [e]
    ensures s.fila == old(s.fila) + Se(!NaJanela(Ids(old(s.chegadas)), JANELA, e.id), e)
    ensures s.entregues == old(s.entregues) + Se(!NaJanela(Ids(old(s.chegadas)), JANELA, e.id), e)
  {
    hide Coerente, Completo, FilaOk, PorUltimaChegada, NaJanela, EventosEm, Filtrar, Mapear, Aceitas;
    var t, novas := o.Receber(e, db, [], []);
  }

  lemma IdsDoExemplo(c: Conteudo)
    ensures var x, y := Entrada(Primeiro(c), false), Entrada(Segundo(c), false);
            !NaJanela(Ids([]), JANELA, "a") && !NaJanela(Ids([x]), JANELA, "b") && NaJanela(Ids([x, y]), JANELA, "a")
  {
    hide NaJanela;
    var x, y := Entrada(Primeiro(c), false), Entrada(Segundo(c), false);
    assert Ids([]) == [] && Ids([x]) == ["a"] && Ids([x, y]) == ["a", "b"] && ["a", "b"][0] == "a";
    assert "a"[0] != "b"[0];
    NuncaVistoForaDaJanela([], JANELA, "a");
    NuncaVistoForaDaJanela(["a"], JANELA, "b");
    RecenteNaJanela(["a", "b"], JANELA, "a");
  }

  /** Events 1 and 2 are committed: the listener's last read was the first, and the open
      socket, registered before both, got it. */
  ghost predicate PrimeiroLido(db: Outbox, o: Ouvinte, s: Conexao, c: Conteudo)
    reads db, o, o.central, o.central.conexoes, s
  {
    && db.Valid() && o.Valid(db.historia) && db.historia == [Primeiro(c), Segundo(c)]
    && o.ultimo == Algo(1) && s in o.central.conexoes && s.topicos == {"t"} && s.capacidade == 8
    && s.chegadas == [Entrada(Primeiro(c), false)] && s.fila == s.oferta == [Primeiro(c)]
  }

  /** A socket joins an empty system; the first two events are committed, and the first is
      published and read. */
  method LerPrimeiro(c: Conteudo) returns (db: Outbox, o: Ouvinte, s: Conexao)
    ensures fresh(db) && fresh(o) && fresh(o.central) && fresh(o.central.conexoes) && PrimeiroLido(db, o, s, c)
    ensures db.relogio == 0 && db.sequencia == 2 && db.fluxo == [1]
    ensures db.registros == [Publicado(LinhaUm(c), 0), LinhaDois(c)]
    ensures db.topicos == map["t" := Topico(2, 2, Algo(Segundo(c)), 0)]
  {
    hide Coerente, Completo, FilaOk, PorUltimaChegada, NaJanela, EventosEm, Filtrar, Mapear, Aceitas, Ids, Desde,
      Finais;
    db := new Outbox();
    o := new Ouvinte();
    s := o.Registrar(Pedido({"t"}, 8), db.historia);
    assert o.central.conexoes == [s];
    PublicarPrimeiro(db, c);
    CrescerDois(o, c);
    IdsDoExemplo(c);
    Entregar(o, db, s, Primeiro(c));
  }

  lemma CrescerDois(o: Ouvinte, c: Conteudo)
    requires o.Valid([])
    ensures o.Valid([Primeiro(c), Segundo(c)])
  {
    hide Completo;
    assert [] + [Primeiro(c)] == [Primeiro(c)] && [Primeiro(c)] + [Segundo(c)] == [Primeiro(c), Segundo(c)];
    HistoriaCresce(o, [], Primeiro(c));
    HistoriaCresce(o, [Primeiro(c)], Segundo(c));
  }

  /** The last two events are read. */
  method LerRestantes(db: Outbox, o: Ouvinte, s: Conexao, c: Conteudo)
    requires db.Valid() && o.Valid(db.historia) && db.historia == [Primeiro(c), Segundo(c), Terceiro(c)]
    requires o.ultimo == Algo(1) && s in o.central.conexoes && s.topicos == {"t"} && s.capacidade == 8
    requires s.chegadas == [Entrada(Primeiro(c), false)] && s.fila == s.oferta == [Primeiro(c)]
    modifies o, o.central, o.central.conexoes
    ensures o.Valid(db.historia) && s in o.central.conexoes && s.oferta == db.historia
      && s.fila == [Primeiro(c), Segundo(c)]
  {
    hide Coerente, Completo, FilaOk, PorUltimaChegada, NaJanela, EventosEm, Filtrar, Mapear, Aceitas, Ids, Desde,
      Finais;
    IdsDoExemplo(c);
    Entregar(o, db, s, Segundo(c));
    assert s.chegadas == [Entrada(Primeiro(c), false), Entrada(Segundo(c), false)];
    Entregar(o, db, s, Terceiro(c));
  }

  /** The socket, open before the first event was committed and ever since, was offered all
      three events on its topic, and enqueued two. */
  method PerderEvento(c: Conteudo) returns (db: Outbox, o: Ouvinte, s: Conexao)
    ensures db.Valid() && o.Valid(db.historia) && db.historia == [Primeiro(c), Segundo(c), Terceiro(c)]
    ensures s in o.central.conexoes && s.topicos == {"t"} && s.oferta == db.historia
      && s.fila == [Primeiro(c), Segundo(c)]
  {
    hide Coerente, Completo, FilaOk, PorUltimaChegada, NaJanela, EventosEm, Filtrar, Mapear, Aceitas, Ids, Desde,
      Finais;
    db, o, s := LerPrimeiro(c);
    CommitarDeNovo(db, c);
    HistoriaCresce(o, [Primeiro(c), Segundo(c)], Terceiro(c));
    LerRestantes(db, o, s, c);
  }

  // ----- a replay out of order

  lemma IdsDoReplay(x: Evento, y: Evento)
    requires x.id != y.id
    ensures var a, b := Entrada(x, false), Entrada(x, true);
            !NaJanela(Ids([]), JANELA, x.id) && NaJanela(Ids([a]), JANELA, x.id) && !NaJanela(Ids([a, b]), JANELA, y.id)
  {
    hide NaJanela;
    var a, b := Entrada(x, false), Entrada(x, true);
    assert Ids([]) == [] && Ids([a]) == [x.id] && Ids([a, b]) == [x.id, x.id];
    NuncaVistoForaDaJanela([], JANELA, x.id);
    RecenteNaJanela([x.id], JANELA, x.id);
    NuncaVistoForaDaJanela([x.id, x.id], JANELA, y.id);
  }

  /** The same to a socket whose session is in replay. */
  method EntregarDurante(db: Outbox, o: Ouvinte, s: Sessao, e: Evento)
    requires db.Valid() && o.Valid(db.historia) && e in db.historia && s.c in o.central.conexoes && s.EmReplay()
    requires o.ultimo.Algo? ==> o.ultimo.valor + 1 == e.numero
    requires e.topico in s.c.topicos && |s.c.fila| < s.c.capacidade
    modifies o, o.central, o.central.conexoes
    ensures o.Valid(db.historia) && s.c in o.central.conexoes && s.EmReplay()
    ensures s.c.chegadas == old(s.c.chegadas) + [Entrada(e, false)]
    ensures s.c.fila == old(s.c.fila) + Se(!NaJanela(Ids(old(s.c.chegadas)), JANELA, e.id), e)
  {
    hide Coerente, Completo, FilaOk, PorUltimaChegada, NaJanela, EventosEm, Filtrar, Mapear, Aceitas, Ids, Finais;
    VivoNaoDisturba(s.c.chegadas, e, true);
    Entregar(o, db, s.c, e);
  }

  /** The watermark, and every event of the topic up to it. */
  method LerReplay(db: Outbox, c: Conteudo) returns (ate: nat, replay: seq<Evento>)
    requires db.Valid() && db.historia == [Primeiro(c), Segundo(c)]
    requires db.topicos == map["t" := Topico(2, 2, Algo(Segundo(c)), 0)]
    ensures ate == 2 && replay == db.historia
  {
    hide Coerente, Filtrar;
    ate := db.MaximoDosTopicos(UltimoDe());
    assert "t" in db.topicos && UltimoDe()(db.topicos["t"]) == 2;
    var r := db.ReplayEvents({"t"}, 0, 250, Algo(ate));
    DoisNoReplay(c);
    replay := r.valor;
  }

  /** A socket joins, events 1 and 2 are committed and the first is published; the replay
      reads both. */
  method AbrirSessao(c: Conteudo) returns (db: Outbox, o: Ouvinte, s: Sessao)
    ensures fresh(db) && fresh(o) && fresh(o.central) && fresh(o.central.conexoes) && fresh(s) && fresh(s.c)
    ensures db.Valid() && o.Valid(db.historia) && db.historia == [Primeiro(c), Segundo(c)] && o.ultimo.Nada?
    ensures s.EmReplay() && s.k == 0 && s.enviados == [] && s.apos == 0 && s.ate == 2 && s.replay == db.historia
    ensures s.c in o.central.conexoes && s.c.topicos == {"t"} && s.c.capacidade == 8 && s.c.chegadas == []
      && s.c.fila == []
  {
    hide Coerente, Completo, FilaOk, PorUltimaChegada, NaJanela, EventosEm, Filtrar, Mapear, Aceitas, Ids, Desde,
      Finais;
    db := new Outbox();
    o := new Ouvinte();
    var k := o.Registrar(Pedido({"t"}, 8), db.historia);
    assert o.central.conexoes == [k];
    PublicarPrimeiro(db, c);
    CrescerDois(o, c);
    var ate, replay := LerReplay(db, c);
    s := new Sessao(k, 0, ate, replay);
  }

  /** The listener reads the first event before the replay loop starts, and it only leaves
      the queue after the loop: the client gets the second event first. */
  method ReplayForaDeOrdem(c: Conteudo) returns (db: Outbox, o: Ouvinte, s: Sessao)
    ensures db.Valid() && o.Valid(db.historia) && db.historia == [Primeiro(c), Segundo(c)]
    ensures s.c in o.central.conexoes && s.c.topicos == {"t"} && s.apos == 0 && s.ate == 2
    ensures s.replay == db.historia && s.enviados == [Segundo(c), Primeiro(c)]
  {
    hide Coerente, Completo, FilaOk, PorUltimaChegada, NaJanela, EventosEm, Filtrar, Mapear, Aceitas, Ids, Finais;
    db, o, s := AbrirSessao(c);
    IdsDoReplay(Primeiro(c), Segundo(c));
    EntregarDurante(db, o, s, Primeiro(c));
    assert s.c.chegadas == [Entrada(Primeiro(c), false)] && s.c.fila == [Primeiro(c)];
    ReenviarDois(s, c);
  }

  method ReenviarDois(s: Sessao, c: Conteudo)
    requires s.EmReplay() && s.k == 0 && s.enviados == []
    requires s.replay == [Primeiro(c), Segundo(c)] && s.apos == 0 && s.ate == 2
    requires s.c.chegadas == [Entrada(Primeiro(c), false)] && s.c.fila == [Primeiro(c)]
    modifies s, s.c
    ensures s.c.Valid() && s.enviados == [Segundo(c), Primeiro(c)]
    ensures s.c.oferta == old(s.c.oferta) && s.c.estourou == old(s.c.estourou)
  {
    hide FilaOk, PorUltimaChegada, NaJanela, EventosEm, Filtrar, Mapear, Aceitas, Ids, Finais;
    IdsDoReplay(Primeiro(c), Segundo(c));
    DoisNoReplay(c);
    s.Reenviar();
    assert s.c.chegadas == [Entrada(Primeiro(c), false), Entrada(Primeiro(c), true)];
    s.Reenviar();
    s.Drenar();
  }

  lemma DoisNoReplay(c: Conteudo)
    ensures Filtrar([Primeiro(c), Segundo(c)], Entre({"t"}, 0, Algo(2))) == [Primeiro(c), Segundo(c)]
    ensures Filtrar([Primeiro(c)], Janela(0, 2)) == [Primeiro(c)] && Filtrar([], Janela(0, 2)) == []
  {
    FiltrarTodos([Primeiro(c), Segundo(c)], Entre({"t"}, 0, Algo(2)));
    FiltrarTodos([Primeiro(c)], Janela(0, 2));
  }

  // ----- a listener without a position

  /** Registered before the listener read anything, with nothing to replay, the socket is
      open and is offered the second event first: the first one never comes. */
  method PerderOPrimeiro(c: Conteudo) returns (db: Outbox, o: Ouvinte, s: Conexao)
    ensures db.Valid() && o.Valid(db.historia) && db.historia == [Primeiro(c), Segundo(c)]
    ensures s in o.central.conexoes && s.topicos == {"t"} && s.registro.Nada? && s.oferta == s.fila == [Segundo(c)]
  {
    hide Coerente, Completo, FilaOk, PorUltimaChegada, NaJanela, EventosEm, Filtrar, Mapear, Aceitas, Ids, Finais;
    db := new Outbox();
    o := new Ouvinte();
    s := o.Registrar(Pedido({"t"}, 8), db.historia);
    assert o.central.conexoes == [s];
    CommitarDois(db, c);
    CrescerDois(o, c);
    IdsDoExemploVazio();
    Entregar(o, db, s, Segundo(c));
  }

  lemma IdsDoExemploVazio()
    ensures !NaJanela(Ids([]), JANELA, "b")
  {
    hide NaJanela;
    assert Ids([]) == [];
    NuncaVistoForaDaJanela([], JANELA, "b");
  }
}
