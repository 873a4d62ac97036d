/** What each atomic step of the realtime outbox does to the tables, and why it keeps
    them faithful to the committed history. */
module OutboxPassos {
  import opened Aritmetica
  import opened Listas
  import opened Eventos
  import opened OutboxInvariantes

  // ----- persisting an event

  /** The topic row after event `e`. */
  function TopicoMais(ts: Topicos, e: Evento): Topicos {
    ts[e.topico := Topico(e.numero, e.ordem, Algo(e), TopicoDe(ts, e.topico).piso)]
  }

  function RegistroNovo(e: Evento, agora: nat): Registro { Registro(e, Nada, Nada, Nada, agora, 0) }

  /** `e` is the next event of its topic, numbered above everything committed. */
  ghost predicate Proximo(h: seq<Evento>, ts: Topicos, e: Evento) {
    && e.numero > 0 && e.ordem == TopicoDe(ts, e.topico).ordem + 1
    && (forall x :: x in h ==> x.numero < e.numero)
  }

  lemma PersistirTopicos(h: seq<Evento>, ts: Topicos, e: Evento)
    requires TopicosOk(h, ts) && Proximo(h, ts, e)
    ensures TopicosOk(h + [e], TopicoMais(ts, e))
  {
    forall t ensures TopicoOk(h + [e], t, TopicoDe(TopicoMais(ts, e), t)) {
      assert TopicoOk(h, t, TopicoDe(ts, t));
      SomaUltimo(h, e, Indicador(DoTopico(t)));
      ContaLimites(h, DoTopico(t));
    }
  }

  /** The new event is above its topic's floor, which did not move. */
  lemma PersistirRetidos(h: seq<Evento>, ts: Topicos, e: Evento)
    requires TopicosOk(h, ts) && Proximo(h, ts, e)
    ensures Filtrar(h + [e], Retido(TopicoMais(ts, e))) == Filtrar(h, Retido(ts)) + [e]
  {
    var ts' := TopicoMais(ts, e);
    assert TopicoOk(h, e.topico, TopicoDe(ts, e.topico));
    FiltrarIgual(h, Retido(ts), Retido(ts'));
    FiltrarConcat(h, [e], Retido(ts'));
    assert Filtrar([e], Retido(ts')) == [e];
  }

  lemma PersistirRegistros(h: seq<Evento>, ts: Topicos, rs: seq<Registro>, e: Evento, agora: nat)
    requires TopicosOk(h, ts) && RegistrosOk(h, ts, rs) && Proximo(h, ts, e)
    requires forall r :: r in rs ==> r.evento.id != e.id
    ensures RegistrosOk(h + [e], TopicoMais(ts, e), rs + [RegistroNovo(e, agora)])
  {
    PersistirRetidos(h, ts, e);
    MapearConcat(rs, [RegistroNovo(e, agora)], EventoDe());
    assert Mapear([RegistroNovo(e, agora)], EventoDe()) == [e];
  }

  lemma PersistirCursores(h: seq<Evento>, ts: Topicos, cs: Cursores, e: Evento)
    requires TopicosOk(h, ts) && CursoresOk(h, ts, cs) && Proximo(h, ts, e)
    ensures CursoresOk(h + [e], TopicoMais(ts, e), cs)
  {
    var ts' := TopicoMais(ts, e);
    forall u, t ensures CursorOk(h + [e], t, TopicoDe(ts', t), CursorDe(cs, u, t)) {
      var c := CursorDe(cs, u, t);
      assert CursorOk(h, t, TopicoDe(ts, t), c) && TopicoOk(h, t, TopicoDe(ts, t));
      SomaUltimo(h, e, Indicador(AteNumero(t, c.lido)));
    }
  }

  lemma PersistirPublicacao(h: seq<Evento>, ts: Topicos, rs: seq<Registro>, marca: nat, relogio: nat, e: Evento,
                            agora: nat)
    requires PublicacaoOk(h, ts, rs, marca, relogio) && marca < e.numero && relogio <= agora
    requires RegistrosOk(h, ts, rs) && forall x :: x in h ==> x.numero < e.numero
    ensures PublicacaoOk(h + [e], TopicoMais(ts, e), rs + [RegistroNovo(e, agora)], marca, agora)
  {
    var rs' := rs + [RegistroNovo(e, agora)];
    forall t ensures TopicoDe(TopicoMais(ts, e), t).piso <= marca { assert TopicoDe(ts, t).piso <= marca; }
    forall r | r in rs' && r.dono.Algo? ensures Cabeca(h + [e], marca, r) {
      if r in rs { RegistroEhRetido(h, ts, rs, r); }
      assert Cabeca(h, marca, r);
    }
  }

  lemma PersistirFluxo(h: seq<Evento>, marca: nat, fluxo: seq<nat>, tentados: set<nat>, e: Evento)
    requires FluxoOk(h, marca, fluxo, tentados) && marca < e.numero && forall x :: x in h ==> x.numero < e.numero
    ensures FluxoOk(h + [e], marca, fluxo, tentados)
  {
    MapearConcat(h, [e], NumeroDe());
    forall n | n in tentados
      ensures n in Numeros(h + [e]) && forall x :: x in h + [e] && x.numero < n ==> x.numero in fluxo
    {
      NumerosSao(h, n);
      NumerosSao(h + [e], n);
    }
  }

  /** An event with a new identifier is committed. */
  lemma PersistirMantem(h: seq<Evento>, ts: Topicos, rs: seq<Registro>, cs: Cursores, sequencia: nat,
                        marca: nat, relogio: nat, fluxo: seq<nat>, tentados: set<nat>, e: Evento, agora: nat)
    requires Coerente(h, ts, rs, cs, sequencia, marca, relogio, fluxo, tentados) && relogio <= agora
    requires e.numero > sequencia && e.ordem == TopicoDe(ts, e.topico).ordem + 1
      && forall r :: r in rs ==> r.evento.id != e.id
    ensures Coerente(h + [e], TopicoMais(ts, e), rs
      + [RegistroNovo(e, agora)], cs, e.numero, marca, agora, fluxo, tentados)
  {
    hide CursoresOk, PublicacaoOk, FluxoOk, RegistrosOk;
    assert TopicoOk(h, e.topico, TopicoDe(ts, e.topico));
    NumeradaMais(h, e);
    PersistirTopicos(h, ts, e);
    PersistirRegistros(h, ts, rs, e, agora);
    PersistirCursores(h, ts, cs, e);
    PersistirPublicacao(h, ts, rs, marca, relogio, e, agora);
    PersistirFluxo(h, marca, fluxo, tentados, e);
  }

  function BuscarId(rs: seq<Registro>, id: string): (r: Opcao<Registro>)
    ensures r.Algo? ==> r.valor in rs && r.valor.evento.id == id
    ensures r.Nada? ==> forall x :: x in rs ==> x.evento.id != id
  {
    if rs == [] then Nada else if rs[0].evento.id == id then Algo(rs[0]) else BuscarId(rs[1..], id)
  }

  /** A repeated identifier is recognised exactly while its event is retained. */
  lemma IdReconhecidoSse(h: seq<Evento>, ts: Topicos, rs: seq<Registro>, id: string)
    requires RegistrosOk(h, ts, rs)
    ensures BuscarId(rs, id).Algo? <==> exists e :: e in h && e.id == id && Retido(ts)(e)
    ensures BuscarId(rs, id).Algo? ==> BuscarId(rs, id).valor.evento in h && BuscarId(rs, id).valor.evento.id == id
  {
    var b := BuscarId(rs, id);
    if b.Algo? { RegistroEhRetido(h, ts, rs, b.valor); }
    forall e | e in h && e.id == id && Retido(ts)(e) ensures b.Algo? {
      var r := RetidoTemRegistro(h, ts, rs, e);
    }
  }

  // ----- cleaning up a topic

  /** Published before the cutoff and older than the topic's last event. */
  predicate Vencido(r: Registro, t: string, ultimo: nat, corte: nat) {
    r.evento.topico == t && r.publicado.Algo? && r.publicado.valor < corte && r.evento.numero < ultimo
  }

  function VencidoDe(t: string, ultimo: nat, corte: nat): Registro -> bool {
    (r: Registro) => Vencido(r, t, ultimo, corte)
  }

  function Fica(t: string, ultimo: nat, corte: nat, maximo: nat): Registro -> bool {
    (r: Registro) => !(Vencido(r, t, ultimo, corte) && r.evento.numero <= maximo)
  }

  function MaiorNumero(rs: seq<Registro>): (m: Opcao<nat>)
    ensures m.Nada? <==> rs == []
    ensures m.Algo? ==>
      (exists r :: r in rs && r.evento.numero == m.valor) && forall r :: r in rs ==> r.evento.numero <= m.valor
  {
    if rs == [] then Nada
    else
      match MaiorNumero(rs[1..])
      case Nada => Algo(rs[0].evento.numero)
      case Algo(n) => Algo(if rs[0].evento.numero > n then rs[0].evento.numero else n)
  }

  function PisoNovo(ts: Topicos, t: string, m: nat): Topicos
    requires t in ts
  {
    ts[t := ts[t].(piso := Max(ts[t].piso, m))]
  }

  /** Because rows are published in order, the rows deleted with `v` are exactly the
      topic's rows up to it. */
  lemma FicaSse(h: seq<Evento>, ts: Topicos, rs: seq<Registro>, marca: nat, relogio: nat, t: string, corte: nat,
                v: Registro, r: Registro)
    requires RegistrosOk(h, ts, rs) && PublicacaoOk(h, ts, rs, marca, relogio) && t in ts
    requires v in rs && Vencido(v, t, ts[t].ultimo, corte) && r in rs
    ensures Fica(t, ts[t].ultimo, corte, v.evento.numero)(r) <==> Retido(PisoNovo(ts, t, v.evento.numero))(r.evento)
  {
    RegistroEhRetido(h, ts, rs, r);
  }

  lemma ApagaPrefixo(h: seq<Evento>, ts: Topicos, rs: seq<Registro>, marca: nat, relogio: nat, t: string, corte: nat,
                     m: nat)
    requires RegistrosOk(h, ts, rs) && PublicacaoOk(h, ts, rs, marca, relogio) && t in ts
    requires MaiorNumero(Filtrar(rs, VencidoDe(t, ts[t].ultimo, corte))) == Algo(m)
    ensures forall r :: r in rs ==> (Fica(t, ts[t].ultimo, corte, m)(r) <==> Retido(PisoNovo(ts, t, m))(r.evento))
    ensures ts[t].piso < m < ts[t].ultimo && m <= marca && exists e :: e in h && e.topico == t && e.numero == m
  {
    var v :| v in Filtrar(rs, VencidoDe(t, ts[t].ultimo, corte)) && v.evento.numero == m;
    RegistroEhRetido(h, ts, rs, v);
    forall r | r in rs ensures Fica(t, ts[t].ultimo, corte, m)(r) <==> Retido(PisoNovo(ts, t, m))(r.evento) {
      FicaSse(h, ts, rs, marca, relogio, t, corte, v, r);
    }
  }

  lemma LimparRegistros(h: seq<Evento>, ts: Topicos, rs: seq<Registro>, t: string, corte: nat, m: nat)
    requires RegistrosOk(h, ts, rs) && t in ts && ts[t].piso < m
    requires forall r :: r in rs ==> (Fica(t, ts[t].ultimo, corte, m)(r) <==> Retido(PisoNovo(ts, t, m))(r.evento))
    ensures RegistrosOk(h, PisoNovo(ts, t, m), Filtrar(rs, Fica(t, ts[t].ultimo, corte, m)))
  {
    var ts' := PisoNovo(ts, t, m);
    FiltrarIgual(rs, Fica(t, ts[t].ultimo, corte, m), Por(Retido(ts'), EventoDe()));
    FiltrarMapear(rs, EventoDe(), Retido(ts'));
    FiltrarFiltrar(h, Retido(ts), Retido(ts'));
    FiltrarIgual(h, Ambos(Retido(ts), Retido(ts')), Retido(ts'));
  }

  lemma LimparTopicos(h: seq<Evento>, ts: Topicos, cs: Cursores, t: string, m: nat)
    requires TopicosOk(h, ts) && CursoresOk(h, ts, cs) && t in ts && m < ts[t].ultimo
    requires exists e :: e in h && e.topico == t && e.numero == m
    ensures TopicosOk(h, PisoNovo(ts, t, m)) && CursoresOk(h, PisoNovo(ts, t, m), cs)
  {
    var ts' := PisoNovo(ts, t, m);
    forall x ensures TopicoOk(h, x, TopicoDe(ts', x)) { assert TopicoOk(h, x, TopicoDe(ts, x)); }
    forall u, x
      ensures CursorOk(h, x, TopicoDe(ts', x), CursorDe(cs, u, x))
    {
      assert CursorOk(h, x, TopicoDe(ts, x), CursorDe(cs, u, x));
    }
  }

  lemma LimparPublicacao(h: seq<Evento>, ts: Topicos, rs: seq<Registro>, marca: nat, relogio: nat, t: string, m: nat,
                         p: Registro -> bool)
    requires PublicacaoOk(h, ts, rs, marca, relogio) && t in ts && m <= marca
    ensures PublicacaoOk(h, PisoNovo(ts, t, m), Filtrar(rs, p), marca, relogio)
  {
    var ts' := PisoNovo(ts, t, m);
    forall x ensures TopicoDe(ts', x).piso <= marca { assert TopicoDe(ts, x).piso <= marca; }
  }

  /** One topic of the cleanup: rows, floor, everything else kept. */
  lemma LimparMantem(h: seq<Evento>, ts: Topicos, rs: seq<Registro>, cs: Cursores, sequencia: nat,
                     marca: nat, relogio: nat, fluxo: seq<nat>, tentados: set<nat>, t: string, corte: nat, m: nat)
    requires Coerente(h, ts, rs, cs, sequencia, marca, relogio, fluxo, tentados) && t in ts
    requires MaiorNumero(Filtrar(rs, VencidoDe(t, ts[t].ultimo, corte))) == Algo(m)
    ensures Coerente(h, PisoNovo(ts, t, m), Filtrar(rs, Fica(t, ts[t].ultimo, corte, m)), cs, sequencia, marca, relogio,
                     fluxo, tentados)
  {
    ApagaPrefixo(h, ts, rs, marca, relogio, t, corte, m);
    LimparRegistros(h, ts, rs, t, corte, m);
    LimparTopicos(h, ts, cs, t, m);
    LimparPublicacao(h, ts, rs, marca, relogio, t, m, Fica(t, ts[t].ultimo, corte, m));
  }

  function Vigente(t: string, ultimo: nat, corte: nat): Registro -> bool {
    (r: Registro) => !Vencido(r, t, ultimo, corte)
  }

  /** Deleting up to the largest expired row deletes every expired row. */
  lemma FicaEhVigente(rs: seq<Registro>, t: string, ultimo: nat, corte: nat, m: nat)
    requires MaiorNumero(Filtrar(rs, VencidoDe(t, ultimo, corte))) == Algo(m)
    ensures Filtrar(rs, Fica(t, ultimo, corte, m)) == Filtrar(rs, Vigente(t, ultimo, corte))
  {
    forall r | r in rs ensures Fica(t, ultimo, corte, m)(r) == Vigente(t, ultimo, corte)(r) {
      if Vencido(r, t, ultimo, corte) { assert r in Filtrar(rs, VencidoDe(t, ultimo, corte)); }
    }
    FiltrarIgual(rs, Fica(t, ultimo, corte, m), Vigente(t, ultimo, corte));
  }

  // ----- relaying

  predicate Pendente(r: Registro) { r.publicado.Nada? }

  /** The row with the smallest unpublished sequence: the first one, in table order. */
  function PrimeiroPendente(rs: seq<Registro>): (k: nat)
    ensures k <= |rs| && (forall i :: 0 <= i < k ==> !Pendente(rs[i])) && (k < |rs| ==> Pendente(rs[k]))
  {
    if rs == [] || Pendente(rs[0]) then 0 else 1 + PrimeiroPendente(rs[1..])
  }

  /** The first unpublished row is the first unpublished event of the whole history. */
  lemma PrimeiroEhCabeca(h: seq<Evento>, ts: Topicos, rs: seq<Registro>, marca: nat, relogio: nat)
    requires Numerada(h) && RegistrosOk(h, ts, rs) && PublicacaoOk(h, ts, rs, marca, relogio)
    ensures var k := PrimeiroPendente(rs); k < |rs| ==> Cabeca(h, marca, rs[k]) && rs[k].evento in h
  {
    var k := PrimeiroPendente(rs);
    if k < |rs| {
      RegistroEhRetido(h, ts, rs, rs[k]);
      forall e | e in h && e.numero < rs[k].evento.numero ensures e.numero <= marca {
        AntesDoPendente(h, ts, rs, marca, relogio, e);
      }
    }
  }

  lemma AntesDoPendente(h: seq<Evento>, ts: Topicos, rs: seq<Registro>, marca: nat, relogio: nat, e: Evento)
    requires Numerada(h) && RegistrosOk(h, ts, rs) && PublicacaoOk(h, ts, rs, marca, relogio)
    requires var k := PrimeiroPendente(rs); k < |rs| && e in h && e.numero < rs[k].evento.numero
    ensures e.numero <= marca
  {
    if Retido(ts)(e) {
      var r := RetidoTemRegistro(h, ts, rs, e);
      RegistrosCrescem(h, ts, rs);
      MenorVemAntes(rs, r);
    } else {
      assert TopicoDe(ts, e.topico).piso <= marca;
    }
  }

  lemma MenorVemAntes(rs: seq<Registro>, r: Registro)
    requires forall i, j :: 0 <= i < j < |rs| ==> rs[i].evento.numero < rs[j].evento.numero
    requires var k := PrimeiroPendente(rs); k < |rs| && r in rs && r.evento.numero < rs[k].evento.numero
    ensures r.publicado.Algo?
  {
    var i :| 0 <= i < |rs| && rs[i] == r;
  }

  /** Only relay columns of row `k` change. */
  ghost predicate MesmoEvento(rs: seq<Registro>, k: nat, r: Registro) { k < |rs| && r.evento == rs[k].evento }

  lemma TrocarRegistro(h: seq<Evento>, ts: Topicos, rs: seq<Registro>, k: nat, r: Registro)
    requires RegistrosOk(h, ts, rs) && MesmoEvento(rs, k, r)
    ensures RegistrosOk(h, ts, rs[k := r])
  {
    assert Mapear(rs[k := r], EventoDe()) == Mapear(rs, EventoDe());
    forall a, b | a in rs[k := r] && b in rs[k := r] && a.evento.id == b.evento.id
      ensures a.evento.numero == b.evento.numero
    {
      assert rs[k] in rs;
    }
  }

  /** Claiming, or giving a claim back, only moves the lease of the head. */
  lemma TrocarDono(h: seq<Evento>, ts: Topicos, rs: seq<Registro>, marca: nat, relogio: nat, k: nat, r: Registro)
    requires PublicacaoOk(h, ts, rs, marca, relogio) && MesmoEvento(rs, k, r)
    requires r.publicado == rs[k].publicado && (r.dono.Algo? ==> Cabeca(h, marca, rs[k]))
    ensures PublicacaoOk(h, ts, rs[k := r], marca, relogio)
  {
    var rs' := rs[k := r];
    assert rs[k] in rs;
    forall x | x in rs' ensures x == r || x in rs {}
  }

  /** Up to the head, everything but the head is already published. */
  lemma AteACabeca(h: seq<Evento>, ts: Topicos, rs: seq<Registro>, marca: nat, i: nat, k: nat)
    requires Numerada(h) && RegistrosOk(h, ts, rs) && i < |rs| && k < |rs| && Cabeca(h, marca, rs[k])
    ensures rs[i].evento.numero <= rs[k].evento.numero <==> rs[i].evento.numero <= marca || i == k
  {
    RegistrosCrescem(h, ts, rs);
    RegistroEhRetido(h, ts, rs, rs[i]);
  }

  /** Publishing the head moves the mark by one event. */
  lemma PublicarCabeca(h: seq<Evento>, ts: Topicos, rs: seq<Registro>, marca: nat, relogio: nat, k: nat, r: Registro,
                       agora: nat)
    requires Numerada(h) && RegistrosOk(h, ts, rs) && PublicacaoOk(h, ts, rs, marca, relogio) && MesmoEvento(rs, k, r)
    requires Cabeca(h, marca, rs[k]) && r.publicado == Algo(agora) && r.dono.Nada? && relogio <= agora
    ensures PublicacaoOk(h, ts, rs[k := r], r.evento.numero, agora)
  {
    hide RegistrosOk, Numerada;
    var rs', n := rs[k := r], r.evento.numero;
    forall x | x in rs'
      ensures (x.publicado.Algo? <==> x.evento.numero <= n) && (x.publicado.Algo? ==> x.publicado.valor <= agora)
        && x.dono.Nada?
    {
      var i :| 0 <= i < |rs'| && rs'[i] == x;
      LinhaAposPublicar(h, ts, rs, marca, relogio, i, k);
    }
    forall t ensures TopicoDe(ts, t).piso <= n { assert TopicoDe(ts, t).piso <= marca; }
    OrdemAposPublicar(h, ts, rs, marca, relogio, k, r, agora);
  }

  lemma LinhaAposPublicar(h: seq<Evento>, ts: Topicos, rs: seq<Registro>, marca: nat, relogio: nat, i: nat, k: nat)
    requires Numerada(h) && RegistrosOk(h, ts, rs) && PublicacaoOk(h, ts, rs, marca, relogio) && i < |rs| && k < |rs|
    requires Cabeca(h, marca, rs[k])
    ensures i != k ==> rs[i].dono.Nada? && (rs[i].publicado.Algo? <==> rs[i].evento.numero <= rs[k].evento.numero)
    ensures rs[i].publicado.Algo? ==> rs[i].publicado.valor <= relogio
  {
    assert rs[i] in rs;
    AteACabeca(h, ts, rs, marca, i, k);
    if rs[i].dono.Algo? { SoUmaCabeca(h, ts, rs, marca, i, k); }
  }

  lemma OrdemAposPublicar(h: seq<Evento>, ts: Topicos, rs: seq<Registro>, marca: nat, relogio: nat, k: nat, r: Registro,
                          agora: nat)
    requires Numerada(h) && RegistrosOk(h, ts, rs) && PublicacaoOk(h, ts, rs, marca, relogio) && MesmoEvento(rs, k, r)
    requires Cabeca(h, marca, rs[k]) && r.publicado == Algo(agora) && relogio <= agora
    ensures var rs' := rs[k := r];
            forall a, b ::
              a in rs' && b in rs' && a.evento.numero <= b.evento.numero && a.publicado.Algo? && b.publicado.Algo? ==>
              a.publicado.valor <= b.publicado.valor
  {
    hide RegistrosOk, Numerada;
    var rs' := rs[k := r];
    forall a, b | a in rs' && b in rs' && a.evento.numero <= b.evento.numero && a.publicado.Algo? && b.publicado.Algo?
      ensures a.publicado.valor <= b.publicado.valor
    {
      var i :| 0 <= i < |rs'| && rs'[i] == a;
      var j :| 0 <= j < |rs'| && rs'[j] == b;
      LinhaAposPublicar(h, ts, rs, marca, relogio, i, k);
      LinhaAposPublicar(h, ts, rs, marca, relogio, j, k);
      assert rs[i] in rs && rs[j] in rs;
    }
  }

  lemma SoUmaCabeca(h: seq<Evento>, ts: Topicos, rs: seq<Registro>, marca: nat, i: nat, k: nat)
    requires Numerada(h) && RegistrosOk(h, ts, rs) && i < |rs| && k < |rs|
    requires Cabeca(h, marca, rs[i]) && Cabeca(h, marca, rs[k])
    ensures i == k
  {
    AteACabeca(h, ts, rs, marca, i, k);
    AteACabeca(h, ts, rs, marca, k, i);
  }

  /** The stream holds everything up to the new mark exactly when it holds the marked event. */
  lemma PublicarMantemFluxo(h: seq<Evento>, marca: nat, fluxo: seq<nat>, tentados: set<nat>, r: Registro)
    requires FluxoOk(h, marca, fluxo, tentados) && Cabeca(h, marca, r) && r.evento in h && Numerada(h)
    ensures FluxoOk(h, r.evento.numero, fluxo, tentados) <==> r.evento.numero in fluxo
  {
    forall e | e in h && e.numero == r.evento.numero ensures e == r.evento { MesmoNumero(h, e, r.evento); }
  }

  lemma ReivindicarMantemFluxo(h: seq<Evento>, marca: nat, fluxo: seq<nat>, tentados: set<nat>, r: Registro)
    requires FluxoOk(h, marca, fluxo, tentados) && Cabeca(h, marca, r) && r.evento in h
    ensures FluxoOk(h, marca, fluxo, tentados + {r.evento.numero})
  {
    NumerosSao(h, r.evento.numero);
  }

  // ----- the stream

  lemma NumerosCrescem(h: seq<Evento>)
    requires Crescente(h, MenorNumero)
    ensures Sobe(Numeros(h))
  {
    forall i, j | 0 <= i < j < |h| ensures Numeros(h)[i] < Numeros(h)[j] { assert MenorNumero(h[i], h[j]); }
  }

  predicate Sobe(s: seq<nat>) { forall i, j :: 0 <= i < j < |s| ==> s[i] < s[j] }

  lemma ForaDoPrefixo(p: seq<nat>, s: seq<nat>)
    requires p <= s && Sobe(s) && |p| < |s|
    ensures s[|p|] !in p
  {}

  /** A prefix of an increasing list that holds everything below `n` but not `n` stops
      exactly before `n`. */
  lemma PrefixoAteN(p: seq<nat>, s: seq<nat>, n: nat)
    requires p <= s && Sobe(s) && n in s && n !in p
    requires forall x :: x in s && x < n ==> x in p
    ensures p + [n] <= s
  {
    var i :| 0 <= i < |s| && s[i] == n;
    assert p == s[..|p|];
    if |p| < |s| {
      ForaDoPrefixo(p, s);
      assert s[|p|] in s;
    }
  }

  /** Any event that was ever claimed can be sent again, late and repeatedly: the first
      appearances in the stream stay a prefix of the history. */
  lemma EnviarMantemFluxo(h: seq<Evento>, marca: nat, fluxo: seq<nat>, tentados: set<nat>, n: nat)
    requires Numerada(h) && FluxoOk(h, marca, fluxo, tentados) && n in tentados
    ensures FluxoOk(h, marca, fluxo + [n], tentados)
  {
    ChegadaMais(fluxo, n);
    NumerosCrescem(h);
    if n !in fluxo {
      forall x | x in Numeros(h) && x < n ensures x in Chegada(fluxo) { NumerosSao(h, x); }
      PrefixoAteN(Chegada(fluxo), Numeros(h), n);
    }
  }

  // ----- relay steps on the whole state

  lemma ReivindicarMantem(h: seq<Evento>, ts: Topicos, rs: seq<Registro>, cs: Cursores, sequencia: nat,
                          marca: nat, relogio: nat, fluxo: seq<nat>, tentados: set<nat>, r: Registro, agora: nat)
    requires Coerente(h, ts, rs, cs, sequencia, marca, relogio, fluxo, tentados) && relogio <= agora
    requires var k := PrimeiroPendente(rs); MesmoEvento(rs, k, r) && r.publicado.Nada?
    ensures Coerente(h, ts, rs[PrimeiroPendente(rs) := r], cs, sequencia, marca, agora, fluxo, tentados
      + {r.evento.numero})
  {
    hide PublicacaoOk, RegistrosOk, TopicosOk, CursoresOk, FluxoOk, Numerada;
    var k := PrimeiroPendente(rs);
    RelogioAvanca(h, ts, rs, cs, sequencia, marca, relogio, fluxo, tentados, agora);
    PrimeiroEhCabeca(h, ts, rs, marca, agora);
    TrocarRegistro(h, ts, rs, k, r);
    TrocarDono(h, ts, rs, marca, agora, k, r);
    ReivindicarMantemFluxo(h, marca, fluxo, tentados, rs[k]);
  }

  lemma DevolverMantem(h: seq<Evento>, ts: Topicos, rs: seq<Registro>, cs: Cursores, sequencia: nat,
                       marca: nat, relogio: nat, fluxo: seq<nat>, tentados: set<nat>, k: nat, r: Registro, agora: nat)
    requires Coerente(h, ts, rs, cs, sequencia, marca, relogio, fluxo, tentados) && relogio <= agora
    requires MesmoEvento(rs, k, r) && r.publicado == rs[k].publicado && r.dono.Nada?
    ensures Coerente(h, ts, rs[k := r], cs, sequencia, marca, agora, fluxo, tentados)
  {
    hide PublicacaoOk, RegistrosOk, TopicosOk, CursoresOk, FluxoOk, Numerada;
    RelogioAvanca(h, ts, rs, cs, sequencia, marca, relogio, fluxo, tentados, agora);
    TrocarRegistro(h, ts, rs, k, r);
    TrocarDono(h, ts, rs, marca, agora, k, r);
  }

  /** Marking the claimed head keeps the tables whether or not the event was sent; the
      stream stays faithful exactly when it was. */
  lemma PublicarMantem(h: seq<Evento>, ts: Topicos, rs: seq<Registro>, cs: Cursores, sequencia: nat,
                       marca: nat, relogio: nat, fluxo: seq<nat>, tentados: set<nat>, k: nat, r: Registro, agora: nat)
    requires Coerente(h, ts, rs, cs, sequencia, marca, relogio, fluxo, tentados) && relogio <= agora
    requires MesmoEvento(rs, k, r) && rs[k].dono.Algo? && r.publicado == Algo(agora) && r.dono.Nada?
    ensures TabelasOk(h, ts, rs[k := r], cs, sequencia, r.evento.numero, agora)
    ensures Coerente(h, ts, rs[k := r], cs, sequencia, r.evento.numero, agora, fluxo, tentados)
      <==> r.evento.numero in fluxo
    ensures r.evento.numero > marca
  {
    hide RegistrosOk, TopicosOk, CursoresOk, FluxoOk, Numerada;
    assert rs[k] in rs;
    RegistroEhRetido(h, ts, rs, rs[k]);
    TrocarRegistro(h, ts, rs, k, r);
    PublicarCabeca(h, ts, rs, marca, relogio, k, r, agora);
    PublicarMantemFluxo(h, marca, fluxo, tentados, rs[k]);
  }

  lemma EnviarMantem(h: seq<Evento>, ts: Topicos, rs: seq<Registro>, cs: Cursores, sequencia: nat,
                     marca: nat, relogio: nat, fluxo: seq<nat>, tentados: set<nat>, n: nat)
    requires Coerente(h, ts, rs, cs, sequencia, marca, relogio, fluxo, tentados) && n in tentados
    ensures Coerente(h, ts, rs, cs, sequencia, marca, relogio, fluxo + [n], tentados)
  {
    EnviarMantemFluxo(h, marca, fluxo, tentados, n);
  }

  /** Time passes. */
  lemma RelogioAvanca(h: seq<Evento>, ts: Topicos, rs: seq<Registro>, cs: Cursores, sequencia: nat,
                      marca: nat, relogio: nat, fluxo: seq<nat>, tentados: set<nat>, agora: nat)
    requires Coerente(h, ts, rs, cs, sequencia, marca, relogio, fluxo, tentados) && relogio <= agora
    ensures Coerente(h, ts, rs, cs, sequencia, marca, agora, fluxo, tentados)
  {}

  lemma CabecaDaFila(h: seq<Evento>, ts: Topicos, rs: seq<Registro>, cs: Cursores, sequencia: nat,
                     marca: nat, relogio: nat, fluxo: seq<nat>, tentados: set<nat>)
    requires Coerente(h, ts, rs, cs, sequencia, marca, relogio, fluxo, tentados)
    ensures var k := PrimeiroPendente(rs); k < |rs| ==> Cabeca(h, marca, rs[k]) && rs[k].evento in h
  {
    PrimeiroEhCabeca(h, ts, rs, marca, relogio);
  }

  /** Upserting one cursor that counts correctly keeps the others. */
  lemma CursorMantem(h: seq<Evento>, ts: Topicos, rs: seq<Registro>, cs: Cursores, sequencia: nat,
                     marca: nat, relogio: nat, fluxo: seq<nat>, tentados: set<nat>, u: int, t: string, c: Cursor)
    requires Coerente(h, ts, rs, cs, sequencia, marca, relogio, fluxo, tentados) && CursorOk(h, t, TopicoDe(ts, t), c)
    ensures Coerente(h, ts, rs, cs[(u, t) := c], sequencia, marca, relogio, fluxo, tentados)
  {
    var cs' := cs[(u, t) := c];
    forall x: int, y: string ensures CursorOk(h, y, TopicoDe(ts, y), CursorDe(cs', x, y)) {
      assert CursorOk(h, y, TopicoDe(ts, y), CursorDe(cs, x, y));
    }
  }

  lemma LinhaDoUsuario(h: seq<Evento>, ts: Topicos, rs: seq<Registro>, cs: Cursores, sequencia: nat,
                       marca: nat, relogio: nat, fluxo: seq<nat>, tentados: set<nat>, u: int, t: string)
    requires Coerente(h, ts, rs, cs, sequencia, marca, relogio, fluxo, tentados)
    ensures TopicoOk(h, t, TopicoDe(ts, t)) && CursorOk(h, t, TopicoDe(ts, t), CursorDe(cs, u, t))
  {}

  // ----- the whole cleanup

  function VigenteEm(ts: Topicos, corte: nat, feitos: set<string>): Registro -> bool {
    (r: Registro) => r.evento.topico in feitos ==>
      !Vencido(r, r.evento.topico, TopicoDe(ts, r.evento.topico).ultimo, corte)
  }

  /** Only the floors moved, and only up. */
  ghost predicate SoPisosSubiram(antes: Topicos, depois: Topicos) {
    && antes.Keys == depois.Keys
    && forall t :: t in antes ==> depois[t] == antes[t].(piso := depois[t].piso) && depois[t].piso >= antes[t].piso
  }

  /** The instant before which a published row has expired. */
  function Corte(agora: nat, retencao: nat): nat { if agora > retencao then agora - retencao else 0 }

  /** Unpublished, published within the last `retencao` seconds, or the last event of its topic. */
  ghost predicate DeveFicar(h: seq<Evento>, r: Registro, agora: nat, retencao: nat) {
    || r.publicado.Nada?
    || r.publicado.valor + retencao >= agora
    || forall e :: e in h && e.topico == r.evento.topico ==> e.numero <= r.evento.numero
  }

  /** Which rows the cleanup keeps, told by the clock and the history. */
  lemma RetencaoSse(h: seq<Evento>, ts: Topicos, rs: seq<Registro>, r: Registro, agora: nat, retencao: nat)
    requires TopicosOk(h, ts) && RegistrosOk(h, ts, rs) && r in rs && (r.evento.topico in ts)
    ensures VigenteEm(ts, Corte(agora, retencao), ts.Keys)(r) <==> DeveFicar(h, r, agora, retencao)
  {
    var t := r.evento.topico;
    RegistroEhRetido(h, ts, rs, r);
    assert TopicoOk(h, t, TopicoDe(ts, t));
  }

  lemma TopicoDoRegistro(h: seq<Evento>, ts: Topicos, rs: seq<Registro>, r: Registro)
    requires TopicosOk(h, ts) && RegistrosOk(h, ts, rs) && r in rs
    ensures r.evento.topico in ts
  {
    var t := r.evento.topico;
    RegistroEhRetido(h, ts, rs, r);
    assert TopicoOk(h, t, TopicoDe(ts, t));
    ContaLimites(h, DoTopico(t));
    assert DoTopico(t)(r.evento);
  }

  /** The kept rows are exactly those that must stay, in the order they were. */
  lemma LimpezaSse(h: seq<Evento>, ts: Topicos, rs: seq<Registro>, agora: nat, retencao: nat)
    requires TopicosOk(h, ts) && RegistrosOk(h, ts, rs)
    ensures forall r :: r in Filtrar(rs, VigenteEm(ts, Corte(agora, retencao), ts.Keys))
                   <==> r in rs && DeveFicar(h, r, agora, retencao)
  {
    hide VigenteEm, Corte, DeveFicar, TopicosOk, RegistrosOk;
    forall r | r in rs
      ensures VigenteEm(ts, Corte(agora, retencao), ts.Keys)(r) <==> DeveFicar(h, r, agora, retencao)
    {
      TopicoDoRegistro(h, ts, rs, r);
      RetencaoSse(h, ts, rs, r, agora, retencao);
    }
  }

  /** The floor of the topic covers what was deleted of it, and rose to nothing else. */
  ghost predicate PisoDoApagado(antes: seq<Registro>, depois: seq<Registro>, t: string, piso: nat, novo: nat) {
    && (forall r :: r in antes && r !in depois && r.evento.topico == t ==> r.evento.numero <= novo)
    && (novo == piso
        || exists r :: r in antes && r !in depois && r.evento.topico == t && r.evento.numero == novo)
  }

  lemma MesmaLinha(h: seq<Evento>, ts: Topicos, rs: seq<Registro>, a: Registro, b: Registro)
    requires Numerada(h) && RegistrosOk(h, ts, rs) && a in rs && b in rs && a.evento == b.evento
    ensures a == b
  {
    hide RegistrosOk, Numerada;
    RegistrosCrescem(h, ts, rs);
    var i :| 0 <= i < |rs| && rs[i] == a;
    var j :| 0 <= j < |rs| && rs[j] == b;
  }

  lemma PisoSse(h: seq<Evento>, ts: Topicos, rs: seq<Registro>, ts': Topicos, rs': seq<Registro>, t: string)
    requires Numerada(h) && TopicosOk(h, ts) && RegistrosOk(h, ts, rs) && TopicosOk(h, ts') && RegistrosOk(h, ts', rs')
    requires SoPisosSubiram(ts, ts') && t in ts && forall r :: r in rs' ==> r in rs
    ensures PisoDoApagado(rs, rs', t, ts[t].piso, ts'[t].piso)
  {
    assert TopicoOk(h, t, TopicoDe(ts', t));
    forall r | r in rs && r !in rs' && r.evento.topico == t ensures r.evento.numero <= ts'[t].piso {
      RegistroEhRetido(h, ts, rs, r);
      if Retido(ts')(r.evento) {
        var r' := RetidoTemRegistro(h, ts', rs', r.evento);
        MesmaLinha(h, ts, rs, r, r');
      }
    }
    if ts'[t].piso > ts[t].piso {
      var e :| e in h && e.topico == t && e.numero == ts'[t].piso;
      var r := RetidoTemRegistro(h, ts, rs, e);
      if r in rs' { RegistroEhRetido(h, ts', rs', r); }
    }
  }

  lemma TopicoLimpo(rs: seq<Registro>, ts: Topicos, corte: nat, feitos: set<string>, t: string)
    ensures Filtrar(Filtrar(rs, VigenteEm(ts, corte, feitos)), Vigente(t, TopicoDe(ts, t).ultimo, corte))
         == Filtrar(rs, VigenteEm(ts, corte, feitos + {t}))
  {
    FiltrarFiltrar(rs, VigenteEm(ts, corte, feitos), Vigente(t, TopicoDe(ts, t).ultimo, corte));
    FiltrarIgual(rs, Ambos(VigenteEm(ts, corte, feitos), Vigente(t, TopicoDe(ts, t).ultimo, corte)),
                 VigenteEm(ts, corte, feitos + {t}));
  }

  lemma NenhumTopicoLimpo(rs: seq<Registro>, ts: Topicos, corte: nat)
    ensures Filtrar(rs, VigenteEm(ts, corte, {})) == rs
  {
    FiltrarTodos(rs, VigenteEm(ts, corte, {}));
  }

  lemma NadaVencido(rs: seq<Registro>, t: string, ultimo: nat, corte: nat)
    requires MaiorNumero(Filtrar(rs, VencidoDe(t, ultimo, corte))).Nada?
    ensures Filtrar(rs, Vigente(t, ultimo, corte)) == rs
  {
    FiltroVazio(rs, VencidoDe(t, ultimo, corte));
    forall r | r in rs ensures Vigente(t, ultimo, corte)(r) { assert !VencidoDe(t, ultimo, corte)(r); }
    FiltrarTodos(rs, Vigente(t, ultimo, corte));
  }

  // ----- a relay cycle

  function Janela(a: nat, b: nat): Evento -> bool { (e: Evento) => a < e.numero <= b }

  /** Publishing the head extends the published window by exactly one event. */
  lemma JanelaMais(h: seq<Evento>, a: nat, marca: nat, e: Evento)
    requires Numerada(h) && a <= marca < e.numero && e in h
      && forall x :: x in h && x.numero < e.numero ==> x.numero <= marca
    ensures Filtrar(h, Janela(a, e.numero)) == Filtrar(h, Janela(a, marca)) + [e]
  {
    hide Filtrar;
    var f, g := Filtrar(h, Janela(a, e.numero)), Filtrar(h, Janela(a, marca));
    FiltrarCrescente(h, Janela(a, e.numero), MenorNumero);
    FiltrarCrescente(h, Janela(a, marca), MenorNumero);
    forall x | x in f ensures x in g + [e] { if x.numero == e.numero { MesmoNumero(h, x, e); } }
    forall x, y | x in f && y in f && x != y ensures MenorNumero(x, y) || MenorNumero(y, x) {
      if x.numero == y.numero { MesmoNumero(h, x, y); }
    }
    assert forall x :: x in g ==> Janela(a, e.numero)(x) && MenorNumero(x, e);
    CrescenteMais(g, e);
    CrescenteUnica(f, g + [e], MenorNumero);
  }

  lemma CrescenteMais(g: seq<Evento>, e: Evento)
    requires Crescente(g, MenorNumero) && forall x :: x in g ==> MenorNumero(x, e)
    ensures Crescente(g + [e], MenorNumero)
  {}

  lemma JanelaVazia(h: seq<Evento>, a: nat)
    ensures Filtrar(h, Janela(a, a)) == []
  {
    FiltrarNenhum(h, Janela(a, a));
  }

  /** A rolled-back cycle restores the rows but not the stream. */
  lemma DesfazerMantem(h: seq<Evento>, ts: Topicos, rs: seq<Registro>, rs': seq<Registro>, cs: Cursores, sequencia: nat,
                       marca: nat, marca': nat, relogio: nat, agora: nat, fluxo: seq<nat>, fluxo': seq<nat>,
                         tentados: set<nat>, tentados': set<nat>)
    requires Coerente(h, ts, rs, cs, sequencia, marca, relogio, fluxo, tentados)
    requires Coerente(h, ts, rs', cs, sequencia, marca', agora, fluxo', tentados')
    requires marca <= marca' && relogio <= agora
    ensures Coerente(h, ts, rs, cs, sequencia, marca, agora, fluxo', tentados')
  {}

  lemma ProximoPublicado(h: seq<Evento>, ts: Topicos, rs: seq<Registro>, cs: Cursores, sequencia: nat,
                         a: nat, marca: nat, relogio: nat, fluxo: seq<nat>, tentados: set<nat>, r: Registro)
    requires Coerente(h, ts, rs, cs, sequencia, marca, relogio, fluxo, tentados) && a <= marca
    requires r in rs && Cabeca(h, marca, r)
    ensures Filtrar(h, Janela(a, r.evento.numero)) == Filtrar(h, Janela(a, marca)) + [r.evento]
  {
    RegistroEhRetido(h, ts, rs, r);
    JanelaMais(h, a, marca, r.evento);
  }
}
