/** One cycle of the relay leader, as a function of the table it finds. */
module OutboxRele {
  import opened Aritmetica
  import opened Listas
  import opened Eventos
  import opened OutboxInvariantes
  import opened OutboxPassos

  /** What a send to the stream can do: succeed, fail before or after being stored, or
      take the relay down with it, again before or after being stored. */
  datatype Envio = Enviado | Falhou(gravado: bool) | Caiu(gravado: bool)

  function Potencia(n: nat): nat { if n == 0 then 1 else 2 * Potencia(n - 1) }

  /** Exponential backoff, capped at 300 seconds. */
  function Espera(tentativas: nat): nat { Min(300, Potencia(Min(Max(tentativas, 1), 8))) }

  predicate Elegivel(r: Registro, agora: nat) { r.proxima <= agora && (r.ate.Algo? ==> r.ate.valor < agora) }

  function Reivindicado(r: Registro, instancia: string, agora: nat, prazo: nat): Registro {
    r.(dono := Algo(instancia), ate := Algo(agora + prazo), tentativas := r.tentativas + 1)
  }

  /** The row after it was claimed, sent and marked. */
  function Publicado(r: Registro, agora: nat): Registro {
    r.(publicado := Algo(agora), dono := Nada, ate := Nada, tentativas := r.tentativas + 1)
  }

  /** The row after it was claimed and its send failed. */
  function Adiado(r: Registro, agora: nat): Registro {
    r.(dono := Nada, ate := Nada, proxima := agora + Espera(r.tentativas + 1), tentativas := r.tentativas + 1)
  }

  /** The attempt is due and no lease covers the present instant. */
  ghost predicate DevidoELivre(r: Registro, agora: nat) {
    r.proxima <= agora && match r.ate case Nada => true case Algo(ate) => ate < agora
  }

  /** Two seconds, doubled with each attempt after the first, up to the eighth. */
  ghost function DobraAte256(tentativas: nat): nat {
    if tentativas <= 1 then 2
    else if tentativas == 2 then 4
    else if tentativas == 3 then 8
    else if tentativas == 4 then 16
    else if tentativas == 5 then 32
    else if tentativas == 6 then 64
    else if tentativas == 7 then 128
    else 256
  }

  lemma EsperaEhTabela(tentativas: nat)
    ensures Espera(tentativas) == DobraAte256(tentativas)
  {
    assert Potencia(2) == 4 && Potencia(3) == 8 && Potencia(4) == 16;
    assert Potencia(5) == 32 && Potencia(6) == 64 && Potencia(7) == 128 && Potencia(8) == 256;
  }

  // ----- how far a cycle goes

  function Pendentes(rs: seq<Registro>): seq<Registro> { Filtrar(rs, Pendente) }

  /** How many of the first rows are due and free. */
  function Elegiveis(ps: seq<Registro>, agora: nat): (n: nat)
    ensures n <= |ps| && (forall i :: 0 <= i < n ==> Elegivel(ps[i], agora)) && (n < |ps| ==> !Elegivel(ps[n], agora))
  {
    if ps == [] || !Elegivel(ps[0], agora) then 0 else 1 + Elegiveis(ps[1..], agora)
  }

  /** How many sends succeed before the first that does not. */
  function Prontos(envios: seq<Envio>): (n: nat)
    ensures n <= |envios| && (forall i :: 0 <= i < n ==> envios[i].Enviado?) && (n < |envios| ==> !envios[n].Enviado?)
  {
    if envios == [] || !envios[0].Enviado? then 0 else 1 + Prontos(envios[1..])
  }

  /** How many events the cycle publishes: as many as are due in order, until a send fails. */
  function Publicaveis(rs: seq<Registro>, agora: nat, envios: seq<Envio>): nat {
    Min(Elegiveis(Pendentes(rs), agora), Prontos(envios))
  }

  /** The cycle met a send that failed. */
  predicate Interrompido(rs: seq<Registro>, agora: nat, envios: seq<Envio>) {
    Prontos(envios) < Elegiveis(Pendentes(rs), agora) && Prontos(envios) < |envios|
  }

  /** The table with its first `n` pending rows published. */
  function Publicados(rs: seq<Registro>, n: nat, agora: nat): (r: seq<Registro>)
    ensures |r| == |rs|
  {
    if rs == [] then []
    else if Pendente(rs[0]) && n > 0 then [Publicado(rs[0], agora)] + Publicados(rs[1..], n - 1, agora)
    else [rs[0]] + Publicados(rs[1..], n, agora)
  }

  /** The first pending row backs off. */
  function CabecaAdiada(rs: seq<Registro>, agora: nat): seq<Registro> {
    var k := PrimeiroPendente(rs);
    if k < |rs| then rs[k := Adiado(rs[k], agora)] else rs
  }

  lemma {:induction false} NenhumPublicado(rs: seq<Registro>, agora: nat)
    ensures Publicados(rs, 0, agora) == rs
  {
    if rs != [] { NenhumPublicado(rs[1..], agora); }
  }

  lemma TrocarNaCauda<T>(s: seq<T>, k: nat, x: T)
    requires s != [] && k < |s| - 1
    ensures s[1 + k] == s[1..][k] && s[1 + k := x] == [s[0]] + s[1..][k := x]
  {}

  lemma PendentesDaCauda(rs: seq<Registro>, n: nat)
    requires rs != [] && !(Pendente(rs[0]) && n == 0)
    ensures var m := if Pendente(rs[0]) then n - 1 else n;
            && (n <= |Pendentes(rs)| <==> m <= |Pendentes(rs[1..])|)
              && (n < |Pendentes(rs)| <==> m < |Pendentes(rs[1..])|)
            && (n < |Pendentes(rs)| ==> Pendentes(rs)[n] == Pendentes(rs[1..])[m])
  {
    if Pendente(rs[0]) {
      assert Pendentes(rs) == [rs[0]] + Pendentes(rs[1..]);
    } else {
      assert Pendentes(rs) == [] + Pendentes(rs[1..]);
    }
  }

  lemma NaoPendentePassa(x: Registro, rs: seq<Registro>)
    requires !Pendente(x)
    ensures PrimeiroPendente([x] + rs) == 1 + PrimeiroPendente(rs)
  {
    assert ([x] + rs)[1..] == rs;
  }

  lemma DepoisDoPrimeiro(rs: seq<Registro>, n: nat, agora: nat)
    requires rs != [] && !(Pendente(rs[0]) && n == 0)
    ensures var m := if Pendente(rs[0]) then n - 1 else n;
            && Publicados(rs, n, agora)[1..] == Publicados(rs[1..], m, agora)
            && PrimeiroPendente(Publicados(rs, n, agora)) == 1 + PrimeiroPendente(Publicados(rs[1..], m, agora))
            && Publicados(rs, n + 1, agora) == [Publicados(rs, n, agora)[0]] + Publicados(rs[1..], m + 1, agora)
  {
    hide PrimeiroPendente;
    var x := if Pendente(rs[0]) then Publicado(rs[0], agora) else rs[0];
    var m := if Pendente(rs[0]) then n - 1 else n;
    assert Publicados(rs, n, agora) == [x] + Publicados(rs[1..], m, agora);
    assert Publicados(rs, n + 1, agora) == [x] + Publicados(rs[1..], m + 1, agora);
    NaoPendentePassa(x, Publicados(rs[1..], m, agora));
  }

  /** After `n` rows were published the next head is the next pending row of the original
      table, and publishing it publishes one row more. */
  ghost predicate CabecaOk(rs: seq<Registro>, n: nat, agora: nat)
    requires n <= |Pendentes(rs)|
  {
    var k := PrimeiroPendente(Publicados(rs, n, agora));
    && (k < |rs| <==> n < |Pendentes(rs)|)
    && (k < |rs| ==> Publicados(rs, n, agora)[k] == Pendentes(rs)[n])
    && (k < |rs| ==> Publicados(rs, n, agora)[k := Publicado(Pendentes(rs)[n], agora)] == Publicados(rs, n + 1, agora))
  }

  lemma CabecaInicial(rs: seq<Registro>, agora: nat)
    requires rs != [] && Pendente(rs[0])
    ensures CabecaOk(rs, 0, agora)
  {
    NenhumPublicado(rs[1..], agora);
    NenhumPublicado(rs, agora);
    assert rs[0 := Publicado(rs[0], agora)] == [Publicado(rs[0], agora)] + rs[1..];
  }

  lemma CabecaDaCauda(rs: seq<Registro>, n: nat, agora: nat)
    requires rs != [] && !(Pendente(rs[0]) && n == 0) && n <= |Pendentes(rs)|
    requires var m := if Pendente(rs[0]) then n - 1 else n;
             m <= |Pendentes(rs[1..])| && CabecaOk(rs[1..], m, agora)
    ensures CabecaOk(rs, n, agora)
  {
    hide Publicados, Pendentes, PrimeiroPendente, Publicado, Pendente, Filtrar;
    DepoisDoPrimeiro(rs, n, agora);
    PendentesDaCauda(rs, n);
    var k := PrimeiroPendente(Publicados(rs, n, agora));
    if k < |rs| { TrocarNaCauda(Publicados(rs, n, agora), k - 1, Publicado(Pendentes(rs)[n], agora)); }
  }

  lemma {:induction false} ProximaCabeca(rs: seq<Registro>, n: nat, agora: nat)
    requires n <= |Pendentes(rs)|
    ensures CabecaOk(rs, n, agora)
  {
    if rs != [] {
      if Pendente(rs[0]) && n == 0 {
        CabecaInicial(rs, agora);
      } else {
        hide CabecaOk, Pendentes;
        PendentesDaCauda(rs, n);
        ProximaCabeca(rs[1..], if Pendente(rs[0]) then n - 1 else n, agora);
        CabecaDaCauda(rs, n, agora);
      }
    }
  }

  // ----- the state of a cycle

  function EventosDe(ps: seq<Registro>): seq<Evento> { Mapear(ps, EventoDe()) }

  /** The cycle published the first `n` pending rows of `rs`, and nothing else happened. */
  ghost predicate Publicou(h: seq<Evento>, rs: seq<Registro>, n: nat, agora: nat, marca: nat, fluxo: seq<nat>,
                           rs': seq<Registro>, marca': nat, fluxo': seq<nat>) {
    && n <= |Pendentes(rs)| && rs' == Publicados(rs, n, agora) && marca <= marca'
    && fluxo' == fluxo + Numeros(EventosDe(Pendentes(rs)[..n]))
    && Filtrar(h, Janela(marca, marca')) == EventosDe(Pendentes(rs)[..n])
  }

  lemma PublicouNada(h: seq<Evento>, rs: seq<Registro>, agora: nat, marca: nat, fluxo: seq<nat>)
    ensures Publicou(h, rs, 0, agora, marca, fluxo, rs, marca, fluxo)
  {
    JanelaVazia(h, marca);
    NenhumPublicado(rs, agora);
    assert EventosDe(Pendentes(rs)[..0]) == [];
    assert Numeros([]) == [];
  }

  lemma PublicouMais(h: seq<Evento>, rs: seq<Registro>, n: nat, agora: nat, marca: nat, fluxo: seq<nat>,
                     rs': seq<Registro>, marca': nat, fluxo': seq<nat>, k: nat, e: Evento)
    requires Publicou(h, rs, n, agora, marca, fluxo, rs', marca', fluxo') && marca' <= e.numero
    requires k == PrimeiroPendente(rs') < |rs'| && e == rs'[k].evento
    requires Filtrar(h, Janela(marca, e.numero)) == Filtrar(h, Janela(marca, marca')) + [e]
    ensures n < |Pendentes(rs)| && rs'[k] == Pendentes(rs)[n]
    ensures Publicou(h, rs, n + 1, agora, marca, fluxo, rs'[k := Publicado(rs'[k], agora)], e.numero, fluxo'
      + [e.numero])
  {
    hide Filtrar, Publicados, Pendentes, Publicado, PrimeiroPendente, Mapear;
    ProximaCabeca(rs, n, agora);
    var ps := Pendentes(rs);
    PrefixoMais(ps, n);
    MapearConcat(ps[..n], [ps[n]], EventoDe());
    MapearUm(ps[n], EventoDe());
    MapearConcat(EventosDe(ps[..n]), [e], NumeroDe());
    MapearUm(e, NumeroDe());
  }

  lemma MapearUm<T, U>(x: T, f: T -> U)
    ensures Mapear([x], f) == [f(x)]
  {}

  /** What a cycle leaves behind: it publishes exactly as many events as are due, until a
      send fails. A failed send backs off; a crash gives the rows back but cannot recall
      what the stream stored. */
  ghost predicate ResultadoDoCiclo(h: seq<Evento>, rs: seq<Registro>, agora: nat, envios: seq<Envio>, marca: nat,
                                   fluxo: seq<nat>,
                                   confirmado: bool, rs': seq<Registro>, marca': nat, fluxo': seq<nat>) {
    var n, parou := Publicaveis(rs, agora, envios), Interrompido(rs, agora, envios);
    && confirmado == !(parou && envios[n].Caiu?)
    && fluxo'
      == fluxo + Numeros(EventosDe(Pendentes(rs)[..n]))
      + (if parou then Se(envios[n].gravado, Pendentes(rs)[n].evento.numero) else [])
    && (if confirmado then
          && rs' == (if parou then CabecaAdiada(Publicados(rs, n, agora), agora) else Publicados(rs, n, agora))
          && marca <= marca' && Filtrar(h, Janela(marca, marca')) == EventosDe(Pendentes(rs)[..n])
        else
          rs' == rs && marca' == marca)
  }

  /** The cycle ends because nothing more is due or the batch is over. */
  lemma CicloTermina(h: seq<Evento>, rs: seq<Registro>, n: nat, agora: nat, envios: seq<Envio>, marca: nat,
                     fluxo: seq<nat>,
                     rs': seq<Registro>, marca': nat, fluxo': seq<nat>)
    requires Publicou(h, rs, n, agora, marca, fluxo, rs', marca', fluxo')
    requires n <= |envios| && n <= Elegiveis(Pendentes(rs), agora) && n <= Prontos(envios)
    requires n == |envios| || PrimeiroPendente(rs') == |rs'| || !Elegivel(rs'[PrimeiroPendente(rs')], agora)
    ensures ResultadoDoCiclo(h, rs, agora, envios, marca, fluxo, true, rs', marca', fluxo')
  {
    hide Filtrar, Publicados, Pendentes, Publicado, PrimeiroPendente, Mapear, Elegivel;
    ProximaCabeca(rs, n, agora);
    assert n == Publicaveis(rs, agora, envios) && !Interrompido(rs, agora, envios);
    assert fluxo' + [] == fluxo';
  }

  /** The cycle ends because the send of the head failed. */
  lemma CicloFalha(h: seq<Evento>, rs: seq<Registro>, n: nat, agora: nat, envios: seq<Envio>, marca: nat,
                   fluxo: seq<nat>,
                   rs': seq<Registro>, marca': nat, fluxo': seq<nat>)
    requires Publicou(h, rs, n, agora, marca, fluxo, rs', marca', fluxo')
    requires n < |envios| && n <= Elegiveis(Pendentes(rs), agora) && n <= Prontos(envios) && !envios[n].Enviado?
    requires var k := PrimeiroPendente(rs'); k < |rs'| && Elegivel(rs'[k], agora)
    ensures n < |Pendentes(rs)| && rs'[PrimeiroPendente(rs')] == Pendentes(rs)[n]
    ensures var f := fluxo' + Se(envios[n].gravado, Pendentes(rs)[n].evento.numero);
            if envios[n].Caiu? then ResultadoDoCiclo(h, rs, agora, envios, marca, fluxo, false, rs, marca, f)
            else ResultadoDoCiclo(h, rs, agora, envios, marca, fluxo, true, CabecaAdiada(rs', agora), marca', f)
  {
    hide Filtrar, Publicados, Pendentes, Publicado, PrimeiroPendente, Mapear, Elegivel;
    ProximaCabeca(rs, n, agora);
    assert n == Publicaveis(rs, agora, envios) && Interrompido(rs, agora, envios);
  }
}
