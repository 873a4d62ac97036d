/** The history of committed realtime events and its counting laws. */
module Eventos {
  import opened Listas

  datatype Conteudo = Conteudo(tipo: string, instante: nat, carga: string)

  /** `numero` is the global sequence, `ordem` the sequence inside the topic. */
  datatype Evento = Evento(numero: nat, id: string, topico: string, ordem: nat, conteudo: Conteudo)

  function NumeroDe(): Evento -> nat { (e: Evento) => e.numero }
  function OrdemDe(): Evento -> nat { (e: Evento) => e.ordem }
  function DoTopico(t: string): Evento -> bool { (e: Evento) => e.topico == t }
  function AteNumero(t: string, n: nat): Evento -> bool { (e: Evento) => e.topico == t && e.numero <= n }
  function DepoisDe(t: string, n: nat): Evento -> bool { (e: Evento) => e.topico == t && e.numero > n }

  predicate MenorNumero(a: Evento, b: Evento) { a.numero < b.numero }

  function Numeros(h: seq<Evento>): seq<nat> { Mapear(h, NumeroDe()) }

  /** A committed history: global sequences strictly increase in commit order (gaps are
      legitimate), and an event's topic sequence counts the topic's events up to it. */
  ghost predicate Numerada(h: seq<Evento>) {
    && Crescente(h, MenorNumero)
    && (forall e :: e in h ==> e.numero > 0 && e.ordem == Conta(h, AteNumero(e.topico, e.numero)))
  }

  lemma {:induction false} ContaIgual<T>(s: seq<T>, p: T -> bool, q: T -> bool)
    requires forall x :: x in s ==> p(x) == q(x)
    ensures Conta(s, p) == Conta(s, q)
  {
    SomaIgual(s, Indicador(p), Indicador(q));
  }

  lemma ContaLimites<T>(s: seq<T>, p: T -> bool)
    ensures Conta(s, p) >= 0
    ensures Conta(s, p) == 0 <==> forall x :: x in s ==> !p(x)
  {
    SomaNaoNegativa(s, Indicador(p));
    if forall x :: x in s ==> !p(x) {
      SomaIgual(s, Indicador(p), Nulo());
      SomaNula(s);
    } else {
      var x :| x in s && p(x);
      assert Indicador(p)(x) == 1;
    }
  }

  /** Events of a topic split at any sequence number. */
  lemma {:induction false} ContaPartida(h: seq<Evento>, t: string, n: nat)
    ensures Conta(h, DoTopico(t)) == Conta(h, AteNumero(t, n)) + Conta(h, DepoisDe(t, n))
  {
    if h != [] { ContaPartida(h[1..], t, n); }
  }

  lemma ContaMonotona(h: seq<Evento>, t: string, m: nat, n: nat)
    requires m <= n
    ensures Conta(h, AteNumero(t, m)) <= Conta(h, AteNumero(t, n))
  {
    SomaMonotona(h, Indicador(AteNumero(t, m)), Indicador(AteNumero(t, n)));
  }

  /** Committing one more event keeps the numbering. */
  lemma NumeradaMais(h: seq<Evento>, e: Evento)
    requires Numerada(h) && e.numero > 0 && (forall x :: x in h ==> x.numero < e.numero)
    requires e.ordem == Conta(h, DoTopico(e.topico)) + 1
    ensures Numerada(h + [e])
  {
    var h' := h + [e];
    forall x | x in h' ensures x.ordem == Conta(h', AteNumero(x.topico, x.numero)) {
      SomaUltimo(h, e, Indicador(AteNumero(x.topico, x.numero)));
      if x !in h {
        ContaIgual(h, AteNumero(e.topico, e.numero), DoTopico(e.topico));
      }
    }
  }

  function UmAte(n: nat): seq<nat> { if n == 0 then [] else UmAte(n - 1) + [n] }

  lemma NumeradaPrefixo(h: seq<Evento>, e: Evento)
    requires Numerada(h + [e])
    ensures Numerada(h) && e.ordem == Conta(h, DoTopico(e.topico)) + 1 && forall x :: x in h ==> x.numero < e.numero
  {
    var h' := h + [e];
    forall x | x in h ensures x.numero < e.numero {
      var k :| 0 <= k < |h| && h[k] == x;
      assert h'[k] == x && h'[|h|] == e;
    }
    forall x | x in h ensures x.numero > 0 && x.ordem == Conta(h, AteNumero(x.topico, x.numero)) {
      assert x in h';
      SomaUltimo(h, e, Indicador(AteNumero(x.topico, x.numero)));
    }
    assert forall i :: 0 <= i < |h| ==> h[i] == h'[i];
    assert e in h';
    SomaUltimo(h, e, Indicador(AteNumero(e.topico, e.numero)));
    ContaIgual(h, AteNumero(e.topico, e.numero), DoTopico(e.topico));
  }

  function OrdensDo(h: seq<Evento>, t: string): seq<nat> { Mapear(Filtrar(h, DoTopico(t)), OrdemDe()) }

  lemma OrdensMais(h: seq<Evento>, e: Evento, t: string)
    ensures OrdensDo(h + [e], t) == if e.topico == t then OrdensDo(h, t) + [e.ordem] else OrdensDo(h, t)
  {
    FiltrarConcat(h, [e], DoTopico(t));
    if e.topico == t {
      assert Filtrar([e], DoTopico(t)) == [e];
      MapearConcat(Filtrar(h, DoTopico(t)), [e], OrdemDe());
      assert Mapear([e], OrdemDe()) == [e.ordem];
    } else {
      assert Filtrar(h, DoTopico(t)) + [] == Filtrar(h, DoTopico(t));
    }
  }

  function Contagem(h: seq<Evento>, p: Evento -> bool): nat {
    ContaLimites(h, p);
    Conta(h, p)
  }

  lemma ContagemMais(h: seq<Evento>, e: Evento, p: Evento -> bool)
    ensures Contagem(h + [e], p) == Contagem(h, p) + (if p(e) then 1 else 0)
  {
    SomaUltimo(h, e, Indicador(p));
  }

  lemma OrdensPasso(h: seq<Evento>, e: Evento, t: string)
    requires e.topico == t ==> e.ordem == Contagem(h, DoTopico(t)) + 1
    requires OrdensDo(h, t) == UmAte(Contagem(h, DoTopico(t)))
    ensures OrdensDo(h + [e], t) == UmAte(Contagem(h + [e], DoTopico(t)))
  {
    OrdensMais(h, e, t);
    ContagemMais(h, e, DoTopico(t));
  }

  /** In commit order, the topic sequences of every topic are exactly 1, 2, ..., n. */
  lemma {:induction false} OrdensContiguas(h: seq<Evento>, t: string)
    requires Numerada(h)
    ensures OrdensDo(h, t) == UmAte(Contagem(h, DoTopico(t)))
    decreases |h|
  {
    if h == [] {
    } else {
      var p, e := h[..|h| - 1], h[|h| - 1];
      assert h == p + [e];
      NumeradaPrefixo(p, e);
      OrdensContiguas(p, t);
      OrdensPasso(p, e, t);
    }
  }

  lemma NumerosSao(h: seq<Evento>, n: nat)
    ensures n in Numeros(h) <==> exists e :: e in h && e.numero == n
  {
    if n in Numeros(h) {
      var k :| 0 <= k < |h| && Numeros(h)[k] == n;
      assert h[k] in h;
    }
    if e :| e in h && e.numero == n {
      var k :| 0 <= k < |h| && h[k] == e;
      assert Numeros(h)[k] == n;
    }
  }

  /** Two events of a history with the same number are the same event. */
  lemma MesmoNumero(h: seq<Evento>, a: Evento, b: Evento)
    requires Numerada(h) && a in h && b in h && a.numero == b.numero
    ensures a == b
  {
    var i :| 0 <= i < |h| && h[i] == a;
    var j :| 0 <= j < |h| && h[j] == b;
  }
}
