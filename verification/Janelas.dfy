/** Deduplication by a bounded window of recent identifiers, and what it lets through. */
module Janelas {
  import opened Listas

  // ----- what the window remembers

  function Outro<T(==)>(x: T): T -> bool { y => y != x }

  /** The last `n` elements. */
  function Finais<T>(s: seq<T>, n: nat): seq<T> { if |s| <= n then s else s[|s| - n..] }

  /** The distinct identifiers of a feed, ordered by their last arrival. */
  function PorUltimaChegada<T(==)>(f: seq<T>): seq<T> {
    if f == [] then []
    else
      var x := f[|f| - 1];
      Filtrar(PorUltimaChegada(f[..|f| - 1]), Outro(x)) + [x]
  }

  /** Fewer than `n` other identifiers arrived since `x` last did. */
  predicate NaJanela<T(==)>(f: seq<T>, n: nat, x: T) { x in Finais(PorUltimaChegada(f), n) }

  lemma {:induction false} PorUltimaCabe<T>(f: seq<T>)
    ensures |PorUltimaChegada(f)| <= |f|
  {
    if f != [] { PorUltimaCabe(f[..|f| - 1]); }
  }

  lemma PorUltimaMais<T>(f: seq<T>, x: T)
    ensures PorUltimaChegada(f + [x]) == Filtrar(PorUltimaChegada(f), Outro(x)) + [x]
  {
    assert (f + [x])[..|f|] == f;
  }

  lemma {:induction false} PorUltimaSao<T(!new)>(f: seq<T>)
    ensures Distintos(PorUltimaChegada(f)) && MesmosElementos(PorUltimaChegada(f), f)
  {
    if f != [] {
      var p, x := f[..|f| - 1], f[|f| - 1];
      PorUltimaSao(p);
      assert f == p + [x];
      DistintosFiltrar(PorUltimaChegada(p), Outro(x));
      DistintosConcat(Filtrar(PorUltimaChegada(p), Outro(x)), [x]);
      forall y | y in f ensures y in PorUltimaChegada(f) { if y != x { assert y in p && Outro(x)(y); } }
    }
  }

  lemma {:induction false} RetirarPresente<T>(s: seq<T>, x: T)
    requires Distintos(s) && x in s
    ensures |Filtrar(s, Outro(x))| == |s| - 1
  {
    if s[0] == x {
      FiltrarTodos(s[1..], Outro(x));
    } else {
      RetirarPresente(s[1..], x);
    }
  }

  lemma Partir<T>(s: seq<T>, n: nat) returns (p: seq<T>)
    ensures s == p + Finais(s, n) && (p != [] ==> |Finais(s, n)| == n) && |Finais(s, n)| <= n
  {
    p := if |s| <= n then [] else s[..|s| - n];
  }

  lemma FinaisDaSoma<T>(a: seq<T>, b: seq<T>, n: nat)
    requires |b| == n || (a == [] && |b| <= n)
    ensures Finais(a + b, n) == b
  {}

  lemma FiltrarPartes<T>(a: seq<T>, y: T, b: seq<T>, p: T -> bool)
    requires p(y)
    ensures Filtrar(a + [y] + b, p) == Filtrar(a, p) + [y] + Filtrar(b, p)
  {
    FiltrarConcat(a + [y], b, p);
    FiltrarConcat(a, [y], p);
    assert Filtrar([y], p) == [y];
  }

  lemma UltimoChegou<T(!new)>(p: seq<T>, x: T, i: nat, b: seq<T>)
    requires i < |p| && MesmosElementos(b, p[i + 1..])
    ensures MesmosElementos(Filtrar(b, Outro(x)) + [x], (p + [x])[i + 1..])
  {
    assert (p + [x])[i + 1..] == p[i + 1..] + [x];
    var f := Filtrar(b, Outro(x));
    forall y | y in f + [x] ensures y in p[i + 1..] + [x] {}
    forall y | y in p[i + 1..] + [x] ensures y in f + [x] { if y != x { assert y in b && Outro(x)(y); } }
  }

  /** After its last arrival, an identifier is followed in that order by the distinct ones
      that arrived since. */
  lemma {:induction false} DepoisDaUltima<T(!new)>(f: seq<T>, i: nat) returns (a: seq<T>, b: seq<T>)
    requires i < |f| && f[i] !in f[i + 1..]
    ensures PorUltimaChegada(f) == a + [f[i]] + b && MesmosElementos(b, f[i + 1..])
  {
    hide MesmosElementos;
    var p, x := f[..|f| - 1], f[|f| - 1];
    assert f == p + [x];
    if i == |p| {
      a, b := Filtrar(PorUltimaChegada(p), Outro(x)), [];
      assert f[i + 1..] == [];
      MesmosDeSi<T>([]);
    } else {
      assert f[i + 1..] == p[i + 1..] + [x] && x in f[i + 1..];
      var c, d := DepoisDaUltima(p, i);
      FiltrarPartes(c, f[i], d, Outro(x));
      a, b := Filtrar(c, Outro(x)), Filtrar(d, Outro(x)) + [x];
      ConcatAssocia(a + [f[i]], Filtrar(d, Outro(x)), [x]);
      UltimoChegou(p, x, i, d);
    }
  }

  lemma MesmosDeSi<T>(s: seq<T>)
    ensures MesmosElementos(s, s)
  {}

  /** The window of `n` holds the identifier that arrived last at `i` exactly when fewer than
      `n` other identifiers arrived since. */
  lemma NaJanelaSse<T(!new)>(f: seq<T>, n: nat, i: nat)
    requires i < |f| && f[i] !in f[i + 1..]
    ensures NaJanela(f, n, f[i]) <==> |Conjunto(f[i + 1..])| < n
  {
    var u := PorUltimaChegada(f);
    PorUltimaSao(f);
    var a, b := DepoisDaUltima(f, i);
    SeparadosDistintos(a + [f[i]], b);
    TamanhoDistinto(b);
    assert Conjunto(b) == Conjunto(f[i + 1..]);
    assert |u| == |a| + 1 + |b| && u[|a|] == f[i];
    var l := Finais(u, n);
    if |b| < n {
      assert l[|l| - |b| - 1] == u[|a|];
    } else {
      forall j | 0 <= j < |l| ensures l[j] != f[i] { assert l[j] == u[|u| - n + j]; }
    }
  }

  /** A repeated identifier moves to the end of the window. */
  lemma JanelaRepetido<T(!new)>(f: seq<T>, n: nat, x: T)
    requires NaJanela(f, n, x)
    ensures Finais(PorUltimaChegada(f + [x]), n) == Filtrar(Finais(PorUltimaChegada(f), n), Outro(x)) + [x]
  {
    var u := PorUltimaChegada(f);
    var l := Finais(u, n);
    var p := Partir(u, n);
    PorUltimaSao(f);
    PorUltimaMais(f, x);
    FiltrarConcat(p, l, Outro(x));
    SeparadosDistintos(p, l);
    FiltrarTodos(p, Outro(x));
    RetirarPresente(l, x);
    ConcatAssocia(p, Filtrar(l, Outro(x)), [x]);
    FinaisDaSoma(p, Filtrar(l, Outro(x)) + [x], n);
  }

  lemma SeparadosDistintos<T>(a: seq<T>, b: seq<T>)
    requires Distintos(a + b)
    ensures Distintos(a) && Distintos(b) && forall x :: x in b ==> x !in a
  {
    forall x | x in b ensures x !in a {
      var j :| 0 <= j < |b| && b[j] == x;
      assert (a + b)[|a| + j] == x;
      forall i | 0 <= i < |a| ensures a[i] != x { assert (a + b)[i] == a[i]; }
    }
    forall i, j | 0 <= i < j < |b| ensures b[i] != b[j] { assert (a + b)[|a| + i] == b[i] && (a + b)[|a| + j] == b[j]; }
    forall i, j | 0 <= i < j < |a| ensures a[i] != a[j] { assert (a + b)[i] == a[i] && (a + b)[j] == a[j]; }
  }

  /** A new identifier enters at the end and pushes the oldest out of a full window. */
  lemma JanelaNovo<T(!new)>(f: seq<T>, n: nat, x: T)
    requires n > 0 && !NaJanela(f, n, x)
    ensures var l := Finais(PorUltimaChegada(f), n);
            Finais(PorUltimaChegada(f + [x]), n) == if |l| == n then l[1..] + [x] else l + [x]
  {
    var u := PorUltimaChegada(f);
    var l := Finais(u, n);
    var p := Partir(u, n);
    PorUltimaMais(f, x);
    FiltrarConcat(p, l, Outro(x));
    FiltrarTodos(l, Outro(x));
    EntraNoFim(Filtrar(p, Outro(x)), l, x, n);
  }

  lemma EntraNoFim<T>(q: seq<T>, l: seq<T>, x: T, n: nat)
    requires 0 < n && |l| <= n && (q != [] ==> |l| == n)
    ensures Finais(q + l + [x], n) == if |l| == n then l[1..] + [x] else l + [x]
  {
    if |l| == n {
      assert q + l + [x] == q + [l[0]] + (l[1..] + [x]);
      FinaisDaSoma(q + [l[0]], l[1..] + [x], n);
    } else {
      assert q + l + [x] == l + [x];
    }
  }

  // ----- what is accepted

  /** The arrivals the window lets through. */
  function Aceitos<T(==)>(f: seq<T>, n: nat): seq<T> {
    if f == [] then []
    else
      var p, x := f[..|f| - 1], f[|f| - 1];
      Aceitos(p, n) + Se(!NaJanela(p, n, x), x)
  }

  /** Every repetition arrives while its identifier is still in the window. */
  ghost predicate RepeticoesNaJanela<T>(f: seq<T>, n: nat) {
    forall i :: 0 <= i < |f| && f[i] in f[..i] ==> NaJanela(f[..i], n, f[i])
  }

  lemma AceitosMais<T>(f: seq<T>, n: nat, x: T)
    ensures Aceitos(f + [x], n) == Aceitos(f, n) + Se(!NaJanela(f, n, x), x)
  {
    assert (f + [x])[..|f|] == f;
  }

  lemma RepeticoesPrefixo<T>(p: seq<T>, x: T, n: nat)
    ensures RepeticoesNaJanela(p + [x], n) <==> RepeticoesNaJanela(p, n) && (x in p ==> NaJanela(p, n, x))
  {
    var f := p + [x];
    assert f[..|p|] == p && f[|p|] == x;
    assert forall i :: 0 <= i < |p| ==> f[..i] == p[..i] && f[i] == p[i];
  }

  lemma {:induction false} AceitosContam<T(!new)>(f: seq<T>, n: nat)
    ensures |Aceitos(f, n)| >= |Chegada(f)|
    ensures RepeticoesNaJanela(f, n) ==> Aceitos(f, n) == Chegada(f)
    ensures !RepeticoesNaJanela(f, n) ==> |Aceitos(f, n)| > |Chegada(f)|
  {
    if f != [] {
      var p, x := f[..|f| - 1], f[|f| - 1];
      assert f == p + [x];
      AceitosContam(p, n);
      RepeticoesPrefixo(p, x, n);
      PorUltimaSao(p);
    }
  }

  /** Each event is enqueued exactly once, in order of first arrival, if and only if no
      repetition arrives after its identifier left the window. */
  lemma UmaVezSse<T(!new)>(f: seq<T>, n: nat)
    ensures Aceitos(f, n) == Chegada(f) <==> RepeticoesNaJanela(f, n)
  {
    AceitosContam(f, n);
  }

  lemma {:induction false} AceitosCabem<T>(f: seq<T>, n: nat)
    ensures |Aceitos(f, n)| <= |f|
  {
    if f != [] { AceitosCabem(f[..|f| - 1], n); }
  }

  /** No arrival finds its own identifier in the window. */
  ghost predicate SemRepeticaoNaJanela<T>(f: seq<T>, n: nat) {
    forall i :: 0 <= i < |f| ==> !NaJanela(f[..i], n, f[i])
  }

  lemma SemRepeticaoPrefixo<T>(p: seq<T>, x: T, n: nat)
    ensures SemRepeticaoNaJanela(p + [x], n) <==> SemRepeticaoNaJanela(p, n) && !NaJanela(p, n, x)
  {
    var f := p + [x];
    assert f[..|p|] == p && f[|p|] == x;
    assert forall i :: 0 <= i < |p| ==> f[..i] == p[..i] && f[i] == p[i];
  }

  /** Every arrival is accepted if and only if none finds its identifier in the window. */
  lemma {:induction false} NadaDescartadoSse<T(!new)>(f: seq<T>, n: nat)
    ensures Aceitos(f, n) == f <==> SemRepeticaoNaJanela(f, n)
  {
    if f != [] {
      var p, x := f[..|f| - 1], f[|f| - 1];
      assert f == p + [x];
      NadaDescartadoSse(p, n);
      AceitosCabem(p, n);
      SemRepeticaoPrefixo(p, x, n);
    }
  }

  lemma NuncaVistoForaDaJanela<T(!new)>(f: seq<T>, n: nat, x: T)
    requires x !in f
    ensures !NaJanela(f, n, x)
  {
    PorUltimaSao(f);
  }

  lemma RecenteNaJanela<T(!new)>(f: seq<T>, n: nat, x: T)
    requires x in f && |f| <= n
    ensures NaJanela(f, n, x)
  {
    PorUltimaSao(f);
    PorUltimaCabe(f);
  }

  lemma DistintosPassam<T(!new)>(f: seq<T>, n: nat)
    requires Distintos(f)
    ensures Aceitos(f, n) == f
  {
    hide NaJanela, Aceitos;
    forall i | 0 <= i < |f| ensures !NaJanela(f[..i], n, f[i]) { NuncaVistoForaDaJanela(f[..i], n, f[i]); }
    NadaDescartadoSse(f, n);
  }

  // ----- first arrivals under a key and a filter

  /** `f` tells the elements of `s` apart. */
  ghost predicate Identifica<T, U>(s: seq<T>, f: T -> U) {
    forall a, b :: a in s && b in s && f(a) == f(b) ==> a == b
  }

  lemma MapearMaisUm<T, U>(s: seq<T>, x: T, f: T -> U)
    ensures Mapear(s + [x], f) == Mapear(s, f) + [f(x)]
  {
    MapearConcat(s, [x], f);
    assert Mapear([x], f) == [f(x)];
  }

  lemma MapeadoContem<T, U>(s: seq<T>, f: T -> U, x: T)
    requires Identifica(s + [x], f)
    ensures f(x) in Mapear(s, f) <==> x in s
  {
    if f(x) in Mapear(s, f) {
      var k :| 0 <= k < |s| && Mapear(s, f)[k] == f(x);
      assert s[k] in s && s[k] in s + [x] && x in s + [x];
    }
    if x in s { MapearContem(s, f, x); }
  }

  lemma {:induction false} ChegadaMapeada<T, U>(s: seq<T>, f: T -> U)
    requires Identifica(s, f)
    ensures Chegada(Mapear(s, f)) == Mapear(Chegada(s), f)
  {
    if s != [] {
      var p, x := s[..|s| - 1], s[|s| - 1];
      assert s == p + [x];
      hide Chegada;
      ChegadaMapeada(p, f);
      ChegadaMais(p, x);
      MapearMaisUm(p, x, f);
      MapearMaisUm(Chegada(p), x, f);
      ChegadaMais(Mapear(p, f), f(x));
      MapeadoContem(p, f, x);
    }
  }

  lemma FiltrarMaisUm<T>(s: seq<T>, x: T, p: T -> bool)
    ensures Filtrar(s + [x], p) == if p(x) then Filtrar(s, p) + [x] else Filtrar(s, p)
  {
    FiltrarConcat(s, [x], p);
    assert Filtrar([x], p) == Se(p(x), x);
  }

  lemma {:induction false} ChegadaFiltrada<T>(s: seq<T>, p: T -> bool)
    ensures Chegada(Filtrar(s, p)) == Filtrar(Chegada(s), p)
  {
    if s != [] {
      hide Chegada, Filtrar;
      var q, x := s[..|s| - 1], s[|s| - 1];
      assert s == q + [x];
      ChegadaFiltrada(q, p);
      ChegadaMais(q, x);
      FiltrarMaisUm(q, x, p);
      FiltrarMaisUm(Chegada(q), x, p);
      ChegadaMais(Filtrar(q, p), x);
    }
  }

  lemma {:induction false} ChegadaDistinta<T>(s: seq<T>)
    requires Distintos(s)
    ensures Chegada(s) == s
  {
    if s != [] {
      assert s == s[..|s| - 1] + [s[|s| - 1]];
      ChegadaDistinta(s[..|s| - 1]);
    }
  }

  lemma FiltrarDoPrefixo<T>(a: seq<T>, b: seq<T>, p: T -> bool)
    requires a <= b
    ensures Filtrar(a, p) <= Filtrar(b, p)
  {
    assert b == a + b[|a|..];
    FiltrarConcat(a, b[|a|..], p);
  }

  lemma PrefixoPorChave<T, U>(a: seq<T>, b: seq<T>, f: T -> U)
    requires Mapear(a, f) <= Mapear(b, f) && Identifica(b, f) && forall x :: x in a ==> x in b
    ensures a <= b
  {
    forall i | 0 <= i < |a| ensures a[i] == b[i] { assert Mapear(a, f)[i] == Mapear(b, f)[i]; }
  }

  lemma MapearDoPrefixo<T, U>(a: seq<T>, b: seq<T>, f: T -> U)
    requires a <= b
    ensures Mapear(a, f) <= Mapear(b, f)
  {}
}
