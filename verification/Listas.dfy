/** Sums, filters and sorting over sequences: the value-level counterpart of
    Python's `sum`, comprehensions and `sorted`. */
module Listas {

  datatype Opcao<+T> = Nada | Algo(valor: T)

  /** Python's `<` on `str`: lexicographic by code point. */
  predicate MenorTexto(a: string, b: string) {
    if b == "" then false
    else if a == "" then true
    else a[0] < b[0] || (a[0] == b[0] && MenorTexto(a[1..], b[1..]))
  }

  lemma {:induction false} MenorTextoIrreflexiva(a: string)
    ensures !MenorTexto(a, a)
  {
    if a != "" { MenorTextoIrreflexiva(a[1..]); }
  }

  lemma {:induction false} MenorTextoTransitiva(a: string, b: string, c: string)
    requires MenorTexto(a, b) && MenorTexto(b, c)
    ensures MenorTexto(a, c)
  {
    if a != "" && a[0] == b[0] == c[0] { MenorTextoTransitiva(a[1..], b[1..], c[1..]); }
  }

  lemma {:induction false} MenorTextoConexa(a: string, b: string)
    requires a != b
    ensures MenorTexto(a, b) || MenorTexto(b, a)
  {
    if a != "" && b != "" && a[0] == b[0] {
      assert a == [a[0]] + a[1..] && b == [b[0]] + b[1..];
      MenorTextoConexa(a[1..], b[1..]);
    }
  }

  /** The strings agree up to `k`, where the first has the smaller code point. */
  ghost predicate DiferemEm(a: string, b: string, k: nat) {
    k < |a| && k < |b| && a[..k] == b[..k] && a[k] < b[k]
  }

  lemma CabecaIgual(x: char, a: string, b: string, k: nat)
    ensures DiferemEm([x] + a, [x] + b, k + 1) <==> DiferemEm(a, b, k)
  {
    if k < |a| && k < |b| {
      var u, v := ([x] + a)[..k + 1], ([x] + b)[..k + 1];
      assert u == [x] + a[..k] && v == [x] + b[..k] && u[1..] == a[..k] && v[1..] == b[..k];
    }
  }

  /** One is a proper prefix of the other, or the first code point that differs is smaller. */
  lemma {:induction false} MenorTextoSse(a: string, b: string)
    ensures MenorTexto(a, b) <==> a < b || exists k: nat :: DiferemEm(a, b, k)
  {
    hide DiferemEm;
    if a == "" || b == "" {
      forall k: nat ensures !DiferemEm(a, b, k) { SemDiferenca(a, b, k); }
    } else if a[0] == b[0] {
      var c, d := a[1..], b[1..];
      assert a == [a[0]] + c && b == [a[0]] + d;
      MenorTextoSse(c, d);
      if k: nat :| DiferemEm(c, d, k) { CabecaIgual(a[0], c, d, k); }
      if k: nat :| DiferemEm(a, b, k) {
        CabecaDifere(a, b, k);
        CabecaIgual(a[0], c, d, k - 1);
      }
      assert a < b <==> c < d;
    } else {
      CabecasDiferentes(a, b);
    }
  }

  lemma SemDiferenca(a: string, b: string, k: nat)
    requires a == "" || b == ""
    ensures !DiferemEm(a, b, k)
  {}

  lemma CabecaDifere(a: string, b: string, k: nat)
    requires a != "" && b != "" && a[0] == b[0] && DiferemEm(a, b, k)
    ensures k > 0
  {}

  lemma MesmoComeco(a: string, b: string, k: nat)
    requires DiferemEm(a, b, k)
    ensures k > 0 ==> a[0] == b[0]
  {
    if k > 0 { assert a[..k][0] == a[0] && b[..k][0] == b[0]; }
  }

  lemma CabecasDiferentes(a: string, b: string)
    requires a != "" && b != "" && a[0] != b[0]
    ensures !(a < b) && (a[0] < b[0] <==> exists k: nat :: DiferemEm(a, b, k))
  {
    if a[0] < b[0] { assert DiferemEm(a, b, 0); }
    if k: nat :| DiferemEm(a, b, k) { MesmoComeco(a, b, k); }
  }

  lemma MenorTextoEhOrdem()
    ensures Ordem(MenorTexto)
  {
    forall a: string ensures !MenorTexto(a, a) { MenorTextoIrreflexiva(a); }
    forall a, b, c | MenorTexto(a, b) && MenorTexto(b, c) ensures MenorTexto(a, c) { MenorTextoTransitiva(a, b, c); }
    forall a: string, b: string | a != b ensures MenorTexto(a, b) || MenorTexto(b, a) { MenorTextoConexa(a, b); }
  }

  lemma ConcatAssocia<T>(a: seq<T>, b: seq<T>, c: seq<T>)
    ensures a + b + c == a + (b + c)
  {}

  lemma PrefixoMais<T>(s: seq<T>, k: nat)
    requires k < |s|
    ensures s[..k + 1] == s[..k] + [s[k]]
  {}

  lemma PrefixoTodo<T>(s: seq<T>)
    ensures s[..|s|] == s
  {}

  lemma CaudaConcat<T>(a: seq<T>, b: seq<T>)
    requires a != []
    ensures (a + b)[0] == a[0] && (a + b)[1..] == a[1..] + b && a + b != []
  {}

  function Conjunto<T(==)>(s: seq<T>): set<T> { set x | x in s }

  lemma ConjuntoMais<T>(s: seq<T>, k: nat)
    requires k < |s|
    ensures Conjunto(s[..k + 1]) == Conjunto(s[..k]) + {s[k]}
  {
    PrefixoMais(s, k);
  }

  lemma DistintoDoPrefixo<T>(s: seq<T>, k: nat)
    requires Distintos(s) && k < |s|
    ensures Distintos(s[..k]) && s[k] !in s[..k]
  {}

  function Se<T>(ok: bool, x: T): seq<T> { if ok then [x] else [] }

  lemma AcrescentarSe<T>(s: seq<T>, x: T, ok: bool, f: T -> int, p: T -> bool)
    ensures Soma(s + Se(ok, x), f) == Soma(s, f) + (if ok then f(x) else 0)
    ensures Filtrar(s + Se(ok, x), p) == Filtrar(s, p) + Se(ok && p(x), x)
  {
    SomaConcat(s, Se(ok, x), f);
    FiltrarConcat(s, Se(ok, x), p);
  }

  // ----- sums and counts

  function Soma<T>(s: seq<T>, f: T -> int): int {
    if s == [] then 0 else f(s[0]) + Soma(s[1..], f)
  }

  function Indicador<T>(p: T -> bool): T -> int {
    x => if p(x) then 1 else 0
  }

  /** How many elements satisfy `p`. */
  function Conta<T>(s: seq<T>, p: T -> bool): int {
    Soma(s, Indicador(p))
  }

  lemma {:induction false} SomaConcat<T>(a: seq<T>, b: seq<T>, f: T -> int)
    ensures Soma(a + b, f) == Soma(a, f) + Soma(b, f)
  {
    if a == [] {
      assert a + b == b;
    } else {
      assert (a + b)[1..] == a[1..] + b;
      SomaConcat(a[1..], b, f);
    }
  }

  lemma SomaUnitaria<T>(x: T, f: T -> int)
    ensures Soma([x], f) == f(x)
  {}

  lemma SomaDeDois<T>(x: T, y: T, f: T -> int)
    ensures Soma([x, y], f) == f(x) + f(y)
  {
    assert [x, y] == [x] + [y];
    SomaConcat([x], [y], f);
    SomaUnitaria(x, f);
    SomaUnitaria(y, f);
  }

  lemma SomaUltimo<T>(s: seq<T>, x: T, f: T -> int)
    ensures Soma(s + [x], f) == Soma(s, f) + f(x)
  {
    SomaConcat(s, [x], f);
  }

  /** Prefix sums grow one element at a time; the shape every summing loop needs. */
  lemma SomaPrefixo<T>(s: seq<T>, k: nat, f: T -> int)
    requires k < |s|
    ensures Soma(s[..k + 1], f) == Soma(s[..k], f) + f(s[k])
  {
    assert s[..k + 1] == s[..k] + [s[k]];
    SomaUltimo(s[..k], s[k], f);
  }

  function Mais<T>(f: T -> int, g: T -> int): T -> int { x => f(x) + g(x) }

  lemma {:induction false} SomaMais<T>(s: seq<T>, f: T -> int, g: T -> int)
    ensures Soma(s, Mais(f, g)) == Soma(s, f) + Soma(s, g)
  {
    if s != [] { SomaMais(s[1..], f, g); }
  }

  lemma RetirarMultiset<T>(a: seq<T>, b: seq<T>, i: nat)
    requires multiset(a) == multiset(b) && i < |b| && a != [] && b[i] == a[0]
    ensures multiset(a[1..]) == multiset(b[..i] + b[i + 1..])
  {
    assert a == [a[0]] + a[1..];
    assert b == b[..i] + ([b[i]] + b[i + 1..]);
    assert multiset(b) == multiset(b[..i]) + (multiset{b[i]} + multiset(b[i + 1..]));
    assert multiset(a) == multiset{a[0]} + multiset(a[1..]);
    assert multiset(b[..i] + b[i + 1..]) == multiset(b) - multiset{b[i]};
    assert multiset(a[1..]) == multiset(a) - multiset{a[0]};
  }

  lemma {:induction false} SomaPermutacao<T>(a: seq<T>, b: seq<T>, f: T -> int)
    requires multiset(a) == multiset(b)
    ensures Soma(a, f) == Soma(b, f)
  {
    if a == [] {
      assert |b| == |multiset(b)| == 0;
    } else {
      assert a[0] in multiset(b);
      var i :| 0 <= i < |b| && b[i] == a[0];
      RetirarMultiset(a, b, i);
      SomaPermutacao(a[1..], b[..i] + b[i + 1..], f);
      assert b == b[..i] + ([b[i]] + b[i + 1..]);
      SomaConcat(b[..i], b[i + 1..], f);
      SomaConcat(b[..i], [b[i]] + b[i + 1..], f);
    }
  }

  lemma {:induction false} SomaIgual<T>(s: seq<T>, f: T -> int, g: T -> int)
    requires forall x :: x in s ==> f(x) == g(x)
    ensures Soma(s, f) == Soma(s, g)
  {
    if s != [] { SomaIgual(s[1..], f, g); }
  }

  lemma {:induction false} SomaMonotona<T>(s: seq<T>, f: T -> int, g: T -> int)
    requires forall x :: x in s ==> f(x) <= g(x)
    ensures Soma(s, f) <= Soma(s, g)
  {
    if s != [] { SomaMonotona(s[1..], f, g); }
  }

  lemma {:induction false} SomaNaoNegativa<T>(s: seq<T>, f: T -> int)
    requires forall x :: x in s ==> f(x) >= 0
    ensures Soma(s, f) >= 0
    ensures forall x :: x in s ==> f(x) <= Soma(s, f)
  {
    if s != [] { SomaNaoNegativa(s[1..], f); }
  }

  function Mapear<T, U>(s: seq<T>, f: T -> U): (r: seq<U>)
    ensures |r| == |s| && forall i | 0 <= i < |s| :: r[i] == f(s[i])
  {
    if s == [] then [] else [f(s[0])] + Mapear(s[1..], f)
  }

  lemma MapearConcat<T, U>(a: seq<T>, b: seq<T>, f: T -> U)
    ensures Mapear(a + b, f) == Mapear(a, f) + Mapear(b, f)
  {}

  lemma MapearContem<T, U>(s: seq<T>, f: T -> U, x: T)
    requires x in s
    ensures f(x) in Mapear(s, f)
  {
    var k :| 0 <= k < |s| && s[k] == x;
    assert Mapear(s, f)[k] == f(x);
  }

  lemma {:induction false} SomaMapeada<T, U>(s: seq<T>, f: T -> U, g: U -> int, h: T -> int)
    requires forall x :: x in s ==> g(f(x)) == h(x)
    ensures Soma(Mapear(s, f), g) == Soma(s, h)
  {
    if s != [] {
      assert Mapear(s, f)[1..] == Mapear(s[1..], f);
      SomaMapeada(s[1..], f, g, h);
    }
  }

  // ----- filters and distinct elements

  function Filtrar<T>(s: seq<T>, p: T -> bool): (r: seq<T>)
    ensures (forall x | x in r :: x in s && p(x)) && (forall x | x in s && p(x) :: x in r)
    ensures |r| <= |s|
  {
    if s == [] then [] else (if p(s[0]) then [s[0]] else []) + Filtrar(s[1..], p)
  }

  lemma {:induction false} FiltrarConcat<T>(a: seq<T>, b: seq<T>, p: T -> bool)
    ensures Filtrar(a + b, p) == Filtrar(a, p) + Filtrar(b, p)
  {
    if a == [] {
      assert a + b == b;
    } else {
      assert (a + b)[1..] == a[1..] + b;
      FiltrarConcat(a[1..], b, p);
    }
  }

  lemma FiltrarPrefixo<T>(s: seq<T>, k: nat, p: T -> bool)
    requires k < |s|
    ensures Filtrar(s[..k + 1], p) == Filtrar(s[..k], p) + (if p(s[k]) then [s[k]] else [])
  {
    assert s[..k + 1] == s[..k] + [s[k]];
    FiltrarConcat(s[..k], [s[k]], p);
    assert Filtrar([s[k]], p) == if p(s[k]) then [s[k]] else [];
  }

  lemma {:induction false} FiltrarIgual<T>(s: seq<T>, p: T -> bool, q: T -> bool)
    requires forall x :: x in s ==> p(x) == q(x)
    ensures Filtrar(s, p) == Filtrar(s, q)
  {
    if s != [] { FiltrarIgual(s[1..], p, q); }
  }

  lemma {:induction false} FiltrarTodos<T>(s: seq<T>, p: T -> bool)
    requires forall y :: y in s ==> p(y)
    ensures Filtrar(s, p) == s
  {
    if s != [] { FiltrarTodos(s[1..], p); }
  }

  lemma {:induction false} FiltrarNenhum<T>(s: seq<T>, p: T -> bool)
    requires forall x :: x in s ==> !p(x)
    ensures Filtrar(s, p) == []
  {
    if s != [] { FiltrarNenhum(s[1..], p); }
  }

  lemma FiltroVazio<T>(s: seq<T>, p: T -> bool)
    requires Filtrar(s, p) == []
    ensures forall x :: x in s ==> !p(x)
  {
    assert forall x :: x in s && p(x) ==> x in Filtrar(s, p);
  }

  function Ambos<T>(p: T -> bool, q: T -> bool): T -> bool { x => p(x) && q(x) }

  lemma {:induction false} FiltrarFiltrar<T>(s: seq<T>, p: T -> bool, q: T -> bool)
    ensures Filtrar(Filtrar(s, p), q) == Filtrar(s, Ambos(p, q))
  {
    if s != [] {
      FiltrarFiltrar(s[1..], p, q);
      FiltrarConcat(if p(s[0]) then [s[0]] else [], Filtrar(s[1..], p), q);
    }
  }

  function Por<T, U>(p: U -> bool, f: T -> U): T -> bool { x => p(f(x)) }

  lemma {:induction false} FiltrarMapear<T, U>(s: seq<T>, f: T -> U, p: U -> bool)
    ensures Mapear(Filtrar(s, Por(p, f)), f) == Filtrar(Mapear(s, f), p)
  {
    if s != [] {
      FiltrarMapear(s[1..], f, p);
      CaudaConcat([f(s[0])], Mapear(s[1..], f));
    }
  }

  predicate Distintos<T(==)>(s: seq<T>) {
    forall i, j :: 0 <= i < j < |s| ==> s[i] != s[j]
  }

  predicate MesmosElementos<T(==)>(a: seq<T>, b: seq<T>) {
    (forall x :: x in a ==> x in b) && (forall x :: x in b ==> x in a)
  }

  lemma {:induction false} DistintosFiltrar<T>(s: seq<T>, p: T -> bool)
    requires Distintos(s)
    ensures Distintos(Filtrar(s, p))
  {
    if s != [] {
      DistintosFiltrar(s[1..], p);
      var r := Filtrar(s[1..], p);
      assert forall i :: 0 <= i < |r| ==> r[i] in s[1..];
      assert forall x :: x in s[1..] ==> x != s[0];
    }
  }

  lemma DistintosConcat<T>(a: seq<T>, b: seq<T>)
    requires Distintos(a) && Distintos(b) && forall x :: x in a ==> x !in b
    ensures Distintos(a + b)
  {
    forall i, j | 0 <= i < j < |a + b| ensures (a + b)[i] != (a + b)[j] {
      if i < |a| <= j { assert a[i] in a && b[j - |a|] in b; }
    }
  }

  lemma {:induction false} TamanhoDistinto<T>(s: seq<T>)
    requires Distintos(s)
    ensures |Conjunto(s)| == |s|
  {
    if s != [] {
      var p, x := s[..|s| - 1], s[|s| - 1];
      TamanhoDistinto(p);
      ConjuntoMais(s, |p|);
      PrefixoTodo(s);
    }
  }

  /** Taking one element out of a duplicate-free list. */
  lemma RetirarUm<T>(s: seq<T>, i: nat, f: T -> int)
    requires Distintos(s) && i < |s|
    ensures var r := s[..i] + s[i + 1..];
            && |r| == |s| - 1 && Distintos(r) && Soma(r, f) == Soma(s, f) - f(s[i])
            && forall y :: y in r ==> y in s && y != s[i]
  {
    assert s == s[..i] + ([s[i]] + s[i + 1..]);
    SomaConcat(s[..i], [s[i]] + s[i + 1..], f);
    SomaConcat(s[..i], s[i + 1..], f);
  }

  lemma {:induction false} DistintosUmaVez<T>(s: seq<T>, x: T)
    requires Distintos(s)
    ensures multiset(s)[x] == if x in s then 1 else 0
  {
    if s != [] {
      DistintosUmaVez(s[1..], x);
      assert s == [s[0]] + s[1..];
      assert multiset(s) == multiset{s[0]} + multiset(s[1..]);
      assert s[0] !in s[1..];
    }
  }

  /** Two duplicate-free lists with the same elements are permutations of each other. */
  lemma DistintosMultiset<T(!new)>(a: seq<T>, b: seq<T>)
    requires Distintos(a) && Distintos(b) && MesmosElementos(a, b)
    ensures multiset(a) == multiset(b)
  {
    forall x: T ensures multiset(a)[x] == multiset(b)[x] {
      DistintosUmaVez(a, x);
      DistintosUmaVez(b, x);
    }
  }

  function Restrita<T(==)>(s: seq<T>, f: T -> int): T -> int { x => if x in s then f(x) else 0 }

  function ForaDe<T(==)>(s: seq<T>): T -> bool { x => x !in s }

  /** Summing over a larger list, counting only the members of a sublist. */
  lemma SomaRestrita<T(!new)>(todos: seq<T>, s: seq<T>, f: T -> int)
    requires Distintos(todos) && Distintos(s) && forall x :: x in s ==> x in todos
    ensures Soma(todos, Restrita(s, f)) == Soma(s, f)
  {
    var r := Filtrar(todos, ForaDe(s));
    DistintosFiltrar(todos, ForaDe(s));
    DistintosConcat(s, r);
    DistintosMultiset(todos, s + r);
    SomaPermutacao(todos, s + r, Restrita(s, f));
    SomaConcat(s, r, Restrita(s, f));
    SomaIgual(s, Restrita(s, f), f);
    SomaIgual(r, Restrita(s, f), Nulo());
    SomaNula(r);
  }

  lemma {:induction false} SomaDeZeros<T>(s: seq<T>, f: T -> int)
    requires forall x :: x in s ==> f(x) == 0
    ensures Soma(s, f) == 0
  {
    if s != [] { SomaDeZeros(s[1..], f); }
  }

  function Nulo<T>(): T -> int { _ => 0 }

  lemma {:induction false} SomaNula<T>(s: seq<T>)
    ensures Soma(s, Nulo()) == 0
  {
    if s != [] { SomaNula(s[1..]); }
  }

  /** The elements in order of first arrival: the iteration order of a Python dict. */
  function Chegada<T(==)>(s: seq<T>): (r: seq<T>)
    ensures Distintos(r) && MesmosElementos(r, s)
  {
    if s == [] then []
    else
      var u := Chegada(s[..|s| - 1]);
      var x := s[|s| - 1];
      assert s == s[..|s| - 1] + [x];
      if x in u then u else u + [x]
  }

  lemma ChegadaMais<T>(s: seq<T>, x: T)
    ensures Chegada(s + [x]) == if x in s then Chegada(s) else Chegada(s) + [x]
  {
    assert (s + [x])[..|s|] == s;
  }

  // ----- sorting

  /** A strict total order on every value of `T`. */
  ghost predicate Ordem<T(!new)>(menor: (T, T) -> bool) {
    && (forall a :: !menor(a, a))
    && (forall a, b, c :: menor(a, b) && menor(b, c) ==> menor(a, c))
    && (forall a, b :: a != b ==> menor(a, b) || menor(b, a))
  }

  /** A strict total order on the elements of `s`. */
  ghost predicate OrdemEm<T>(s: seq<T>, menor: (T, T) -> bool) {
    && (forall a | a in s :: !menor(a, a))
    && (forall a, b, c | a in s && b in s && c in s :: menor(a, b) && menor(b, c) ==> menor(a, c))
    && (forall a, b | a in s && b in s :: a != b ==> menor(a, b) || menor(b, a))
  }

  ghost predicate Crescente<T>(s: seq<T>, menor: (T, T) -> bool) {
    forall i, j :: 0 <= i < j < |s| ==> menor(s[i], s[j])
  }

  function Inserir<T>(x: T, s: seq<T>, menor: (T, T) -> bool): seq<T> {
    if s == [] || !menor(s[0], x) then [x] + s
    else [s[0]] + Inserir(x, s[1..], menor)
  }

  /** Python's stable `sorted`. */
  function Ordenar<T>(s: seq<T>, menor: (T, T) -> bool): seq<T> {
    if s == [] then [] else Inserir(s[0], Ordenar(s[1..], menor), menor)
  }

  lemma {:induction false} InserirPermuta<T>(x: T, s: seq<T>, menor: (T, T) -> bool)
    ensures multiset(Inserir(x, s, menor)) == multiset(s) + multiset{x}
  {
    if !(s == [] || !menor(s[0], x)) {
      InserirPermuta(x, s[1..], menor);
      assert s == [s[0]] + s[1..];
    }
  }

  lemma PermutacaoMesmos<T>(a: seq<T>, b: seq<T>)
    requires multiset(a) == multiset(b)
    ensures |a| == |b| && MesmosElementos(a, b)
  {
    assert |a| == |multiset(a)| && |b| == |multiset(b)|;
    forall x | x in a ensures x in b { assert x in multiset(a); }
    forall x | x in b ensures x in a { assert x in multiset(b); }
  }

  lemma {:induction false} OrdenarMultiset<T>(s: seq<T>, menor: (T, T) -> bool)
    ensures multiset(Ordenar(s, menor)) == multiset(s)
  {
    if s != [] {
      OrdenarMultiset(s[1..], menor);
      InserirPermuta(s[0], Ordenar(s[1..], menor), menor);
      assert s == [s[0]] + s[1..];
    }
  }

  lemma OrdenarPermuta<T>(s: seq<T>, menor: (T, T) -> bool)
    ensures multiset(Ordenar(s, menor)) == multiset(s)
    ensures |Ordenar(s, menor)| == |s|
    ensures MesmosElementos(Ordenar(s, menor), s)
  {
    OrdenarMultiset(s, menor);
    PermutacaoMesmos(Ordenar(s, menor), s);
  }

  lemma {:induction false} InserirOrdenado<T>(x: T, s: seq<T>, menor: (T, T) -> bool)
    requires OrdemEm([x] + s, menor) && Crescente(s, menor) && x !in s
    ensures Crescente(Inserir(x, s, menor), menor)
  {
    if s != [] {
      assert x in [x] + s && s[0] in [x] + s;
      if menor(s[0], x) {
        assert forall y :: y in [x] + s[1..] ==> y in [x] + s;
        InserirOrdenado(x, s[1..], menor);
        InserirPermuta(x, s[1..], menor);
        var r := Inserir(x, s[1..], menor);
        forall i | 0 <= i < |r| ensures menor(s[0], r[i]) {
          assert r[i] in multiset(r);
        }
      } else {
        forall i | 0 <= i < |s| ensures menor(x, s[i]) {
          assert s[i] in [x] + s;
        }
      }
    }
  }

  lemma {:induction false} OrdenarCrescente<T>(s: seq<T>, menor: (T, T) -> bool)
    requires OrdemEm(s, menor) && Distintos(s)
    ensures Crescente(Ordenar(s, menor), menor)
  {
    if s != [] {
      OrdenarCrescente(s[1..], menor);
      OrdenarPermuta(s[1..], menor);
      var r := Ordenar(s[1..], menor);
      assert forall y :: y in [s[0]] + r ==> y in s;
      assert s[0] !in r;
      InserirOrdenado(s[0], r, menor);
    }
  }

  lemma PrimeiroEhMenor<T>(s: seq<T>, x: T, menor: (T, T) -> bool)
    requires Crescente(s, menor) && x in s
    ensures x == s[0] || menor(s[0], x)
  {
    var i :| 0 <= i < |s| && s[i] == x;
  }

  /** A strictly increasing arrangement of given elements is unique. */
  lemma {:induction false} CrescenteUnica<T>(a: seq<T>, b: seq<T>, menor: (T, T) -> bool)
    requires OrdemEm(a, menor) && MesmosElementos(a, b)
    requires Crescente(a, menor) && Crescente(b, menor)
    ensures a == b
  {
    assert b != [] ==> b[0] in b;
    if a != [] {
      assert a[0] in b && b[0] in a;
      PrimeiroEhMenor(a, b[0], menor);
      PrimeiroEhMenor(b, a[0], menor);
      assert a[0] == b[0];
      forall x | x in a[1..] ensures x in b[1..] {
        assert x in a && menor(a[0], x) && x != a[0];
        assert x in b;
      }
      forall x | x in b[1..] ensures x in a[1..] {
        assert x in b && menor(b[0], x);
        assert x in a && x != a[0];
      }
      CrescenteUnica(a[1..], b[1..], menor);
      assert a == [a[0]] + a[1..] && b == [b[0]] + b[1..];
    }
  }

  /** `sorted` forgets the arrival order when no two elements tie. */
  lemma OrdenarIndependeDaChegada<T>(a: seq<T>, b: seq<T>, menor: (T, T) -> bool)
    requires OrdemEm(a, menor) && Distintos(a) && Distintos(b) && MesmosElementos(a, b)
    ensures Ordenar(a, menor) == Ordenar(b, menor)
  {
    OrdenarPermuta(a, menor);
    OrdenarPermuta(b, menor);
    OrdenarCrescente(a, menor);
    OrdenarCrescente(b, menor);
    CrescenteUnica(Ordenar(a, menor), Ordenar(b, menor), menor);
  }

  lemma {:induction false} FiltrarCrescente<T>(s: seq<T>, p: T -> bool, menor: (T, T) -> bool)
    requires Crescente(s, menor)
    ensures Crescente(Filtrar(s, p), menor)
  {
    if s != [] {
      FiltrarCrescente(s[1..], p, menor);
      var r := Filtrar(s[1..], p);
      forall i | 0 <= i < |r| ensures menor(s[0], r[i]) {
        assert r[i] in s[1..];
        var j :| 0 <= j < |s[1..]| && s[1..][j] == r[i];
        assert s[j + 1] == r[i];
      }
    }
  }

  lemma OrdemGlobalEmLista<T(!new)>(s: seq<T>, menor: (T, T) -> bool)
    requires Ordem(menor)
    ensures OrdemEm(s, menor)
  {}

  lemma CrescenteDistinta<T(!new)>(s: seq<T>, menor: (T, T) -> bool)
    requires Ordem(menor) && Crescente(s, menor)
    ensures Distintos(s)
  {}

  /** `sorted(x for x in s if p(x))` over a duplicate-free list. */
  lemma OrdenarFiltrado<T(!new)>(s: seq<T>, p: T -> bool, menor: (T, T) -> bool)
    requires Distintos(s) && Ordem(menor)
    ensures var f := Ordenar(Filtrar(s, p), menor);
            Distintos(f) && Crescente(f, menor) && forall x :: x in f <==> x in s && p(x)
  {
    var e := Filtrar(s, p);
    DistintosFiltrar(s, p);
    OrdemGlobalEmLista(e, menor);
    OrdenarCrescente(e, menor);
    OrdenarPermuta(e, menor);
    CrescenteDistinta(Ordenar(e, menor), menor);
  }
}
