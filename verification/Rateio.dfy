/** Largest-remainder (Hamilton) apportionment, used for cents and for pieces.

    The specification is the ranked form: floor share, plus one unit for the
    entries whose rank by (remainder descending, size ascending) is below the
    number of units left over. The methods follow the sort-and-slice form. */
module Rateio {
  import opened Aritmetica
  import opened Listas

  /** One entry of the `sizes` dictionary. */
  datatype Peso = Peso(tam: string, qtd: nat)

  datatype Resultado<+T> = Ok(valor: T) | Erro(falha: FalhaRateio)
  datatype FalhaRateio = DivisaoPorZero | TotalNegativo | SemTamanhos | PesoZero

  predicate TamanhosDistintos(ps: seq<Peso>) {
    forall i, j :: 0 <= i < j < |ps| ==> ps[i].tam != ps[j].tam
  }

  function QtdDe(): Peso -> int { (p: Peso) => p.qtd }

  function PesoTotal(ps: seq<Peso>): nat {
    SomaNaoNegativa(ps, QtdDe());
    Soma(ps, QtdDe())
  }

  function Base(total: nat, w: nat, p: Peso): nat requires w > 0 {
    MultNaoNegativa(total, p.qtd);
    total * p.qtd / w
  }

  function Resto(total: nat, w: nat, p: Peso): nat requires w > 0 { total * p.qtd % w }

  function BaseDe(total: nat, w: nat): Peso -> int requires w > 0 { (p: Peso) => Base(total, w, p) }
  function RestoDe(total: nat, w: nat): Peso -> int requires w > 0 { (p: Peso) => Resto(total, w, p) }

  /** Units still to hand out after every entry received its floor share. */
  function Sobra(total: nat, ps: seq<Peso>): int requires PesoTotal(ps) > 0 {
    total - Soma(ps, BaseDe(total, PesoTotal(ps)))
  }

  /** `a` is served before `b` when the left-over units are handed out. */
  predicate Antes(total: nat, w: nat, a: Peso, b: Peso) requires w > 0 {
    Resto(total, w, a) > Resto(total, w, b)
    || (Resto(total, w, a) == Resto(total, w, b) && MenorTexto(a.tam, b.tam))
  }

  function OrdemDeResto(total: nat, w: nat): (Peso, Peso) -> bool requires w > 0 {
    (a, b) => Antes(total, w, a, b)
  }

  function AntesDe(total: nat, w: nat, p: Peso): Peso -> bool requires w > 0 {
    x => Antes(total, w, x, p)
  }

  /** Rank of `p`, counted from zero: how many entries are served before it. */
  function Posto(total: nat, ps: seq<Peso>, p: Peso): int requires PesoTotal(ps) > 0 {
    Conta(ps, AntesDe(total, PesoTotal(ps), p))
  }

  /** What entry `p` receives of `total`. */
  function Parte(total: nat, ps: seq<Peso>, p: Peso): nat requires PesoTotal(ps) > 0 {
    Base(total, PesoTotal(ps), p) + if Posto(total, ps, p) < Sobra(total, ps) then 1 else 0
  }

  function ParteDe(total: nat, ps: seq<Peso>): Peso -> int requires PesoTotal(ps) > 0 {
    p => Parte(total, ps, p)
  }

  /** The signed version: the magnitude is apportioned and the sign reapplied. */
  function ParteComSinal(total: int, ps: seq<Peso>, p: Peso): int requires PesoTotal(ps) > 0 {
    if total < 0 then 0 - Parte(-total, ps, p) else Parte(total, ps, p)
  }

  function ParteComSinalDe(total: int, ps: seq<Peso>): Peso -> int requires PesoTotal(ps) > 0 {
    p => ParteComSinal(total, ps, p)
  }

  // ----- the order by remainder

  lemma OrdemDeRestoEhOrdem(total: nat, w: nat, ps: seq<Peso>)
    requires w > 0 && TamanhosDistintos(ps)
    ensures OrdemEm(ps, OrdemDeResto(total, w)) && Distintos(ps)
  {
    MenorTextoEhOrdem();
    forall a, b | a in ps && b in ps && a != b
      ensures Antes(total, w, a, b) || Antes(total, w, b, a)
    {
      assert a.tam != b.tam;
    }
  }

  lemma {:induction false} ContaTodos<T>(s: seq<T>, p: T -> bool)
    requires forall x :: x in s ==> p(x)
    ensures Conta(s, p) == |s|
  {
    if s != [] { ContaTodos(s[1..], p); }
  }

  lemma {:induction false} ContaNenhum<T>(s: seq<T>, p: T -> bool)
    requires forall x :: x in s ==> !p(x)
    ensures Conta(s, p) == 0
  {
    if s != [] { ContaNenhum(s[1..], p); }
  }

  /** In the order of service, the rank is the position. */
  lemma PostoEhPosicao(total: nat, ps: seq<Peso>, k: nat)
    requires PesoTotal(ps) > 0 && TamanhosDistintos(ps) && k < |ps|
    ensures var o := Ordenar(ps, OrdemDeResto(total, PesoTotal(ps)));
            |o| == |ps| && Posto(total, ps, o[k]) == k
  {
    var w := PesoTotal(ps);
    var m := OrdemDeResto(total, w);
    var o := Ordenar(ps, m);
    OrdemDeRestoEhOrdem(total, w, ps);
    OrdenarPermuta(ps, m);
    OrdenarCrescente(ps, m);
    var f := AntesDe(total, w, o[k]);
    SomaPermutacao(ps, o, Indicador(f));
    assert o == o[..k] + o[k..];
    SomaConcat(o[..k], o[k..], Indicador(f));
    ContaTodos(o[..k], f);
    forall x | x in o[k..] ensures !f(x) {
      var j :| 0 <= j < |o[k..]| && o[k..][j] == x;
      assert x in ps && o[k] in ps;
      if j > 0 {
        assert m(o[k], o[k + j]);
        assert m(x, o[k]) ==> m(x, x);
      }
    }
    ContaNenhum(o[k..], f);
  }

  // ----- how many units are left over

  lemma {:induction false} SomaDasDivisoes(ps: seq<Peso>, total: nat, w: nat)
    requires w > 0
    ensures w * Soma(ps, BaseDe(total, w)) + Soma(ps, RestoDe(total, w)) == total * Soma(ps, QtdDe())
  {
    if ps != [] {
      SomaDasDivisoes(ps[1..], total, w);
      var n := total * ps[0].qtd;
      assert n == w * (n / w) + n % w;
      var b, bs := Base(total, w, ps[0]), Soma(ps[1..], BaseDe(total, w));
      assert w * (b + bs) == w * b + w * bs;
      var q, qs := ps[0].qtd, Soma(ps[1..], QtdDe());
      assert total * (q + qs) == total * q + total * qs;
    }
  }

  function TemResto(total: nat, w: nat): Peso -> bool requires w > 0 { (p: Peso) => Resto(total, w, p) > 0 }

  lemma {:induction false} SomaRestosLimitada(ps: seq<Peso>, total: nat, w: nat)
    requires w > 0
    ensures 0 <= Soma(ps, RestoDe(total, w)) <= (w - 1) * Conta(ps, TemResto(total, w))
    ensures 0 <= Conta(ps, TemResto(total, w)) <= |ps|
  {
    if ps != [] {
      SomaRestosLimitada(ps[1..], total, w);
      var c := Conta(ps[1..], TemResto(total, w));
      assert (w - 1) * (c + 1) == (w - 1) * c + (w - 1);
    }
  }

  lemma SobraPelosRestos(total: nat, ps: seq<Peso>)
    requires PesoTotal(ps) > 0
    ensures PesoTotal(ps) * Sobra(total, ps) == Soma(ps, RestoDe(total, PesoTotal(ps)))
  {
    var w := PesoTotal(ps);
    var b := Soma(ps, BaseDe(total, w));
    SomaDasDivisoes(ps, total, w);
    assert w * (total - b) == w * total - w * b;
  }

  /** Fewer units are left over than there are entries with a remainder. */
  lemma SobraLimitada(total: nat, ps: seq<Peso>)
    requires PesoTotal(ps) > 0
    ensures 0 <= Sobra(total, ps) <= Conta(ps, TemResto(total, PesoTotal(ps))) <= |ps|
  {
    var w := PesoTotal(ps);
    SobraPelosRestos(total, ps);
    SomaRestosLimitada(ps, total, w);
    var r, c := Sobra(total, ps), Conta(ps, TemResto(total, w));
    assert (w - 1) * c == w * c - c;
    Simplifica(w, 0, r);
    Simplifica(w, r, c);
  }

  /** A left-over unit only ever goes to an entry whose exact share is fractional. */
  lemma ContempladoTemResto(total: nat, ps: seq<Peso>, p: Peso)
    requires PesoTotal(ps) > 0 && Posto(total, ps, p) < Sobra(total, ps)
    ensures Resto(total, PesoTotal(ps), p) > 0
  {
    var w := PesoTotal(ps);
    SobraLimitada(total, ps);
    if Resto(total, w, p) == 0 {
      SomaMonotona(ps, Indicador(TemResto(total, w)), Indicador(AntesDe(total, w, p)));
    }
  }

  // ----- main results

  /** In order of remainder, the first `Sobra` entries receive one unit above the floor. */
  lemma ParteNaOrdem(total: nat, ps: seq<Peso>, i: nat)
    requires PesoTotal(ps) > 0 && TamanhosDistintos(ps) && i < |ps|
    ensures var o := Ordenar(ps, OrdemDeResto(total, PesoTotal(ps)));
            && |o| == |ps|
            && ParteDe(total, ps)(o[i]) == BaseDe(total, PesoTotal(ps))(o[i]) + if i < Sobra(total, ps) then 1 else 0
  {
    hide Ordenar, Base, Sobra, Posto;
    PostoEhPosicao(total, ps, i);
  }

  lemma SomaPelaOrdem(o: seq<Peso>, r: nat, f: Peso -> int, g: Peso -> int)
    requires r <= |o| && forall i :: 0 <= i < |o| ==> g(o[i]) == f(o[i]) + if i < r then 1 else 0
    ensures Soma(o, g) == Soma(o, f) + r
  {
    SomaConcat(o[..r], o[r..], f);
    SomaConcat(o[..r], o[r..], g);
    assert o == o[..r] + o[r..];
    SomaMaisUm(o[..r], f, g);
    SomaIgual(o[r..], f, g);
  }

  /** The parts add up to the total, with no unit lost or invented. */
  lemma SomaExata(total: nat, ps: seq<Peso>)
    requires PesoTotal(ps) > 0 && TamanhosDistintos(ps)
    ensures Soma(ps, ParteDe(total, ps)) == total
  {
    hide Ordenar, Base, Parte, Posto, Soma;
    var w := PesoTotal(ps);
    var o := Ordenar(ps, OrdemDeResto(total, w));
    SobraLimitada(total, ps);
    OrdenarPermuta(ps, OrdemDeResto(total, w));
    SomaPermutacao(ps, o, ParteDe(total, ps));
    SomaPermutacao(ps, o, BaseDe(total, w));
    forall i | 0 <= i < |o|
      ensures ParteDe(total, ps)(o[i]) == BaseDe(total, w)(o[i]) + if i < Sobra(total, ps) then 1 else 0
    {
      ParteNaOrdem(total, ps, i);
    }
    SomaPelaOrdem(o, Sobra(total, ps), BaseDe(total, w), ParteDe(total, ps));
  }

  lemma {:induction false} SomaMaisUm<T>(s: seq<T>, f: T -> int, g: T -> int)
    requires forall x :: x in s ==> g(x) == f(x) + 1
    ensures Soma(s, g) == Soma(s, f) + |s|
  {
    if s != [] { SomaMaisUm(s[1..], f, g); }
  }

  lemma {:induction false} SomaOposta<T>(s: seq<T>, f: T -> int, g: T -> int)
    requires forall x :: x in s ==> g(x) == -f(x)
    ensures Soma(s, g) == -Soma(s, f)
  {
    if s != [] { SomaOposta(s[1..], f, g); }
  }

  /** Signed totals are apportioned exactly too. */
  lemma SomaExataComSinal(total: int, ps: seq<Peso>)
    requires PesoTotal(ps) > 0 && TamanhosDistintos(ps)
    ensures Soma(ps, ParteComSinalDe(total, ps)) == total
  {
    if total < 0 {
      SomaExata(-total, ps);
      SomaOposta(ps, ParteDe(-total, ps), ParteComSinalDe(total, ps));
    } else {
      SomaExata(total, ps);
      SomaIgual(ps, ParteDe(total, ps), ParteComSinalDe(total, ps));
    }
  }

  /** Negating the total negates every part. */
  lemma SinalOposto(total: int, ps: seq<Peso>, p: Peso)
    requires PesoTotal(ps) > 0
    ensures ParteComSinal(-total, ps, p) == -ParteComSinal(total, ps, p)
  {
    if total == 0 { ParteExata(0, ps, p); }
  }

  /** Each part is the floor or the ceiling of its exact share. */
  lemma ParteNaQuota(total: nat, ps: seq<Peso>, p: Peso)
    requires PesoTotal(ps) > 0
    ensures var w := PesoTotal(ps); 0 - w < Parte(total, ps, p) * w - total * p.qtd < w
  {
    var w := PesoTotal(ps);
    var n := total * p.qtd;
    var b := Base(total, w, p);
    MultNaoNegativa(total, p.qtd);
    assert n == w * (n / w) + n % w;
    assert (b + 1) * w == b * w + w;
    if Posto(total, ps, p) < Sobra(total, ps) { ContempladoTemResto(total, ps, p); }
  }

  /** A share that divides exactly is paid exactly; in particular, weight zero gets zero. */
  lemma ParteExata(total: nat, ps: seq<Peso>, p: Peso)
    requires PesoTotal(ps) > 0 && total * p.qtd % PesoTotal(ps) == 0
    ensures Parte(total, ps, p) * PesoTotal(ps) == total * p.qtd
    ensures total == 0 || p.qtd == 0 ==> Parte(total, ps, p) == 0
  {
    var w := PesoTotal(ps);
    if Posto(total, ps, p) < Sobra(total, ps) { ContempladoTemResto(total, ps, p); }
    var n := total * p.qtd;
    assert n == w * (n / w) + n % w;
    if total == 0 || p.qtd == 0 { ProdutoZero(total, p.qtd, w); }
  }

  lemma ProdutoZero(a: nat, b: nat, w: nat)
    requires w > 0 && (a == 0 || b == 0)
    ensures a * b == 0 && a * b / w == 0
  {}

  /** A strictly larger weight never receives less. */
  lemma ParteMonotona(total: nat, ps: seq<Peso>, a: Peso, b: Peso)
    requires PesoTotal(ps) > 0 && a.qtd > b.qtd
    ensures Parte(total, ps, a) >= Parte(total, ps, b)
  {
    var w := PesoTotal(ps);
    if total == 0 {
      ProdutoZero(total, a.qtd, w);
      ProdutoZero(total, b.qtd, w);
      ParteExata(total, ps, a);
      ParteExata(total, ps, b);
    } else {
      MultEstrita(total, b.qtd, a.qtd);
      MultNaoNegativa(total, b.qtd);
      DivMonotona(total * b.qtd, total * a.qtd, w);
      if Base(total, w, a) == Base(total, w, b) {
        // a has the larger remainder, hence it is served no later than b
        SomaMonotona(ps, Indicador(AntesDe(total, w, a)), Indicador(AntesDe(total, w, b)));
      }
    }
  }

  /** The allocation of a size does not depend on the order of the dictionary. */
  lemma ParteIndependeDaOrdem(total: nat, ps: seq<Peso>, qs: seq<Peso>, p: Peso)
    requires multiset(ps) == multiset(qs) && PesoTotal(ps) > 0
    ensures PesoTotal(qs) == PesoTotal(ps) && Parte(total, qs, p) == Parte(total, ps, p)
  {
    SomaPermutacao(ps, qs, QtdDe());
    var w := PesoTotal(ps);
    SomaPermutacao(ps, qs, BaseDe(total, w));
    SomaPermutacao(ps, qs, Indicador(AntesDe(total, w, p)));
  }

  // ----- largest remainder, told without ranks

  /** Between two sizes, a unit above the floor goes to the one whose exact share has the
      larger remainder and, on a tie, to the one that comes first alphabetically. */
  lemma MaiorRestoGanha(total: nat, ps: seq<Peso>, a: Peso, b: Peso)
    requires PesoTotal(ps) > 0 && TamanhosDistintos(ps) && a in ps && b in ps && a.tam != b.tam
    requires var w := PesoTotal(ps);
             Parte(total, ps, a) > total * a.qtd / w && Parte(total, ps, b) <= total * b.qtd / w
    ensures var w := PesoTotal(ps);
            total * a.qtd % w > total * b.qtd % w
              || (total * a.qtd % w == total * b.qtd % w && MenorTexto(a.tam, b.tam))
  {
    var w := PesoTotal(ps);
    OrdemDeRestoEhOrdem(total, w, ps);
    if OrdemDeResto(total, w)(b, a) {
      forall x | x in ps ensures AntesDe(total, w, b)(x) ==> AntesDe(total, w, a)(x) {
        assert OrdemDeResto(total, w)(x, b) ==> OrdemDeResto(total, w)(x, a);
      }
      SomaMonotona(ps, Indicador(AntesDe(total, w, b)), Indicador(AntesDe(total, w, a)));
    }
  }

  function NoMapa(v: map<string, int>): Peso -> int { (p: Peso) => if p.tam in v then v[p.tam] else 0 }

  /** `v` apportions `total` by largest remainder: every size gets the floor of its share or
      one more, the parts add up, and the units above the floor went to the largest
      remainders, ties in alphabetical order. */
  ghost predicate PorMaiorResto(total: nat, w: nat, ps: seq<Peso>, v: map<string, int>)
    requires w > 0
  {
    && (forall p :: p in ps ==>
      p.tam in v && (v[p.tam] == total * p.qtd / w || v[p.tam] == total * p.qtd / w + 1))
    && Soma(ps, NoMapa(v)) == total
    && (forall a, b :: a in ps && b in ps && a.tam != b.tam
                       && v[a.tam] > total * a.qtd / w && v[b.tam] == total * b.qtd / w ==>
          total * a.qtd % w > total * b.qtd % w
          || (total * a.qtd % w == total * b.qtd % w && MenorTexto(a.tam, b.tam)))
  }

  lemma ParteEhPiso(total: nat, ps: seq<Peso>, p: Peso)
    requires PesoTotal(ps) > 0
    ensures var b := total * p.qtd / PesoTotal(ps); Parte(total, ps, p) == b || Parte(total, ps, p) == b + 1
  {}

  lemma PartesPorMaiorResto(total: nat, ps: seq<Peso>, v: map<string, int>)
    requires PesoTotal(ps) > 0 && TamanhosDistintos(ps)
    requires forall p :: p in ps ==> p.tam in v && v[p.tam] == Parte(total, ps, p)
    ensures PorMaiorResto(total, PesoTotal(ps), ps, v)
  {
    hide Parte;
    var w := PesoTotal(ps);
    SomaExata(total, ps);
    SomaIgual(ps, NoMapa(v), ParteDe(total, ps));
    forall p | p in ps ensures v[p.tam] == total * p.qtd / w || v[p.tam] == total * p.qtd / w + 1 {
      ParteEhPiso(total, ps, p);
    }
    forall a, b | a in ps && b in ps && a.tam != b.tam
                  && v[a.tam] > total * a.qtd / w && v[b.tam] == total * b.qtd / w
      ensures total * a.qtd % w > total * b.qtd % w
              || (total * a.qtd % w == total * b.qtd % w && MenorTexto(a.tam, b.tam))
    {
      MaiorRestoGanha(total, ps, a, b);
    }
  }

  lemma {:induction false} SomaMenorOuIgual(ps: seq<Peso>, f: Peso -> int, g: Peso -> int)
    requires (forall p :: p in ps ==> f(p) <= g(p)) && Soma(ps, f) >= Soma(ps, g)
    ensures forall p :: p in ps ==> f(p) == g(p)
  {
    if ps != [] {
      SomaMonotona(ps[1..], f, g);
      SomaMenorOuIgual(ps[1..], f, g);
    }
  }

  /** The first and the last of the laws, for any floors and remainders. */
  ghost predicate PisosERestos(ps: seq<Peso>, v: map<string, int>, piso: Peso -> int, resto: Peso -> int) {
    && (forall p :: p in ps ==> p.tam in v && (v[p.tam] == piso(p) || v[p.tam] == piso(p) + 1))
    && (forall a, b :: a in ps && b in ps && a.tam != b.tam && v[a.tam] > piso(a) && v[b.tam] == piso(b) ==>
          resto(a) > resto(b) || (resto(a) == resto(b) && MenorTexto(a.tam, b.tam)))
  }

  lemma LeisComPisos(total: nat, w: nat, ps: seq<Peso>, v: map<string, int>)
    requires w > 0 && PorMaiorResto(total, w, ps, v)
    ensures PisosERestos(ps, v, BaseDe(total, w), RestoDe(total, w))
  {}

  lemma NaoSeCruzam(ps: seq<Peso>, v: map<string, int>, u: map<string, int>, piso: Peso -> int, resto: Peso -> int,
                    a: Peso, b: Peso)
    requires PisosERestos(ps, v, piso, resto) && PisosERestos(ps, u, piso, resto) && a in ps && b in ps
    ensures v[a.tam] <= u[a.tam] || v[b.tam] >= u[b.tam]
  {
    hide MenorTexto;
    MenorTextoEhOrdem();
  }

  /** Those three laws leave no choice: they determine every part. */
  lemma MaiorRestoUnico(total: nat, w: nat, ps: seq<Peso>, v: map<string, int>, u: map<string, int>)
    requires w > 0 && PorMaiorResto(total, w, ps, v) && PorMaiorResto(total, w, ps, u)
    ensures forall p :: p in ps ==> p.tam in v && p.tam in u && v[p.tam] == u[p.tam]
  {
    var f, g := NoMapa(v), NoMapa(u);
    LeisComPisos(total, w, ps, v);
    LeisComPisos(total, w, ps, u);
    assert Soma(ps, f) == Soma(ps, g);
    hide PorMaiorResto, PisosERestos, BaseDe, RestoDe, Soma;
    assert forall p :: p in ps ==> p.tam in v && p.tam in u by { TemTodos(total, w, ps, v); TemTodos(total, w, ps, u); }
    forall a, b | a in ps && b in ps ensures v[a.tam] <= u[a.tam] || v[b.tam] >= u[b.tam] {
      NaoSeCruzam(ps, v, u, BaseDe(total, w), RestoDe(total, w), a, b);
    }
    if forall p :: p in ps ==> v[p.tam] <= u[p.tam] {
      SomaMenorOuIgual(ps, f, g);
    } else {
      SomaMenorOuIgual(ps, g, f);
    }
    forall p | p in ps ensures v[p.tam] == u[p.tam] { assert f(p) == g(p); }
  }

  lemma TemTodos(total: nat, w: nat, ps: seq<Peso>, v: map<string, int>)
    requires w > 0 && PorMaiorResto(total, w, ps, v)
    ensures forall p :: p in ps ==> p.tam in v
  {}

  /** The magnitudes of signed parts. */
  function Modulos(v: map<string, int>, negativo: bool): map<string, int> {
    map t | t in v :: if negativo then -v[t] else v[t]
  }

  lemma SinalDasPartes(t: int, ps: seq<Peso>, v: map<string, int>)
    requires PesoTotal(ps) > 0 && TamanhosDistintos(ps)
    requires forall p :: p in ps ==> p.tam in v && v[p.tam] == ParteComSinal(t, ps, p)
    ensures PorMaiorResto(if t < 0 then -t else t, PesoTotal(ps), ps, Modulos(v, t < 0))
  {
    hide PorMaiorResto, Parte;
    PartesPorMaiorResto(if t < 0 then -t else t, ps, Modulos(v, t < 0));
  }

  // ----- the loops

  datatype Alocacao = Alocacao(tam: string, base: nat, resto: nat)

  function Alocar(total: nat, w: nat): Peso -> Alocacao requires w > 0 {
    (p: Peso) => Alocacao(p.tam, Base(total, w, p), Resto(total, w, p))
  }

  predicate MaiorRestoPrimeiro(a: Alocacao, b: Alocacao) {
    a.resto > b.resto || (a.resto == b.resto && MenorTexto(a.tam, b.tam))
  }

  lemma {:induction false} InserirMapeado(p: Peso, s: seq<Peso>, total: nat, w: nat)
    requires w > 0
    ensures Inserir(Alocar(total, w)(p), Mapear(s, Alocar(total, w)), MaiorRestoPrimeiro)
         == Mapear(Inserir(p, s, OrdemDeResto(total, w)), Alocar(total, w))
  {
    var f := Alocar(total, w);
    if !(s == [] || !OrdemDeResto(total, w)(s[0], p)) {
      InserirMapeado(p, s[1..], total, w);
      assert Mapear(s, f)[1..] == Mapear(s[1..], f);
    } else {
      assert Mapear([p] + s, f) == [f(p)] + Mapear(s, f);
    }
  }

  lemma {:induction false} OrdenarMapeado(ps: seq<Peso>, total: nat, w: nat)
    requires w > 0
    ensures Ordenar(Mapear(ps, Alocar(total, w)), MaiorRestoPrimeiro)
         == Mapear(Ordenar(ps, OrdemDeResto(total, w)), Alocar(total, w))
  {
    if ps != [] {
      OrdenarMapeado(ps[1..], total, w);
      assert Mapear(ps, Alocar(total, w))[1..] == Mapear(ps[1..], Alocar(total, w));
      InserirMapeado(ps[0], Ordenar(ps[1..], OrdemDeResto(total, w)), total, w);
    }
  }

  /** The sizes in the winning slice are exactly those ranked below the slice's end. */
  lemma FatiaSaoOsPrimeirosPostos(total: nat, ps: seq<Peso>, corte: nat, p: Peso)
    requires PesoTotal(ps) > 0 && TamanhosDistintos(ps) && corte <= |ps| && p in ps
    ensures var o := Ordenar(ps, OrdemDeResto(total, PesoTotal(ps)));
            |o| == |ps| && ((exists k :: 0 <= k < corte && o[k].tam == p.tam) <==> Posto(total, ps, p) < corte)
  {
    var o := Ordenar(ps, OrdemDeResto(total, PesoTotal(ps)));
    OrdenarPermuta(ps, OrdemDeResto(total, PesoTotal(ps)));
    assert p in o;
    var i :| 0 <= i < |o| && o[i] == p;
    PostoEhPosicao(total, ps, i);
    forall k | 0 <= k < corte && o[k].tam == p.tam ensures Posto(total, ps, p) < corte {
      assert o[k] in ps;
      assert o[k] == p;
      PostoEhPosicao(total, ps, k);
    }
  }

  /** First loop: the floor share of every entry, and their sum. */
  method Pisos(total: nat, w: nat, ps: seq<Peso>) returns (alocacoes: seq<Alocacao>, somaBase: int)
    requires w > 0
    ensures alocacoes == Mapear(ps, Alocar(total, w))
    ensures somaBase == Soma(ps, BaseDe(total, w))
  {
    alocacoes, somaBase := [], 0;
    for i := 0 to |ps|
      invariant |alocacoes| == i && forall j :: 0 <= j < i ==> alocacoes[j] == Alocar(total, w)(ps[j])
      invariant somaBase == Soma(ps[..i], BaseDe(total, w))
    {
      SomaPrefixo(ps, i, BaseDe(total, w));
      MultNaoNegativa(total, ps[i].qtd);
      var base := total * ps[i].qtd / w;
      alocacoes := alocacoes + [Alocacao(ps[i].tam, base, total * ps[i].qtd % w)];
      somaBase := somaBase + base;
    }
    assert ps[..|ps|] == ps;
  }

  /** `r` holds the allocation of `total` for the first `n` entries, and nothing else. */
  ghost predicate AlocadoAte(total: nat, ps: seq<Peso>, n: nat, r: map<string, nat>)
    requires PesoTotal(ps) > 0 && n <= |ps|
  {
    && (forall j :: 0 <= j < n ==> ps[j].tam in r && r[ps[j].tam] == Parte(total, ps, ps[j]))
    && (forall t :: t in r ==> exists j :: 0 <= j < n && ps[j].tam == t)
  }

  ghost predicate Alocado(total: nat, ps: seq<Peso>, r: map<string, nat>) requires PesoTotal(ps) > 0 {
    && (forall t :: t in r <==> exists p :: p in ps && p.tam == t)
    && (forall p :: p in ps ==> p.tam in r && r[p.tam] == Parte(total, ps, p))
  }

  lemma AlocarMais(total: nat, ps: seq<Peso>, n: nat, r: map<string, nat>, v: nat)
    requires PesoTotal(ps) > 0 && TamanhosDistintos(ps) && n < |ps|
    requires AlocadoAte(total, ps, n, r) && v == Parte(total, ps, ps[n])
    ensures AlocadoAte(total, ps, n + 1, r[ps[n].tam := v])
  {
    var r1 := r[ps[n].tam := v];
    forall t | t in r1 ensures exists j :: 0 <= j < n + 1 && ps[j].tam == t {
      if t == ps[n].tam {
        assert ps[n].tam == t;
      } else {
        var j :| 0 <= j < n && ps[j].tam == t;
      }
    }
  }

  lemma AlocadoTudo(total: nat, ps: seq<Peso>, r: map<string, nat>)
    requires PesoTotal(ps) > 0 && AlocadoAte(total, ps, |ps|, r)
    ensures Alocado(total, ps, r)
  {
    forall t | t in r ensures exists p :: p in ps && p.tam == t {
      var j :| 0 <= j < |ps| && ps[j].tam == t;
      assert ps[j] in ps;
    }
  }

  /** The shared loop: floor shares, then one unit to each of the first entries
      of the list sorted by (remainder descending, size). */
  method MaiorResto(total: nat, ps: seq<Peso>) returns (r: map<string, nat>)
    requires PesoTotal(ps) > 0 && TamanhosDistintos(ps)
    ensures Alocado(total, ps, r)
  {
    var w := PesoTotal(ps);
    var alocacoes, somaBase := Pisos(total, w, ps);
    var sobra := total - somaBase;
    SobraLimitada(total, ps);
    var fila := Ordenar(alocacoes, MaiorRestoPrimeiro);
    OrdenarMapeado(ps, total, w);
    OrdenarPermuta(ps, OrdemDeResto(total, w));
    var contemplados := set k | 0 <= k < sobra :: fila[k].tam;
    forall p | p in ps ensures p.tam in contemplados <==> Posto(total, ps, p) < sobra {
      FatiaSaoOsPrimeirosPostos(total, ps, sobra, p);
    }
    r := Premiar(total, ps, alocacoes, contemplados);
  }

  /** Last loop: the floor share of each size, plus one for the winners. */
  method Premiar(total: nat, ps: seq<Peso>, alocacoes: seq<Alocacao>, contemplados: set<string>)
    returns (r: map<string, nat>)
    requires PesoTotal(ps) > 0 && TamanhosDistintos(ps)
    requires alocacoes == Mapear(ps, Alocar(total, PesoTotal(ps)))
    requires forall p :: p in ps ==> (p.tam in contemplados <==> Posto(total, ps, p) < Sobra(total, ps))
    ensures Alocado(total, ps, r)
  {
    r := map[];
    for i := 0 to |ps|
      invariant AlocadoAte(total, ps, i, r)
    {
      var a := alocacoes[i];
      assert a == Alocar(total, PesoTotal(ps))(ps[i]);
      var v := a.base + if a.tam in contemplados then 1 else 0;
      AlocarMais(total, ps, i, r, v);
      r := r[a.tam := v];
    }
    AlocadoTudo(total, ps, r);
  }

  predicate MenorTamanho(a: Peso, b: Peso) { MenorTexto(a.tam, b.tam) }

  lemma TamanhosEmOrdem(ps: seq<Peso>)
    requires TamanhosDistintos(ps)
    ensures var o := Ordenar(ps, MenorTamanho);
            multiset(o) == multiset(ps) && MesmosElementos(o, ps) && Crescente(o, MenorTamanho) && TamanhosDistintos(o)
  {
    var o := Ordenar(ps, MenorTamanho);
    MenorTextoEhOrdem();
    OrdenarPermuta(ps, MenorTamanho);
    assert Distintos(ps);
    forall a, b | a in ps && b in ps && a != b ensures MenorTamanho(a, b) || MenorTamanho(b, a) {
      assert a.tam != b.tam;
    }
    OrdenarCrescente(ps, MenorTamanho);
  }

  /** Money: signed cents, apportioned over the sizes in alphabetical order. A
      dictionary of zero weights divides by zero; an empty one yields nothing. */
  method RatearHamilton(total: int, sizes: seq<Peso>) returns (r: Resultado<map<string, int>>)
    requires TamanhosDistintos(sizes)
    ensures r.Erro? <==> sizes != [] && PesoTotal(sizes) == 0
    ensures r.Erro? ==> r.falha == DivisaoPorZero
    ensures r.Ok? ==> forall t :: t in r.valor <==> exists p :: p in sizes && p.tam == t
    ensures r.Ok? ==> forall p :: p in sizes ==>
              PesoTotal(sizes) > 0 && p.tam in r.valor && r.valor[p.tam] == ParteComSinal(total, sizes, p)
    ensures r.Ok? && sizes != [] ==>
      PorMaiorResto(if total < 0 then -total else total, PesoTotal(sizes), sizes, Modulos(r.valor, total < 0))
  {
    hide PorMaiorResto, Modulos, Parte, Ordenar;
    var sinal: int := if total < 0 then -1 else 1;
    var centavos: nat := if total < 0 then -total else total;
    if sizes == [] { return Ok(map[]); }
    var ordenados := Ordenar(sizes, MenorTamanho);
    TamanhosEmOrdem(sizes);
    SomaPermutacao(sizes, ordenados, QtdDe());
    if PesoTotal(sizes) == 0 { return Erro(DivisaoPorZero); }
    var partes := MaiorResto(centavos, ordenados);
    forall p | p in sizes
      ensures p.tam in partes && sinal * partes[p.tam] == ParteComSinal(total, sizes, p)
    {
      ParteIndependeDaOrdem(centavos, sizes, ordenados, p);
    }
    r := Ok(map t | t in partes :: sinal * partes[t]);
    SinalDasPartes(total, sizes, r.valor);
  }

  /** Whole pieces: the same allocation, with the argument checks made up front. */
  method RatearInteiro(total: int, sizes: seq<Peso>) returns (r: Resultado<map<string, nat>>)
    requires TamanhosDistintos(sizes)
    ensures r.Erro? <==> total < 0 || PesoTotal(sizes) == 0
    ensures r.Erro? ==> r.falha == if total < 0 then TotalNegativo else if sizes == [] then SemTamanhos else PesoZero
    ensures r.Ok? ==> forall t :: t in r.valor <==> exists p :: p in sizes && p.tam == t
    ensures r.Ok? ==> forall p :: p in sizes ==> p.tam in r.valor && r.valor[p.tam] == Parte(total, sizes, p)
    ensures r.Ok? ==> PorMaiorResto(total, PesoTotal(sizes), sizes, r.valor)
  {
    hide PorMaiorResto, Parte, Ordenar;
    if total < 0 { return Erro(TotalNegativo); }
    if sizes == [] { return Erro(SemTamanhos); }
    var ordenados := Ordenar(sizes, MenorTamanho);
    TamanhosEmOrdem(sizes);
    SomaPermutacao(sizes, ordenados, QtdDe());
    if PesoTotal(sizes) == 0 { return Erro(PesoZero); }
    var partes := MaiorResto(total, ordenados);
    forall p | p in sizes ensures p.tam in partes && partes[p.tam] == Parte(total, sizes, p) {
      ParteIndependeDaOrdem(total, sizes, ordenados, p);
    }
    PartesPorMaiorResto(total, sizes, partes);
    r := Ok(partes);
  }
}
