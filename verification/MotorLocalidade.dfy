/** An order's decisions depend only on its own grades and on the stock of its own
    products; nothing else in the run can reach them. */
module MotorLocalidade {
  import opened Listas
  import opened Orcamento
  import opened Motor
  import opened MotorPedido

  /** The two stocks agree on the products of `cds`. */
  ghost predicate MesmoEstoque(cds: seq<string>, e1: Estoques, e2: Estoques) {
    forall cd :: cd in cds ==> Local(e1, cd) == Local(e2, cd)
  }

  lemma {:induction false} InserirIgual<T>(x: T, s: seq<T>, f: (T, T) -> bool, g: (T, T) -> bool)
    requires forall y :: y in s ==> f(y, x) == g(y, x)
    ensures Inserir(x, s, f) == Inserir(x, s, g)
  {
    if s != [] { InserirIgual(x, s[1..], f, g); }
  }

  /** Sorting only consults the order on the elements sorted. */
  lemma {:induction false} OrdenarIgual<T>(s: seq<T>, f: (T, T) -> bool, g: (T, T) -> bool)
    requires forall x, y | x in s && y in s :: f(x, y) == g(x, y)
    ensures Ordenar(s, f) == Ordenar(s, g)
  {
    if s != [] {
      OrdenarIgual(s[1..], f, g);
      OrdenarPermuta(s[1..], f);
      assert s[0] in s;
      InserirIgual(s[0], Ordenar(s[1..], f), f, g);
    }
  }

  lemma {:induction false} AprovarIgual(fila: seq<string>, f: string -> nat, g: string -> nat, corte: nat)
    requires forall cd :: cd in fila ==> f(cd) == g(cd)
    ensures Aprovar(fila, f, corte) == Aprovar(fila, g, corte)
  {
    if fila != [] {
      assert fila[0] in fila;
      if f(fila[0]) <= corte {
        AprovarIgual(fila[1..], f, g, corte - f(fila[0]));
      } else {
        AprovarIgual(fila[1..], f, g, corte);
      }
    }
  }

  lemma {:induction false} ExtrasIguais(fila: seq<string>, f: Concessor, g: Concessor, adicao: nat)
    requires forall cd, s: nat | cd in fila :: f(cd, s) == g(cd, s)
    ensures Extras(fila, f, adicao) == Extras(fila, g, adicao)
  {
    if fila != [] {
      assert fila[0] in fila;
      assert f(fila[0], adicao) == g(fila[0], adicao);
      ExtrasIguais(fila[1..], f, g, f(fila[0], adicao).1);
    }
  }

  lemma FaltaIgual(m: Grades, e1: Estoques, e2: Estoques, cd: string)
    requires Local(e1, cd) == Local(e2, cd)
    ensures FaltaPar(m, e1, cd) == FaltaPar(m, e2, cd) && SemFuro(m, e1)(cd) == SemFuro(m, e2)(cd)
  {}

  lemma OrdemIgual(m: Grades, e1: Estoques, e2: Estoques, x: string, y: string)
    requires Local(e1, x) == Local(e2, x) && Local(e1, y) == Local(e2, y)
    ensures OrdemPassada1(m, e1)(x, y) == OrdemPassada1(m, e2)(x, y)
  {
    FaltaIgual(m, e1, e2, x);
    FaltaIgual(m, e1, e2, y);
  }

  lemma OrdenarFiltradoIgual<T>(s: seq<T>, p: T -> bool, q: T -> bool, f: (T, T) -> bool, g: (T, T) -> bool)
    requires forall x :: x in s ==> p(x) == q(x)
    requires forall x, y | x in s && y in s :: f(x, y) == g(x, y)
    ensures Ordenar(Filtrar(s, p), f) == Ordenar(Filtrar(s, q), g)
  {
    FiltrarIgual(s, p, q);
    OrdenarIgual(Filtrar(s, p), f, g);
  }

  lemma FilaIgual(chegada: seq<string>, m: Grades, e1: Estoques, e2: Estoques)
    requires MesmoEstoque(chegada, e1, e2)
    ensures FilaPassada1(chegada, m, e1) == FilaPassada1(chegada, m, e2)
  {
    var p, q, f, g := SemFuro(m, e1), SemFuro(m, e2), OrdemPassada1(m, e1), OrdemPassada1(m, e2);
    forall cd | cd in chegada ensures p(cd) == q(cd) { FaltaIgual(m, e1, e2, cd); }
    forall x, y | x in chegada && y in chegada ensures f(x, y) == g(x, y) { OrdemIgual(m, e1, e2, x, y); }
    OrdenarFiltradoIgual(chegada, p, q, f, g);
  }

  lemma AprovadosIguais(chegada: seq<string>, m: Grades, e1: Estoques, e2: Estoques, corte: nat)
    requires Distintos(chegada) && MesmoEstoque(chegada, e1, e2)
    ensures Aprovados(chegada, m, e1, corte) == Aprovados(chegada, m, e2, corte)
  {
    FilaIgual(chegada, m, e1, e2);
    FilaPassada1Ok(chegada, m, e1);
    AprovarIgual(FilaPassada1(chegada, m, e1), FaltaPor(m, e1), FaltaPor(m, e2), corte);
  }

  lemma Fila2Igual(ap: seq<string>, m: Grades, e1: Estoques, e2: Estoques)
    requires MesmoEstoque(ap, e1, e2)
    ensures FilaPassada2(ap, m, e1) == FilaPassada2(ap, m, e2)
  {
    FiltrarIgual(ap, SemCorte(m, e1), SemCorte(m, e2));
  }

  lemma ExtrasDoPedidoIguais(chegada: seq<string>, m: Grades, e1: Estoques, e2: Estoques, saldo: Saldo)
    requires Distintos(chegada) && MesmoEstoque(chegada, e1, e2)
    ensures var ap := Aprovados(chegada, m, e1, saldo.corte);
            && ap == Aprovados(chegada, m, e2, saldo.corte)
            && Extras(FilaPassada2(ap, m, e1), ConcessorDe(m, e1), saldo.adicao)
              == Extras(FilaPassada2(ap, m, e2), ConcessorDe(m, e2), saldo.adicao)
  {
    AprovadosIguais(chegada, m, e1, e2, saldo.corte);
    AprovadosOk(chegada, m, e1, saldo.corte);
    var ap := Aprovados(chegada, m, e1, saldo.corte);
    Fila2Igual(ap, m, e1, e2);
    FilaPassada2Ok(ap, m, e1);
    var f, g := ConcessorDe(m, e1), ConcessorDe(m, e2);
    forall cd, s: nat | cd in FilaPassada2(ap, m, e1) ensures f(cd, s) == g(cd, s) { assert cd in chegada; }
    ExtrasIguais(FilaPassada2(ap, m, e1), f, g, saldo.adicao);
  }

  lemma DesfechoLocal(ap: seq<string>, extras: map<string, seq<Linha>>, m: Grades, e1: Estoques, e2: Estoques,
                      cd: string)
    requires Local(e1, cd) == Local(e2, cd)
    ensures Desfecho(ap, extras, m, e1, cd) == Desfecho(ap, extras, m, e2, cd)
  {}

  lemma DesfechosLocais(ap: seq<string>, extras: map<string, seq<Linha>>, m: Grades, e1: Estoques, e2: Estoques)
    requires forall cd :: cd in m ==> Local(e1, cd) == Local(e2, cd)
    ensures Desfechos(ap, extras, m, e1) == Desfechos(ap, extras, m, e2)
  {
    forall cd | cd in m ensures Desfecho(ap, extras, m, e1, cd) == Desfecho(ap, extras, m, e2, cd) {
      DesfechoLocal(ap, extras, m, e1, e2, cd);
    }
  }

  lemma AdequarLocal(chegada: seq<string>, m: Grades, e1: Estoques, e2: Estoques, saldo: Saldo)
    requires Distintos(chegada) && (forall cd :: cd in chegada <==> cd in m) && MesmoEstoque(chegada, e1, e2)
    ensures DecidirAdequar(chegada, m, e1, saldo) == DecidirAdequar(chegada, m, e2, saldo)
  {
    ExtrasDoPedidoIguais(chegada, m, e1, e2, saldo);
    var ap := Aprovados(chegada, m, e1, saldo.corte);
    DesfechosLocais(ap, Extras(FilaPassada2(ap, m, e1), ConcessorDe(m, e1), saldo.adicao), m, e1, e2);
  }

  lemma TudoOuNadaLocal(chegada: seq<string>, m: Grades, e1: Estoques, e2: Estoques, bl: bool)
    requires (forall cd :: cd in chegada <==> cd in m) && MesmoEstoque(chegada, e1, e2)
    ensures DecidirTudoOuNada(m, e1, bl) == DecidirTudoOuNada(m, e2, bl)
  {
    forall cd | cd in m ensures Local(e1, cd) == Local(e2, cd) { assert cd in chegada; }
  }

  /** Changing the stock of products the order does not contain changes nothing. */
  lemma DecisaoLocal(modo: Modo, bl: bool, chegada: seq<string>, m: Grades, e1: Estoques, e2: Estoques, saldo: Saldo)
    requires Distintos(chegada) && (forall cd :: cd in chegada <==> cd in m) && MesmoEstoque(chegada, e1, e2)
    ensures DecidirPedido(modo, bl, chegada, m, e1, saldo) == DecidirPedido(modo, bl, chegada, m, e2, saldo)
  {
    AdequarLocal(chegada, m, e1, e2, saldo);
    TudoOuNadaLocal(chegada, m, e1, e2, bl);
  }
}
