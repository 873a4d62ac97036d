/** One channel's run as the mutable execution it is: local stocks are decremented,
    lists of selected and deferred pairs grow, and the order's ledger is spent. */
module MotorExecucao {
  import opened Aritmetica
  import opened Listas
  import opened Orcamento
  import opened Motor
  import opened MotorPar
  import opened MotorPedido
  import opened MotorLocalidade
  import opened MotorCanal
  import opened MotorTeoremas
  import opened MotorFalhas
  import opened MotorPassos
  import Rateio

  type Par = (int, string)

  function Restritas(ds: map<string, Decisao>, feitos: set<string>): map<string, Decisao> {
    map cd | cd in ds && cd in feitos :: ds[cd]
  }

  lemma RestritasMais(ds: map<string, Decisao>, feitos: set<string>, cd: string)
    requires cd in ds
    ensures Restritas(ds, feitos + {cd}) == Restritas(ds, feitos)[cd := ds[cd]]
  {}

  lemma DebitarMais(ds: map<string, Decisao>, feitos: set<string>, cd: string, ests: Estoques)
    requires cd in ds && cd !in feitos && cd in ests
    ensures var e := DebitarPedido(ests, Restritas(ds, feitos));
            && cd in e && e[cd] == ests[cd]
            && DebitarPedido(ests, Restritas(ds, feitos + {cd})) == e[cd := DebitarDecisao(ests[cd], cd, ds[cd])]
  {
    var a := DebitarPedido(ests, Restritas(ds, feitos + {cd}));
    var b := DebitarPedido(ests, Restritas(ds, feitos))[cd := DebitarDecisao(ests[cd], cd, ds[cd])];
    forall c: string ensures (c in a <==> c in b) && (c in a ==> a[c] == b[c]) {
      assert c in Restritas(ds, feitos + {cd}) <==> c in Restritas(ds, feitos) || c == cd;
    }
  }

  // ----- the two passes of one order, over its products

  lemma {:induction false} AprovarContinua(a: seq<string>, x: string, falta: string -> nat, corte: nat)
    requires Distintos(a)
    ensures Soma(Aprovar(a, falta, corte), ComoInt(falta)) <= corte
    ensures Aprovar(a + [x], falta, corte)
         == Aprovar(a, falta, corte) + Se(falta(x) <= corte - Soma(Aprovar(a, falta, corte), ComoInt(falta)), x)
  {
    AprovarCabe(a, falta, corte);
    if a == [] {
      assert a + [x] == [x] && [x][1..] == [];
    } else {
      CaudaConcat(a, [x]);
      if falta(a[0]) <= corte {
        var r := Aprovar(a[1..], falta, corte - falta(a[0]));
        AprovarContinua(a[1..], x, falta, corte - falta(a[0]));
        ConcatAssocia([a[0]], r, Se(falta(x) <= corte - falta(a[0]) - Soma(r, ComoInt(falta)), x));
      } else {
        AprovarContinua(a[1..], x, falta, corte);
      }
    }
  }

  function LinhasPassada1(m: Grades, ests: Estoques): string -> seq<Linha> {
    cd => Passada1(Grade(m, cd), Local(ests, cd), cd)
  }

  /** `finais` holds, for the products of `fila`, the rows of those approved. */
  ghost predicate Parcial1(fila: seq<string>, ap: seq<string>, finais: map<string, Opcao<seq<Linha>>>,
                           linhas: string -> seq<Linha>) {
    && (forall cd :: cd in finais <==> cd in fila)
    && (forall cd :: cd in ap ==> cd in fila)
    && (forall cd :: cd in fila ==> finais[cd] == if cd in ap then Algo(linhas(cd)) else Nada)
  }

  lemma Parcial1Passo(fila: seq<string>, ap: seq<string>, finais: map<string, Opcao<seq<Linha>>>,
                      linhas: string -> seq<Linha>, cd: string, ok: bool)
    requires Parcial1(fila, ap, finais, linhas) && cd !in fila
    ensures Parcial1(fila + [cd], ap + Se(ok, cd), finais[cd := if ok then Algo(linhas(cd)) else Nada], linhas)
  {
    assert forall c :: c in fila + [cd] <==> c in fila || c == cd;
    assert forall c :: c in ap + Se(ok, cd) <==> c in ap || (ok && c == cd);
  }

  method DecidirPassada1(cd: string, m: Grades, ests: Estoques, ledger: OrcamentoPedido)
    returns (r: Opcao<seq<Linha>>, semCorte: bool)
    modifies ledger
    ensures ledger.restanteAdicao == old(ledger.restanteAdicao)
    ensures var ok := FaltaPor(m, ests)(cd) <= old(ledger.restanteCorte);
            && r == (if ok then Algo(LinhasPassada1(m, ests)(cd)) else Nada)
            && ledger.restanteCorte == old(ledger.restanteCorte) - (if ok then FaltaPor(m, ests)(cd) else 0)
    ensures semCorte == SemCorte(m, ests)(cd)
  {
    r := AdequarGradeProduto(Grade(m, cd), Local(ests, cd), cd, ledger);
    var falta := MedirFalta(Grade(m, cd), Local(ests, cd), cd);
    semCorte := falta == 0;
  }

  /** Pass 1: the queue in order, each product spending its whole cut or refused. */
  method RodarPassada1(fila: seq<string>, m: Grades, ests: Estoques, ledger: OrcamentoPedido)
    returns (finais: map<string, Opcao<seq<Linha>>>, folga: seq<string>)
    requires Distintos(fila)
    modifies ledger
    ensures ledger.restanteAdicao == old(ledger.restanteAdicao)
    ensures var ap := Aprovar(fila, FaltaPor(m, ests), old(ledger.restanteCorte));
            folga == Filtrar(ap, SemCorte(m, ests)) && Parcial1(fila, ap, finais, LinhasPassada1(m, ests))
  {
    finais, folga := map[], [];
    ghost var falta, linhas, semCorteDe := FaltaPor(m, ests), LinhasPassada1(m, ests), SemCorte(m, ests);
    ghost var ap: seq<string> := [];
    for k := 0 to |fila|
      invariant ap == Aprovar(fila[..k], falta, old(ledger.restanteCorte))
      invariant ledger.restanteCorte == old(ledger.restanteCorte) - Soma(ap, ComoInt(falta))
      invariant ledger.restanteAdicao == old(ledger.restanteAdicao)
      invariant folga == Filtrar(ap, semCorteDe)
      invariant Parcial1(fila[..k], ap, finais, linhas)
    {
      var cd := fila[k];
      ghost var ok := falta(cd) <= ledger.restanteCorte;
      PrefixoMais(fila, k);
      DistintoDoPrefixo(fila, k);
      AprovarContinua(fila[..k], cd, falta, old(ledger.restanteCorte));
      AcrescentarSe(ap, cd, ok, ComoInt(falta), semCorteDe);
      var itens, semCorte := DecidirPassada1(cd, m, ests, ledger);
      if itens.Algo? && semCorte { folga := folga + [cd]; }
      Parcial1Passo(fila[..k], ap, finais, linhas, cd, ok);
      finais := finais[cd := itens];
      ap := ap + Se(ok, cd);
    }
    PrefixoTodo(fila);
  }

  lemma {:induction false} ExtrasContinua(a: seq<string>, x: string, f: Concessor, adicao: nat)
    requires Distintos(a) && x !in a
    ensures var g := f(x, RestanteAdicao(a, f, adicao));
            && Extras(a + [x], f, adicao) == Extras(a, f, adicao)[x := g.0]
            && RestanteAdicao(a + [x], f, adicao) == g.1
  {
    if a == [] {
      assert a + [x] == [x] && [x][1..] == [];
    } else {
      CaudaConcat(a, [x]);
      ExtrasContinua(a[1..], x, f, f(a[0], adicao).1);
    }
  }

  /** Rows after pass 2: those with extras replaced, the others as pass 1 left them. */
  ghost predicate Parcial2(ex: map<string, seq<Linha>>, finais: map<string, Opcao<seq<Linha>>>,
                           finais0: map<string, Opcao<seq<Linha>>>) {
    finais.Keys == finais0.Keys
      && forall cd :: cd in finais ==> finais[cd] == if cd in ex then Algo(ex[cd]) else finais0[cd]
  }

  lemma NadaConcedido(f: Concessor, adicao: nat)
    ensures Extras([], f, adicao) == map[] && RestanteAdicao([], f, adicao) == adicao
  {}

  /** Pass 2: the queue in order, sharing the addition allowance. */
  method RodarPassada2(fila: seq<string>, m: Grades, ests: Estoques, finais0: map<string, Opcao<seq<Linha>>>,
                       ledger: OrcamentoPedido)
    returns (finais: map<string, Opcao<seq<Linha>>>)
    requires Distintos(fila)
    requires forall cd :: cd in fila ==> cd in finais0 && finais0[cd] == Algo(LinhasPassada1(m, ests)(cd))
    modifies ledger
    ensures Parcial2(Extras(fila, ConcessorDe(m, ests), old(ledger.restanteAdicao)), finais, finais0)
    ensures ledger.restanteAdicao == RestanteAdicao(fila, ConcessorDe(m, ests), old(ledger.restanteAdicao))
  {
    hide RestanteAdicao, Extras, Conceder, Distribuir, EspacoDe, Passada1, Extremo;
    finais := finais0;
    ghost var f, adicao := ConcessorDe(m, ests), ledger.restanteAdicao;
    NadaConcedido(f, adicao);
    assert fila[..0] == [];
    for k := 0 to |fila|
      invariant ledger.restanteAdicao == RestanteAdicao(fila[..k], f, adicao)
      invariant Parcial2(Extras(fila[..k], f, adicao), finais, finais0)
    {
      var cd := fila[k];
      PrefixoMais(fila, k);
      DistintoDoPrefixo(fila, k);
      ExtrasContinua(fila[..k], cd, f, adicao);
      ExtrasVemDaPassada2(fila[..k], f, adicao, cd);
      var ls := ConcederAdicaoPedido(finais[cd].valor, Local(ests, cd), cd, ledger);
      finais := finais[cd := Algo(ls)];
    }
    PrefixoTodo(fila);
  }

  /** What the closing step makes of the rows left by the two passes. */
  function Fechamento(linhas: Opcao<seq<Linha>>): Decisao {
    if linhas.Algo? then Fechar(linhas.valor) else StandBy(SemEstoque)
  }

  /** The rows the two passes leave are those the specification closes. */
  lemma FechamentoDoPar(chegada: seq<string>, m: Grades, ests: Estoques, saldo: Saldo,
                        f1: map<string, Opcao<seq<Linha>>>, f2: map<string, Opcao<seq<Linha>>>, cd: string)
    requires Distintos(chegada) && (forall c :: c in chegada <==> c in m)
    requires forall c :: c in m ==> m[c] != [] && TamanhosUnicos(m[c])
    requires var ap := Aprovados(chegada, m, ests, saldo.corte);
             && Parcial1(FilaPassada1(chegada, m, ests), ap, f1, LinhasPassada1(m, ests))
             && Parcial2(Extras(FilaPassada2(ap, m, ests), ConcessorDe(m, ests), saldo.adicao), f2, f1)
    requires cd in FilaPassada1(chegada, m, ests)
    ensures cd in f2 && cd in m && Fechamento(f2[cd]) == DecidirAdequar(chegada, m, ests, saldo)[cd]
    ensures f2[cd].Algo? ==> f2[cd].valor != [] && LinhasUnicas(f2[cd].valor)
  {
    var ap := Aprovados(chegada, m, ests, saldo.corte);
    var fila := FilaPassada2(ap, m, ests);
    FilaPassada1Ok(chegada, m, ests);
    AprovadosOk(chegada, m, ests, saldo.corte);
    FilaPassada2Ok(ap, m, ests);
    ExtrasVemDaPassada2(fila, ConcessorDe(m, ests), saldo.adicao, cd);
    LinhasFinaisCorretas(fila, m, ests, saldo.adicao, cd);
    assert f2[cd].Algo? ==> f2[cd].valor == LinhasFinais(Extras(fila, ConcessorDe(m, ests), saldo.adicao), m, ests, cd);
  }

  lemma FurosDecididos(chegada: seq<string>, m: Grades, ests: Estoques, saldo: Saldo, cd: string)
    requires cd in m && TemFuro(m[cd], Local(ests, cd), cd)
    ensures DecidirAdequar(chegada, m, ests, saldo)[cd] == StandBy(FuroGrade)
  {}

  lemma FurosDecididosTodos(chegada: seq<string>, m: Grades, ests: Estoques, saldo: Saldo)
    ensures var ds := DecidirAdequar(chegada, m, ests, saldo);
            ds.Keys == m.Keys
              && forall cd :: cd in m && TemFuro(m[cd], Local(ests, cd), cd) ==> ds[cd] == StandBy(FuroGrade)
  {
    forall cd | cd in m && TemFuro(m[cd], Local(ests, cd), cd)
      ensures DecidirAdequar(chegada, m, ests, saldo)[cd] == StandBy(FuroGrade)
    {
      FurosDecididos(chegada, m, ests, saldo, cd);
    }
  }

  lemma FurosFora(chegada: seq<string>, elegiveis: seq<string>, m: Grades, ests: Estoques, saldo: Saldo)
    requires (forall cd :: cd in chegada <==> cd in m) && elegiveis == Filtrar(chegada, SemFuro(m, ests))
    ensures var ds := DecidirAdequar(chegada, m, ests, saldo);
            && ds.Keys == Conjunto(chegada)
            && forall cd :: cd in chegada && cd !in elegiveis ==> ds[cd] == StandBy(FuroGrade)
  {
    hide DecidirAdequar, TemFuro, Filtrar;
    FurosDecididosTodos(chegada, m, ests, saldo);
    forall cd | cd in chegada && cd !in elegiveis
      ensures TemFuro(m[cd], Local(ests, cd), cd)
    {
      assert !SemFuro(m, ests)(cd);
    }
  }

  /** Both passes over the products without a hole. */
  method RodarPassadas(chegada: seq<string>, elegiveis: seq<string>, m: Grades, ests: Estoques, ledger: OrcamentoPedido)
    returns (fila1: seq<string>, finais: map<string, Opcao<seq<Linha>>>)
    requires Distintos(chegada) && (forall c :: c in chegada <==> c in m)
    requires forall c :: c in m ==> m[c] != [] && TamanhosUnicos(m[c])
    requires elegiveis == Filtrar(chegada, SemFuro(m, ests))
    modifies ledger
    ensures Distintos(fila1) && MesmosElementos(fila1, elegiveis)
    ensures var ds := DecidirAdequar(chegada, m, ests, old(ledger.Restante()));
            forall cd :: cd in fila1 ==>
              && cd in finais && cd in m && Fechamento(finais[cd]) == ds[cd]
              && (finais[cd].Algo? ==> finais[cd].valor != [] && LinhasUnicas(finais[cd].valor))
  {
    ghost var saldo := ledger.Restante();
    fila1 := Ordenar(elegiveis, OrdemPassada1(m, ests));
    FilaPassada1Ok(chegada, m, ests);
    OrdenarPermuta(elegiveis, OrdemPassada1(m, ests));
    var parcial, folga := RodarPassada1(fila1, m, ests, ledger);
    AprovadosOk(chegada, m, ests, saldo.corte);
    FilaPassada2Ok(Aprovados(chegada, m, ests, saldo.corte), m, ests);
    var fila2 := Ordenar(folga, OrdemPassada2(m));
    finais := RodarPassada2(fila2, m, ests, parcial, ledger);
    forall cd | cd in fila1
      ensures cd in finais && cd in m && Fechamento(finais[cd]) == DecidirAdequar(chegada, m, ests, saldo)[cd]
      ensures finais[cd].Algo? ==> finais[cd].valor != [] && LinhasUnicas(finais[cd].valor)
    {
      FechamentoDoPar(chegada, m, ests, saldo, parcial, finais, cd);
    }
  }

  /** Adds one decision to the table. */
  function Anotar(d: Decisoes, nr: int, cd: string, x: Decisao): Decisoes {
    d[nr := (if nr in d then d[nr] else map[])[cd := x]]
  }

  predicate Decidido(d: Decisoes, p: Par) { p.0 in d && p.1 in d[p.0] }

  datatype Listagem = Listagem(selecionados: seq<Par>, preteridos: seq<Par>, motivos: map<Par, Motivo>,
                               resultados: map<Par, seq<Linha>>)

  /** What the lists must say of one pair. */
  ghost predicate CoerenteEm(d: Decisoes, l: Listagem, p: Par) {
    if Decidido(d, p) then
      match d[p.0][p.1]
      case GerarOR(ls) =>
        p in l.selecionados && p !in l.preteridos && p !in l.motivos && p in l.resultados && l.resultados[p] == ls
      case StandBy(m) =>
        p !in l.selecionados && p in l.preteridos && p in l.motivos && l.motivos[p] == m && p !in l.resultados
      case DivisaoPorZero => false
    else p !in l.selecionados && p !in l.preteridos && p !in l.motivos && p !in l.resultados
  }

  /** The lists hold each decided pair once, on the side its decision says; motives
      are keyed exactly by the deferred pairs, rows exactly by the selected ones. */
  ghost predicate Coerente(d: Decisoes, l: Listagem) {
    Distintos(l.selecionados) && Distintos(l.preteridos) && forall p: Par :: CoerenteEm(d, l, p)
  }

  lemma CoerenteAoPreterir(d: Decisoes, l: Listagem, nr: int, cd: string, m: Motivo)
    requires Coerente(d, l) && !Decidido(d, (nr, cd))
    ensures Coerente(Anotar(d, nr, cd, StandBy(m)),
                     l.(preteridos := l.preteridos + [(nr, cd)], motivos := l.motivos[(nr, cd) := m]))
  {
    var d', l' :=
      Anotar(d, nr, cd, StandBy(m)), l.(preteridos := l.preteridos + [(nr, cd)], motivos := l.motivos[(nr, cd) := m]);
    forall p: Par ensures CoerenteEm(d', l', p) { assert CoerenteEm(d, l, p); }
    assert CoerenteEm(d, l, (nr, cd));
    DistintosConcat(l.preteridos, [(nr, cd)]);
  }

  lemma CoerenteAoSelecionar(d: Decisoes, l: Listagem, nr: int, cd: string, ls: seq<Linha>)
    requires Coerente(d, l) && !Decidido(d, (nr, cd))
    ensures Coerente(Anotar(d, nr, cd, GerarOR(ls)),
                     l.(selecionados := l.selecionados + [(nr, cd)], resultados := l.resultados[(nr, cd) := ls]))
  {
    var d', l' :=
      Anotar(d, nr, cd, GerarOR(ls)),
      l.(selecionados := l.selecionados + [(nr, cd)], resultados := l.resultados[(nr, cd) := ls]);
    forall p: Par ensures CoerenteEm(d', l', p) { assert CoerenteEm(d, l, p); }
    assert CoerenteEm(d, l, (nr, cd));
    DistintosConcat(l.selecionados, [(nr, cd)]);
  }

  lemma CoerenteAoAbrir(d: Decisoes, l: Listagem, nr: int)
    requires Coerente(d, l) && nr !in d
    ensures Coerente(d[nr := map[]], l)
  {
    var d' := d[nr := map[]];
    forall p: Par ensures CoerenteEm(d', l, p) { assert CoerenteEm(d, l, p); }
  }

  class Execucao {
    var estoques: Estoques
    var selecionados: seq<Par>
    var preteridos: seq<Par>
    var motivos: map<Par, Motivo>
    var resultados: map<Par, seq<Linha>>
    ghost var decisoes: Decisoes

    ghost predicate Valid() reads this {
      Coerente(decisoes, Listagem(selecionados, preteridos, motivos, resultados))
    }

    constructor (estoques: Estoques)
      ensures Valid() && this.estoques == estoques && decisoes == map[]
    {
      this.estoques := estoques;
      selecionados, preteridos, motivos, resultados := [], [], map[], map[];
      decisoes := map[];
    }

    /** Records a pair in stand-by; no stock moves. */
    method Preterir(nr: int, cd: string, motivo: Motivo)
      requires Valid() && !Decidido(decisoes, (nr, cd))
      modifies this
      ensures Valid() && decisoes == Anotar(old(decisoes), nr, cd, StandBy(motivo)) && estoques == old(estoques)
    {
      CoerenteAoPreterir(decisoes, Listagem(selecionados, preteridos, motivos, resultados), nr, cd, motivo);
      preteridos := preteridos + [(nr, cd)];
      motivos := motivos[(nr, cd) := motivo];
      decisoes := Anotar(decisoes, nr, cd, StandBy(motivo));
    }

    /** Debits the local stock of a pair that generated an order and files it; a pair
        that did not is deferred with the given motive. */
    method CommitarPar(nr: int, cd: string, linhas: Opcao<seq<Linha>>, motivo: Motivo)
      requires Valid() && !Decidido(decisoes, (nr, cd)) && cd in estoques
      modifies this
      ensures Valid()
      ensures var d := if linhas.Algo? && linhas.valor != [] then GerarOR(linhas.valor) else StandBy(motivo);
              && decisoes == Anotar(old(decisoes), nr, cd, d)
              && estoques == old(estoques)[cd := DebitarDecisao(old(estoques)[cd], cd, d)]
    {
      if linhas.Nada? || linhas.valor == [] {
        Preterir(nr, cd, motivo);
        return;
      }
      CoerenteAoSelecionar(decisoes, Listagem(selecionados, preteridos, motivos, resultados), nr, cd, linhas.valor);
      var local := DebitarLinhas(estoques[cd], cd, linhas.valor);
      estoques := estoques[cd := local];
      selecionados := selecionados + [(nr, cd)];
      resultados := resultados[(nr, cd) := linhas.valor];
      decisoes := Anotar(decisoes, nr, cd, GerarOR(linhas.valor));
    }

    static method DebitarLinhas(est: Estoque, cd: string, ls: seq<Linha>) returns (r: Estoque)
      ensures r == Debitar(est, cd, ls)
    {
      r := est;
      for k := 0 to |ls|
        invariant Debitar(r, cd, ls[k..]) == Debitar(est, cd, ls)
      {
        var chave := Chave(cd, ls[k].tam);
        r := r[chave := Max(0, Disp(r, chave) - ls[k].liquida)];
      }
    }

    /** Order `nr` was opened on top of `antes` and the stocks `ests`, and its products
        in `feitos` were settled as `ds` says. */
    ghost predicate Andamento(nr: int, ds: map<string, Decisao>, feitos: set<string>, antes: Decisoes, ests: Estoques)
      reads this
    {
      decisoes == antes[nr := Restritas(ds, feitos)] && estoques == DebitarPedido(ests, Restritas(ds, feitos))
    }

    lemma Avancar(nr: int, ds: map<string, Decisao>, feitos: set<string>, antes: Decisoes, ests: Estoques, cd: string)
      requires cd in ds && cd !in feitos && cd in ests && Andamento(nr, ds, feitos, antes, ests)
      ensures cd in estoques && estoques[cd] == ests[cd] && !Decidido(decisoes, (nr, cd))
      ensures Anotar(decisoes, nr, cd, ds[cd]) == antes[nr := Restritas(ds, feitos + {cd})]
      ensures estoques[cd := DebitarDecisao(ests[cd], cd, ds[cd])] == DebitarPedido(ests, Restritas(ds, feitos + {cd}))
    {
      RestritasMais(ds, feitos, cd);
      DebitarMais(ds, feitos, cd, ests);
    }

    /** One product under all or nothing: hole test, shortage test, commit. */
    method ResolverTudoOuNada(nr: int, cd: string, itens: seq<Item>, blacklist: bool)
      requires Valid() && !Decidido(decisoes, (nr, cd)) && cd in estoques && TamanhosUnicos(itens)
      modifies this
      ensures Valid()
      ensures var d := TudoOuNada(itens, old(estoques)[cd], cd, blacklist);
              && decisoes == Anotar(old(decisoes), nr, cd, d)
              && estoques == old(estoques)[cd := DebitarDecisao(old(estoques)[cd], cd, d)]
    {
      var furo := TemFuroDeGrade(itens, estoques[cd], cd);
      if furo.Algo? {
        Preterir(nr, cd, if blacklist then Blacklist else FuroGrade);
      } else {
        var ls := AplicarTudoOuNada(itens, estoques[cd], cd);
        CommitarPar(nr, cd, ls, if blacklist then Blacklist else SemEstoque);
      }
    }

    /** The order's grades are well formed, and every product has a local stock. */
    ghost predicate Pronto(chegada: seq<string>, m: Grades) reads this {
      && Distintos(chegada) && (forall cd :: cd in chegada <==> cd in m)
      && (forall cd :: cd in m ==> cd in estoques && m[cd] != [] && TamanhosUnicos(m[cd]))
    }

    method Abrir(nr: int)
      requires Valid() && nr !in decisoes
      modifies this
      ensures Valid() && decisoes == old(decisoes)[nr := map[]] && estoques == old(estoques)
    {
      CoerenteAoAbrir(decisoes, Listagem(selecionados, preteridos, motivos, resultados), nr);
      decisoes := decisoes[nr := map[]];
    }

    method AvancarTudoOuNada(nr: int, cd: string, m: Grades, blacklist: bool, ghost feitos: set<string>,
                             ghost antes: Decisoes, ghost ests: Estoques)
      requires Valid() && cd in m && cd !in feitos && cd in ests && TamanhosUnicos(m[cd])
      requires Andamento(nr, DecidirTudoOuNada(m, ests, blacklist), feitos, antes, ests)
      modifies this
      ensures Valid() && Andamento(nr, DecidirTudoOuNada(m, ests, blacklist), feitos + {cd}, antes, ests)
    {
      Avancar(nr, DecidirTudoOuNada(m, ests, blacklist), feitos, antes, ests, cd);
      ResolverTudoOuNada(nr, cd, m[cd], blacklist);
    }

    /** SEM_ADEQUAR, and every blacklisted order: product by product, all or nothing. */
    method ProcessarTudoOuNada(nr: int, chegada: seq<string>, m: Grades, blacklist: bool)
      requires Valid() && Pronto(chegada, m) && nr !in decisoes
      modifies this
      ensures Valid()
      ensures var ds := DecidirTudoOuNada(m, old(estoques), blacklist);
              decisoes == old(decisoes)[nr := ds] && estoques == DebitarPedido(old(estoques), ds)
    {
      ghost var antes, ests := decisoes, estoques;
      Abrir(nr);
      for k := 0 to |chegada|
        invariant Valid() && Andamento(nr, DecidirTudoOuNada(m, ests, blacklist), Conjunto(chegada[..k]), antes, ests)
      {
        DistintoDoPrefixo(chegada, k);
        ConjuntoMais(chegada, k);
        assert chegada[k] in chegada;
        AvancarTudoOuNada(nr, chegada[k], m, blacklist, Conjunto(chegada[..k]), antes, ests);
      }
      PrefixoTodo(chegada);
      assert Restritas(DecidirTudoOuNada(m, ests, blacklist), Conjunto(chegada))
        == DecidirTudoOuNada(m, ests, blacklist);
    }

    /** Settles one product that did not pass the hole test of the ADEQUAR mode. */
    method AvancarFuro(nr: int, cd: string, ghost ds: map<string, Decisao>, ghost feitos: set<string>,
                       ghost antes: Decisoes, ghost ests: Estoques)
      requires Valid() && cd in ds && cd !in feitos && cd in ests && ds[cd] == StandBy(FuroGrade)
      requires Andamento(nr, ds, feitos, antes, ests)
      modifies this
      ensures Valid() && Andamento(nr, ds, feitos + {cd}, antes, ests) && estoques == old(estoques)
    {
      Avancar(nr, ds, feitos, antes, ests, cd);
      assert estoques[cd := estoques[cd]] == estoques;
      Preterir(nr, cd, FuroGrade);
    }

    method SepararUm(nr: int, cd: string, m: Grades, ghost ds: map<string, Decisao>, ghost feitos: set<string>,
                     ghost antes: Decisoes, ghost ests: Estoques)
      returns (furo: bool)
      requires Valid() && cd in m && TamanhosUnicos(m[cd]) && cd in estoques && cd !in feitos && ds.Keys == m.Keys
        && estoques == ests
      requires TemFuro(m[cd], ests[cd], cd) ==> ds[cd] == StandBy(FuroGrade)
      requires Andamento(nr, ds, feitos, antes, ests)
      modifies this
      ensures Valid() && estoques == old(estoques) && furo == !SemFuro(m, ests)(cd)
      ensures Andamento(nr, ds, if furo then feitos + {cd} else feitos, antes, ests)
    {
      hide Coerente, TemFuro, Andamento;
      var r := TemFuroDeGrade(m[cd], estoques[cd], cd);
      furo := r.Algo?;
      if furo { AvancarFuro(nr, cd, ds, feitos, antes, ests); }
    }

    /** First sweep of the ADEQUAR mode: pairs with a grade hole leave, the others are
        kept in order of arrival. */
    method SepararFuros(nr: int, chegada: seq<string>, m: Grades, ghost ds: map<string, Decisao>, ghost antes: Decisoes)
      returns (elegiveis: seq<string>)
      requires Valid() && Pronto(chegada, m) && ds.Keys == m.Keys && Andamento(nr, ds, {}, antes, estoques)
      requires forall cd :: cd in m && TemFuro(m[cd], estoques[cd], cd) ==> ds[cd] == StandBy(FuroGrade)
      modifies this
      ensures Valid() && estoques == old(estoques)
      ensures elegiveis == Filtrar(chegada, SemFuro(m, estoques))
      ensures Andamento(nr, ds, Conjunto(chegada) - Conjunto(elegiveis), antes, estoques)
    {
      hide Coerente, Filtrar, TemFuro, Andamento, Conjunto;
      elegiveis := [];
      ghost var ests := estoques;
      assert Conjunto(chegada[..0]) - Conjunto(elegiveis) == {};
      for k := 0 to |chegada|
        invariant Valid() && estoques == ests
        invariant elegiveis == Filtrar(chegada[..k], SemFuro(m, ests))
        invariant Andamento(nr, ds, Conjunto(chegada[..k]) - Conjunto(elegiveis), antes, ests)
      {
        var cd := chegada[k];
        PassoDaSeparacao(chegada, k, elegiveis, SemFuro(m, ests));
        var furo := SepararUm(nr, cd, m, ds, Conjunto(chegada[..k]) - Conjunto(elegiveis), antes, ests);
        if !furo { elegiveis := elegiveis + [cd]; }
      }
      PrefixoTodo(chegada);
    }

    /** Money step and commit of one pair; false when the money cannot be split. */
    method FecharPar(nr: int, cd: string, linhas: Opcao<seq<Linha>>) returns (ok: bool)
      requires Valid() && !Decidido(decisoes, (nr, cd)) && cd in estoques
      requires linhas.Algo? ==> linhas.valor != [] && LinhasUnicas(linhas.valor)
      modifies this
      ensures ok <==> !Fechamento(linhas).DivisaoPorZero?
      ensures ok ==> Valid() && decisoes == Anotar(old(decisoes), nr, cd, Fechamento(linhas))
      ensures ok ==> estoques == old(estoques)[cd := DebitarDecisao(old(estoques)[cd], cd, Fechamento(linhas))]
    {
      if linhas.Nada? {
        CommitarPar(nr, cd, Nada, SemEstoque);
        return true;
      }
      var repreco := RecalcularFinanceiro(linhas.valor);
      if repreco.Nada? { return false; }
      FinanceiroSoMudaValor(linhas.valor);
      CommitarPar(nr, cd, repreco, SemEstoque);
      return true;
    }

    /** Closing sweep of the ADEQUAR mode, in the order of pass 1. */
    method FecharPedido(nr: int, fila: seq<string>, finais: map<string, Opcao<seq<Linha>>>,
                        ghost ds: map<string, Decisao>, ghost feitos: set<string>, ghost antes: Decisoes,
                        ghost ests: Estoques)
      returns (ok: bool)
      requires Valid() && Distintos(fila) && Andamento(nr, ds, feitos, antes, ests)
      requires forall cd :: cd in fila ==> cd in finais && cd in ds && cd in ests && cd !in feitos
      requires forall cd :: cd in fila ==> Fechamento(finais[cd]) == ds[cd]
      requires forall cd :: cd in fila && finais[cd].Algo? ==> finais[cd].valor != [] && LinhasUnicas(finais[cd].valor)
      modifies this
      ensures ok <==> forall cd :: cd in fila ==> !ds[cd].DivisaoPorZero?
      ensures ok ==> Valid() && Andamento(nr, ds, feitos + Conjunto(fila), antes, ests)
    {
      assert feitos + Conjunto(fila[..0]) == feitos;
      for k := 0 to |fila|
        invariant Valid() && Andamento(nr, ds, feitos + Conjunto(fila[..k]), antes, ests)
        invariant forall cd :: cd in fila[..k] ==> !ds[cd].DivisaoPorZero?
      {
        var cd := fila[k];
        assert cd in fila;
        DistintoDoPrefixo(fila, k);
        ConjuntoMais(fila, k);
        PrefixoMais(fila, k);
        ghost var f := feitos + Conjunto(fila[..k]);
        assert feitos + Conjunto(fila[..k + 1]) == f + {cd};
        Avancar(nr, ds, f, antes, ests, cd);
        ok := FecharPar(nr, cd, finais[cd]);
        if !ok { return false; }
      }
      PrefixoTodo(fila);
      return true;
    }

    method ConcluirAdequar(nr: int, chegada: seq<string>, elegiveis: seq<string>, fila: seq<string>, m: Grades,
                           finais: map<string, Opcao<seq<Linha>>>, ghost ds: map<string, Decisao>,
                           ghost antes: Decisoes, ghost ests: Estoques)
      returns (ok: bool)
      requires Valid() && Distintos(fila) && MesmosElementos(fila, elegiveis)
        && Andamento(nr, ds, Conjunto(chegada) - Conjunto(elegiveis), antes, ests)
      requires ds.Keys == Conjunto(chegada) && (forall cd :: cd in elegiveis ==> cd in chegada)
        && forall cd :: cd in chegada ==> cd in ests
      requires forall cd :: cd in chegada && cd !in elegiveis ==> ds[cd] == StandBy(FuroGrade)
      requires forall cd :: cd in fila ==> cd in finais && Fechamento(finais[cd]) == ds[cd]
      requires forall cd :: cd in fila && finais[cd].Algo? ==> finais[cd].valor != [] && LinhasUnicas(finais[cd].valor)
      modifies this
      ensures ok <==> !Aborta(ds)
      ensures ok ==> Valid() && decisoes == antes[nr := ds] && estoques == DebitarPedido(ests, ds)
    {
      ghost var feitos := Conjunto(chegada) - Conjunto(elegiveis);
      ok := FecharPedido(nr, fila, finais, ds, feitos, antes, ests);
      assert feitos + Conjunto(fila) == Conjunto(chegada);
      assert Restritas(ds, Conjunto(chegada)) == ds;
    }

    /** Opens the order and settles the pairs with a grade hole. */
    method AbrirAdequar(nr: int, chegada: seq<string>, m: Grades, ghost saldo: Saldo) returns (elegiveis: seq<string>)
      requires Valid() && Pronto(chegada, m) && nr !in decisoes
      modifies this
      ensures Valid() && estoques == old(estoques) && elegiveis == Filtrar(chegada, SemFuro(m, estoques))
      ensures Andamento(nr, DecidirAdequar(chegada, m, estoques, saldo), Conjunto(chegada) - Conjunto(elegiveis),
                        old(decisoes), estoques)
    {
      hide Coerente, Filtrar, TemFuro, DecidirAdequar;
      ghost var antes, ds := decisoes, DecidirAdequar(chegada, m, estoques, saldo);
      FurosDecididosTodos(chegada, m, estoques, saldo);
      Abrir(nr);
      elegiveis := SepararFuros(nr, chegada, m, ds, antes);
    }

    /** The two passes over the eligible pairs, then the closing sweep. */
    method PassarEConcluir(nr: int, chegada: seq<string>, elegiveis: seq<string>, m: Grades, ledger: OrcamentoPedido,
                           ghost antes: Decisoes)
      returns (ok: bool)
      requires Valid() && Pronto(chegada, m) && elegiveis == Filtrar(chegada, SemFuro(m, estoques))
      requires Andamento(nr, DecidirAdequar(chegada, m, estoques, ledger.Restante()),
                         Conjunto(chegada) - Conjunto(elegiveis), antes, estoques)
      modifies this, ledger
      ensures var ds := DecidirAdequar(chegada, m, old(estoques), old(ledger.Restante()));
              && (ok <==> !Aborta(ds))
              && (ok ==> Valid() && decisoes == antes[nr := ds] && estoques == DebitarPedido(old(estoques), ds))
    {
      hide Coerente, Filtrar, TemFuro, DecidirAdequar;
      ghost var ests, saldo := estoques, ledger.Restante();
      ghost var ds := DecidirAdequar(chegada, m, ests, saldo);
      FurosFora(chegada, elegiveis, m, ests, saldo);
      var fila, finais := RodarPassadas(chegada, elegiveis, m, estoques, ledger);
      ok := ConcluirAdequar(nr, chegada, elegiveis, fila, m, finais, ds, antes, ests);
    }

    /** The ADEQUAR mode for one order: hole sweep, two passes sharing one ledger, then
        money and commit once every quantity is decided. */
    method ProcessarAdequar(nr: int, chegada: seq<string>, m: Grades, ledger: OrcamentoPedido) returns (ok: bool)
      requires Valid() && Pronto(chegada, m) && nr !in decisoes
      modifies this, ledger
      ensures var ds := DecidirAdequar(chegada, m, old(estoques), old(ledger.Restante()));
              && (ok <==> !Aborta(ds))
              && (ok ==> Valid() && decisoes == old(decisoes)[nr := ds] && estoques == DebitarPedido(old(estoques), ds))
    {
      hide Coerente, Filtrar, TemFuro, DecidirAdequar, Aborta;
      var elegiveis := AbrirAdequar(nr, chegada, m, ledger.Restante());
      ok := PassarEConcluir(nr, chegada, elegiveis, m, ledger, old(decisoes));
    }

    /** The queue still to run, `resto`, takes the present state to the outcome `r`. */
    ghost predicate Rumo(r: Rodada, resto: seq<int>, f: Decisor, dados: seq<Item>) reads this {
      && Valid() && Distintos(resto) && EmCurso(r, resto, f, estoques, decisoes)
      && (forall nr :: nr in resto ==> nr !in decisoes)
      && (forall cd :: cd in Produtos(dados) ==> cd in estoques)
    }

    method AtenderProximo(resto: seq<int>, dados: seq<Item>, cfg: Config, ghost r: Rodada) returns (ok: bool)
      requires resto != [] && ParesComTamanhosUnicos(dados) && Rumo(r, resto, DecisorDe(dados, cfg), dados)
      modifies this
      ensures if ok then Rumo(r, resto[1..], DecisorDe(dados, cfg), dados) else !r.Rodada?
    {
      hide Coerente, CoerenteEm, DecisorDe, DebitarPedido, Aborta, EmCurso;
      assert resto[0] in resto;
      assert forall x :: x in resto[1..] ==> x in resto && x != resto[0];
      PassoDaRodada(r, resto, DecisorDe(dados, cfg), estoques, decisoes);
      ok := AvancarFila(resto[0], dados, cfg);
    }

    /** The queue, one order at a time, against the shared local stocks. */
    method RodarFila(fila: seq<int>, dados: seq<Item>, estoque: seq<Posicao>, cfg: Config) returns (ok: bool)
      requires Valid() && decisoes == map[] && Distintos(fila) && ParesComTamanhosUnicos(dados)
      requires estoques == Locais(dados, estoque)
      modifies this
      ensures var r := Rodar(fila, DecisorDe(dados, cfg), old(estoques));
              && (ok <==> r.Rodada?)
              && (ok ==> Valid() && decisoes == r.decisoes && estoques == r.estoques)
    {
      hide Coerente, CoerenteEm, DecisorDe, Produtos, Locais, EmCurso;
      ghost var r := Rodar(fila, DecisorDe(dados, cfg), estoques);
      var resto := fila;
      RodadaComeca(fila, DecisorDe(dados, cfg), estoques);
      LocaisCobrem(dados, estoque);
      while resto != []
        invariant Rumo(r, resto, DecisorDe(dados, cfg), dados)
      {
        ok := AtenderProximo(resto, dados, cfg, r);
        if !ok { return false; }
        resto := resto[1..];
      }
      RodadaTermina(r, DecisorDe(dados, cfg), estoques, decisoes);
      return true;
    }

    method AvancarFila(nr: int, dados: seq<Item>, cfg: Config) returns (ok: bool)
      requires Valid() && nr !in decisoes && ParesComTamanhosUnicos(dados)
        && forall cd :: cd in Produtos(dados) ==> cd in estoques
      modifies this
      ensures var ds := DecisorDe(dados, cfg)(nr, old(estoques));
              && (ok <==> !Aborta(ds))
              && (ok ==> Valid() && decisoes == old(decisoes)[nr := ds] && estoques == DebitarPedido(old(estoques), ds))
      ensures ok ==> forall cd :: cd in Produtos(dados) ==> cd in estoques
    {
      PedidoPronto(dados, nr);
      ok := ProcessarPedido(nr, ItensDoPedido(dados, nr), cfg);
    }

    /** The final lists, sorted by order and product. */
    method Listar() returns (l: Listagem)
      requires Valid()
      ensures Coerente(decisoes, l) && Crescente(l.selecionados, PorPar) && Crescente(l.preteridos, PorPar)
    {
      PorParOrdena(selecionados);
      PorParOrdena(preteridos);
      l := Listagem(Ordenar(selecionados, PorPar), Ordenar(preteridos, PorPar), motivos, resultados);
      forall p: Par ensures CoerenteEm(decisoes, l, p) {
        assert CoerenteEm(decisoes, Listagem(selecionados, preteridos, motivos, resultados), p);
      }
    }

    /** One order: grouped by product, dispatched by mode, with its own fresh ledger. */
    method ProcessarPedido(nr: int, its: seq<Item>, cfg: Config) returns (ok: bool)
      requires Valid() && nr !in decisoes
      requires forall cd :: cd in Agrupar(its) ==> cd in estoques && TamanhosUnicos(Agrupar(its)[cd])
      modifies this
      ensures var ds := DecisaoDoPedido(cfg, nr, its, old(estoques));
              && (ok <==> !Aborta(ds))
              && (ok ==> Valid() && decisoes == old(decisoes)[nr := ds] && estoques == DebitarPedido(old(estoques), ds))
    {
      var chegada, m := AgruparPorProduto(its);
      ChegadaAgrupada(its);
      var blacklist := NaBlacklist(its);
      if cfg.modo == SemAdequar || blacklist {
        TudoOuNadaNaoAborta(m, estoques, blacklist);
        ProcessarTudoOuNada(nr, chegada, m, blacklist);
        return true;
      }
      SomaNaoNegativa(its, QtDe());
      var ledger := new OrcamentoPedido(
        if nr in cfg.totalOriginal then cfg.totalOriginal[nr] else Soma(its, QtDe()),
        if nr in cfg.previoAdicao then cfg.previoAdicao[nr] else 0,
        if nr in cfg.previoCorte then cfg.previoCorte[nr] else 0,
        cfg.tolerancia);
      ok := ProcessarAdequar(nr, chegada, m, ledger);
    }
  }

  lemma AvancoDaSeparacao(chegada: seq<string>, k: nat, elegiveis: seq<string>)
    requires k < |chegada| && chegada[k] !in chegada[..k] && forall x :: x in elegiveis ==> x in chegada[..k]
    ensures var feitos := Conjunto(chegada[..k]) - Conjunto(elegiveis);
            && chegada[k] !in feitos
            && Conjunto(chegada[..k + 1]) - Conjunto(elegiveis) == feitos + {chegada[k]}
            && Conjunto(chegada[..k + 1]) - Conjunto(elegiveis + [chegada[k]]) == feitos
  {
    ConjuntoMais(chegada, k);
  }

  lemma PassoDaSeparacao(chegada: seq<string>, k: nat, elegiveis: seq<string>, p: string -> bool)
    requires Distintos(chegada) && k < |chegada| && elegiveis == Filtrar(chegada[..k], p)
    ensures chegada[k] in chegada
    ensures Filtrar(chegada[..k + 1], p) == if p(chegada[k]) then elegiveis + [chegada[k]] else elegiveis
    ensures var feitos := Conjunto(chegada[..k]) - Conjunto(elegiveis);
            && chegada[k] !in feitos
            && Conjunto(chegada[..k + 1]) - Conjunto(Filtrar(chegada[..k + 1], p)) == if p(chegada[k]) then feitos
              else feitos + {chegada[k]}
  {
    hide Filtrar;
    DistintoDoPrefixo(chegada, k);
    FiltrarPrefixo(chegada, k, p);
    AvancoDaSeparacao(chegada, k, elegiveis);
    assert elegiveis + [] == elegiveis;
  }

  lemma TudoOuNadaNaoAborta(m: Grades, ests: Estoques, blacklist: bool)
    ensures !Aborta(DecidirTudoOuNada(m, ests, blacklist))
  {
    forall cd | cd in m ensures !TudoOuNada(m[cd], Local(ests, cd), cd, blacklist).DivisaoPorZero? {
      TudoOuNadaSse(m[cd], Local(ests, cd), cd, blacklist);
    }
  }

  /** Groups the rows of an order by product, keeping the order of arrival. */
  method AgruparPorProduto(its: seq<Item>) returns (chegada: seq<string>, m: Grades)
    ensures chegada == Produtos(its) && m == Agrupar(its)
  {
    chegada, m := [], map[];
    for k := 0 to |its|
      invariant chegada == Produtos(its[..k]) && m == Agrupar(its[..k])
    {
      var i := its[k];
      AgruparMais(its, k);
      ProdutosMais(its, k);
      if i.cd !in m { chegada := chegada + [i.cd]; }
      m := m[i.cd := Grade(m, i.cd) + [i]];
    }
    PrefixoTodo(its);
  }

  lemma AgruparMaisEm(its: seq<Item>, k: nat, cd: string)
    requires k < |its|
    ensures var i := its[k];
            var m, m' := Agrupar(its[..k]), Agrupar(its[..k + 1]);
            && (cd in m' <==> cd in m || cd == i.cd)
            && (cd in m' ==> m'[cd] == if cd == i.cd then Grade(m, cd) + [i] else m[cd])
  {
    ProdutosMais(its, k);
    FiltrarPrefixo(its, k, DoProduto(cd));
    if cd !in Agrupar(its[..k]) { ForaDoAgrupado(its[..k], cd); }
  }

  lemma AgruparMais(its: seq<Item>, k: nat)
    requires k < |its|
    ensures Agrupar(its[..k + 1]) == Agrupar(its[..k])[its[k].cd := Grade(Agrupar(its[..k]), its[k].cd) + [its[k]]]
  {
    var i, m, m' := its[k], Agrupar(its[..k]), Agrupar(its[..k + 1]);
    var esperado := m[i.cd := Grade(m, i.cd) + [i]];
    forall cd ensures (cd in m' <==> cd in esperado) && (cd in m' ==> m'[cd] == esperado[cd]) {
      AgruparMaisEm(its, k, cd);
    }
  }

  lemma ProdutosMais(its: seq<Item>, k: nat)
    requires k < |its|
    ensures Produtos(its[..k + 1]) == Produtos(its[..k]) + Se(its[k].cd !in Produtos(its[..k]), its[k].cd)
  {
    MapearMais(its, k, CdDe());
    var cds := Mapear(its[..k], CdDe());
    assert (cds + [its[k].cd])[..|cds|] == cds;
  }

  lemma ForaDoAgrupado(its: seq<Item>, cd: string)
    requires cd !in Agrupar(its)
    ensures Filtrar(its, DoProduto(cd)) == []
  {
    ProdutosSao(its, cd);
    assert forall x :: x in Filtrar(its, DoProduto(cd)) ==> x in its && x.cd == cd;
  }

  lemma MapearMais<T, U>(s: seq<T>, k: nat, f: T -> U)
    requires k < |s|
    ensures Mapear(s[..k + 1], f) == Mapear(s[..k], f) + [f(s[k])]
  {}

  // ----- the channel

  lemma PedidoPronto(dados: seq<Item>, nr: int)
    requires ParesComTamanhosUnicos(dados)
    ensures var m := Agrupar(ItensDoPedido(dados, nr));
            forall cd :: cd in m ==> cd in Produtos(dados) && TamanhosUnicos(m[cd])
  {
    var m := Agrupar(ItensDoPedido(dados, nr));
    forall cd | cd in m ensures cd in Produtos(dados) && TamanhosUnicos(m[cd]) {
      ProdutoDoPedidoEstaNosDados(dados, nr, cd);
      FiltroDuplo(dados, DoPedido(nr), DoProduto(cd), DoPar(nr, cd));
    }
  }

  /** The run so far, `d` and `ests`, leads to the outcome `r` of the whole queue. */
  ghost predicate EmCurso(r: Rodada, fila: seq<int>, f: Decisor, ests: Estoques, d: Decisoes) {
    var resto := Rodar(fila, f, ests);
    && (r.Rodada? <==> resto.Rodada?)
    && (r.Rodada? ==> r.estoques == resto.estoques && r.decisoes == d + resto.decisoes)
  }

  lemma SomaVazia(r: Rodada)
    ensures r.Rodada? ==> map[] + r.decisoes == r.decisoes && r.decisoes + map[] == r.decisoes
  {}

  lemma RodadaComeca(fila: seq<int>, f: Decisor, ests: Estoques)
    ensures EmCurso(Rodar(fila, f, ests), fila, f, ests, map[])
  {
    SomaVazia(Rodar(fila, f, ests));
  }

  lemma RodadaTermina(r: Rodada, f: Decisor, ests: Estoques, d: Decisoes)
    requires EmCurso(r, [], f, ests, d)
    ensures r.Rodada? && r.estoques == ests && r.decisoes == d
  {
    assert d + map[] == d;
  }

  lemma LocaisCobrem(dados: seq<Item>, estoque: seq<Posicao>)
    ensures forall cd :: cd in Produtos(dados) ==> cd in Locais(dados, estoque)
  {}

  lemma PassoDaRodada(r: Rodada, fila: seq<int>, f: Decisor, ests: Estoques, d: Decisoes)
    requires EmCurso(r, fila, f, ests, d) && fila != [] && Distintos(fila)
    ensures var ds := f(fila[0], ests);
            && (Aborta(ds) ==> !r.Rodada?)
            && (!Aborta(ds) ==> EmCurso(r, fila[1..], f, DebitarPedido(ests, ds), d[fila[0] := ds]))
  {
    var ds := f(fila[0], ests);
    var resto := Rodar(fila[1..], f, DebitarPedido(ests, ds));
    if !Aborta(ds) && resto.Rodada? {
      RodadaDecideTodos(fila[1..], f, DebitarPedido(ests, ds));
      assert fila[0] !in resto.decisoes;
      assert d + resto.decisoes[fila[0] := ds] == d[fila[0] := ds] + resto.decisoes;
    }
  }

  predicate PorPar(a: Par, b: Par) { a.0 < b.0 || (a.0 == b.0 && MenorTexto(a.1, b.1)) }

  lemma PorParOrdena(s: seq<Par>)
    requires Distintos(s)
    ensures Crescente(Ordenar(s, PorPar), PorPar) && MesmosElementos(Ordenar(s, PorPar), s)
      && Distintos(Ordenar(s, PorPar))
  {
    MenorTextoEhOrdem();
    OrdemGlobalEmLista(s, PorPar);
    OrdenarCrescente(s, PorPar);
    OrdenarPermuta(s, PorPar);
    CrescenteDistinta(Ordenar(s, PorPar), PorPar);
  }

  /** By order number, then by product code. */
  ghost predicate ParesEmOrdem(s: seq<Par>) {
    forall i, j :: 0 <= i < j < |s| ==> s[i].0 < s[j].0 || (s[i].0 == s[j].0 && MenorTexto(s[i].1, s[j].1))
  }

  lemma PorParEmOrdem(s: seq<Par>)
    requires Crescente(s, PorPar)
    ensures ParesEmOrdem(s)
  {
    forall i, j | 0 <= i < j < |s| ensures s[i].0 < s[j].0 || (s[i].0 == s[j].0 && MenorTexto(s[i].1, s[j].1)) {
      assert PorPar(s[i], s[j]);
    }
  }

  predicate MenorInt(a: int, b: int) { a < b }

  function Bloqueia(dados: seq<Item>): int -> bool { nr => SemCredito(ItensDoPedido(dados, nr)) }

  /** One channel, start to end. `r` is nothing when the run aborts; otherwise it lists
      every decided pair once, sorted, on the side and with the rows or the motive that
      the specification decides. */
  method ProcessarPedidosCanal(dados: seq<Item>, estoque: seq<Posicao>, cfg: Config)
    returns (r: Opcao<Listagem>, bloqueados: seq<int>)
    requires ParesComTamanhosUnicos(dados)
    ensures r.Algo? <==> ProcessarCanal(dados, estoque, cfg).Rodada?
    ensures r.Algo? ==> Coerente(ProcessarCanal(dados, estoque, cfg).decisoes, r.valor)
    ensures r.Algo? ==> Crescente(r.valor.selecionados, PorPar) && Crescente(r.valor.preteridos, PorPar)
    ensures r.Algo? ==> ParesEmOrdem(r.valor.selecionados) && ParesEmOrdem(r.valor.preteridos)
    ensures forall i, j :: 0 <= i < j < |bloqueados| ==> bloqueados[i] < bloqueados[j]
    ensures forall nr :: nr in bloqueados <==> exists i :: i in dados && i.nr == nr && i.semCredito
  {
    bloqueados := ListarBloqueados(dados);
    var locais, _ := IndexarEstoquePorProduto(estoque, Conjunto(Produtos(dados)));
    assert locais == Locais(dados, estoque);
    FilaOk(dados, estoque, cfg);
    var exec := new Execucao(locais);
    var ok := exec.RodarFila(Fila(dados, estoque, cfg), dados, estoque, cfg);
    if !ok { return Nada, bloqueados; }
    var l := exec.Listar();
    PorParEmOrdem(l.selecionados);
    PorParEmOrdem(l.preteridos);
    r := Algo(l);
  }

  lemma BloqueadoSse(dados: seq<Item>, nr: int)
    ensures nr in Nrs(dados) && SemCredito(ItensDoPedido(dados, nr))
       <==> exists i :: i in dados && i.nr == nr && i.semCredito
  {
    NrsSao(dados, nr);
    assert forall i :: i in ItensDoPedido(dados, nr) <==> i in dados && DoPedido(nr)(i);
  }

  method ListarBloqueados(dados: seq<Item>) returns (bloqueados: seq<int>)
    ensures forall i, j :: 0 <= i < j < |bloqueados| ==> bloqueados[i] < bloqueados[j]
    ensures forall nr :: nr in bloqueados <==> exists i :: i in dados && i.nr == nr && i.semCredito
  {
    hide Ordenar, Filtrar, SemCredito, ItensDoPedido, Chegada;
    bloqueados := Ordenar(Filtrar(Nrs(dados), Bloqueia(dados)), MenorInt);
    OrdenarFiltrado(Nrs(dados), Bloqueia(dados), MenorInt);
    forall nr ensures nr in bloqueados <==> exists i :: i in dados && i.nr == nr && i.semCredito {
      assert Bloqueia(dados)(nr) <==> SemCredito(ItensDoPedido(dados, nr));
      BloqueadoSse(dados, nr);
    }
  }
}
