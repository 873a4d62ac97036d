/** The virtual stock: the photo minus the reservations it does not reflect yet, computed
    by folding or by a targeted query, and the capacity check of a batch edit. */
module EstoqueVirtual {
  import opened Aritmetica
  import opened Listas
  import Edicao
  import Motor
  import Rateio

  datatype Chave = Chave(cd: string, tam: string, canal: string)

  /** A saved row: normalised size, resolved channel if any. */
  datatype Peca = Peca(tam: string, canal: Opcao<string>, qt: int, standBy: bool)

  datatype Ordem = Ordem(nr: int, cd: string, itens: seq<Peca>, criada: Opcao<int>)

  type Foto = map<Chave, nat>

  function Valor(f: Foto, k: Chave): nat { if k in f then f[k] else 0 }

  // ----- what each form discounts

  predicate Confere(cd: string, k: Chave, i: Peca) {
    cd == k.cd && i.tam == k.tam && i.tam != "" && i.canal == Algo(k.canal)
  }

  /** Pieces of `k` that the fold discounts for a row of an order of product `cd`. */
  function NaChave(cd: string, k: Chave): Peca -> int { (i: Peca) => if Confere(cd, k, i) && i.qt > 0 then i.qt else 0 }

  /** Neither in the ERP already nor older than the photo; an undated order counts. */
  predicate Contada(o: Ordem, dt: Opcao<int>, erp: set<(int, string)>) {
    (o.nr, o.cd) !in erp && (dt.Algo? && o.criada.Algo? ==> o.criada.valor >= dt.valor)
  }

  function DescontoDe(k: Chave, dt: Opcao<int>, erp: set<(int, string)>): Ordem -> int {
    (o: Ordem) => if Contada(o, dt, erp) then Soma(o.itens, NaChave(o.cd, k)) else 0
  }

  /** The query skips stand-by rows. */
  function AtivaNaChave(cd: string, k: Chave): Peca -> int {
    (i: Peca) => if Confere(cd, k, i) && !i.standBy then Max(i.qt, 0) else 0
  }

  /** The query skips undated orders when the photo has a date. */
  predicate ContadaSql(o: Ordem, dt: Opcao<int>, erp: set<(int, string)>) {
    (o.nr, o.cd) !in erp && (dt.Algo? ==> o.criada.Algo? && o.criada.valor >= dt.valor)
  }

  function DescontoSql(k: Chave, dt: Opcao<int>, erp: set<(int, string)>): Ordem -> int {
    (o: Ordem) => if ContadaSql(o, dt, erp) then Soma(o.itens, AtivaNaChave(o.cd, k)) else 0
  }

  /** The targeted projection; the date comes from the stock row of the key, if there is one. */
  function Projetado(f: Foto, ordens: seq<Ordem>, k: Chave, dt: Opcao<int>, erp: set<(int, string)>): int {
    Max(Valor(f, k) - Soma(ordens, DescontoSql(k, if k in f then dt else Nada, erp)), 0)
  }

  /** Pieces of one size in one channel, stand-by rows included or not. */
  function PecasEm(tam: string, canal: string, comStandBy: bool): Peca -> int {
    (i: Peca) =>
      if i.tam == tam && i.canal == Algo(canal) && i.qt > 0 && (comStandBy || !i.standBy) then i.qt else 0
  }

  /** What an order takes from a key: nothing when the ERP already has it or it is older than
      the photo (its own day included, it counts); otherwise its pieces of that product,
      size and channel. The fold counts stand-by rows and undated orders, the query neither. */
  lemma DescontoSao(o: Ordem, k: Chave, dt: Opcao<int>, erp: set<(int, string)>)
    requires k.tam != ""
    ensures DescontoDe(k, dt, erp)(o)
      == if (o.nr, o.cd) in erp || o.cd != k.cd || (dt.Algo? && o.criada.Algo? && o.criada.valor < dt.valor) then 0
         else Soma(o.itens, PecasEm(k.tam, k.canal, true))
    ensures DescontoSql(k, dt, erp)(o)
      == if (o.nr, o.cd) in erp || o.cd != k.cd || (dt.Algo? && (o.criada.Nada? || o.criada.valor < dt.valor)) then 0
         else Soma(o.itens, PecasEm(k.tam, k.canal, false))
  {
    if o.cd == k.cd {
      SomaIgual(o.itens, NaChave(o.cd, k), PecasEm(k.tam, k.canal, true));
      SomaIgual(o.itens, AtivaNaChave(o.cd, k), PecasEm(k.tam, k.canal, false));
    } else {
      SomaDeZeros(o.itens, NaChave(o.cd, k));
      SomaDeZeros(o.itens, AtivaNaChave(o.cd, k));
    }
  }

  /** A row without a size is never discounted. */
  lemma SemTamanhoNaoDesconta(o: Ordem, k: Chave, dt: Opcao<int>, erp: set<(int, string)>)
    requires k.tam == ""
    ensures DescontoDe(k, dt, erp)(o) == 0 && DescontoSql(k, dt, erp)(o) == 0
  {
    SomaDeZeros(o.itens, NaChave(o.cd, k));
    SomaDeZeros(o.itens, AtivaNaChave(o.cd, k));
  }

  // ----- the fold

  lemma DescontoNaoNegativo(o: Ordem, k: Chave, dt: Opcao<int>, erp: set<(int, string)>)
    ensures DescontoDe(k, dt, erp)(o) >= DescontoSql(k, dt, erp)(o) >= 0
  {
    SomaNaoNegativa(o.itens, AtivaNaChave(o.cd, k));
    SomaMonotona(o.itens, AtivaNaChave(o.cd, k), NaChave(o.cd, k));
  }

  /** State of the fold after discounting `b` pieces of every key. */
  ghost predicate Projeta(f: Foto, virtual: Foto, b: Chave -> int) {
    forall k: Chave :: Valor(virtual, k) == Max(0, Valor(f, k) - b(k))
  }

  function Ate(ordens: seq<Ordem>, dt: Opcao<int>, erp: set<(int, string)>): Chave -> int {
    (k: Chave) => Soma(ordens, DescontoDe(k, dt, erp))
  }

  function AteItem(ordens: seq<Ordem>, dt: Opcao<int>, erp: set<(int, string)>, cd: string,
                   itens: seq<Peca>): Chave -> int {
    (k: Chave) => Soma(ordens, DescontoDe(k, dt, erp)) + Soma(itens, NaChave(cd, k))
  }

  lemma AteNaoNegativo(ordens: seq<Ordem>, dt: Opcao<int>, erp: set<(int, string)>, k: Chave)
    ensures Soma(ordens, DescontoDe(k, dt, erp)) >= 0
  {
    forall o | o in ordens ensures DescontoDe(k, dt, erp)(o) >= 0 { DescontoNaoNegativo(o, k, dt, erp); }
    SomaNaoNegativa(ordens, DescontoDe(k, dt, erp));
  }

  /** Truncated subtraction accumulates: taking `x` more pieces of one key. */
  lemma DescontarMais(f: Foto, virtual: Foto, ordens: seq<Ordem>, dt: Opcao<int>, erp: set<(int, string)>, cd: string,
                      itens: seq<Peca>, i: Peca)
    requires Projeta(f, virtual, AteItem(ordens, dt, erp, cd, itens))
    ensures var k := if i.canal.Algo? then Chave(cd, i.tam, i.canal.valor) else Chave(cd, "", "");
            Projeta(f, if i.canal.Algo? && i.tam != "" && i.qt > 0 then virtual[k := Max(0, Valor(virtual, k) - i.qt)]
              else virtual,
                    AteItem(ordens, dt, erp, cd, itens + [i]))
  {
    forall k: Chave
      ensures Soma(itens + [i], NaChave(cd, k)) == Soma(itens, NaChave(cd, k)) + NaChave(cd, k)(i)
      ensures Soma(ordens, DescontoDe(k, dt, erp)) >= 0 && Soma(itens, NaChave(cd, k)) >= 0
    {
      SomaUltimo(itens, i, NaChave(cd, k));
      AteNaoNegativo(ordens, dt, erp, k);
      SomaNaoNegativa(itens, NaChave(cd, k));
    }
  }

  /** One order of the fold. */
  method DescontarOrdem(f: Foto, virtual: Foto, ghost antes: seq<Ordem>, o: Ordem, dt: Opcao<int>,
                        erp: set<(int, string)>) returns (v: Foto)
    requires Projeta(f, virtual, Ate(antes, dt, erp))
    ensures Projeta(f, v, Ate(antes + [o], dt, erp))
  {
    v := virtual;
    if Contada(o, dt, erp) {
      IniciarOrdem(f, v, antes, dt, erp, o.cd);
      for j := 0 to |o.itens|
        invariant Projeta(f, v, AteItem(antes, dt, erp, o.cd, o.itens[..j]))
      {
        v := DescontarItem(f, v, antes, dt, erp, o.cd, o.itens[..j], o.itens[j]);
        PrefixoMais(o.itens, j);
      }
      PrefixoTodo(o.itens);
    }
    ConcluirOrdem(f, v, antes, o, dt, erp);
  }

  lemma IniciarOrdem(f: Foto, v: Foto, antes: seq<Ordem>, dt: Opcao<int>, erp: set<(int, string)>, cd: string)
    requires Projeta(f, v, Ate(antes, dt, erp))
    ensures Projeta(f, v, AteItem(antes, dt, erp, cd, []))
  {}

  lemma ConcluirOrdem(f: Foto, v: Foto, antes: seq<Ordem>, o: Ordem, dt: Opcao<int>, erp: set<(int, string)>)
    requires Projeta(f, v, if Contada(o, dt, erp) then AteItem(antes, dt, erp, o.cd, o.itens) else Ate(antes, dt, erp))
    ensures Projeta(f, v, Ate(antes + [o], dt, erp))
  {
    forall k: Chave
      ensures Ate(antes + [o], dt, erp)(k)
        == (if Contada(o, dt, erp) then AteItem(antes, dt, erp, o.cd, o.itens) else Ate(antes, dt, erp))(k)
    {
      SomaUltimo(antes, o, DescontoDe(k, dt, erp));
    }
  }

  method DescontarItem(f: Foto, virtual: Foto, ghost antes: seq<Ordem>, dt: Opcao<int>, erp: set<(int, string)>,
                       cd: string, ghost itens: seq<Peca>, i: Peca)
    returns (v: Foto)
    requires Projeta(f, virtual, AteItem(antes, dt, erp, cd, itens))
    ensures Projeta(f, v, AteItem(antes, dt, erp, cd, itens + [i]))
  {
    DescontarMais(f, virtual, antes, dt, erp, cd, itens, i);
    v := virtual;
    if i.canal.Algo? && i.tam != "" && i.qt > 0 {
      var k := Chave(cd, i.tam, i.canal.valor);
      v := v[k := Max(0, Valor(v, k) - i.qt)];
    }
  }

  /** Folding the truncated subtraction over every row gives, for every key, the photo
      minus the total of the counted reservations, floored once. */
  method CalcularEstoqueVirtual(f: Foto, ordens: seq<Ordem>, dt: Opcao<int>, erp: set<(int, string)>) returns (v: Foto)
    ensures forall k: Chave :: Valor(v, k) == Max(0, Valor(f, k) - Soma(ordens, DescontoDe(k, dt, erp)))
  {
    v := f;
    for i := 0 to |ordens|
      invariant Projeta(f, v, Ate(ordens[..i], dt, erp))
    {
      v := DescontarOrdem(f, v, ordens[..i], ordens[i], dt, erp);
      PrefixoMais(ordens, i);
    }
    PrefixoTodo(ordens);
  }

  // ----- the two forms compared

  /** The order in which reservations are read does not matter. */
  lemma OrdemDasReservasNaoImporta(a: seq<Ordem>, b: seq<Ordem>, k: Chave, dt: Opcao<int>, erp: set<(int, string)>)
    requires multiset(a) == multiset(b)
    ensures Soma(a, DescontoDe(k, dt, erp)) == Soma(b, DescontoDe(k, dt, erp))
  {
    SomaPermutacao(a, b, DescontoDe(k, dt, erp));
  }

  /** Pieces that only the fold discounts: stand-by rows and undated orders. */
  function SoNaDobra(k: Chave, dt: Opcao<int>, erp: set<(int, string)>): Ordem -> int {
    (o: Ordem) => DescontoDe(k, dt, erp)(o) - DescontoSql(k, dt, erp)(o)
  }

  lemma {:induction false} DiferencaDasFormas(ordens: seq<Ordem>, k: Chave, dt: Opcao<int>, erp: set<(int, string)>)
    ensures Soma(ordens, DescontoDe(k, dt, erp))
      == Soma(ordens, DescontoSql(k, dt, erp)) + Soma(ordens, SoNaDobra(k, dt, erp))
    ensures Soma(ordens, SoNaDobra(k, dt, erp)) >= 0 && Soma(ordens, DescontoSql(k, dt, erp)) >= 0
  {
    if ordens != [] {
      DiferencaDasFormas(ordens[1..], k, dt, erp);
      DescontoNaoNegativo(ordens[0], k, dt, erp);
    }
  }

  /** A row that only the fold discounts at `k`: in stand-by, or of an order the query skips. */
  predicate SoDaDobra(o: Ordem, i: Peca, k: Chave, dt: Opcao<int>, erp: set<(int, string)>) {
    Contada(o, dt, erp) && Confere(o.cd, k, i) && i.qt > 0 && (i.standBy || !ContadaSql(o, dt, erp))
  }

  function PecasSoDaDobra(o: Ordem, k: Chave, dt: Opcao<int>, erp: set<(int, string)>): Peca -> int {
    (i: Peca) => if SoDaDobra(o, i, k, dt, erp) then i.qt else 0
  }

  lemma {:induction false} ExtraPorLinha(o: Ordem, itens: seq<Peca>, k: Chave, dt: Opcao<int>, erp: set<(int, string)>)
    ensures (if Contada(o, dt, erp) then Soma(itens, NaChave(o.cd, k)) else 0)
              - (if ContadaSql(o, dt, erp) then Soma(itens, AtivaNaChave(o.cd, k)) else 0)
         == Soma(itens, PecasSoDaDobra(o, k, dt, erp))
  {
    if itens != [] { ExtraPorLinha(o, itens[1..], k, dt, erp); }
  }

  /** A sum of non-negative terms is zero exactly when every term is. */
  lemma SomaZeroSse<T>(s: seq<T>, f: T -> int)
    requires forall x :: x in s ==> f(x) >= 0
    ensures Soma(s, f) == 0 <==> forall x :: x in s ==> f(x) == 0
  {
    SomaNaoNegativa(s, f);
    if forall x :: x in s ==> f(x) == 0 { SomaDeZeros(s, f); }
  }

  lemma ExtraDaOrdem(o: Ordem, k: Chave, dt: Opcao<int>, erp: set<(int, string)>)
    ensures SoNaDobra(k, dt, erp)(o) >= 0
    ensures SoNaDobra(k, dt, erp)(o) == 0 <==> forall i :: i in o.itens ==> !SoDaDobra(o, i, k, dt, erp)
  {
    var f := PecasSoDaDobra(o, k, dt, erp);
    ExtraPorLinha(o, o.itens, k, dt, erp);
    assert DescontoDe(k, dt, erp)(o) == if Contada(o, dt, erp) then Soma(o.itens, NaChave(o.cd, k)) else 0;
    assert DescontoSql(k, dt, erp)(o) == if ContadaSql(o, dt, erp) then Soma(o.itens, AtivaNaChave(o.cd, k)) else 0;
    forall i | i in o.itens ensures f(i) >= 0 && (f(i) == 0 <==> !SoDaDobra(o, i, k, dt, erp)) {}
    SomaNaoNegativa(o.itens, f);
    SomaZeroSse(o.itens, f);
  }

  lemma SemExtraSse(ordens: seq<Ordem>, k: Chave, dt: Opcao<int>, erp: set<(int, string)>)
    ensures Soma(ordens, SoNaDobra(k, dt, erp)) == 0
      <==> forall o, i :: o in ordens && i in o.itens ==> !SoDaDobra(o, i, k, dt, erp)
  {
    forall o | o in ordens
      ensures SoNaDobra(k, dt, erp)(o) >= 0
      ensures SoNaDobra(k, dt, erp)(o) == 0 <==> forall i :: i in o.itens ==> !SoDaDobra(o, i, k, dt, erp)
    {
      ExtraDaOrdem(o, k, dt, erp);
    }
    SomaZeroSse(ordens, SoNaDobra(k, dt, erp));
  }

  /** The fold never shows more than the query. They agree on a key exactly when the query
      already shows zero or no row of a counted order asks for pieces of that key while
      being in stand-by or belonging to an order the query skips. */
  lemma FormasConcordamSse(f: Foto, ordens: seq<Ordem>, k: Chave, dt: Opcao<int>, erp: set<(int, string)>)
    ensures var dobra, alvo :=
      Max(0, Valor(f, k) - Soma(ordens, DescontoDe(k, dt, erp))), Projetado(f, ordens, k, dt, erp);
            && dobra <= alvo
            && (dobra == alvo
              <==> alvo == 0 || forall o, i :: o in ordens && i in o.itens ==> !SoDaDobra(o, i, k, dt, erp))
  {
    DiferencaDasFormas(ordens, k, dt, erp);
    DiferencaDasFormas(ordens, k, Nada, erp);
    SemExtraSse(ordens, k, dt, erp);
  }

  predicate SemExtras(o: Ordem, dt: Opcao<int>) {
    (dt.Algo? ==> o.criada.Algo?) && forall i | i in o.itens :: i.standBy ==> i.qt <= 0
  }

  /** Every saved order is dated, so without stand-by pieces the two forms agree everywhere. */
  lemma FormasConcordam(f: Foto, ordens: seq<Ordem>, k: Chave, dt: Opcao<int>, erp: set<(int, string)>)
    requires forall o :: o in ordens ==> SemExtras(o, dt)
    ensures Projetado(f, ordens, k, dt, erp) == Max(0, Valor(f, k) - Soma(ordens, DescontoDe(k, dt, erp)))
  {
    FormasConcordamSse(f, ordens, k, dt, erp);
  }

  /** They differ: a stand-by row of two pieces hides the whole photo from the fold only. */
  lemma ExemploStandBy(nr: int)
    ensures var k, o := Chave("A", "P", "Franquia"), Ordem(nr, "A", [Peca("P", Algo("Franquia"), 2, true)], Nada);
            Projetado(map[k := 2], [o], k, Nada, {}) == 2 && Soma([o], DescontoDe(k, Nada, {})) == 2
  {
    var k, i := Chave("A", "P", "Franquia"), Peca("P", Algo("Franquia"), 2, true);
    var o := Ordem(nr, "A", [i], Nada);
    SomaUnitaria(i, NaChave("A", k));
    SomaUnitaria(i, AtivaNaChave("A", k));
    SomaUnitaria(o, DescontoDe(k, Nada, {}));
    SomaUnitaria(o, DescontoSql(k, Nada, {}));
  }

  // ----- the capacity check of a batch edit

  /** The rows of the edited orders replaced by the requested ones. */
  function Editadas(ordens: seq<Ordem>, novas: map<int, seq<Peca>>, cd: string): seq<Ordem> {
    if ordens == [] then []
    else
      var o := ordens[0];
      [if o.cd == cd && o.nr in novas then o.(itens := novas[o.nr]) else o] + Editadas(ordens[1..], novas, cd)
  }

  function Alvo(novas: map<int, seq<Peca>>, cd: string): Ordem -> bool { (o: Ordem) => o.cd == cd && o.nr in novas }

  function PecasNovas(novas: map<int, seq<Peca>>, k: Chave): Ordem -> int {
    (o: Ordem) => if o.cd == k.cd && o.nr in novas then Soma(novas[o.nr], AtivaNaChave(k.cd, k)) else 0
  }

  function PecasAtuais(novas: map<int, seq<Peca>>, k: Chave): Ordem -> int {
    (o: Ordem) => if o.cd == k.cd && o.nr in novas then Soma(o.itens, AtivaNaChave(k.cd, k)) else 0
  }

  /** `new_qty > available + old_qty` refuses the size. */
  predicate CabeNaCapacidade(f: Foto, ordens: seq<Ordem>, novas: map<int, seq<Peca>>, k: Chave, dt: Opcao<int>,
                             erp: set<(int, string)>) {
    Soma(ordens, PecasNovas(novas, k)) <= Projetado(f, ordens, k, dt, erp) + Soma(ordens, PecasAtuais(novas, k))
  }

  /** Pieces the edit gives back less those it takes, on edited orders the query does not
      discount: in the ERP already, or older than the photo. */
  function GanhoForaDaConta(novas: map<int, seq<Peca>>, k: Chave, dt: Opcao<int>,
                            erp: set<(int, string)>): Ordem -> int {
    (o: Ordem) => if ContadaSql(o, dt, erp) then 0 else PecasAtuais(novas, k)(o) - PecasNovas(novas, k)(o)
  }

  lemma {:induction false} ReservadoAposEdicao(ordens: seq<Ordem>, novas: map<int, seq<Peca>>, k: Chave, dt: Opcao<int>,
                                               erp: set<(int, string)>)
    ensures Soma(Editadas(ordens, novas, k.cd), DescontoSql(k, dt, erp))
         == Soma(ordens, DescontoSql(k, dt, erp)) - Soma(ordens, PecasAtuais(novas, k))
           + Soma(ordens, PecasNovas(novas, k))
            + Soma(ordens, GanhoForaDaConta(novas, k, dt, erp))
  {
    if ordens != [] { ReservadoAposEdicao(ordens[1..], novas, k, dt, erp); }
  }

  /** The check passes exactly when the reserved pieces end no higher than the photo or than
      what was already reserved, plus what edited orders outside the count give back: their
      pieces are freed for the others although the projection never discounted them. */
  lemma CapacidadeSse(f: Foto, ordens: seq<Ordem>, novas: map<int, seq<Peca>>, k: Chave, dt: Opcao<int>,
                      erp: set<(int, string)>)
    ensures CabeNaCapacidade(f, ordens, novas, k, dt, erp)
       <==> Soma(Editadas(ordens, novas, k.cd), DescontoSql(k, dt, erp))
            <= Max(Valor(f, k), Soma(ordens, DescontoSql(k, dt, erp)))
              + Soma(ordens, GanhoForaDaConta(novas, k, dt, erp))
  {
    ReservadoAposEdicao(ordens, novas, k, dt, erp);
    DiferencaDasFormas(ordens, k, dt, erp);
    DiferencaDasFormas(ordens, k, Nada, erp);
  }

  /** When every edited order is counted, no reservation is given more than the photo holds. */
  lemma CapacidadeContada(f: Foto, ordens: seq<Ordem>, novas: map<int, seq<Peca>>, k: Chave, dt: Opcao<int>,
                          erp: set<(int, string)>)
    requires forall o :: o in ordens && Alvo(novas, k.cd)(o) ==> ContadaSql(o, dt, erp)
    ensures CabeNaCapacidade(f, ordens, novas, k, dt, erp)
       <==> Soma(Editadas(ordens, novas, k.cd), DescontoSql(k, dt, erp))
            <= Max(Valor(f, k), Soma(ordens, DescontoSql(k, dt, erp)))
  {
    CapacidadeSse(f, ordens, novas, k, dt, erp);
    SomaDeZeros(ordens, GanhoForaDaConta(novas, k, dt, erp));
  }

  /** The pieces of rebuilt rows. */
  function PecasDe(rs: seq<Motor.Linha>, canal: string): seq<Peca> {
    Mapear(rs, (l: Motor.Linha) => Peca(l.tam, Algo(canal), l.liquida, false))
  }

  /** A grade of five pieces in one size, moved to another: the rebuild is accepted. */
  function Trocada(de: string, para: string, vl: int, variacao: bool): Edicao.Resposta<seq<Motor.Linha>> {
    Edicao.MontarGrade([Motor.Linha(de, 0, 5, 5, vl, 0)], [Rateio.Peso(para, 5)], variacao)
  }

  lemma TrocaAceita(de: string, para: string, vl: int, variacao: bool, canal: string)
    ensures var r := Trocada(de, para, vl, variacao);
            r.Aceita? && PecasDe(r.valor, canal) == [Peca(para, Algo(canal), 5, false)]
  {
    var l, p := Motor.Linha(de, 0, 5, 5, vl, 0), Rateio.Peso(para, 5);
    SomaUnitaria(l, Motor.LiquidaDe());
    SomaUnitaria(p, Rateio.QtdDe());
    assert Edicao.Mantidos([p]) == [p] && [p][1..] == [];
    assert Ordenar([p], Rateio.MenorTamanho) == [p];
  }

  const ONTEM := 1
  const HOJE := 2

  /** Yesterday's order of five P, which a photo of today does not discount, and today's of
      five M. */
  function Antes(a: int, b: int, canal: string): seq<Ordem> {
    [Ordem(a, "A", [Peca("P", Algo(canal), 5, false)], Algo(ONTEM)),
     Ordem(b, "A", [Peca("M", Algo(canal), 5, false)], Algo(HOJE))]
  }

  function FotoDeHoje(canal: string): Foto { map[Chave("A", "P", canal) := 0, Chave("A", "M", canal) := 5] }

  lemma SomasDoExemplo(a: int, b: int, canal: string, t: string)
    requires a != b
    ensures var k := Chave("A", t, canal);
            var novas: map<int, seq<Peca>> :=
              map[a := [Peca("M", Algo(canal), 5, false)], b := [Peca("P", Algo(canal), 5, false)]];
            var cinco := if t == "P" || t == "M" then 5 else 0;
            && Soma(Antes(a, b, canal), PecasNovas(novas, k)) == cinco
            && Soma(Antes(a, b, canal), PecasAtuais(novas, k)) == cinco
            && Soma(Antes(a, b, canal), DescontoSql(k, Algo(HOJE), {})) == (if t == "M" then 5 else 0)
            && Soma(Editadas(Antes(a, b, canal), novas, "A"), DescontoSql(k, Algo(HOJE), {}))
              == (if t == "P" then 5 else 0)
  {
    var k := Chave("A", t, canal);
    var x, y := Antes(a, b, canal)[0], Antes(a, b, canal)[1];
    var p, m := Peca("P", Algo(canal), 5, false), Peca("M", Algo(canal), 5, false);
    var novas: map<int, seq<Peca>> := map[a := [m], b := [p]];
    SomaUnitaria(p, AtivaNaChave("A", k));
    SomaUnitaria(m, AtivaNaChave("A", k));
    SomaDeDois(x, y, PecasNovas(novas, k));
    SomaDeDois(x, y, PecasAtuais(novas, k));
    SomaDeDois(x, y, DescontoSql(k, Algo(HOJE), {}));
    assert [x, y][1..] == [y] && [y][1..] == [];
    assert Editadas([y], novas, "A") == [y.(itens := [p])] + Editadas([], novas, "A");
    assert Editadas([x, y], novas, "A") == [x.(itens := [m])] + ([y.(itens := [p])] + []);
    SomaDeDois(x.(itens := [m]), y.(itens := [p]), DescontoSql(k, Algo(HOJE), {}));
  }

  /** The other case happens: the two orders swap sizes. Both rebuilds are accepted, in
      either kind of order, every size passes, and five P end reserved where the photo
      holds none and none was reserved before. */
  lemma ExemploForaDaConta(a: int, b: int, vl: int, variacao: bool, canal: string)
    requires a != b
    ensures var ra, rb := Trocada("P", "M", vl, variacao), Trocada("M", "P", vl, variacao);
            && ra.Aceita? && rb.Aceita?
            && var f, k := FotoDeHoje(canal), Chave("A", "P", canal);
            var novas: map<int, seq<Peca>> := map[a := PecasDe(ra.valor, canal), b := PecasDe(rb.valor, canal)];
            && (forall t: string ::
              CabeNaCapacidade(f, Antes(a, b, canal), novas, Chave("A", t, canal), Algo(HOJE), {}))
            && Soma(Editadas(Antes(a, b, canal), novas, "A"), DescontoSql(k, Algo(HOJE), {})) == 5
            && Soma(Antes(a, b, canal), DescontoSql(k, Algo(HOJE), {})) == Valor(f, k) == 0
  {
    hide Soma, Antes, Editadas, Mapear, DescontoSql, PecasNovas, PecasAtuais, Edicao.MontarGrade;
    TrocaAceita("P", "M", vl, variacao, canal);
    TrocaAceita("M", "P", vl, variacao, canal);
    var novas: map<int, seq<Peca>> :=
      map[a := [Peca("M", Algo(canal), 5, false)], b := [Peca("P", Algo(canal), 5, false)]];
    SomasDoExemplo(a, b, canal, "P");
    forall t: string
      ensures CabeNaCapacidade(FotoDeHoje(canal), Antes(a, b, canal), novas, Chave("A", t, canal), Algo(HOJE), {})
    {
      SomasDoExemplo(a, b, canal, t);
    }
  }

  // ----- the check as the batch runs it

  datatype Pedida = Pedida(tam: string, qt: int)

  function NoTamanho(t: string): Pedida -> int { (x: Pedida) => if x.tam == t && x.qt > 0 then x.qt else 0 }

  function PorTamanho(m: map<string, nat>, t: string): nat { if t in m then m[t] else 0 }

  method SomarPorTamanho(xs: seq<Pedida>) returns (m: map<string, nat>)
    ensures forall t: string :: PorTamanho(m, t) == Soma(xs, NoTamanho(t))
  {
    m := map[];
    for i := 0 to |xs|
      invariant forall t: string :: PorTamanho(m, t) == Soma(xs[..i], NoTamanho(t))
    {
      var x := xs[i];
      forall t: string
        ensures Soma(xs[..i + 1], NoTamanho(t)) == Soma(xs[..i], NoTamanho(t)) + NoTamanho(t)(x)
      {
        SomaPrefixo(xs, i, NoTamanho(t));
      }
      if x.qt > 0 { m := m[x.tam := PorTamanho(m, x.tam) + x.qt]; }
    }
    PrefixoTodo(xs);
  }

  /** Accepts the batch exactly when every size fits what is available plus what the
      edited reservations give back. */
  method VerificarCapacidade(atuais: seq<Pedida>, novas: seq<Pedida>, disponivel: map<string, nat>) returns (ok: bool)
    ensures ok
      <==> forall t: string :: Soma(novas, NoTamanho(t)) <= PorTamanho(disponivel, t) + Soma(atuais, NoTamanho(t))
  {
    var antigas := SomarPorTamanho(atuais);
    var pedidas := SomarPorTamanho(novas);
    var restam := pedidas.Keys;
    ok := true;
    while restam != {} && ok
      invariant restam <= pedidas.Keys
      invariant forall t :: t in pedidas && t !in restam && ok ==>
        pedidas[t] <= PorTamanho(disponivel, t) + PorTamanho(antigas, t)
      invariant !ok ==> exists t :: t in pedidas && pedidas[t] > PorTamanho(disponivel, t) + PorTamanho(antigas, t)
      decreases restam, ok
    {
      var t :| t in restam;
      if pedidas[t] > PorTamanho(disponivel, t) + PorTamanho(antigas, t) { ok := false; }
      restam := restam - {t};
    }
    forall t: string
      ensures Soma(novas, NoTamanho(t)) == PorTamanho(pedidas, t)
        && Soma(atuais, NoTamanho(t)) == PorTamanho(antigas, t)
    {
    }
  }

  // ----- the sums of the check are the pieces of the edited orders

  /** The sizes and pieces of the active rows. */
  function Ativas(itens: seq<Peca>): seq<Pedida> {
    if itens == [] then []
    else Se(!itens[0].standBy && itens[0].tam != "", Pedida(itens[0].tam, itens[0].qt)) + Ativas(itens[1..])
  }

  function AtuaisDoLote(ordens: seq<Ordem>, novas: map<int, seq<Peca>>, cd: string): seq<Pedida> {
    if ordens == [] then []
    else (if Alvo(novas, cd)(ordens[0]) then Ativas(ordens[0].itens) else []) + AtuaisDoLote(ordens[1..], novas, cd)
  }

  function NovasDoLote(ordens: seq<Ordem>, novas: map<int, seq<Peca>>, cd: string): seq<Pedida> {
    if ordens == [] then []
    else (if Alvo(novas, cd)(ordens[0]) then Ativas(novas[ordens[0].nr]) else []) + NovasDoLote(ordens[1..], novas, cd)
  }

  predicate DoCanal(itens: seq<Peca>, canal: string) { forall i | i in itens :: i.canal == Algo(canal) }

  /** The batch edits one product in one channel. */
  predicate LoteDoCanal(ordens: seq<Ordem>, novas: map<int, seq<Peca>>, cd: string, canal: string) {
    forall o | o in ordens && Alvo(novas, cd)(o) :: DoCanal(o.itens, canal) && DoCanal(novas[o.nr], canal)
  }

  lemma {:induction false} AtivasSomam(itens: seq<Peca>, cd: string, t: string, canal: string)
    requires DoCanal(itens, canal)
    ensures Soma(Ativas(itens), NoTamanho(t)) == if t == "" then 0
      else Soma(itens, AtivaNaChave(cd, Chave(cd, t, canal)))
  {
    if itens != [] {
      AtivasSomam(itens[1..], cd, t, canal);
      var i := itens[0];
      SomaConcat(Se(!i.standBy && i.tam != "", Pedida(i.tam, i.qt)), Ativas(itens[1..]), NoTamanho(t));
      SomaUnitaria(Pedida(i.tam, i.qt), NoTamanho(t));
    }
  }

  lemma {:induction false} LoteSoma(ordens: seq<Ordem>, novas: map<int, seq<Peca>>, cd: string, t: string,
                                    canal: string)
    requires LoteDoCanal(ordens, novas, cd, canal)
    ensures Soma(AtuaisDoLote(ordens, novas, cd), NoTamanho(t)) == if t == "" then 0
      else Soma(ordens, PecasAtuais(novas, Chave(cd, t, canal)))
    ensures Soma(NovasDoLote(ordens, novas, cd), NoTamanho(t)) == if t == "" then 0
      else Soma(ordens, PecasNovas(novas, Chave(cd, t, canal)))
  {
    if ordens != [] {
      var o, r := ordens[0], ordens[1..];
      LoteSoma(r, novas, cd, t, canal);
      SomaConcat(if Alvo(novas, cd)(o) then Ativas(o.itens) else [], AtuaisDoLote(r, novas, cd), NoTamanho(t));
      SomaConcat(if Alvo(novas, cd)(o) then Ativas(novas[o.nr]) else [], NovasDoLote(r, novas, cd), NoTamanho(t));
      if Alvo(novas, cd)(o) {
        assert o in ordens;
        AtivasSomam(o.itens, cd, t, canal);
        AtivasSomam(novas[o.nr], cd, t, canal);
      }
    }
  }

  /** The batch is accepted exactly when, for every size, the reserved pieces end within
      what `CapacidadeSse` says. */
  method VerificarLote(f: Foto, ordens: seq<Ordem>, novas: map<int, seq<Peca>>, cd: string, canal: string,
                       disponivel: map<string, nat>, ghost dt: Opcao<int>, ghost erp: set<(int, string)>)
    returns (ok: bool)
    requires LoteDoCanal(ordens, novas, cd, canal)
    requires forall t: string :: t != "" ==>
      PorTamanho(disponivel, t) == Projetado(f, ordens, Chave(cd, t, canal), dt, erp)
    ensures ok <==> forall t: string :: t != "" ==> CabeNaCapacidade(f, ordens, novas, Chave(cd, t, canal), dt, erp)
  {
    hide Projetado, Soma;
    forall t: string
      ensures Soma(AtuaisDoLote(ordens, novas, cd), NoTamanho(t)) == if t == "" then 0
        else Soma(ordens, PecasAtuais(novas, Chave(cd, t, canal)))
      ensures Soma(NovasDoLote(ordens, novas, cd), NoTamanho(t)) == if t == "" then 0
        else Soma(ordens, PecasNovas(novas, Chave(cd, t, canal)))
    {
      LoteSoma(ordens, novas, cd, t, canal);
    }
    ok := VerificarCapacidade(AtuaisDoLote(ordens, novas, cd), NovasDoLote(ordens, novas, cd), disponivel);
  }
}
