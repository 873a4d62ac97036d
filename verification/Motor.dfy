/** The allocation engine, at the value level: what one (order, product) pair, one
    order, and one channel decide. */
module Motor {
  import opened Aritmetica
  import opened Listas
  import opened Orcamento
  import Rateio

  /** One pending row: a size of a product of an order. `idx` is the size's place in
      its grade (`get_tamanho_idx`), 999 when unknown; values are in cents. */
  datatype Item = Item(nr: int, cd: string, tam: string, idx: nat, qt: nat, vl: int, semCredito: bool, blacklist: bool)

  const DESCONHECIDO: nat := 999

  /** One row of a reservation. */
  datatype Linha = Linha(tam: string, idx: nat, solicitada: nat, liquida: nat, vl: int, diff: int)

  datatype Motivo = SemEstoque | FuroGrade | Blacklist

  datatype Decisao =
    | GerarOR(linhas: seq<Linha>)
    | StandBy(motivo: Motivo)
    | DivisaoPorZero  // the money step divides by a zero quantity and aborts the run

  datatype Modo = Adequar | SemAdequar

  /** The local stock of one product: flat key to pieces. */
  type Estoque = map<string, nat>

  function Chave(cd: string, tam: string): string { cd + "_" + tam }

  function Disp(est: Estoque, chave: string): nat { if chave in est then est[chave] else 0 }

  // ----- one pair

  function FaltaDe(est: Estoque, cd: string): Item -> int {
    (i: Item) => Max(0, i.qt - Disp(est, Chave(cd, i.tam)))
  }

  function FaltaNecessaria(itens: seq<Item>, est: Estoque, cd: string): nat {
    SomaNaoNegativa(itens, FaltaDe(est, cd));
    Soma(itens, FaltaDe(est, cd))
  }

  predicate Reconhecido(i: Item) { i.qt > 0 && i.idx != DESCONHECIDO }

  /** A requested size with no stock, strictly inside the requested grade. */
  predicate InteriorVazio(itens: seq<Item>, est: Estoque, cd: string, i: Item) {
    && Reconhecido(i) && Disp(est, Chave(cd, i.tam)) == 0
    && (exists lo | lo in itens :: Reconhecido(lo) && lo.idx < i.idx)
    && (exists hi | hi in itens :: Reconhecido(hi) && i.idx < hi.idx)
  }

  predicate TemFuro(itens: seq<Item>, est: Estoque, cd: string) {
    exists i | i in itens :: InteriorVazio(itens, est, cd, i)
  }

  /** The row reserved by pass 1: cut down to the stock when something is missing. */
  function Reduzir(est: Estoque, cd: string, falta: nat): Item -> Linha {
    (i: Item) => Linha(i.tam, i.idx, i.qt, if falta > 0 then Min(i.qt, Disp(est, Chave(cd, i.tam))) else i.qt, i.vl, 0)
  }

  function Passada1(itens: seq<Item>, est: Estoque, cd: string): seq<Linha> {
    Mapear(itens, Reduzir(est, cd, FaltaNecessaria(itens, est, cd)))
  }

  /** The smallest or the largest known size of the pair. */
  predicate Extremo(ls: seq<Linha>, l: Linha) {
    && l.idx != DESCONHECIDO
    && ((forall k | k in ls && k.idx != DESCONHECIDO :: l.idx <= k.idx)
        || (forall k | k in ls && k.idx != DESCONHECIDO :: k.idx <= l.idx))
  }

  /** Stock beyond the quantity already reserved, at an extreme size of `grade`. */
  function EspacoDe(grade: seq<Linha>, est: Estoque, cd: string): Linha -> nat {
    (l: Linha) => if Extremo(grade, l) then Max(0, Disp(est, Chave(cd, l.tam)) - l.liquida) else 0
  }

  /** Hands out the allowance in list order, each row up to its space; the second
      component is what remains. */
  function Distribuir(ls: seq<Linha>, espaco: Linha -> nat, saldo: nat): (seq<Linha>, nat) {
    if ls == [] then ([], saldo)
    else
      var c := Min(espaco(ls[0]), saldo);
      var g := Distribuir(ls[1..], espaco, saldo - c);
      ([ls[0].(liquida := ls[0].liquida + c)] + g.0, g.1)
  }

  /** Extra pieces for the extreme sizes of the pair. */
  function Conceder(ls: seq<Linha>, est: Estoque, cd: string, saldo: nat): (seq<Linha>, nat) {
    Distribuir(ls, EspacoDe(ls, est, cd), saldo)
  }

  function SolicitadaDe(): Linha -> int { (l: Linha) => l.solicitada }
  function LiquidaDe(): Linha -> int { (l: Linha) => l.liquida }
  function ValorDe(): Linha -> int { (l: Linha) => l.vl }
  function OriginalDe(): Linha -> int { (l: Linha) => l.vl - l.diff }
  function CorteDe(): Linha -> int { (l: Linha) => Max(0, l.solicitada - l.liquida) }
  function AdicaoDe(): Linha -> int { (l: Linha) => Max(0, l.liquida - l.solicitada) }
  function QtDe(): Item -> int { (i: Item) => i.qt }
  function VlDe(): Item -> int { (i: Item) => i.vl }

  function ParaPeso(): Linha -> Rateio.Peso { (l: Linha) => Rateio.Peso(l.tam, l.liquida) }
  function Pesos(ls: seq<Linha>): seq<Rateio.Peso> { Mapear(ls, ParaPeso()) }

  function Total(ls: seq<Linha>, f: Linha -> int): int { Soma(ls, f) }

  /** `n / d` rounded to the nearest integer, halves away from zero. */
  function MeioAcima(n: int, d: nat): int requires d > 0 {
    if n >= 0 then (2 * n + d) / (2 * d) else 0 - (2 * (-n) + d) / (2 * d)
  }

  /** The money to apportion: average original unit price times the final quantity. */
  function TotalARatear(ls: seq<Linha>): int {
    var s := Total(ls, SolicitadaDe());
    if s > 0 then MeioAcima(Total(ls, ValorDe()) * Total(ls, LiquidaDe()), s) else 0
  }

  function Reprecificar(total: int, pesos: seq<Rateio.Peso>): Linha -> Linha requires Rateio.PesoTotal(pesos) > 0 {
    (l: Linha) =>
      var v := Rateio.ParteComSinal(total, pesos, ParaPeso()(l));
      l.(vl := v, diff := v - l.vl)
  }

  function Financeiro(ls: seq<Linha>): seq<Linha> requires Rateio.PesoTotal(Pesos(ls)) > 0 {
    Mapear(ls, Reprecificar(TotalARatear(ls), Pesos(ls)))
  }

  /** The money step on a finished pair. */
  function Fechar(ls: seq<Linha>): Decisao {
    if ls == [] then StandBy(SemEstoque)
    else if Rateio.PesoTotal(Pesos(ls)) == 0 then DivisaoPorZero
    else GerarOR(Financeiro(ls))
  }

  function Integral(): Item -> Linha { (i: Item) => Linha(i.tam, i.idx, i.qt, i.qt, i.vl, 0) }

  /** All or nothing: the grade exactly as requested, or stand-by. */
  function TudoOuNada(itens: seq<Item>, est: Estoque, cd: string, blacklist: bool): Decisao {
    if TemFuro(itens, est, cd) then StandBy(if blacklist then Blacklist else FuroGrade)
    else if FaltaNecessaria(itens, est, cd) > 0 || itens == [] then StandBy(if blacklist then Blacklist else SemEstoque)
    else GerarOR(Mapear(itens, Integral()))
  }

  /** Stock after the rows of one pair are reserved; floored at zero, as the code does. */
  function Debitar(est: Estoque, cd: string, ls: seq<Linha>): Estoque
    decreases ls
  {
    if ls == [] then est
    else
      var k := Chave(cd, ls[0].tam);
      Debitar(est[k := Max(0, Disp(est, k) - ls[0].liquida)], cd, ls[1..])
  }

  function DebitarDecisao(est: Estoque, cd: string, d: Decisao): Estoque {
    if d.GerarOR? then Debitar(est, cd, d.linhas) else est
  }

  // ----- one order: `m` groups its items by product, `chegada` lists the products
  // in order of arrival, `ests` holds each product's local stock

  type Grades = map<string, seq<Item>>
  type Estoques = map<string, Estoque>

  function Grade(m: Grades, cd: string): seq<Item> { if cd in m then m[cd] else [] }
  function Local(ests: Estoques, cd: string): Estoque { if cd in ests then ests[cd] else map[] }

  function FaltaPar(m: Grades, ests: Estoques, cd: string): nat {
    FaltaNecessaria(Grade(m, cd), Local(ests, cd), cd)
  }

  function SemFuro(m: Grades, ests: Estoques): string -> bool {
    cd => !TemFuro(Grade(m, cd), Local(ests, cd), cd)
  }

  /** Average original unit price, as an exact rational. */
  function PrecoMedio(itens: seq<Item>): real {
    var q := Soma(itens, QtDe());
    if q <= 0 then 0.0 else Soma(itens, VlDe()) as real / q as real
  }

  predicate MenorFalta(m: Grades, ests: Estoques, a: string, b: string) {
    FaltaPar(m, ests, a) < FaltaPar(m, ests, b) || (FaltaPar(m, ests, a) == FaltaPar(m, ests, b) && MenorTexto(a, b))
  }

  function OrdemPassada1(m: Grades, ests: Estoques): (string, string) -> bool {
    (a, b) => MenorFalta(m, ests, a, b)
  }

  predicate MaiorPreco(m: Grades, a: string, b: string) {
    PrecoMedio(Grade(m, a)) > PrecoMedio(Grade(m, b))
    || (PrecoMedio(Grade(m, a)) == PrecoMedio(Grade(m, b)) && MenorTexto(a, b))
  }

  function OrdemPassada2(m: Grades): (string, string) -> bool {
    (a, b) => MaiorPreco(m, a, b)
  }

  function FilaPassada1(chegada: seq<string>, m: Grades, ests: Estoques): seq<string> {
    Ordenar(Filtrar(chegada, SemFuro(m, ests)), OrdemPassada1(m, ests))
  }

  /** Pass 1 over the queue: each product spends its whole cut or is refused. */
  function Aprovar(fila: seq<string>, falta: string -> nat, corte: nat): seq<string> {
    if fila == [] then []
    else if falta(fila[0]) <= corte then [fila[0]] + Aprovar(fila[1..], falta, corte - falta(fila[0]))
    else Aprovar(fila[1..], falta, corte)
  }

  function FaltaPor(m: Grades, ests: Estoques): string -> nat { cd => FaltaPar(m, ests, cd) }

  function SemCorte(m: Grades, ests: Estoques): string -> bool { cd => FaltaPar(m, ests, cd) == 0 }

  function Aprovados(chegada: seq<string>, m: Grades, ests: Estoques, corte: nat): seq<string> {
    Aprovar(FilaPassada1(chegada, m, ests), FaltaPor(m, ests), corte)
  }

  function FilaPassada2(aprovados: seq<string>, m: Grades, ests: Estoques): seq<string> {
    Ordenar(Filtrar(aprovados, SemCorte(m, ests)), OrdemPassada2(m))
  }

  /** Pass 2 of one product, given the allowance it finds. */
  type Concessor = (string, nat) -> (seq<Linha>, nat)

  function ConcessorDe(m: Grades, ests: Estoques): Concessor {
    (cd, saldo) => Conceder(Passada1(Grade(m, cd), Local(ests, cd), cd), Local(ests, cd), cd, saldo)
  }

  /** Pass 2 over the queue, threading the addition allowance. */
  function Extras(fila: seq<string>, f: Concessor, adicao: nat): map<string, seq<Linha>> {
    if fila == [] then map[]
    else var g := f(fila[0], adicao); Extras(fila[1..], f, g.1)[fila[0] := g.0]
  }

  /** What pass 2 leaves of the addition allowance. */
  function RestanteAdicao(fila: seq<string>, f: Concessor, adicao: nat): nat {
    if fila == [] then adicao else RestanteAdicao(fila[1..], f, f(fila[0], adicao).1)
  }

  function LinhasFinais(extras: map<string, seq<Linha>>, m: Grades, ests: Estoques, cd: string): seq<Linha> {
    if cd in extras then extras[cd] else Passada1(Grade(m, cd), Local(ests, cd), cd)
  }

  /** The outcome of one product once both passes are over. */
  function Desfecho(ap: seq<string>, extras: map<string, seq<Linha>>, m: Grades, ests: Estoques, cd: string): Decisao {
    if TemFuro(Grade(m, cd), Local(ests, cd), cd) then StandBy(FuroGrade)
    else if cd in ap then Fechar(LinhasFinais(extras, m, ests, cd))
    else StandBy(SemEstoque)
  }

  function DecidirAdequar(chegada: seq<string>, m: Grades, ests: Estoques, saldo: Saldo): map<string, Decisao> {
    var ap := Aprovados(chegada, m, ests, saldo.corte);
    var extras := Extras(FilaPassada2(ap, m, ests), ConcessorDe(m, ests), saldo.adicao);
    Desfechos(ap, extras, m, ests)
  }

  function Desfechos(ap: seq<string>, extras: map<string, seq<Linha>>, m: Grades, ests: Estoques)
    : map<string, Decisao>
  {
    map cd | cd in m :: Desfecho(ap, extras, m, ests, cd)
  }

  function DecidirTudoOuNada(m: Grades, ests: Estoques, blacklist: bool): map<string, Decisao> {
    map cd | cd in m :: TudoOuNada(m[cd], Local(ests, cd), cd, blacklist)
  }

  /** `saldo` is what is left of the order's budget at the start of the run. */
  function DecidirPedido(modo: Modo, blacklist: bool, chegada: seq<string>, m: Grades, ests: Estoques,
                         saldo: Saldo): map<string, Decisao> {
    if modo == SemAdequar || blacklist then DecidirTudoOuNada(m, ests, blacklist)
    else DecidirAdequar(chegada, m, ests, saldo)
  }

  predicate Aborta(ds: map<string, Decisao>) { exists cd | cd in ds :: ds[cd].DivisaoPorZero? }

  function DebitarPedido(ests: Estoques, ds: map<string, Decisao>): Estoques {
    map cd | cd in ests.Keys + ds.Keys :: if cd in ds then DebitarDecisao(Local(ests, cd), cd, ds[cd]) else ests[cd]
  }
}
