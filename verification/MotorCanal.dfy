/** One channel's run, at the value level: the priority queue over orders and the
    fold that lets each order decide against what the earlier ones left. */
module MotorCanal {
  import opened Listas
  import opened Orcamento
  import opened Motor

  /** One entry of the flat stock dictionary, in iteration order. */
  datatype Posicao = Posicao(chave: string, qt: nat)

  datatype Config = Config(
    modo: Modo, porQuantidade: bool, tolerancia: Tolerancia,
    totalOriginal: map<int, nat>, previoAdicao: map<int, nat>, previoCorte: map<int, nat>)

  // ----- the stock of each product

  /** The key starts with the product code and a separator. */
  predicate DoPrefixo(chave: string, cd: string) {
    |cd| < |chave| && chave[..|cd|] == cd && chave[|cd|] == '_'
  }

  function PorProduto(estoque: seq<Posicao>, cd: string): Estoque {
    if estoque == [] then map[]
    else
      var r := PorProduto(estoque[..|estoque| - 1], cd);
      var p := estoque[|estoque| - 1];
      if DoPrefixo(p.chave, cd) then r[p.chave := p.qt] else r
  }

  function QtNoPrefixo(cd: string): Posicao -> int {
    (p: Posicao) => if DoPrefixo(p.chave, cd) then p.qt else 0
  }

  function TotalProduto(estoque: seq<Posicao>, cd: string): int { Soma(estoque, QtNoPrefixo(cd)) }

  // ----- the orders in the input

  function NrDe(): Item -> int { (i: Item) => i.nr }
  function CdDe(): Item -> string { (i: Item) => i.cd }
  function DoPedido(nr: int): Item -> bool { (i: Item) => i.nr == nr }
  function DoProduto(cd: string): Item -> bool { (i: Item) => i.cd == cd }
  function DoPar(nr: int, cd: string): Item -> bool { (i: Item) => i.nr == nr && i.cd == cd }

  function ItensDoPedido(dados: seq<Item>, nr: int): seq<Item> { Filtrar(dados, DoPedido(nr)) }
  function Produtos(its: seq<Item>): seq<string> { Chegada(Mapear(its, CdDe())) }
  function Nrs(dados: seq<Item>): seq<int> { Chegada(Mapear(dados, NrDe())) }

  function Agrupar(its: seq<Item>): Grades {
    map cd | cd in Produtos(its) :: Filtrar(its, DoProduto(cd))
  }

  predicate SemCredito(its: seq<Item>) { exists i | i in its :: i.semCredito }
  predicate NaBlacklist(its: seq<Item>) { exists i | i in its :: i.blacklist }

  /** The budget left to the order; an order without data falls back to its own rows. */
  function SaldoDoPedido(cfg: Config, nr: int, its: seq<Item>): Saldo {
    SomaNaoNegativa(its, QtDe());
    var total: nat := if nr in cfg.totalOriginal then cfg.totalOriginal[nr] else Soma(its, QtDe());
    SaldoInicial(total,
                 if nr in cfg.previoAdicao then cfg.previoAdicao[nr] else 0,
                 if nr in cfg.previoCorte then cfg.previoCorte[nr] else 0,
                 cfg.tolerancia)
  }

  function DecisaoDoPedido(cfg: Config, nr: int, its: seq<Item>, ests: Estoques): map<string, Decisao> {
    DecidirPedido(cfg.modo, NaBlacklist(its), Produtos(its), Agrupar(its), ests, SaldoDoPedido(cfg, nr, its))
  }

  // ----- priority

  function PontosDe(estoque: seq<Posicao>, porQuantidade: bool): Item -> int {
    (i: Item) => if TotalProduto(estoque, i.cd) > 0 then (if porQuantidade then i.qt else i.vl) else 0
  }

  function Pontos(its: seq<Item>, estoque: seq<Posicao>, porQuantidade: bool): int {
    Soma(its, PontosDe(estoque, porQuantidade))
  }

  function ProdutosDisponiveis(its: seq<Item>, estoque: seq<Posicao>): nat {
    |set i | i in its && TotalProduto(estoque, i.cd) > 0 :: i.cd|
  }

  /** Higher score first, then more available products, then the lower order number. */
  predicate VemAntes(dados: seq<Item>, estoque: seq<Posicao>, porQuantidade: bool, a: int, b: int) {
    var (ia, ib) := (ItensDoPedido(dados, a), ItensDoPedido(dados, b));
    var (pa, pb) := (Pontos(ia, estoque, porQuantidade), Pontos(ib, estoque, porQuantidade));
    var (na, nb) := (ProdutosDisponiveis(ia, estoque), ProdutosDisponiveis(ib, estoque));
    pa > pb || (pa == pb && (na > nb || (na == nb && a < b)))
  }

  function OrdemPrioridade(dados: seq<Item>, estoque: seq<Posicao>, porQuantidade: bool): (int, int) -> bool {
    (a, b) => VemAntes(dados, estoque, porQuantidade, a, b)
  }

  function ComCredito(dados: seq<Item>): int -> bool { nr => !SemCredito(ItensDoPedido(dados, nr)) }

  function Fila(dados: seq<Item>, estoque: seq<Posicao>, cfg: Config): seq<int> {
    Ordenar(Filtrar(Nrs(dados), ComCredito(dados)), OrdemPrioridade(dados, estoque, cfg.porQuantidade))
  }

  // ----- the run

  type Decisoes = map<int, map<string, Decisao>>

  datatype Rodada = Rodada(decisoes: Decisoes, estoques: Estoques) | Abortada

  function Locais(dados: seq<Item>, estoque: seq<Posicao>): Estoques {
    map cd | cd in Produtos(dados) :: PorProduto(estoque, cd)
  }

  /** How each order decides, given the stock it finds. */
  type Decisor = (int, Estoques) -> map<string, Decisao>

  function DecisorDe(dados: seq<Item>, cfg: Config): Decisor {
    (nr, ests) => DecisaoDoPedido(cfg, nr, ItensDoPedido(dados, nr), ests)
  }

  /** Orders decide one after the other; a failed money step aborts the whole run. */
  function Rodar(fila: seq<int>, decidir: Decisor, ests: Estoques): Rodada {
    if fila == [] then Rodada(map[], ests)
    else
      var ds := decidir(fila[0], ests);
      if Aborta(ds) then Abortada
      else
        match Rodar(fila[1..], decidir, DebitarPedido(ests, ds))
        case Abortada => Abortada
        case Rodada(d, e) => Rodada(d[fila[0] := ds], e)
  }

  function ProcessarCanal(dados: seq<Item>, estoque: seq<Posicao>, cfg: Config): Rodada {
    Rodar(Fila(dados, estoque, cfg), DecisorDe(dados, cfg), Locais(dados, estoque))
  }

  predicate ChavesDistintas(estoque: seq<Posicao>) {
    forall i, j :: 0 <= i < j < |estoque| ==> estoque[i].chave != estoque[j].chave
  }
}
