# Verified model of the reservation system

This project models, in Dafny, the parts of the system whose behaviour depends on more
than one function at a time, and proves what they are for. Names follow the domain
(Portuguese); methods that mirror the code loop by loop are proved against
specification functions, and the properties are proved about those functions.

**Reservation engine** (`Motor`, `MotorPar`, `MotorPedido`, `MotorLocalidade`,
`MotorCanal`, `MotorTeoremas`, `MotorPrioridade`, `MotorFalhas`, `MotorPassos`,
`MotorExecucao`, `Plano`).
Orders compete, in a strict priority order, for stock shared per product and size. Each
order spends a cut budget (all or nothing per product, smallest shortage first) and an
addition budget (saturating, best unit price first), then money is re-split to the cent
and stock is committed. Proved over whole runs: stock is conserved, the result does not
depend on input order, credit-blocked orders disturb nobody and lower-priority orders
disturb nobody ahead of them unless they abort the run, a channel completes on every
stock under exactly one condition on its input, pass 1 serves as many products as any
choice that fits the budget and is given in closed form, no order exceeds its budgets,
and every pair ends in exactly one list. Who is served first, among orders and among the
products of an order in each pass, is stated on the rows of the input and of the result.

**Budget over an order's life** (`Orcamento`, `OrcamentoVivo`, `OrcamentoCadeia`,
`OrcamentoReescrita`, `OrcamentoLimites`, `Edicao`, `Rateio`). Each run re-reads consumption from the saved
reservations; edits rewind and recharge it. Proved: over any interleaving of runs,
snapshot departures and accepted "sem" edits the original total is constant and neither
consumption exceeds the larger of the limit and its starting value; with "com" edits and
new imports as well, neither exceeds the larger of its starting value and the largest
limit in force when something was spent; and an order within its limits stays within its
current ones over every kind of step exactly when the departures and imports it goes
through pass a check stated on the state before them. Apportionment by largest remainder
is exact, and its three laws determine every part.

**Realtime outbox** (`Eventos`, `OutboxInvariantes`, `OutboxPassos`, `OutboxLeituras`,
`OutboxRele`, `OutboxRepositorio`, `Transmissao`, `Janelas`, `Conexoes`, `Reconexao`,
`Sessoes`, `Percursos`). A class whose methods are the repository's transactions keeps
the tables equal to a recorded history: topic sequences are 1..n, unseen counts are exact
after any cleanup, a replay without error is exactly the history of the window, a relay
cycle publishes exactly the events that are due in order, and the first appearances in
the stream are a prefix of the history under any number of relays, expired leases, late
or repeated sends and rolled-back cycles. Whatever the stream repeats, reorders or drops,
the listener offers each socket that stays open every committed event of its interval,
once and in order; the socket's window of identifiers then lets through exactly those
whose identifier it does not hold. A client that reconnects gets, over the replay and the
live queue together, each event once, as long as identifiers are distinct, no repetition
outruns the window and no event of its topics lies between its watermark and the point
from which it was offered live events; and it gets the replayed ones in order exactly when
none of them that arrived live before its turn is followed by one that did not.

**E-mail deliveries** (`EntregasProtocolo`, `EntregasFila`, `Entregas`). A transition
system of workers, leases, crashes and a mail server whose answers may be lost or false,
and the batch loop run among other workers, with its counters and notifications.

**Virtual stock and ingestion** (`EstoqueVirtual`, `Agregacao`, `AgregacaoPassos`).

`Listas` and `Aritmetica` hold the list and arithmetic facts the rest shares.

## What the code does differently from its intent

- A product approved by pass 1 with no stock in any requested size is cut to nothing;
  its money step then divides by a zero quantity and the whole run fails.
  `MotorPedido.AbortaSeCortaTudo` says exactly when, in terms of the stock and the
  shortages; `MotorFalhas.CompletaSse` says for which inputs it happens on no stock at
  all; `MotorFalhas.ExemploDeAborto` is a concrete input. Requested quantities are taken
  to be positive, which the ingestion checks (app/modules/ingestao/domain/agregacao.py:191).
- Because of it a lower-priority order can undo the reservations of the orders ahead of
  it (`MotorFalhas.ExemploAbortoAlheio`); `MotorTeoremas.AnterioresNaoSaoAfetados` and
  `MotorFalhas.AnterioresIntactos` say what holds.
- Editing a "com" reservation overwrites the requested quantities, so the order's budget
  forgets what the pair had consumed, and its original total what the pair had asked for
  (`OrcamentoReescrita.EdicaoComEsqueceConsumo`, `OrcamentoReescrita.ExemploEdicaoCom`).
  Once the pair left the snapshot, an order within its cut limit stays within it; one
  within its addition limit may not (`OrcamentoReescrita.LimiteAposReescrita`,
  `OrcamentoReescrita.ExemploAdicaoAcimaDoLimite`). While the pair is still there, it is
  its departure that lowers the total, and with it the limit, below what was consumed
  meanwhile (`OrcamentoLimites.ExemploSaidaAcimaDoLimite`);
  `OrcamentoLimites.DentroParaSempreSse` is the exact condition over whole runs.
- What a ledger reports as consumed in total is what was consumed before plus now only if
  what was consumed before did not exceed the limit (`Orcamento.ConsumidoTotalSse`).
- Event identifiers are recognised only while their row is retained
  (`OutboxPassos.IdReconhecidoSse`), so one can be committed again, and inside the window
  of an open socket the second event is silently dropped: `Percursos.PerderEvento` is such
  a run, `Transmissao.SocketAbertoSse` the exact condition.
- Marking an event published does not look at the stream; the stream keeps what was marked
  exactly when the event had been sent (`OutboxRepositorio.Outbox.MarkPublished`).
- A reconnecting client may get a replayed event after a later one, when the earlier one
  arrived live before its turn and the later one did not (`Percursos.ReplayForaDeOrdem`);
  `Reconexao.ReplayEmOrdemSse` says on the arrivals exactly when the order is kept, and
  `Sessoes.ConcluirReplay` says it of what the session sent.
- It misses the events committed between its watermark and the first event of a listener
  that had no position (`Percursos.PerderOPrimeiro`); `Reconexao.RecebeTudoSse` is the
  exact condition.
- The full stock projection discounts stand-by rows, the targeted query does not; they
  agree on a key exactly as `EstoqueVirtual.FormasConcordamSse` says. The two also treat
  undated orders differently, but saved orders always have a date
  (app/modules/pedidos/infrastructure/models.py:59-61).
- The capacity check of a batch edit gives back the pieces of edited orders that the
  projection never discounted (`EstoqueVirtual.CapacidadeSse`): two orders that swap sizes
  are accepted and end with more reserved than the photo holds
  (`EstoqueVirtual.ExemploForaDaConta`).
- The plan counts blocked orders, not blocked pairs, so its counters add up to the
  candidates only when no blocked order has two products (`Plano.ContadoresSomamSse`).
- docs/adequacao.md:169 says an order keeps its total quantity under edits; the code lets
  "sem" reservations vary, and the model follows the code.

## Model

| member | source | states |
|---|---|---|
| Rateio.SomaExata | app/modules/pedidos/domain/rateio.py:45-87 | the parts of any total over distinct sizes with positive weight add up to the total |
| Rateio.SomaExataComSinal | app/modules/pedidos/domain/rateio.py:10-42 | the same for a signed total in cents |
| Rateio.SinalOposto | app/modules/pedidos/domain/rateio.py:20-42 | negating the total negates every part |
| Rateio.ParteNaQuota | app/modules/pedidos/domain/rateio.py:26-38 | every part differs from its exact share by less than one unit |
| Rateio.ParteExata | app/modules/pedidos/domain/rateio.py:26-38 | a share that is whole is given exactly; zero weight gets zero |
| Rateio.ParteMonotona | app/modules/pedidos/domain/rateio.py:26-38 | a strictly larger weight never gets less |
| Rateio.MaiorRestoGanha | app/modules/pedidos/domain/rateio.py:31-38 | a size above its floor beats one that is not: its share has the larger remainder or, on a tie, it comes first alphabetically |
| Rateio.MaiorRestoUnico | app/modules/pedidos/domain/rateio.py:45-87 | floors or one more, the exact sum and that rule leave no choice: they determine every part |
| Rateio.ParteIndependeDaOrdem | app/modules/pedidos/domain/rateio.py:26-38 | the parts do not depend on the order of the sizes |
| Rateio.FatiaSaoOsPrimeirosPostos | alembic/versions/019_normaliza_vl_liquido_por_tamanho.py:97-124 | the slice of the sorted remainders used in Python and the rank of the SQL window choose the same sizes |
| Rateio.SobraLimitada | app/modules/pedidos/domain/rateio.py:25-31 | the left-over units are between zero and the number of sizes with a remainder |
| Rateio.RatearHamilton | app/modules/pedidos/domain/rateio.py:10-42 | fails exactly on a zero weight sum; otherwise every size gets the floor of its share of the magnitude or one cent more, the parts add up, the extra cents go to the largest remainders (ties alphabetically), and all carry the sign |
| Rateio.RatearInteiro | app/modules/pedidos/domain/rateio.py:45-87 | refuses a negative total, no sizes or zero weights, in that order; otherwise floors or one more, adding up, with the extra pieces on the largest remainders, ties alphabetically |
| Orcamento.LimiteEhPiso | app/modules/pedidos/domain/orcamento_pedido.py:74-88 | the allowance is the floor of tolerance times total and never exceeds the total |
| Orcamento.OrcamentoPedido.constructor | app/modules/pedidos/domain/orcamento_pedido.py:69-72 | both remaining allowances start at the limit minus what was consumed before, at least zero |
| Orcamento.OrcamentoPedido.ConsumirCorte | app/modules/pedidos/domain/orcamento_pedido.py:116-128 | takes the whole quantity or nothing, and never touches the addition allowance |
| Orcamento.OrcamentoPedido.ConsumirAdicao | app/modules/pedidos/domain/orcamento_pedido.py:130-140 | takes the smaller of the wish and the rest, and never touches the cut allowance |
| Orcamento.ConsumidoTotalSse | app/modules/pedidos/domain/orcamento_pedido.py:102-114 | a next ledger told what this one consumed starts where it ended; that total is before plus now exactly when before did not exceed the limit |
| MotorPar.ChaveUnicaEntreProdutos | app/modules/pedidos/domain/value_objects.py:36-38 | with sizes free of the separator, equal stock keys mean the same product and size |
| MotorPar.Passada1EhMinimo | app/modules/pedidos/domain/motor_adequacao.py:207-222 | pass 1 gives each size the smaller of what was asked and what is available |
| MotorPar.CorteEhFalta | app/modules/pedidos/domain/motor_adequacao.py:147-160 | the pieces pass 1 cuts are exactly the shortage charged to the ledger |
| MotorPar.ConcederPorLinha | app/modules/pedidos/domain/motor_adequacao.py:262-275 | extras only raise extreme sizes, never above the stock, row by row in order, and an extreme is left below the stock only when the budget is spent |
| MotorPar.AdicaoEhConcedida | app/modules/pedidos/domain/motor_adequacao.py:271-275 | the pieces added to the rows are exactly what the ledger gave |
| MotorPar.DistribuirExato | app/modules/pedidos/domain/motor_adequacao.py:262-275 | what is left of the allowance is the allowance minus all the room at the extremes, at least zero |
| MotorPar.FinanceiroExato | app/modules/pedidos/domain/motor_adequacao.py:291-320 | the re-split values add up to average price times final pieces rounded to the cent, half a cent away from zero, and each difference is new value minus old |
| MotorPar.FinanceiroPorMaiorResto | app/modules/pedidos/domain/motor_adequacao.py:311-320 | each size gets its largest-remainder share of that total over the final pieces |
| MotorPar.SemVariacaoMantemValor | app/modules/pedidos/domain/motor_adequacao.py:305-310 | with unchanged total quantity the total value is unchanged |
| MotorPar.AbortaSse | app/modules/pedidos/domain/motor_adequacao.py:309-312 | after pass 1 alone the money step fails exactly when no requested size has stock |
| MotorPar.FuroSse | app/modules/pedidos/domain/furo_de_grade.py:44-66 | there is a hole exactly when, of three known sizes asked for, the middle one has no stock |
| MotorPar.FuroImplicaFalta | app/modules/pedidos/domain/furo_de_grade.py:44-66 | a grade hole implies a positive shortage, so the hole test only changes the motive |
| MotorPar.TudoOuNadaSse | app/modules/pedidos/domain/motor_adequacao.py:801-847 | all-or-nothing reserves exactly when every size fits, and then exactly the requested grade; a deferred pair is blacklisted, holed or out of stock |
| MotorPar.DebitarExato | app/modules/pedidos/domain/motor_adequacao.py:461-466 | committing rows that fit subtracts exactly the reserved pieces: the floor at zero never acts |
| MotorPassos.IndexarEstoquePorProduto | app/modules/pedidos/domain/motor_adequacao.py:117-144 | the one-pass index of every product is the stock restricted to its keys, and its total their sum, overlapping codes included |
| MotorPassos.MedirFalta | app/modules/pedidos/domain/motor_adequacao.py:147-160 | computes the shortage |
| MotorPassos.TemFuroDeGrade | app/modules/pedidos/domain/furo_de_grade.py:44-66 | finds an item exactly when some interior recognised size has no stock, and reports the one of smallest index |
| MotorPassos.AdequarGradeProduto | app/modules/pedidos/domain/motor_adequacao.py:175-223 | refuses and charges nothing when the shortage exceeds the cut allowance; otherwise charges it and returns the pass-1 rows |
| MotorPassos.ConcederAdicaoPedido | app/modules/pedidos/domain/motor_adequacao.py:226-277 | the row loop gives the specified extras and leaves the specified allowance |
| MotorPassos.RecalcularFinanceiro | app/modules/pedidos/domain/motor_adequacao.py:280-320 | fails exactly when the final quantities add up to zero; otherwise re-splits as specified |
| MotorPassos.AplicarTudoOuNada | app/modules/pedidos/domain/motor_adequacao.py:323-358 | succeeds exactly without shortage, with the requested grade |
| MotorPedido.AprovarOtimo | app/modules/pedidos/domain/motor_adequacao.py:914-937 | spending all-or-nothing in increasing cost serves at least as many as any affordable subset |
| MotorPedido.Passada1Otima | app/modules/pedidos/domain/motor_adequacao.py:904-937 | pass 1 approves at least as many products as any set without holes whose shortages fit the cut allowance |
| MotorPedido.AprovadoSse | app/modules/pedidos/domain/motor_adequacao.py:904-937 | a product is approved exactly when it has no hole and the shortages up to it, smaller first, fit the cut allowance together |
| MotorPedido.DecisaoIndependeDaChegada | app/modules/pedidos/domain/motor_adequacao.py:909-948 | an order's decisions do not depend on the arrival order of its products |
| MotorPedido.DecisaoCorreta | app/modules/pedidos/domain/motor_adequacao.py:785-980 | every reserved product answers its grade size by size and fits the stock it saw |
| MotorPedido.ConsumoEhODoLedger | app/modules/pedidos/domain/motor_adequacao.py:904-962 | the cut and the addition visible in the rows are exactly what the ledger spent |
| MotorPedido.AdicaoExata | app/modules/pedidos/domain/motor_adequacao.py:938-962 | an order adds exactly its allowance or, if smaller, all the room at the extreme sizes of the products approved without a cut |
| MotorPedido.TudoOuNadaNaoConsome | app/modules/pedidos/domain/motor_adequacao.py:801-847 | all-or-nothing decisions spend neither budget |
| MotorPedido.AbortaSeCortaTudo | app/modules/pedidos/domain/motor_adequacao.py:306-312 | a product's money step fails exactly when no requested size has stock, the grade has no hole and the shortages up to it fit the cut allowance |
| MotorLocalidade.DecisaoLocal | app/modules/pedidos/domain/motor_adequacao.py:743-762 | an order's decisions depend only on the stock of its own products |
| MotorTeoremas.IndiceOk | app/modules/pedidos/domain/motor_adequacao.py:132-143 | looking a key up in a product's index is looking it up in the flat stock when the key is the product's |
| MotorPrioridade.FilaPorCriterio | app/modules/pedidos/domain/motor_adequacao.py:714-741 | of two orders in the queue the first has more pieces (criterion quantity) or more cents (criterion value) in rows whose product has stock; on a tie more distinct such products; on a tie again the smaller number |
| MotorPrioridade.NaFilaSse | app/modules/pedidos/domain/motor_adequacao.py:666-740 | the queue holds once each the orders with a row and no blocked row |
| MotorPrioridade.SemAdequacaoSse | app/modules/pedidos/domain/motor_adequacao.py:801-847 | without adequation, or with a blacklisted row, a product is reserved exactly when each of its rows fits the stock, and otherwise deferred as blacklisted exactly when the order has such a row |
| MotorPrioridade.ComAdequacao | app/modules/pedidos/domain/motor_adequacao.py:849-980 | otherwise the two passes run on the order's rows with what is left of its budget |
| MotorPrioridade.SaldoSse | app/modules/pedidos/domain/motor_adequacao.py:849-880 | an order starts with the tolerated share of its original total, or of its own rows, less what was consumed before, at least zero |
| MotorPrioridade.MotivoSse | app/modules/pedidos/domain/motor_adequacao.py:880-937 | under adequation a product is deferred for a hole exactly when its grade has one, and for stock exactly when pass 1 does not approve it |
| MotorPrioridade.MenorCortePrimeiro | app/modules/pedidos/domain/motor_adequacao.py:914-937 | a product refused for want of cut needs more than any one served, or as much and comes later alphabetically |
| MotorPrioridade.MaisCaroPrimeiro | app/modules/pedidos/domain/motor_adequacao.py:938-962 | an uncut product gets an extra piece only when every extreme size of each uncut product with a higher price per piece (or the same and an earlier code) has all its stock |
| MotorPrioridade.SoNasPontas | app/modules/pedidos/domain/motor_adequacao.py:226-277 | an extra piece only goes to the smallest or largest known size of a product that needed no cut |
| MotorTeoremas.InvarianteDePermutacao | app/modules/pedidos/domain/motor_adequacao.py:743-762 | any reordering of the input that keeps each pair's own item order, and any reordering of the stock, leaves every decision, row and final stock unchanged |
| MotorTeoremas.ConservacaoDoEstoque | app/modules/pedidos/domain/motor_adequacao.py:453-469 | over a whole run, initial stock is final stock plus everything reserved, for every product and size, in both modes |
| MotorTeoremas.BloqueadoNaoInterfere | app/modules/pedidos/domain/motor_adequacao.py:666-677 | deleting a credit-blocked order changes no decision of any order |
| MotorTeoremas.AnterioresNaoSaoAfetados | app/modules/pedidos/domain/motor_adequacao.py:740-741 | without an order, those ahead of it decide alike as a run of their own, and each whole run extends that run or aborts further down |
| MotorTeoremas.TodoParTemDestino | app/modules/pedidos/domain/motor_adequacao.py:998-1018 | a completed run decides exactly the pairs of orders with credit |
| MotorFalhas.OrcamentoRespeitado | app/modules/pedidos/domain/motor_adequacao.py:849-880 | in a whole run each order's cut and addition stay within what its ledger started with |
| MotorFalhas.CompletaSse | app/modules/pedidos/domain/motor_adequacao.py:297-312 | a channel completes on every stock exactly when each order with credit is all or nothing, or each of its products has an interior size or asks for more than the remaining cut allowance |
| MotorFalhas.AnterioresIntactos | app/modules/pedidos/domain/motor_adequacao.py:740-741 | under that condition both runs complete and the orders ahead of a deleted one keep their decisions |
| MotorFalhas.ExemploAbortoAlheio | app/modules/pedidos/domain/motor_adequacao.py:306-312 | a concrete queue in which the second order aborts the run and takes the first one's reservation with it |
| MotorFalhas.ExemploDeAborto | app/modules/pedidos/domain/motor_adequacao.py:306-312 | a concrete one-piece order out of stock aborts the run |
| MotorExecucao.RodarPassadas | app/modules/pedidos/domain/motor_adequacao.py:904-962 | the two sorted loops end with the specified decision for every product without a hole (who is served first: `MenorCortePrimeiro`, `MaisCaroPrimeiro`) |
| MotorExecucao.Execucao.Preterir | app/modules/pedidos/domain/motor_adequacao.py:471-478 | adds the pair to the deferred list with its motive and keeps the lists coherent |
| MotorExecucao.Execucao.CommitarPar | app/modules/pedidos/domain/motor_adequacao.py:439-478 | debits the local stock by the rows and selects the pair, or defers it; lists stay coherent |
| MotorExecucao.Execucao.ProcessarTudoOuNada | app/modules/pedidos/domain/motor_adequacao.py:801-847 | the loop over products leaves the specified decisions and stock |
| MotorExecucao.Execucao.ProcessarAdequar | app/modules/pedidos/domain/motor_adequacao.py:849-980 | one order in the adequation mode leaves the specified decisions and stock, or fails exactly when the specification does |
| MotorExecucao.Execucao.ProcessarPedido | app/modules/pedidos/domain/motor_adequacao.py:786-980 | the mode and blacklist dispatch leaves the specified decisions and stock |
| MotorExecucao.Execucao.RodarFila | app/modules/pedidos/domain/motor_adequacao.py:786-980 | serving the queue order by order is the specified run |
| MotorExecucao.ProcessarPedidosCanal | app/modules/pedidos/domain/motor_adequacao.py:616-1018 | the lists returned hold each decided pair once, by order number and product code, with the rows or motive of the specified run over the queue of `FilaPorCriterio`; blocked orders are exactly those with a blocked row, in order |
| Plano.DestinoDoPar | app/modules/pedidos/processing/domain.py:569-606 | a pair is a candidate exactly when it is selected, deferred or blocked, never two of them; motives are keyed by the deferred pairs |
| Plano.ParBloqueadoSse | app/modules/pedidos/processing/domain.py:504-560 | a pair is a candidate when some row has it, and blocked when besides some row of its order is |
| Plano.ContagensFecham | app/modules/pedidos/processing/domain.py:528-530 | selected, deferred and blocked pairs add up to the candidates |
| Plano.ContadoresSomamSse | app/modules/pedidos/processing/domain.py:577-579 | with blocked orders instead of blocked pairs the sum reaches the candidates exactly when no blocked order has two pairs |
| Plano.ExemploDoisProdutos | app/modules/pedidos/processing/domain.py:577-606 | a blocked order with two products has two blocked pairs |
| Plano.ConstruirPlano | app/modules/pedidos/processing/domain.py:504-660 | rows carry ordinals 1..n and the decided grade, deferred pairs their motive; the three lists are sorted by order and product, every candidate pair is in exactly one of them, once, and the blocked counter counts the orders with a blocked row |
| Edicao.EdicaoConserva | app/modules/pedidos/domain/edicao_grade.py:75-140 | an accepted edit keeps the pair's value and original value to the cent; requested pieces stay constant when the total may vary, reserved pieces when it may not |
| Edicao.CadeiaConserva | app/modules/pedidos/domain/edicao_grade.py:62-70 | the same over any chain of accepted edits |
| Edicao.GradePedida | app/modules/pedidos/domain/edicao_grade.py:71-79 | the new grade has exactly the positive sizes asked for, with their quantities |
| Edicao.GradeEmOrdem | app/modules/pedidos/domain/edicao_grade.py:113-115 | the rows come in alphabetical order of size |
| Edicao.GradePorMaiorResto | app/modules/pedidos/domain/edicao_grade.py:97-106 | value and original value, and the requested pieces when the total may vary, are each spread over the new pieces by largest remainder |
| Edicao.RecusaSse | app/modules/pedidos/domain/edicao_grade.py:71-95 | each of the four refusals, exactly when it is the first test that fails |
| Edicao.MontarGradeAtualizada | app/modules/pedidos/domain/edicao_grade.py:34-140 | the rebuild returns the specified rows or the first applicable refusal |
| OrcamentoVivo.ValidarSse | app/modules/pedidos/domain/orcamento_edicao.py:125-202 | the check passes exactly when, for each budget, the pair does not consume more than before or others plus its new contribution fit the limit |
| OrcamentoVivo.ResalvarPermitido | app/modules/pedidos/domain/orcamento_edicao.py:145-152 | saving again without change is always permitted |
| OrcamentoVivo.NovasComConsomem | app/modules/pedidos/infrastructure/repositorio_orcamento_pedido.py:84-105 | for newly saved "com" rows the aggregate counts exactly what the run decided |
| OrcamentoVivo.ExecucaoConsome | app/modules/pedidos/infrastructure/repositorio_orcamento_pedido.py:84-148 | what a run adds to the aggregate is at most the budget it read |
| OrcamentoCadeia.ExecucaoMantem | app/modules/pedidos/infrastructure/repositorio_orcamento_pedido.py:61-148 | a saved run keeps the original total and both limits |
| OrcamentoCadeia.SaidaMantem | app/modules/pedidos/infrastructure/repositorio_orcamento_pedido.py:67-83 | a departure consumes nothing and lowers the original total by exactly what the pair had pending beyond what its reservation asks for; by nothing while reservations ask for what is pending |
| OrcamentoCadeia.EdicaoMantem | app/modules/pedidos/application/casos_uso.py:355-399 | an accepted "sem" edit keeps the original total and both limits |
| OrcamentoCadeia.EdicaoAceitaSse | app/modules/pedidos/application/casos_uso.py:355-399 | a "sem" edit is accepted exactly when the grade can be rebuilt and, for each budget, the pair consumes no more than before or the others plus its new consumption fit the limit |
| OrcamentoCadeia.ExecucaoSalva | app/modules/pedidos/processing/domain.py:534-560 | a run saves one reservation, of the kind of its mode and with the decided rows, for each pair without one that the engine reserves, and nothing else |
| OrcamentoCadeia.OrcamentoNuncaEstoura | app/modules/pedidos/domain/orcamento_pedido.py:90-114 | over any sequence of these steps consumption never exceeds the larger of the limit and where it started |
| OrcamentoCadeia.DentroDoLimiteParaSempre | app/modules/pedidos/domain/orcamento_pedido.py:102-114 | an order that starts within its limits stays within them over runs, departures and "sem" edits |
| OrcamentoReescrita.EdicaoComEsqueceConsumo | app/modules/pedidos/domain/edicao_grade.py:132-136 | an accepted "com" edit lowers both consumptions by the pair's own and, once the pair left the snapshot, the original total by its deficit; each is kept exactly when that is zero |
| OrcamentoReescrita.ReescritaAceitaSse | app/modules/pedidos/domain/edicao_grade.py:86-95 | a "com" edit is accepted exactly when it keeps the pair's pieces, which must be some |
| OrcamentoReescrita.ExemploEdicaoCom | app/modules/pedidos/domain/edicao_grade.py:132-136 | 40 pieces cut to 38: saving again unchanged returns the two pieces and shrinks the total |
| OrcamentoReescrita.LimiteAposReescrita | app/modules/pedidos/domain/edicao_grade.py:132-136 | after it an order within its cut limit still is; for the addition, exactly when what the other pairs added fits the new limit |
| OrcamentoReescrita.ExemploAdicaoAcimaDoLimite | app/modules/pedidos/domain/edicao_grade.py:132-136 | two products, one cut by two and one raised by two: saving the cut one again leaves the addition above the limit |
| OrcamentoReescrita.ConsumoSobMaiorLimite | app/modules/pedidos/infrastructure/repositorio_orcamento_pedido.py:61-148 | over runs, departures, both kinds of edits and any new import, no consumption exceeds the larger of its start and the largest limit in force when something was spent |
| OrcamentoLimites.PassoDentroSse | app/modules/pedidos/infrastructure/repositorio_orcamento_pedido.py:61-148 | from within a limit, the next step of any kind leaves the order within its new limit exactly when it passes the check for its kind |
| OrcamentoLimites.DentroParaSempreSse | app/modules/pedidos/infrastructure/repositorio_orcamento_pedido.py:61-148 | an order within its cut limit is within its current one at every step of any run if and only if each departure and each import passes its check; for the addition, "com" edits of departed pairs are checked too |
| OrcamentoLimites.CorteDentroParaSempre | app/modules/pedidos/domain/edicao_grade.py:62-140 | so it stays within its cut limit, "com" edits of any pair included, when no departing pair has more pending than its reservation asks for and nothing is imported |
| OrcamentoLimites.AusentesSaoLeves | app/modules/pedidos/infrastructure/repositorio_orcamento_pedido.py:67-83 | which is the case when reservations start out asking for what is pending and only departed pairs are rewritten |
| OrcamentoLimites.ExemploSaidaAcimaDoLimite | app/modules/pedidos/domain/edicao_grade.py:132-136 | a run of accepted steps: saving a cut pair again, a run that cuts another, and the first one's departure leave two pieces cut under a limit of one |
| Eventos.NumeradaMais | app/modules/realtime/infrastructure/repository.py:223-252 | committing an event one above the topic counter keeps every topic sequence equal to the count of its topic |
| Eventos.OrdensContiguas | app/modules/realtime/infrastructure/repository.py:223-252 | in commit order the sequences of every topic are exactly 1..n |
| OutboxInvariantes.ConsultaExata | app/modules/realtime/infrastructure/repository.py:572-586 | a query for events above their floors reads exactly the history |
| OutboxPassos.PersistirMantem | app/modules/realtime/infrastructure/repository.py:184-253 | committing a new event keeps tables, cursors and stream faithful to the history |
| OutboxPassos.IdReconhecidoSse | app/modules/realtime/infrastructure/repository.py:199-221 | an identifier is recognised exactly while its event is retained |
| Percursos.PerderEvento | app/modules/realtime/infrastructure/connection_manager.py:115-125 | a run: an identifier is committed, published, cleaned up and committed again, and a socket of its topic, open from before the first commit, never enqueues the second event |
| OutboxPassos.ApagaPrefixo | app/modules/realtime/infrastructure/repository.py:680-702 | the deleted rows of a topic are exactly its rows up to the new floor, below its last event and all published |
| OutboxPassos.LimparMantem | app/modules/realtime/infrastructure/repository.py:676-702 | cleaning a topic keeps tables, cursors and stream faithful to the history |
| OutboxPassos.LimpezaSse | app/modules/realtime/infrastructure/repository.py:676-702 | the rows the cleanup keeps, told by the clock, the retention and the history |
| OutboxRele.EsperaEhTabela | app/modules/realtime/infrastructure/repository.py:659 | the delay is 2, 4, 8, 16, 32, 64, 128 or 256 seconds |
| OutboxPassos.PrimeiroEhCabeca | app/modules/realtime/infrastructure/repository.py:598-602 | the smallest unpublished row is the first unpublished event of the whole history |
| OutboxPassos.PublicarMantem | app/modules/realtime/infrastructure/repository.py:634-648 | marking a claimed row keeps published events a prefix of the history, and the stream faithful exactly when the event had been sent |
| OutboxPassos.EnviarMantemFluxo | app/modules/realtime/infrastructure/runtime.py:113-116 | sending any event ever claimed, late or again, keeps first appearances a prefix of the history |
| OutboxPassos.DesfazerMantem | app/modules/realtime/infrastructure/runtime.py:80-136 | rolling a relay transaction back restores the rows but not the stream, and stays coherent |
| OutboxRele.ProximaCabeca | app/modules/realtime/infrastructure/repository.py:598-602 | after a number of rows were published, the next head is the next pending row of the original table |
| OutboxLeituras.NaoVistosConta | app/modules/realtime/infrastructure/repository.py:443-454 | the difference of counters is the number of history events after the cursor |
| OutboxLeituras.CursorNoFim | app/modules/realtime/infrastructure/repository.py:381-415 | a cursor created at the watermark has read everything |
| OutboxLeituras.OrdemDosRetidos | app/modules/realtime/infrastructure/repository.py:491-497 | the largest retained topic sequence up to a point counts all topic events up to it, deleted ones included |
| OutboxLeituras.ConfirmarExato | app/modules/realtime/infrastructure/repository.py:485-534 | an acknowledgement moves the cursor to the larger position and its counter still counts what was read |
| OutboxLeituras.ConfirmarRecusa | app/modules/realtime/infrastructure/repository.py:474-503 | exactly when an acknowledgement is ahead, and exactly when it requires a replay |
| OutboxLeituras.UltimoGlobal | app/modules/realtime/infrastructure/repository.py:458-463 | a number exceeds the global watermark exactly when it exceeds every committed event |
| OutboxLeituras.AbaixoDoPisoSse | app/modules/realtime/infrastructure/repository.py:549-568 | the floor test is true exactly when a requested event after the cursor was cleaned up |
| OutboxLeituras.ReplayExato | app/modules/realtime/infrastructure/repository.py:537-586 | a replay without error is exactly the history of the window; it fails exactly beyond the history, below a floor or over the limit |
| OutboxLeituras.LacunaSse | app/modules/realtime/infrastructure/repository.py:716-740 | the gap check is true exactly when a retained event lies between or some later event was cleaned up |
| OutboxLeituras.SemLacunaNadaSePerdeu | app/modules/realtime/infrastructure/repository.py:716-740 | answering false, no committed event lies strictly between |
| OutboxRepositorio.Outbox.constructor | app/modules/realtime/infrastructure/models.py:35-80 | empty tables are coherent with the empty history |
| OutboxRepositorio.Outbox.PersistEvent | app/modules/realtime/infrastructure/repository.py:184-253 | a retained identifier returns its event or is refused and nothing changes; otherwise one event is committed with the next numbers |
| OutboxRepositorio.Outbox.InitializeReadCursors | app/modules/realtime/infrastructure/repository.py:381-415 | creates only the missing cursors, at the watermarks |
| OutboxRepositorio.Outbox.GetTopicStatuses | app/modules/realtime/infrastructure/repository.py:418-455 | every requested topic reports exactly the number of its history events after the cursor |
| OutboxRepositorio.Outbox.AcknowledgeThrough | app/modules/realtime/infrastructure/repository.py:466-534 | the cursor never moves back nor passes the watermark, other cursors are untouched, and unseen stays exact |
| OutboxRepositorio.Outbox.ReplayEvents | app/modules/realtime/infrastructure/repository.py:537-586 | the replay in terms of the history only |
| OutboxRepositorio.Outbox.StreamGapRequiresResync | app/modules/realtime/infrastructure/repository.py:716-740 | the gap check in terms of the history only |
| OutboxRepositorio.Outbox.ClaimOutboxBatch | app/modules/realtime/infrastructure/repository.py:589-631 | claims the first unpublished row exactly when its attempt is due and no lease covers the present, and then only moves its lease and counts the attempt |
| OutboxRepositorio.Outbox.MarkPublished | app/modules/realtime/infrastructure/repository.py:634-648 | succeeds exactly for the lease owner and publishes that row only; the stream stays faithful exactly when the event had been sent |
| OutboxRepositorio.Outbox.MarkPublishFailed | app/modules/realtime/infrastructure/repository.py:651-673 | gives back the owner's lease with a delay of 2 seconds doubled with each attempt up to 256 |
| OutboxRepositorio.Outbox.CleanupPublished | app/modules/realtime/infrastructure/repository.py:676-702 | a row survives exactly when it is unpublished, was published within the retention, or is the last event of its topic; each floor rises exactly over what was deleted, and the deleted rows are counted |
| OutboxRepositorio.Outbox.PassoDoRelay | app/modules/realtime/infrastructure/runtime.py:95-133 | finds no work exactly when the head is missing, not due or leased; otherwise publishes it, backs it off or goes down, as the send did |
| OutboxRepositorio.Outbox.CicloRelay | app/modules/realtime/infrastructure/runtime.py:74-150 | publishes exactly as many events as are due in order, until a send fails; gives the exact table, mark and stream, a crash restoring the rows but not the stream |
| Transmissao.CompletoEstavel | app/modules/realtime/infrastructure/runtime.py:170-224 | what a connection was offered stays complete when later events are committed |
| Transmissao.Ouvinte.Receber | app/modules/realtime/infrastructure/runtime.py:201-224 | goes to every socket unless it is old; the open ones close first exactly when an event may be missing; sockets that join during the check or the closing are served as their moment requires; every open socket was offered every committed event of its interval, once and in order |
| Transmissao.HistoriaCresce | app/modules/realtime/infrastructure/runtime.py:201-224 | a commit disturbs no open socket, nor the answer of a gap check still to be acted on |
| Transmissao.Ouvinte.Falhar | app/modules/realtime/infrastructure/runtime.py:225-255 | a transport failure closes every socket and the listener starts over |
| Transmissao.Ouvinte.Ler | app/modules/realtime/infrastructure/runtime.py:182-190 | the first read after a failure closes the sockets that joined meanwhile, any other read none |
| Transmissao.SocketAbertoSse | app/modules/realtime/infrastructure/connection_manager.py:115-131 | an open socket enqueued exactly the committed events of its topics in its interval if and only if none reuses an identifier still in its window |
| Transmissao.SocketAbertoRecebeTudo | app/modules/realtime/infrastructure/runtime.py:192-223 | with identifiers distinct in the history, it enqueued exactly them |
| Janelas.JanelaRepetido | app/modules/realtime/infrastructure/connection_manager.py:50-52 | a repeated identifier moves to the end of the window of most recent distinct identifiers |
| Janelas.JanelaNovo | app/modules/realtime/infrastructure/connection_manager.py:53-56 | a new identifier enters at the end and pushes the oldest out of a full window |
| Janelas.NaJanelaSse | app/modules/realtime/infrastructure/connection_manager.py:49-56 | the window holds an identifier exactly when fewer than its size of others arrived since it last did |
| Janelas.UmaVezSse | app/modules/realtime/infrastructure/connection_manager.py:49-56 | events are accepted exactly once, in order of first arrival, if and only if every repetition arrives within the window |
| Janelas.NadaDescartadoSse | app/modules/realtime/infrastructure/connection_manager.py:49-56 | every arrival is accepted exactly when none finds its identifier in the window |
| Conexoes.FeedSegueHistoria | app/modules/realtime/infrastructure/connection_manager.py:115-131 | of a feed whose first appearances are a prefix of the history, with distinct identifiers and repetitions in the window, the identifiers accepted on a topic set are a prefix of the history's |
| Conexoes.ConexaoSegueHistoria | app/modules/realtime/infrastructure/connection_manager.py:115-131 | so what a connection fed that way enqueued, overflowed or not, is a prefix of the committed events of its topics |
| Conexoes.TudoEnfileiradoSse | app/modules/realtime/infrastructure/connection_manager.py:121-131 | an open connection enqueued all it was offered on its topics exactly when no identifier repeats inside its window |
| Conexoes.Conexao.RememberEvent | app/modules/realtime/infrastructure/connection_manager.py:49-56 | answers whether the identifier is outside the 2048 most recent distinct ones, and updates them |
| Conexoes.Conexao.Oferecer | app/modules/realtime/infrastructure/connection_manager.py:121-131 | enqueues exactly the subscribed new events, and overflows exactly on a full queue |
| Conexoes.Central.Broadcast | app/modules/realtime/infrastructure/connection_manager.py:115-138 | every connection gets the event as its own state requires, and exactly the overflowed ones are dropped |
| Conexoes.Central.DisconnectAll | app/modules/realtime/infrastructure/connection_manager.py:140-156 | no connection is left open |
| Reconexao.ReplayUmaVez | app/modules/realtime/infrastructure/http/routes.py:446-471 | with distinct identifiers and repetitions in the window, what the replay sends and what the drain sends are together exactly the replay's events, each once |
| Reconexao.AceitoAoVivoSse | app/modules/realtime/infrastructure/http/routes.py:458-462 | the live side takes an event exactly when it arrived live before its turn in the replay |
| Reconexao.ReplayEmOrdemSse | app/modules/realtime/infrastructure/http/routes.py:446-471 | when the replay ends the client has its window of the history in commit order exactly when no event that arrived live before its turn is followed by one that did not |
| Reconexao.FilaAposReplay | app/modules/realtime/infrastructure/http/routes.py:252-282 | what stays queued is exactly the history of the topics after the watermark as far as it was offered, once and in order |
| Reconexao.RecebeTudoSse | app/modules/realtime/infrastructure/http/routes.py:388-484 | a reconnected client receives distinct events, and all of its topics after its cursor, exactly when none lies between the watermark and the first live position |
| Sessoes.Sessao.Reenviar | app/modules/realtime/infrastructure/http/routes.py:447-460 | the next row is sent exactly when its identifier is outside the window, and the session stays in replay |
| Sessoes.ReceberDurante | app/modules/realtime/infrastructure/runtime.py:192-223 | whatever the listener reads and whoever joins meanwhile, a session in replay stays one |
| Sessoes.ReplayEstavel | app/modules/realtime/infrastructure/repository.py:570-586 | events committed after the watermark do not change what the replay had to read |
| Sessoes.Sessao.Drenar | app/modules/realtime/infrastructure/http/routes.py:252-282 | sends the queued events between cursor and watermark in order of number and keeps exactly the later ones |
| Sessoes.ConcluirReplay | app/modules/realtime/infrastructure/http/routes.py:446-478 | the end of the replay: each of its events was sent once, in commit order exactly under the condition on the arrivals, and the queue holds the history after the watermark |
| Sessoes.RegistradoRecebeTudo | app/modules/realtime/infrastructure/http/routes.py:388-484 | the client receives distinct events, and all of its topics after its cursor exactly when none lies between the watermark and the point where its record begins; always when that point is not after the watermark |
| Percursos.ReplayForaDeOrdem | app/modules/realtime/infrastructure/http/routes.py:447-471 | a run of repository, relay, listener and session in which the client gets the later of two replayed events first |
| Percursos.PerderOPrimeiro | app/modules/realtime/infrastructure/runtime.py:174-207 | a run in which an open socket registered with a listener without a position never gets the first event |
| EntregasProtocolo.PassoMantem | app/modules/comunicacoes/infrastructure/models.py:70-115 | every step keeps the table constraints, the communication status, one claim per row and the acceptance balance |
| EntregasProtocolo.AceitaNoMaximoUmaVez | app/modules/comunicacoes/application/entregas.py:55-62 | in every reachable state a delivery was accepted at most once more than refusals were falsely reported, and the status tells which: once more when sent, not when pending or failed; the communication shows sent, failed, uncertain or pending as its row is |
| EntregasProtocolo.TerminalParaSempre | app/modules/comunicacoes/infrastructure/repositorio_comunicacao.py:280-305 | a sent, failed or uncertain row is never written again |
| EntregasProtocolo.TentativasContam | app/modules/comunicacoes/infrastructure/repositorio_comunicacao.py:257-263 | the attempt counter is the number of claims |
| EntregasProtocolo.EnviosLimitados | app/modules/comunicacoes/application/entregas.py:82-103 | a delivery is sent at most as often as it was claimed, at most its maximum, at most twenty |
| EntregasProtocolo.ExemploAceitaDuasVezes | app/modules/comunicacoes/application/entregas.py:124-139 | a transient error reported for an accepted message leads to a second acceptance |
| Entregas.Correio.ReconciliarProcessamentosExpirados | app/modules/comunicacoes/infrastructure/repositorio_comunicacao.py:180-227 | exactly the first unlocked rows in processing whose lease ended before now, by lease end and identifier up to the limit, become uncertain, failed now, as do their communications, which it returns |
| Entregas.Correio.ReivindicarProxima | app/modules/comunicacoes/infrastructure/repositorio_comunicacao.py:229-271 | claims the unlocked pending row first by due time and identifier, with one more attempt and the given lease, its communication untouched, and nothing exactly when none is due |
| Entregas.Correio.RegistrarDesfecho | app/modules/comunicacoes/infrastructure/repositorio_comunicacao.py:273-360 | while the row is still this claim's: success makes it sent, a terminal refusal failed, an unknown answer uncertain, a transient one pending again at the given time or failed once the attempts are spent, with dates and communication to match; otherwise nothing |
| Entregas.Correio.ProcessarEntregasPendentes | app/modules/comunicacoes/application/entregas.py:45-167 | among any steps of other workers: the rows given up are the first expired ones and are left uncertain; each claim is sent and reported once; sent, retried, failed and unknown count this worker's answers of each kind on rows still its own, stale the rest; each notification names the communication that moved; and the batch ends early only when nothing free is due |
| Entregas.AvisosConferem | app/modules/comunicacoes/application/entregas.py:70-162 | the notifications of a batch match its counters kind by kind |
| EntregasFila.PrimeirosUnicos | app/modules/comunicacoes/infrastructure/repositorio_comunicacao.py:193-201 | the ordered, limited query has exactly one answer |
| EntregasProtocolo.DesfechosMais | app/modules/comunicacoes/application/entregas.py:103-162 | one more step adds to a worker's outcomes exactly what its report does, if it is its report |
| EntregasProtocolo.ConcluirRegistra | app/modules/comunicacoes/application/entregas.py:103-162 | what a report writes, answer by answer, and nothing once the row is not the claim's |
| EntregasProtocolo.DesfechosRelatam | app/modules/comunicacoes/application/entregas.py:103-162 | along any run a worker's outcomes of each kind are its answers of that kind on rows still its own |
| Entregas.AvisoSse | app/modules/comunicacoes/application/entregas.py:103-162 | the communications notified are exactly those an outcome moved to sent, failed or uncertain |
| EstoqueVirtual.CalcularEstoqueVirtual | app/modules/pedidos/domain/estoque_virtual.py:62-81 | folding truncated subtraction gives the photo minus the counted reservations, floored once, for every key |
| EstoqueVirtual.DescontoSao | app/modules/pedidos/domain/estoque_virtual.py:40-79 | an order takes from a key its positive pieces of that product, size and channel, unless the ERP has it or it is older than the photo, whose own day counts; the fold counts stand-by rows and undated orders, the query neither |
| EstoqueVirtual.SemTamanhoNaoDesconta | app/modules/pedidos/domain/estoque_virtual.py:71-79 | a row without a size is never discounted |
| EstoqueVirtual.OrdemDasReservasNaoImporta | app/modules/pedidos/domain/estoque_virtual.py:64-79 | the discount does not depend on the order of the reservations |
| EstoqueVirtual.FormasConcordamSse | app/modules/pedidos/infrastructure/repositorio_estoque_virtual.py:68-119 | the full projection never shows more than the targeted one; they agree exactly when the latter is zero or no row with pieces of the key is in stand-by or of an order only the fold counts |
| EstoqueVirtual.FormasConcordam | app/modules/pedidos/infrastructure/repositorio_estoque_virtual.py:68-119 | without stand-by pieces the two agree on every key, saved orders being dated |
| EstoqueVirtual.ExemploStandBy | app/modules/pedidos/infrastructure/repositorio_estoque_virtual.py:84-85 | a stand-by row discounted by the fold only |
| EstoqueVirtual.CapacidadeSse | app/modules/pedidos/application/casos_uso.py:318-346 | the check passes exactly when the reserved pieces end no higher than the photo or than before, plus what edited orders outside the count give back |
| EstoqueVirtual.CapacidadeContada | app/modules/pedidos/application/casos_uso.py:318-346 | with every edited order counted, exactly when they end no higher than the photo or than before |
| EstoqueVirtual.ExemploForaDaConta | app/modules/pedidos/application/casos_uso.py:318-346 | yesterday's order and today's swap sizes: both rebuilds are accepted, every size passes, and five pieces end reserved of a size the photo has none of |
| EstoqueVirtual.VerificarLote | app/modules/pedidos/application/casos_uso.py:318-346 | the batch check on the rows of the edited orders accepts exactly when every size passes that condition |
| EstoqueVirtual.VerificarCapacidade | app/modules/pedidos/application/casos_uso.py:318-346 | the loops accept the batch exactly when every size fits what is available plus what the edited reservations give back |
| Agregacao.QuantidadeConservada | app/modules/ingestao/domain/agregacao.py:204-207 | a pair's sizes add up to its accepted rows |
| Agregacao.ValorConservado | app/modules/ingestao/domain/agregacao.py:117-169 | a pair's values add up to its single repeated total, sign included, when it has pieces |
| Agregacao.ValorPorMaiorResto | app/modules/ingestao/domain/agregacao.py:117-169 | that total is spread over the sizes by largest remainder of their pieces |
| Agregacao.SemTotalNaoVale | app/modules/ingestao/domain/agregacao.py:136-139 | a pair whose rows carry no total is worth nothing |
| Agregacao.MantidaSse | app/modules/ingestao/domain/agregacao.py:234-241 | a pair is kept exactly when the rows that carry its total agree on it and, for pending rows, one does |
| Agregacao.LinhasQueContam | app/modules/ingestao/domain/agregacao.py:191-193 | the rows that count have an order, a product and a size and, pending ones, pieces and a group |
| Agregacao.OrdemDasLinhasNaoImporta | app/modules/ingestao/domain/agregacao.py:123-131 | quantities, values and the choice of pairs do not depend on row order |
| Agregacao.FlagsNaoDependemDaOrdem | app/modules/ingestao/domain/agregacao.py:363-387 | nor do the reserve and packing flags |
| AgregacaoPassos.Agregar | app/modules/ingestao/domain/agregacao.py:172-414 | fails exactly on an unknown or mixed channel; rows are discarded or in kept pairs, and kept keys hold their quantity and share, their first row's columns, and flags set by any row |
| AgregacaoPassos.ContarInvalidos | app/modules/ingestao/domain/agregacao.py:384-391 | discards, and counts the rows of, exactly the pairs whose rows do not agree on one total |

## Left out

- Prices are exact rationals and money is integer cents; rounding of floats and of 28-digit decimals is not modelled.
- Negative quantities and totals that the original rejects with a ValueError guard are excluded by type (`nat`) in the engine; `Rateio.RatearInteiro` keeps its guards.
- Size indices come with each item (999 for an unknown size); the table of sizes itself is data.
- The merge of channels in processar_pedidos, the pairs without a channel, already processed pairs and the cancellation token: each channel runs on its own stock and orders have one channel.
- The rows written for deferred pairs when results are not restricted to the selected ones.
- Requested quantities must be present in saved rows; the fallback for older rows is not modelled, and saved reservations in the budget chain hold no stand-by rows.
- OrcamentoCadeia.OrcamentoNuncaEstoura: "com" edits and new imports are not among its steps, because they do change consumption or the total; `OrcamentoReescrita.ConsumoSobMaiorLimite` and `OrcamentoLimites.DentroParaSempreSse` cover every step.
- Plano.ConstruirPlano: payloads, byte limits, hashes and the channel filter of the plan are not modelled.
- OutboxRepositorio.Outbox.CicloRelay: one cycle is one step, and time does not pass inside it; other transactions run before or after it.
- The observed-entity ledger of the realtime module, JSON payload checks, stream trimming and connection limits per user and instance.
- Transmissao.Ouvinte.Receber: malformed stream entries, which the listener skips, are not modelled; commits during its gap check are covered by `Transmissao.HistoriaCresce`, not by its body.
- Sessoes.Sessao.Drenar: needs the live queue in order of number, which the listener keeps (`Sessoes.SessaoEncontra`); timeouts, tickets, authorisation and heartbeats of the handshake are not modelled.
- Entregas.Correio.ReivindicarProxima: which rows other sessions hold locked is a parameter, and identifiers are ordered by code point.
- EntregasProtocolo.TentativasContam: delivery rows are never deleted in the model.
- Entregas.Correio.ProcessarEntregasPendentes: the backoff delay and its jitter are parameters; metrics and timestamps other than those the constraints mention are left out.
- EstoqueVirtual.FormasConcordamSse: the fold uses the latest date of the photo and the query each row's own, so it speaks of keys whose row carries the latest date; both forms read a row's channel already normalised, the query without trimming it.
- The product batch edit beyond its capacity and budget checks: version checks, the open window, Linx positions and alerts.
- AgregacaoPassos.Agregar: parsing of the raw fields; the client, product text, date and credit columns are one field.
- Row locks, advisory locks and isolation levels: every repository function is one atomic step and time never decreases between steps.
