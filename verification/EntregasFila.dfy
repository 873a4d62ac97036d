/** Which rows a query picks: filtered, sorted, skipping the rows other sessions locked. */
module EntregasFila {
  import opened Aritmetica
  import opened Listas
  import opened EntregasProtocolo

  type Tabela = map<string, Entrega>

  function PrazoDe(es: Tabela, id: string): nat { if id in es && es[id].ate.Algo? then es[id].ate.valor else 0 }
  function VezDe(es: Tabela, id: string): nat { if id in es then es[id].proxima else 0 }

  predicate Antes(x: nat, a: string, y: nat, b: string) { x < y || (x == y && MenorTexto(a, b)) }

  /** Ordered by lease end, then identifier. */
  function PorPrazo(es: Tabela): (string, string) -> bool { (a, b) => Antes(PrazoDe(es, a), a, PrazoDe(es, b), b) }

  /** Ordered by due time, then identifier. */
  function PorVez(es: Tabela): (string, string) -> bool { (a, b) => Antes(VezDe(es, a), a, VezDe(es, b), b) }

  /** Unlocked rows whose lease expired, and unlocked rows that are due. */
  function Vencidas(es: Tabela, livres: set<string>, agora: nat): set<string> {
    set id | id in livres && id in es && Expirada(es[id], agora)
  }

  function Disponiveis(es: Tabela, livres: set<string>, agora: nat): set<string> {
    set id | id in livres && id in es && Disponivel(es[id], agora)
  }

  /** `ids` are the first `limite` of the candidates, in order. */
  ghost predicate SaoOsPrimeiros(ids: seq<string>, cands: set<string>, menor: (string, string) -> bool, limite: nat) {
    && Crescente(ids, menor) && (forall x :: x in ids ==> x in cands) && |ids| == Min(limite, |cands|)
    && (forall x, y :: x in ids && y in cands && y !in ids ==> menor(x, y))
  }

  lemma AntesTransitiva(x: nat, a: string, y: nat, b: string, z: nat, c: string)
    requires Antes(x, a, y, b) && Antes(y, b, z, c)
    ensures Antes(x, a, z, c)
  {
    if MenorTexto(a, b) && MenorTexto(b, c) { MenorTextoTransitiva(a, b, c); }
  }

  lemma PrazoEhOrdem(es: Tabela)
    ensures Ordem(PorPrazo(es))
  {
    var menor := PorPrazo(es);
    forall a ensures !menor(a, a) { MenorTextoIrreflexiva(a); }
    forall a, b, c | menor(a, b) && menor(b, c) ensures menor(a, c) {
      AntesTransitiva(PrazoDe(es, a), a, PrazoDe(es, b), b, PrazoDe(es, c), c);
    }
    forall a: string, b: string | a != b ensures menor(a, b) || menor(b, a) { MenorTextoConexa(a, b); }
  }

  lemma VezEhOrdem(es: Tabela)
    ensures Ordem(PorVez(es))
  {
    var menor := PorVez(es);
    forall a ensures !menor(a, a) { MenorTextoIrreflexiva(a); }
    forall a, b, c | menor(a, b) && menor(b, c) ensures menor(a, c) {
      AntesTransitiva(VezDe(es, a), a, VezDe(es, b), b, VezDe(es, c), c);
    }
    forall a: string, b: string | a != b ensures menor(a, b) || menor(b, a) { MenorTextoConexa(a, b); }
  }

  method MenorDe(cands: set<string>, menor: (string, string) -> bool) returns (m: string)
    requires cands != {} && Ordem(menor)
    ensures m in cands && forall y :: y in cands && y != m ==> menor(m, y)
  {
    m :| m in cands;
    var restam := cands - {m};
    while restam != {}
      invariant restam <= cands && m in cands && m !in restam
      invariant forall y :: y in cands && y !in restam && y != m ==> menor(m, y)
      decreases restam
    {
      var x :| x in restam;
      if menor(x, m) { m := x; }
      restam := restam - {x};
    }
  }

  /** `SELECT … ORDER BY … LIMIT`. */
  method Selecionar(cands: set<string>, menor: (string, string) -> bool, limite: nat) returns (ids: seq<string>)
    requires Ordem(menor)
    ensures SaoOsPrimeiros(ids, cands, menor, limite)
  {
    ids := [];
    var restam := cands;
    while restam != {} && |ids| < limite
      invariant restam <= cands && |ids| + |restam| == |cands| && |ids| <= limite
      invariant Crescente(ids, menor) && (forall x :: x in cands <==> x in ids || x in restam)
      invariant forall x, y :: x in ids && y in restam ==> menor(x, y)
      decreases restam
    {
      var m := MenorDe(restam, menor);
      ids, restam := ids + [m], restam - {m};
    }
  }

  lemma ForaDoOutro(a: seq<string>, b: seq<string>, x: string) returns (y: string)
    requires Distintos(a) && Distintos(b) && |a| == |b| && x in a && x !in b
    ensures y in b && y !in a
  {
    TamanhoDistinto(a);
    TamanhoDistinto(b);
    if Conjunto(b) <= Conjunto(a) {
      assert Conjunto(b) <= Conjunto(a) - {x};
      SubconjuntoCabe(Conjunto(b), Conjunto(a) - {x});
    }
    y :| y in Conjunto(b) && y !in Conjunto(a);
  }

  lemma {:induction false} SubconjuntoCabe<T>(a: set<T>, b: set<T>)
    requires a <= b
    ensures |a| <= |b|
    decreases a
  {
    if a != {} {
      var x :| x in a;
      SubconjuntoCabe(a - {x}, b - {x});
    }
  }

  /** There is exactly one such list. */
  lemma PrimeirosUnicos(a: seq<string>, b: seq<string>, cands: set<string>, menor: (string, string) -> bool,
                        limite: nat)
    requires Ordem(menor) && SaoOsPrimeiros(a, cands, menor, limite) && SaoOsPrimeiros(b, cands, menor, limite)
    ensures a == b
  {
    CrescenteDistinta(a, menor);
    CrescenteDistinta(b, menor);
    forall x | x in a ensures x in b { if x !in b { var y := ForaDoOutro(a, b, x); } }
    forall x | x in b ensures x in a { if x !in a { var y := ForaDoOutro(b, a, x); } }
    CrescenteUnica(a, b, menor);
  }

  // ----- the two queries in the table's own columns

  /** A row in processing, unlocked, whose lease ended before now. */
  ghost predicate LeaseVencido(es: Tabela, livres: set<string>, agora: nat, id: string) {
    id in livres && id in es && es[id].status.Processando? && es[id].ate.Algo? && es[id].ate.valor < agora
  }

  /** A pending row, unlocked, that is due. */
  ghost predicate NaHora(es: Tabela, livres: set<string>, agora: nat, id: string) {
    id in livres && id in es && es[id].status.Pendente? && es[id].proxima <= agora
  }

  ghost predicate VenceuAntes(es: Tabela, x: string, y: string) {
    && x in es && y in es && es[x].ate.Algo? && es[y].ate.Algo?
    && (es[x].ate.valor < es[y].ate.valor || (es[x].ate.valor == es[y].ate.valor && MenorTexto(x, y)))
  }

  /** The expired rows that come first by lease end and identifier, at most `limite`; all
      of them when they are fewer. */
  ghost predicate PrimeirosVencidos(ids: seq<string>, es: Tabela, livres: set<string>, agora: nat, limite: nat) {
    && |ids| <= limite && (forall id :: id in ids ==> LeaseVencido(es, livres, agora, id))
    && (forall i, j :: 0 <= i < j < |ids| ==> VenceuAntes(es, ids[i], ids[j]))
    && (forall y :: LeaseVencido(es, livres, agora, y) && y !in ids ==>
      |ids| == limite && forall x :: x in ids ==> VenceuAntes(es, x, y))
  }

  /** The due row that comes first by due time and identifier. */
  ghost predicate PrimeiraDaVez(id: string, es: Tabela, livres: set<string>, agora: nat) {
    && NaHora(es, livres, agora, id)
    && (forall y :: NaHora(es, livres, agora, y) && y != id ==>
      es[id].proxima < es[y].proxima || (es[id].proxima == es[y].proxima && MenorTexto(id, y)))
  }

  lemma TodosQuandoCabem(ids: seq<string>, cands: set<string>, menor: (string, string) -> bool, limite: nat, y: string)
    requires Ordem(menor) && SaoOsPrimeiros(ids, cands, menor, limite) && y in cands && y !in ids
    ensures |ids| == limite
  {
    CrescenteDistinta(ids, menor);
    TamanhoDistinto(ids);
    SubconjuntoCabe(Conjunto(ids), cands - {y});
  }

  lemma VencidosEmColunas(ids: seq<string>, es: Tabela, livres: set<string>, agora: nat, limite: nat)
    requires SaoOsPrimeiros(ids, Vencidas(es, livres, agora), PorPrazo(es), limite)
    ensures PrimeirosVencidos(ids, es, livres, agora, limite)
  {
    hide MenorTexto;
    var menor := PorPrazo(es);
    PrazoEhOrdem(es);
    forall i, j | 0 <= i < j < |ids| ensures VenceuAntes(es, ids[i], ids[j]) {
      assert ids[i] in ids && ids[j] in ids && menor(ids[i], ids[j]);
    }
    forall y | LeaseVencido(es, livres, agora, y) && y !in ids
      ensures |ids| == limite && forall x :: x in ids ==> VenceuAntes(es, x, y)
    {
      assert y in Vencidas(es, livres, agora);
      forall x | x in ids ensures VenceuAntes(es, x, y) { assert menor(x, y); }
      TodosQuandoCabem(ids, Vencidas(es, livres, agora), menor, limite, y);
    }
  }

  lemma DaVezEmColunas(es: Tabela, livres: set<string>, agora: nat, id: string)
    requires SaoOsPrimeiros([id], Disponiveis(es, livres, agora), PorVez(es), 1)
    ensures PrimeiraDaVez(id, es, livres, agora)
  {
    hide MenorTexto;
    assert id in [id];
    forall y | NaHora(es, livres, agora, y) && y != id ensures PorVez(es)(id, y) { assert y !in [id]; }
  }

  lemma NinguemNaHora(es: Tabela, livres: set<string>, agora: nat)
    ensures Disponiveis(es, livres, agora) == {} <==> forall id :: !NaHora(es, livres, agora, id)
  {
    forall id ensures id in Disponiveis(es, livres, agora) <==> NaHora(es, livres, agora, id) {}
  }
}
