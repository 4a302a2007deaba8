/** WITH chains: depth-first collection of the queries a step needs, and running the statements.
    Models `_compile_select` of ontology_core/relational_compiler.py. */
module CteChain {
  import opened SeqOps
  import opened Sql

  // ----- depth-first collection over node positions -----

  /** A plan node as the collection sees it: its name, whether its result is stored in `target`,
      the positions it uses, and its query. */
  datatype Vertex = Vertex(id: NodeId, stored: bool, target: Target, uses: seq<nat>, query: Query)

  ghost predicate Ordered(g: seq<Vertex>) {
    forall k, d :: 0 <= k < |g| && d in g[k].uses ==> d < k
  }

  datatype Chain = Chain(ctes: seq<nat>, compiled: set<nat>)

  /** `compile_node`: None when a stored result is used before its statement. */
  ghost function CompileNode(g: seq<Vertex>, k: nat, available: set<nat>, c: Chain): Option<Chain>
    requires Ordered(g) && k < |g|
    decreases k, |g[k].uses| + 1
  {
    if k in c.compiled then Some(c)
    else if g[k].stored then
      if k !in available then None else Some(Chain(c.ctes, c.compiled + {k}))
    else
      var after := CompileUses(g, k, |g[k].uses|, available, c);
      if after.None? then None else Some(Chain(after.value.ctes + [k], after.value.compiled + {k}))
  }

  /** The first `j` dependencies of node `k`, in order. */
  ghost function CompileUses(g: seq<Vertex>, k: nat, j: nat, available: set<nat>, c: Chain): Option<Chain>
    requires Ordered(g) && k < |g| && j <= |g[k].uses|
    decreases k, j
  {
    if j == 0 then Some(c)
    else
      var before := CompileUses(g, k, j - 1, available, c);
      if before.None? then None
      else
        assert g[k].uses[j - 1] in g[k].uses;
        CompileNode(g, g[k].uses[j - 1], available, before.value)
  }

  /** The mutable state of one call of `_compile_select`. */
  class ChainBuilder {
    const g: seq<Vertex>
    const available: set<nat>
    var ctes: seq<nat>
    var compiled: set<nat>

    ghost function State(): Chain
      reads this
    {
      Chain(ctes, compiled)
    }

    constructor (g: seq<Vertex>, available: set<nat>)
      ensures this.g == g && this.available == available && State() == Chain([], {})
    {
      this.g := g;
      this.available := available;
      ctes := [];
      compiled := {};
    }

    method Compile(k: nat) returns (ok: bool)
      requires Ordered(g) && k < |g|
      modifies this
      ensures ok <==> CompileNode(g, k, available, old(State())).Some?
      ensures ok ==> State() == CompileNode(g, k, available, old(State())).value
      decreases k
    {
      if k in compiled {
        return true;
      }
      if g[k].stored {
        if k !in available {
          return false;
        }
        compiled := compiled + {k};
        return true;
      }
      ghost var start := State();
      for j := 0 to |g[k].uses|
        invariant CompileUses(g, k, j, available, start) == Some(State())
      {
        assert g[k].uses[j] in g[k].uses;
        ok := Compile(g[k].uses[j]);
        if !ok {
          FailureIsFinal(g, k, j + 1, available, start);
          return false;
        }
      }
      ctes := ctes + [k];
      compiled := compiled + {k};
      ok := true;
    }
  }

  lemma {:induction false} FailureIsFinal(g: seq<Vertex>, k: nat, j: nat, available: set<nat>, c: Chain)
    requires Ordered(g) && k < |g| && j <= |g[k].uses|
    requires CompileUses(g, k, j, available, c).None?
    ensures CompileUses(g, k, |g[k].uses|, available, c).None?
    decreases |g[k].uses| - j
  {
    if j < |g[k].uses| {
      FailureIsFinal(g, k, j + 1, available, c);
    }
  }

  // ----- what the collection guarantees -----

  /** Positions whose query is needed for node `k`, up to stored results. */
  ghost function Needs(g: seq<Vertex>, k: nat): set<nat>
    requires Ordered(g) && k < |g|
    decreases k
  {
    if g[k].stored then {} else {k} + (set d, x | d in g[k].uses && x in Needs(g, d) :: x)
  }

  /** Dependency `d` can be read by a query that follows the chain `ctes`. */
  predicate Readable(g: seq<Vertex>, available: set<nat>, ctes: seq<nat>, d: nat) {
    d < |g| && if g[d].stored then d in available else d in ctes
  }

  predicate ReadyAt(g: seq<Vertex>, available: set<nat>, ctes: seq<nat>, p: nat)
    requires p < |ctes|
  {
    ctes[p] < |g| && !g[ctes[p]].stored && forall d :: d in g[ctes[p]].uses ==> Readable(g, available, ctes[..p], d)
  }

  /** No query twice, every dependency earlier in the chain or stored, nothing compiled but unreadable. */
  ghost predicate Sound(g: seq<Vertex>, available: set<nat>, c: Chain) {
    && NoDup(c.ctes)
    && (forall x :: x in c.ctes ==> x in c.compiled)
    && (forall x :: x in c.compiled ==> Readable(g, available, c.ctes, x))
    && (forall p :: 0 <= p < |c.ctes| ==> ReadyAt(g, available, c.ctes, p))
  }

  lemma AppendSound(g: seq<Vertex>, k: nat, available: set<nat>, c: Chain)
    requires k < |g| && !g[k].stored && Sound(g, available, c) && k !in c.compiled
    requires forall d :: d in g[k].uses ==> d in c.compiled
    ensures Sound(g, available, Chain(c.ctes + [k], c.compiled + {k}))
  {
    var ctes := c.ctes + [k];
    forall p | 0 <= p < |ctes| ensures ReadyAt(g, available, ctes, p) {
      if p < |c.ctes| {
        assert ReadyAt(g, available, c.ctes, p);
        assert ctes[p] == c.ctes[p] && ctes[..p] == c.ctes[..p];
      } else {
        assert ctes[..p] == c.ctes;
      }
    }
  }

  /** The depth-first pass succeeds once the stored results it needs exist, keeps the chain sound,
      extends it, and adds nothing the node does not need. */
  lemma {:induction false} CompileNodeSound(g: seq<Vertex>, k: nat, available: set<nat>, c: Chain)
    requires Ordered(g) && k < |g| && Sound(g, available, c)
    requires forall i :: 0 <= i <= k && g[i].stored ==> i in available
    ensures CompileNode(g, k, available, c).Some?
    ensures var r := CompileNode(g, k, available, c).value;
            && Sound(g, available, r) && c.ctes <= r.ctes && c.compiled <= r.compiled && k in r.compiled
            && (forall x :: x in r.ctes ==> x in c.ctes || x in Needs(g, k))
            && (forall x :: x in r.compiled ==> x in c.compiled || x <= k)
    decreases k, |g[k].uses| + 1
  {
    if k !in c.compiled && !g[k].stored {
      CompileUsesSound(g, k, |g[k].uses|, available, c);
      var after := CompileUses(g, k, |g[k].uses|, available, c).value;
      AppendSound(g, k, available, after);
    }
  }

  lemma {:induction false} CompileUsesSound(g: seq<Vertex>, k: nat, j: nat, available: set<nat>, c: Chain)
    requires Ordered(g) && k < |g| && j <= |g[k].uses| && Sound(g, available, c) && !g[k].stored
    requires forall i :: 0 <= i <= k && g[i].stored ==> i in available
    ensures CompileUses(g, k, j, available, c).Some?
    ensures var r := CompileUses(g, k, j, available, c).value;
            && Sound(g, available, r) && c.ctes <= r.ctes && c.compiled <= r.compiled
            && (forall i :: 0 <= i < j ==> g[k].uses[i] in r.compiled)
            && (forall x :: x in r.ctes ==> x in c.ctes || x in Needs(g, k))
            && (forall x :: x in r.compiled ==> x in c.compiled || x < k)
    decreases k, j
  {
    if j > 0 {
      CompileUsesSound(g, k, j - 1, available, c);
      var before := CompileUses(g, k, j - 1, available, c).value;
      var d := g[k].uses[j - 1];
      assert d in g[k].uses;
      CompileNodeSound(g, d, available, before);
    }
  }

  /** A sound chain holds everything that its compiled nodes need. */
  lemma {:induction false} NeedsCovered(g: seq<Vertex>, available: set<nat>, c: Chain, k: nat)
    requires Ordered(g) && Sound(g, available, c) && k in c.compiled
    ensures k < |g| && forall x :: x in Needs(g, k) ==> x in c.ctes
    decreases k
  {
    assert Readable(g, available, c.ctes, k);
    if !g[k].stored {
      var p :| 0 <= p < |c.ctes| && c.ctes[p] == k;
      assert ReadyAt(g, available, c.ctes, p);
      forall x | x in Needs(g, k) ensures x in c.ctes {
        if x != k {
          var d :| d in g[k].uses && x in Needs(g, d);
          if !g[d].stored {
            assert d in c.ctes[..p];
            NeedsCovered(g, available, c, d);
          }
        }
      }
    }
  }

  /** The chain of one statement: exactly the needed queries, each once and after what it reads. */
  lemma ChainIsExact(g: seq<Vertex>, k: nat, available: set<nat>)
    requires Ordered(g) && k < |g|
    requires forall i :: 0 <= i <= k && g[i].stored ==> i in available
    ensures var r := CompileNode(g, k, available, Chain([], {}));
            && r.Some? && Sound(g, available, r.value) && k in r.value.compiled
            && SetOf(r.value.ctes) == Needs(g, k)
  {
    CompileNodeSound(g, k, available, Chain([], {}));
    NeedsCovered(g, available, CompileNode(g, k, available, Chain([], {})).value, k);
  }

  // ----- statements -----

  function EarlierSteps(g: seq<Vertex>, k: nat): set<nat> {
    set j: nat | j < k && j < |g| && g[j].stored
  }

  function CteOf(g: seq<Vertex>, x: nat): (NodeId, Query) {
    if x < |g| then (g[x].id, g[x].query) else (NodeId(ScanId, 0), UnionAll([]))
  }

  function CteList(g: seq<Vertex>, xs: seq<nat>): seq<(NodeId, Query)> {
    Map(x => CteOf(g, x), xs)
  }

  /** The statement of stored node `k`, or None when collection fails. */
  ghost function StatementFor(g: seq<Vertex>, k: nat): Option<Statement>
    requires Ordered(g) && k < |g| && g[k].stored && |g[k].uses| == 1
  {
    assert g[k].uses[0] in g[k].uses;
    var chain := CompileNode(g, g[k].uses[0], EarlierSteps(g, k), Chain([], {}));
    if chain.None? then None
    else Some(Create(g[k].target, CteList(g, chain.value.ctes), g[k].query))
  }

  ghost predicate OneInputPerStep(g: seq<Vertex>) {
    forall k :: 0 <= k < |g| && g[k].stored ==> |g[k].uses| == 1
  }

  /** Statements of the stored nodes among the first `k`. */
  ghost function StatementsUpTo(g: seq<Vertex>, k: nat): Option<seq<Statement>>
    requires Ordered(g) && OneInputPerStep(g) && k <= |g|
  {
    if k == 0 then Some([])
    else
      var before := StatementsUpTo(g, k - 1);
      if before.None? || !g[k - 1].stored then before
      else
        var last := StatementFor(g, k - 1);
        if last.None? then None else Some(before.value + [last.value])
  }

  // ----- running them -----

  function Place(v: Vertex): Relation {
    if v.stored then Temp(v.target) else Cte(v.id)
  }

  ghost predicate UsesReady(g: seq<Vertex>, rows: seq<seq<Row>>, k: nat, c: Context)
    requires k < |g| && |rows| == |g|
  {
    forall d :: d in g[k].uses ==> d < |g| && Rows(Place(g[d]), c) == rows[d]
  }

  /** Node `k`'s query computes `rows[k]` wherever its dependencies are in place. */
  ghost predicate Computes(g: seq<Vertex>, world: World, rows: seq<seq<Row>>, k: nat)
    requires k < |g| && |rows| == |g|
  {
    forall c: Context {:trigger EvalQuery(g[k].query, c)} ::
      c.world == world && UsesReady(g, rows, k, c) ==> EvalQuery(g[k].query, c) == rows[k]
  }

  /** Step `k` has a table that no earlier step has. */
  ghost predicate OwnTable(g: seq<Vertex>, k: nat)
    requires k < |g|
  {
    forall i :: 0 <= i < k && g[i].stored && g[k].stored ==> g[i].target != g[k].target
  }

  ghost predicate Runnable(g: seq<Vertex>, world: World, rows: seq<seq<Row>>) {
    && |rows| == |g| && Ordered(g) && OneInputPerStep(g)
    && (forall i, j :: 0 <= i < j < |g| ==> g[i].id != g[j].id)
    && (forall k {:trigger Computes(g, world, rows, k)} :: 0 <= k < |g| ==> Computes(g, world, rows, k))
    && (forall k {:trigger OwnTable(g, k)} :: 0 <= k < |g| ==> OwnTable(g, k))
  }

  /** Tables of the steps before node `k` hold those steps' rows. */
  ghost predicate StepsStored(g: seq<Vertex>, rows: seq<seq<Row>>, temps: map<Target, seq<Row>>, k: nat)
    requires |rows| == |g|
  {
    forall j :: 0 <= j < k && j < |g| && g[j].stored ==> g[j].target in temps && temps[g[j].target] == rows[j]
  }

  ghost predicate CtesStored(g: seq<Vertex>, rows: seq<seq<Row>>, ctes: map<NodeId, seq<Row>>, xs: seq<nat>)
    requires |rows| == |g|
  {
    forall x :: x in xs ==> x < |g| && g[x].id in ctes && ctes[g[x].id] == rows[x]
  }

  lemma ReadableIsReady(g: seq<Vertex>, rows: seq<seq<Row>>, k: nat, c: Context, xs: seq<nat>, d: nat)
    requires |rows| == |g| && Readable(g, EarlierSteps(g, k), xs, d)
    requires StepsStored(g, rows, c.temps, k) && CtesStored(g, rows, c.ctes, xs)
    ensures d < |g| && Rows(Place(g[d]), c) == rows[d]
  {
  }

  lemma NextCte(g: seq<Vertex>, world: World, rows: seq<seq<Row>>, k: nat, c: Context, ctes: seq<nat>, p: nat)
    requires Runnable(g, world, rows) && c.world == world && p < |ctes|
    requires StepsStored(g, rows, c.temps, k) && CtesStored(g, rows, c.ctes, ctes[..p])
    requires ReadyAt(g, EarlierSteps(g, k), ctes, p)
    ensures ctes[p] < |g| && EvalQuery(g[ctes[p]].query, c) == rows[ctes[p]]
  {
    var x := ctes[p];
    forall d | d in g[x].uses ensures d < |g| && Rows(Place(g[d]), c) == rows[d] {
      ReadableIsReady(g, rows, k, c, ctes[..p], d);
    }
    assert Computes(g, world, rows, x);
  }

  /** What a chain of queries has computed before its `p`-th member. */
  ghost predicate ChainState(g: seq<Vertex>, rows: seq<seq<Row>>, c0: Context, c: Context, xs: seq<nat>)
    requires |rows| == |g|
  {
    c.world == c0.world && c.temps == c0.temps && CtesStored(g, rows, c.ctes, xs)
  }

  lemma ExtendChainState(g: seq<Vertex>, rows: seq<seq<Row>>, c0: Context, c: Context, xs: seq<nat>, x: nat)
    requires |rows| == |g| && ChainState(g, rows, c0, c, xs) && x < |g| && x !in xs
    requires forall i, j :: 0 <= i < j < |g| ==> g[i].id != g[j].id
    ensures ChainState(g, rows, c0, c.(ctes := c.ctes[g[x].id := rows[x]]), xs + [x])
  {
    forall y | y in xs ensures y < |g| && g[y].id != g[x].id {
      assert y != x;
    }
  }

  lemma NoCtes(g: seq<Vertex>, rows: seq<seq<Row>>, c0: Context)
    requires |rows| == |g| && c0.ctes == map[]
    ensures ChainState(g, rows, c0, EvalCtes(CteList(g, []), c0), [])
  {
  }

  lemma {:induction false} CteContexts(g: seq<Vertex>, world: World, rows: seq<seq<Row>>, k: nat, c0: Context,
          ctes: seq<nat>, p: nat)
    requires Runnable(g, world, rows) && c0.world == world && c0.ctes == map[] && p <= |ctes|
    requires StepsStored(g, rows, c0.temps, k)
    requires forall q :: 0 <= q < |ctes| ==> ReadyAt(g, EarlierSteps(g, k), ctes, q)
    requires NoDup(ctes)
    ensures ChainState(g, rows, c0, EvalCtes(CteList(g, ctes[..p]), c0), ctes[..p])
  {
    hide EvalQuery, Readable, ReadyAt, EarlierSteps, StepsStored, Computes, Ordered, OneInputPerStep, OwnTable,
         CteList, EvalCtes, CtesStored;
    if p == 0 {
      NoCtes(g, rows, c0);
      assert ctes[..p] == [];
    } else {
      CteContexts(g, world, rows, k, c0, ctes, p - 1);
      var x := ctes[p - 1];
      var done := CteList(g, ctes[..p - 1]);
      var before := EvalCtes(done, c0);
      assert ReadyAt(g, EarlierSteps(g, k), ctes, p - 1);
      NextCte(g, world, rows, k, before, ctes, p - 1);
      assert ctes[..p] == ctes[..p - 1] + [x];
      CteListSnoc(g, ctes[..p - 1], x);
      EvalCtesSnoc(done, g[x].id, g[x].query, c0, rows[x]);
      ExtendChainState(g, rows, c0, before, ctes[..p - 1], x);
    }
  }

  lemma CteListSnoc(g: seq<Vertex>, xs: seq<nat>, x: nat)
    requires x < |g|
    ensures CteList(g, xs + [x]) == CteList(g, xs) + [(g[x].id, g[x].query)]
  {
    MapConcat(y => CteOf(g, y), xs, [x]);
  }

  lemma StatementRows(g: seq<Vertex>, world: World, rows: seq<seq<Row>>, k: nat, temps: map<Target, seq<Row>>)
    requires Runnable(g, world, rows) && k < |g| && g[k].stored
    requires StepsStored(g, rows, temps, k)
    ensures StatementFor(g, k).Some?
    ensures Execute(StatementFor(g, k).value, world, temps) == temps[g[k].target := rows[k]]
  {
    hide EvalQuery, Readable, ReadyAt, StepsStored, CompileNode, EvalCtes, CteList;
    var i := g[k].uses[0];
    assert i in g[k].uses;
    var available := EarlierSteps(g, k);
    ChainIsExact(g, i, available);
    var chain := CompileNode(g, i, available, Chain([], {})).value;
    var c0 := Context(world, temps - {g[k].target}, map[]);
    OthersStayStored(g, rows, temps, k);
    CteContexts(g, world, rows, k, c0, chain.ctes, |chain.ctes|);
    assert chain.ctes[..|chain.ctes|] == chain.ctes;
    var c := EvalCtes(CteList(g, chain.ctes), c0);
    ReadableIsReady(g, rows, k, c, chain.ctes, i);
    assert g[k].uses == [i];
    assert UsesReady(g, rows, k, c);
    assert Computes(g, world, rows, k);
    assert StatementFor(g, k) == Some(Create(g[k].target, CteList(g, chain.ctes), g[k].query));
  }

  // Dropping the step's own table leaves the results of earlier steps.
  lemma OthersStayStored(g: seq<Vertex>, rows: seq<seq<Row>>, temps: map<Target, seq<Row>>, k: nat)
    requires k < |g| && |rows| == |g| && g[k].stored && OwnTable(g, k) && StepsStored(g, rows, temps, k)
    ensures StepsStored(g, rows, temps - {g[k].target}, k)
  {
  }

  lemma RunOne(g: seq<Vertex>, world: World, rows: seq<seq<Row>>, k: nat, before: seq<Statement>,
          temps: map<Target, seq<Row>>)
    requires Runnable(g, world, rows) && k < |g| && g[k].stored
    requires StepsStored(g, rows, Run(before, world, temps), k)
    ensures StatementFor(g, k).Some?
    ensures StepsStored(g, rows, Run(before + [StatementFor(g, k).value], world, temps), k + 1)
  {
    hide Run, Execute, StatementFor, Computes, StepsStored, Ordered;
    var stored := Run(before, world, temps);
    StatementRows(g, world, rows, k, stored);
    RunSnoc(before, StatementFor(g, k).value, world, temps);
    assert OwnTable(g, k);
    StoredAlso(g, rows, stored, k);
  }

  lemma StoredAlso(g: seq<Vertex>, rows: seq<seq<Row>>, temps: map<Target, seq<Row>>, k: nat)
    requires k < |g| && |rows| == |g| && g[k].stored && OwnTable(g, k) && StepsStored(g, rows, temps, k)
    ensures StepsStored(g, rows, temps[g[k].target := rows[k]], k + 1)
  {
  }

  /** Running the statements of the first `k` nodes leaves every step's rows in its own table. */
  lemma {:induction false} ProgramRows(g: seq<Vertex>, world: World, rows: seq<seq<Row>>, k: nat,
          temps: map<Target, seq<Row>>)
    requires Runnable(g, world, rows) && k <= |g|
    ensures StatementsUpTo(g, k).Some?
    ensures StepsStored(g, rows, Run(StatementsUpTo(g, k).value, world, temps), k)
  {
    hide Run, StatementFor, Computes, StepsStored, Ordered, OneInputPerStep, OwnTable;
    if k == 0 {
      NoneStored(g, rows, Run([], world, temps));
    } else {
      ProgramRows(g, world, rows, k - 1, temps);
      if g[k - 1].stored {
        RunOne(g, world, rows, k - 1, StatementsUpTo(g, k - 1).value, temps);
      } else {
        StoredSkips(g, rows, Run(StatementsUpTo(g, k - 1).value, world, temps), k - 1);
      }
    }
  }

  lemma NoneStored(g: seq<Vertex>, rows: seq<seq<Row>>, temps: map<Target, seq<Row>>)
    requires |rows| == |g|
    ensures StepsStored(g, rows, temps, 0)
  {
  }

  lemma StoredSkips(g: seq<Vertex>, rows: seq<seq<Row>>, temps: map<Target, seq<Row>>, k: nat)
    requires k < |g| && |rows| == |g| && !g[k].stored && StepsStored(g, rows, temps, k)
    ensures StepsStored(g, rows, temps, k + 1)
  {
  }
}
