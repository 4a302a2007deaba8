/** CTAS programs: what the program checker accepts, and when an accepted program can be rerun.
    Models `validate_program` of ontology_core/program_compiler.py on folded table names. */
module CtasProgram {
  import opened SeqOps

  /** A table name with its case-folded form; programs are checked and run on folded names. */
  datatype TableName = TableName(spelling: nat, folded: nat)

  /** DROP TABLE IF EXISTS target; CREATE TABLE target AS a query that reads tables. */
  datatype Statement = Statement(target: TableName, inputs: seq<TableName>, query: nat)

  /** The declared sources, and the names with the system prefix. */
  datatype Program = Program(statements: seq<Statement>, sources: set<nat>, prefixed: set<nat>)

  function Targets(statements: seq<Statement>): set<nat> {
    set s | s in statements :: s.target.folded
  }

  // ----- acceptance -----

  /** Reads of one statement: a target must already be created, and so must a system name. */
  predicate ReadsAllowed(p: Program, created: set<nat>, s: Statement) {
    forall t :: t in s.inputs ==>
      (t.folded in Targets(p.statements) ==> t.folded in created) && (t.folded in p.prefixed ==> t.folded in created)
  }

  /** `validate_program` on well-formed DROP and CREATE pairs. */
  ghost predicate Accepted(p: Program) {
    && Targets(p.statements) !! p.sources
    && forall k :: 0 <= k < |p.statements| ==> ReadsAllowed(p, Targets(p.statements[..k]), p.statements[k])
  }

  /** One of the first `k` statements creates the table. */
  ghost predicate CreatedBy(p: Program, k: nat, table: nat)
    requires k <= |p.statements|
  {
    exists j :: 0 <= j < k && p.statements[j].target.folded == table
  }

  lemma TargetsAre(p: Program, k: nat, table: nat)
    requires k <= |p.statements|
    ensures table in Targets(p.statements[..k]) <==> CreatedBy(p, k, table)
  {
    if table in Targets(p.statements[..k]) {
      var s :| s in p.statements[..k] && s.target.folded == table;
      var j :| 0 <= j < k && p.statements[..k][j] == s;
      assert p.statements[j].target.folded == table;
    }
    if j :| 0 <= j < k && p.statements[j].target.folded == table {
      assert p.statements[..k][j] in p.statements[..k];
    }
  }

  /** A program is accepted exactly when no statement creates a source, and every read table that some statement
      creates, or that has the system prefix, is created by an earlier statement. */
  lemma AcceptedExactly(p: Program)
    ensures Accepted(p) <==>
              && (forall k :: 0 <= k < |p.statements| ==> p.statements[k].target.folded !in p.sources)
              && forall k, t ::
                   0 <= k < |p.statements| && t in p.statements[k].inputs
                   && (t.folded in p.prefixed || CreatedBy(p, |p.statements|, t.folded)) ==>
                   CreatedBy(p, k, t.folded)
  {
    hide Targets, CreatedBy;
    assert p.statements[..|p.statements|] == p.statements;
    forall k, table | 0 <= k <= |p.statements|
      ensures table in Targets(p.statements[..k]) <==> CreatedBy(p, k, table) {
      TargetsAre(p, k, table);
    }
    NoSourceIsCreated(p);
  }

  lemma NoSourceIsCreated(p: Program)
    ensures Targets(p.statements) !! p.sources <==>
              forall k :: 0 <= k < |p.statements| ==> p.statements[k].target.folded !in p.sources
  {
    forall k | 0 <= k < |p.statements| ensures p.statements[k].target.folded in Targets(p.statements) {
      assert p.statements[k] in p.statements;
    }
  }

  method Validate(p: Program) returns (ok: bool)
    ensures ok <==> Accepted(p)
  {
    if !(Targets(p.statements) !! p.sources) {
      return false;
    }
    var created: set<nat> := {};
    for k := 0 to |p.statements|
      invariant created == Targets(p.statements[..k])
      invariant forall i :: 0 <= i < k ==> ReadsAllowed(p, Targets(p.statements[..i]), p.statements[i])
    {
      if !ReadsAllowed(p, created, p.statements[k]) {
        return false;
      }
      assert p.statements[..k + 1] == p.statements[..k] + [p.statements[k]];
      created := created + {p.statements[k].target.folded};
    }
    assert p.statements[..|p.statements|] == p.statements;
    ok := created == Targets(p.statements);
  }

  // ----- running -----

  type Content = int
  type Database = map<nat, Content>

  predicate CanRead(s: Statement, db: Database) {
    forall t :: t in s.inputs ==> t.folded in db
  }

  /** One pair of statements; reading a missing table fails. `eval` gives the content of a query. */
  function Execute(s: Statement, db: Database, eval: (nat, seq<Content>) -> Content): Option<Database> {
    var dropped := db - {s.target.folded};
    if !CanRead(s, dropped) then None
    else Some(dropped[s.target.folded :=
                      eval(s.query, Map((t: TableName) =>
                                        if t.folded in dropped then dropped[t.folded] else 0, s.inputs))])
  }

  function Run(statements: seq<Statement>, db: Database, eval: (nat, seq<Content>) -> Content): Option<Database> {
    if statements == [] then Some(db)
    else
      var before := Run(statements[..|statements| - 1], db, eval);
      if before.None? then None else Execute(statements[|statements| - 1], before.value, eval)
  }

  predicate ReadsItself(s: Statement) {
    exists t :: t in s.inputs && t.folded == s.target.folded
  }

  predicate SelfReadFree(statements: seq<Statement>) {
    forall s :: s in statements ==> !ReadsItself(s)
  }

  /** The tables a program needs from outside. */
  function External(p: Program): set<nat> {
    set s, t | s in p.statements && t in s.inputs && t.folded !in Targets(p.statements) :: t.folded
  }

  /** The same content for every table that the program does not create. */
  ghost predicate SameOutside(p: Program, a: Database, b: Database) {
    forall t :: t !in Targets(p.statements) ==> (t in a <==> t in b) && (t in a && t in b ==> a[t] == b[t])
  }

  // Two databases that agree outside and on what is created so far.
  ghost predicate Agree(p: Program, k: nat, a: Database, b: Database)
    requires k <= |p.statements|
  {
    && SameOutside(p, a, b)
    && forall t :: t in Targets(p.statements[..k]) ==> t in a && t in b && a[t] == b[t]
  }

  lemma TargetsSnoc(statements: seq<Statement>, k: nat)
    requires k < |statements|
    ensures Targets(statements[..k + 1]) == Targets(statements[..k]) + {statements[k].target.folded}
    ensures statements[..k + 1][..k] == statements[..k] && statements[k].target.folded in Targets(statements)
  {
    assert statements[..k + 1] == statements[..k] + [statements[k]];
  }

  // A read table is outside, or created earlier by another statement.
  lemma ReadIsAgreed(p: Program, k: nat, t: TableName)
    requires Accepted(p) && k < |p.statements| && t in p.statements[k].inputs && !ReadsItself(p.statements[k])
    ensures t.folded != p.statements[k].target.folded
    ensures t.folded in Targets(p.statements) ==> t.folded in Targets(p.statements[..k])
    ensures t.folded !in Targets(p.statements) ==> t.folded in External(p)
  {
    assert ReadsAllowed(p, Targets(p.statements[..k]), p.statements[k]);
    assert p.statements[k] in p.statements;
  }

  // A statement writes the same content when the tables it reads are the same.
  lemma ExecuteAgrees(s: Statement, a: Database, b: Database, eval: (nat, seq<Content>) -> Content) returns (v: Content)
    requires forall t :: t in s.inputs ==>
              t.folded != s.target.folded && t.folded in a && t.folded in b && a[t.folded] == b[t.folded]
    ensures Execute(s, a, eval) == Some(a[s.target.folded := v]) && Execute(s, b, eval) == Some(b[s.target.folded := v])
  {
    var da, db := a - {s.target.folded}, b - {s.target.folded};
    var ra := Map((t: TableName) => if t.folded in da then da[t.folded] else 0, s.inputs);
    var rb := Map((t: TableName) => if t.folded in db then db[t.folded] else 0, s.inputs);
    forall i | 0 <= i < |s.inputs| ensures ra[i] == rb[i] {
      assert s.inputs[i] in s.inputs;
    }
    assert ra == rb;
    v := eval(s.query, ra);
    assert da[s.target.folded := v] == a[s.target.folded := v] && db[s.target.folded := v] == b[s.target.folded := v];
  }

  lemma StepAgrees(p: Program, k: nat, a: Database, b: Database, eval: (nat, seq<Content>) -> Content)
    requires Accepted(p) && k < |p.statements| && !ReadsItself(p.statements[k]) && Agree(p, k, a, b)
    requires External(p) <= a.Keys
    ensures var x, y := Execute(p.statements[k], a, eval), Execute(p.statements[k], b, eval);
            && x.Some? && y.Some? && Agree(p, k + 1, x.value, y.value) && External(p) <= x.value.Keys
            && SameOutside(p, a, x.value)
  {
    hide Execute, Accepted, External, Targets, ReadsItself;
    var s := p.statements[k];
    TargetsSnoc(p.statements, k);
    forall t | t in s.inputs
        ensures t.folded != s.target.folded && t.folded in a && t.folded in b && a[t.folded] == b[t.folded] {
      ReadIsAgreed(p, k, t);
    }
    var v := ExecuteAgrees(s, a, b, eval);
  }

  lemma {:induction false} RunAgrees(p: Program, k: nat, a: Database, b: Database, eval: (nat, seq<Content>) -> Content)
    requires Accepted(p) && k <= |p.statements| && SelfReadFree(p.statements[..k]) && SameOutside(p, a, b)
             && External(p) <= a.Keys
    ensures var x, y := Run(p.statements[..k], a, eval), Run(p.statements[..k], b, eval);
            && x.Some? && y.Some? && Agree(p, k, x.value, y.value) && External(p) <= x.value.Keys
            && SameOutside(p, a, x.value)
  {
    hide Execute, Accepted, External;
    if k != 0 {
      TargetsSnoc(p.statements, k - 1);
      assert forall s :: s in p.statements[..k - 1] ==> s in p.statements[..k];
      assert p.statements[k - 1] == p.statements[..k][k - 1];
      RunAgrees(p, k - 1, a, b, eval);
      StepAgrees(p, k - 1, Run(p.statements[..k - 1], a, eval).value, Run(p.statements[..k - 1], b, eval).value, eval);
    }
  }

  /** An accepted program without self-reads is rerunnable: it succeeds, leaves every other table alone, its
      result depends only on those tables, and running it twice equals running it once. */
  lemma AcceptedIsRerunnable(p: Program, a: Database, b: Database, eval: (nat, seq<Content>) -> Content)
    requires Accepted(p) && SelfReadFree(p.statements) && SameOutside(p, a, b) && External(p) <= a.Keys
    ensures var x, y := Run(p.statements, a, eval), Run(p.statements, b, eval);
            && x.Some? && y.Some? && SameOutside(p, a, x.value)
            && (forall t :: t in Targets(p.statements) ==> t in x.value && t in y.value && x.value[t] == y.value[t])
            && Run(p.statements, x.value, eval) == x
  {
    hide Run, Accepted, External;
    var n := |p.statements|;
    assert p.statements[..n] == p.statements;
    RunAgrees(p, n, a, b, eval);
    var x := Run(p.statements, a, eval).value;
    RunAgrees(p, n, a, x, eval);
    var z := Run(p.statements, x, eval).value;
    forall t ensures (t in x <==> t in z) && (t in x && t in z ==> x[t] == z[t]) {
      if t !in Targets(p.statements) {
        assert (t in a <==> t in x) && (t in x <==> t in z);
      }
    }
    assert x == z;
  }

  lemma {:induction false} SelfReadStops(p: Program, k: nat, n: nat, db: Database, eval: (nat, seq<Content>) -> Content)
    requires k < n <= |p.statements| && ReadsItself(p.statements[k])
    ensures Run(p.statements[..n], db, eval).None?
  {
    assert p.statements[..n][..n - 1] == p.statements[..n - 1] && p.statements[..n][n - 1] == p.statements[n - 1];
    if k < n - 1 {
      SelfReadStops(p, k, n - 1, db, eval);
    } else {
      var t :| t in p.statements[k].inputs && t.folded == p.statements[k].target.folded;
    }
  }

  /** An accepted program whose external tables exist succeeds exactly when no statement reads the table it
      is about to drop. */
  lemma AcceptedSucceedsExactly(p: Program, db: Database, eval: (nat, seq<Content>) -> Content)
    requires Accepted(p) && External(p) <= db.Keys
    ensures Run(p.statements, db, eval).Some? <==> SelfReadFree(p.statements)
  {
    hide Run, Accepted, External, Execute, ReadsItself;
    assert p.statements[..|p.statements|] == p.statements;
    if SelfReadFree(p.statements) {
      AcceptedIsRerunnable(p, db, db, eval);
    } else {
      var s :| s in p.statements && ReadsItself(s);
      var k :| 0 <= k < |p.statements| && p.statements[k] == s;
      SelfReadStops(p, k, |p.statements|, db, eval);
    }
  }

  /** Targets that differ only in case are accepted, and then a statement may read the table it drops. */
  lemma CaseVariantsAreAccepted()
    ensures var upper, lower := TableName(0, 7), TableName(1, 7);
            var p := Program([Statement(upper, [], 0), Statement(lower, [upper], 1)], {}, {7});
            Accepted(p) && !SelfReadFree(p.statements)
  {
    var upper, lower := TableName(0, 7), TableName(1, 7);
    var p := Program([Statement(upper, [], 0), Statement(lower, [upper], 1)], {}, {7});
    assert p.statements[..0] == [] && p.statements[..1] == [p.statements[0]];
    assert p.statements[0] in p.statements[..1];
    assert 7 in Targets(p.statements[..1]);
    assert p.statements[1] in p.statements && upper in p.statements[1].inputs;
    assert ReadsItself(p.statements[1]);
  }

  /** With targets that stay different after folding, acceptance alone rules out self-reads. */
  lemma DistinctTargetsReadNothingOfTheirOwn(p: Program)
    requires Accepted(p)
    requires forall i, j :: 0 <= i < j < |p.statements| ==>
              p.statements[i].target.folded != p.statements[j].target.folded
    ensures SelfReadFree(p.statements)
  {
    forall s | s in p.statements ensures !ReadsItself(s) {
      var k :| 0 <= k < |p.statements| && p.statements[k] == s;
      var created := Targets(p.statements[..k]);
      assert ReadsAllowed(p, created, s);
      assert s.target.folded !in created by {
        forall other | other in p.statements[..k] ensures other.target.folded != s.target.folded {
          var i :| 0 <= i < k && p.statements[..k][i] == other;
        }
      }
      assert s.target.folded in Targets(p.statements);
    }
  }
}
