/** `EqOp.to_bq` of the BigQuery expression translator: the per-type clause
    table that turns an equality between two multi-typed columns into SQL,
    and the literal folding of `EqOp.partial_eval`. SQL fragments are
    strings; the mo_sql constants are written out below. */
module EqOp {
  import opened Wrappers
  import opened Strings

  /** One typed slot of a column's `sql` mapping: missing (None), the `ZERO`
      literal, or an SQL expression. */
  datatype Cell = Absent | Zero | Sql(text: string)

  /** A column's `sql` mapping from type letter to SQL. */
  type Column = map<char, Cell>

  /** The type letters in the order `to_bq` visits them. */
  const Types: string := "bsnj"

  const SqlIsNull: string := " IS NULL"
  const SqlFalse: string := "FALSE"
  const SqlOr: string := " OR "

  /** The SQL text of the `ZERO` literal where `sql_iso` renders it. */
  const ZeroSql: string := "0"

  /** The error raised for ZERO on both sides. */
  const SimplifyError: string := "Expecting expression to have been simplified already"

  /** `sql_iso`: parenthesise an expression. */
  function SqlIso(x: string): string
  {
    "(" + x + ")"
  }

  /** `l.sql[t]`: a missing type letter reads as None. */
  function Get(col: Column, t: char): Cell
  {
    if t in col then col[t] else Absent
  }

  /** What `to_bq` returns: `FALSE.to_bq(schema)` when there is no clause,
      otherwise a script typed BOOLEAN whose `miss` is FALSE. */
  datatype Bq = FalseBq | Script(expr: string)

  /** The clause one type letter contributes: None only when both sides
      are missing, an error for two ZEROs (they should have been simplified
      away). A missing lhs tests the rhs for NULL, ZERO included. */
  function Clause(l: Cell, r: Cell): Result<Option<string>>
  {
    match l
    case Absent =>
      (match r
       case Absent => Success(None)
       case Zero => Success(Some(SqlIso(ZeroSql) + SqlIsNull))
       case Sql(y) => Success(Some(SqlIso(y) + SqlIsNull)))
    case Zero =>
      (match r
       case Absent => Success(Some(SqlFalse))
       case Zero => Failure(SimplifyError)
       case Sql(y) => Success(Some(y)))
    case Sql(x) =>
      (match r
       case Absent => Success(Some(SqlIso(x) + SqlIsNull))
       case Zero => Success(Some(x))
       case Sql(y) => Success(Some(SqlIso(x) + " = " + SqlIso(y))))
  }

  /** The clauses of one column pair, for the type letters `ts` in order. */
  function TypeClauses(l: Column, r: Column, ts: string): Result<seq<string>>
  {
    if |ts| == 0 then Success([])
    else
      match TypeClauses(l, r, ts[..|ts| - 1])
      case Failure(e) => Failure(e)
      case Success(acc) =>
        match Clause(Get(l, ts[|ts| - 1]), Get(r, ts[|ts| - 1]))
        case Failure(e) => Failure(e)
        case Success(c) => Success(if c.Some? then acc + [c.value] else acc)
  }

  /** The clauses of the zipped columns, column by column. */
  function ColumnClauses(lhs: seq<Column>, rhs: seq<Column>): Result<seq<string>>
    requires |lhs| == |rhs|
  {
    if |lhs| == 0 then Success([])
    else
      match ColumnClauses(lhs[..|lhs| - 1], rhs[..|rhs| - 1])
      case Failure(e) => Failure(e)
      case Success(acc) =>
        match TypeClauses(lhs[|lhs| - 1], rhs[|rhs| - 1], Types)
        case Failure(e) => Failure(e)
        case Success(cs) => Success(acc + cs)
  }

  /** `to_bq` as a value: a dimension mismatch or a ZERO/ZERO pair is an
      error, no clause gives FALSE, otherwise the OR of the clauses. */
  function ToBq(lhs: seq<Column>, rhs: seq<Column>): Result<Bq>
  {
    if |lhs| != |rhs| then Failure("lhs and rhs have different dimensionality!?")
    else
      match ColumnClauses(lhs, rhs)
      case Failure(e) => Failure(e)
      case Success(acc) => if |acc| == 0 then Success(FalseBq) else Success(Script(Join(acc, SqlOr)))
  }

  /** `to_bq`'s nested loops over the zipped columns and the letters "bsnj",
      appending to the clause list `acc`. */
  method ToBqLoop(lhs: seq<Column>, rhs: seq<Column>) returns (r: Result<Bq>)
    ensures r == ToBq(lhs, rhs)
  {
    if |lhs| != |rhs| {
      return Failure("lhs and rhs have different dimensionality!?");
    }
    var acc: seq<string> := [];
    var i := 0;
    while i < |lhs|
      invariant 0 <= i <= |lhs|
      invariant ColumnClauses(lhs[..i], rhs[..i]) == Success(acc)
    {
      var k := 0;
      var row: seq<string> := [];
      while k < |Types|
        invariant 0 <= k <= |Types|
        invariant TypeClauses(lhs[i], rhs[i], Types[..k]) == Success(row)
      {
        assert Types[..k + 1][..k] == Types[..k];
        var c := Clause(Get(lhs[i], Types[k]), Get(rhs[i], Types[k]));
        if c.Failure? {
          ColumnClausesFailure(lhs, rhs, i, k);
          return Failure(c.error);
        }
        if c.value.Some? {
          row := row + [c.value.value];
        }
        k := k + 1;
      }
      assert Types[..k] == Types;
      assert lhs[..i + 1][..i] == lhs[..i] && rhs[..i + 1][..i] == rhs[..i];
      acc := acc + row;
      i := i + 1;
    }
    assert lhs[..i] == lhs && rhs[..i] == rhs;
    if |acc| == 0 {
      r := Success(FalseBq);
    } else {
      r := Success(Script(Join(acc, SqlOr)));
    }
  }

  // ----- properties -----

  /** A ZERO/ZERO pair anywhere makes the whole translation fail. */
  lemma {:induction false} ColumnClausesFailure(lhs: seq<Column>, rhs: seq<Column>, i: nat, k: nat)
    requires |lhs| == |rhs| && i < |lhs| && k < |Types|
    requires ColumnClauses(lhs[..i], rhs[..i]).Success?
    requires TypeClauses(lhs[i], rhs[i], Types[..k]).Success?
    requires Clause(Get(lhs[i], Types[k]), Get(rhs[i], Types[k])).Failure?
    ensures ColumnClauses(lhs, rhs) == Failure(SimplifyError)
    ensures Clause(Get(lhs[i], Types[k]), Get(rhs[i], Types[k])) == Failure(SimplifyError)
    decreases |lhs|
  {
    TypeClausesFailure(lhs[i], rhs[i], Types, k);
    if i < |lhs| - 1 {
      assert lhs[..|lhs| - 1][..i] == lhs[..i] && rhs[..|rhs| - 1][..i] == rhs[..i];
      ColumnClausesFailure(lhs[..|lhs| - 1], rhs[..|rhs| - 1], i, k);
    } else {
      assert lhs[..|lhs| - 1] == lhs[..i] && rhs[..|rhs| - 1] == rhs[..i];
    }
  }

  lemma {:induction false} TypeClausesFailure(l: Column, r: Column, ts: string, k: nat)
    requires k < |ts|
    requires TypeClauses(l, r, ts[..k]).Success?
    requires Clause(Get(l, ts[k]), Get(r, ts[k])).Failure?
    ensures TypeClauses(l, r, ts) == Failure(SimplifyError)
    decreases |ts|
  {
    if k < |ts| - 1 {
      assert ts[..|ts| - 1][..k] == ts[..k];
      TypeClausesFailure(l, r, ts[..|ts| - 1], k);
    } else {
      assert ts[..|ts| - 1] == ts[..k];
    }
  }

  /** A column pair yields no clause exactly when every type letter is
      missing on both sides; it fails exactly when some letter is ZERO on
      both sides. */
  lemma {:induction false} TypeClausesEmpty(l: Column, r: Column, ts: string)
    ensures TypeClauses(l, r, ts).Failure?
      <==> exists k :: 0 <= k < |ts| && Get(l, ts[k]) == Zero && Get(r, ts[k]) == Zero
    ensures TypeClauses(l, r, ts) == Success([])
      <==> forall k :: 0 <= k < |ts| ==> Get(l, ts[k]) == Absent && Get(r, ts[k]) == Absent
    decreases |ts|
  {
    if |ts| > 0 {
      var init := ts[..|ts| - 1];
      TypeClausesEmpty(l, r, init);
      assert forall k :: 0 <= k < |init| ==> init[k] == ts[k];
      var t := ts[|ts| - 1];
      match TypeClauses(l, r, init)
      case Failure(_) =>
      case Success(acc) =>
        if acc != [] {
          assert TypeClauses(l, r, ts).Failure? || |TypeClauses(l, r, ts).value| >= |acc|;
        }
    }
  }

  /** The translation is FALSE exactly when the dimensions agree and every
      column pair contributes nothing. */
  lemma {:induction false} ColumnClausesEmpty(lhs: seq<Column>, rhs: seq<Column>)
    requires |lhs| == |rhs|
    ensures ColumnClauses(lhs, rhs) == Success([])
      <==> forall i :: 0 <= i < |lhs| ==> TypeClauses(lhs[i], rhs[i], Types) == Success([])
    decreases |lhs|
  {
    if |lhs| > 0 {
      var n := |lhs| - 1;
      ColumnClausesEmpty(lhs[..n], rhs[..n]);
      assert forall i :: 0 <= i < n ==> lhs[..n][i] == lhs[i] && rhs[..n][i] == rhs[i];
      match ColumnClauses(lhs[..n], rhs[..n])
      case Failure(_) =>
      case Success(acc) =>
        match TypeClauses(lhs[n], rhs[n], Types)
        case Failure(_) =>
        case Success(cs) =>
          assert ColumnClauses(lhs, rhs) == Success(acc + cs);
          assert acc + cs == [] <==> acc == [] && cs == [];
    }
  }

  /** The whole case table in one statement: `to_bq` gives FALSE exactly when
      the dimensions agree and every type letter of every column is missing
      on both sides. */
  lemma ToBqFalseIff(lhs: seq<Column>, rhs: seq<Column>)
    ensures ToBq(lhs, rhs) == Success(FalseBq)
      <==> |lhs| == |rhs|
           && forall i, k :: 0 <= i < |lhs| && 0 <= k < |Types| ==>
                Get(lhs[i], Types[k]) == Absent && Get(rhs[i], Types[k]) == Absent
  {
    if |lhs| == |rhs| {
      ColumnClausesEmpty(lhs, rhs);
      forall i | 0 <= i < |lhs| {
        TypeClausesEmpty(lhs[i], rhs[i], Types);
      }
    }
  }

  /** A ZERO on both sides of some letter of some column is the only error
      besides a dimension mismatch. */
  lemma {:induction false} ColumnClausesFailureIff(lhs: seq<Column>, rhs: seq<Column>)
    requires |lhs| == |rhs|
    ensures ColumnClauses(lhs, rhs).Failure?
      <==> exists i, k :: 0 <= i < |lhs| && 0 <= k < |Types|
             && Get(lhs[i], Types[k]) == Zero && Get(rhs[i], Types[k]) == Zero
    decreases |lhs|
  {
    if |lhs| > 0 {
      var n := |lhs| - 1;
      ColumnClausesFailureIff(lhs[..n], rhs[..n]);
      TypeClausesEmpty(lhs[n], rhs[n], Types);
      assert forall i :: 0 <= i < n ==> lhs[..n][i] == lhs[i] && rhs[..n][i] == rhs[i];
    }
  }

  /** ZERO against an expression yields the expression alone, on either side. */
  lemma ZeroAgainstExpression(x: string)
    ensures Clause(Zero, Sql(x)) == Clause(Sql(x), Zero) == Success(Some(x))
  {
  }

  /** Joining two or more clauses puts `" OR "` between them. */
  lemma JoinTwo(a: string, b: string)
    ensures Join([a, b], SqlOr) == a + " OR " + b
  {
    assert [a, b][..1] == [a];
  }

  // ----- partial_eval -----

  /** A literal value as `partial_eval` compares it. */
  datatype Literal = LitNull | LitBool(b: bool) | LitNumber(n: int) | LitString(s: string)

  /** An operand after `partial_eval`: a literal, or any other expression. */
  datatype Operand = Lit(value: Literal) | NonLiteral(description: string)

  /** The number a literal stands for under Python's `==`: `True` is 1 and
      `False` is 0, as for any `bool`. */
  function Numeric(v: Literal): Option<int>
  {
    match v
    case LitBool(b) => Some(if b then 1 else 0)
    case LitNumber(n) => Some(n)
    case _ => None
  }

  /** Python's `==` on literal values: booleans and numbers compare as
      numbers, anything else only with an identical value. */
  predicate PyEq(a: Literal, b: Literal)
  {
    if Numeric(a).Some? || Numeric(b).Some? then Numeric(a) == Numeric(b) else a == b
  }

  /** Which literals can ever compare equal: null, the numbers (booleans
      included), the strings. */
  function Family(v: Literal): nat
  {
    match v
    case LitNull => 0
    case LitBool(_) => 1
    case LitNumber(_) => 1
    case LitString(_) => 2
  }

  /** Both literals are built by the same constructor. */
  predicate SameKind(a: Literal, b: Literal)
  {
    a.LitNull? == b.LitNull? && a.LitBool? == b.LitBool? && a.LitNumber? == b.LitNumber?
  }

  /** The first branch of `partial_eval`: two literals fold to TRUE or FALSE
      by Python's `==`; anything else is left to the CASE rewrite. */
  function FoldLiterals(lhs: Operand, rhs: Operand): (r: Option<bool>)
    ensures r.Some? <==> lhs.Lit? && rhs.Lit?
    ensures lhs.Lit? && rhs.Lit? && Family(lhs.value) != Family(rhs.value) ==> r == Some(false)
    ensures lhs.Lit? && rhs.Lit? && SameKind(lhs.value, rhs.value) ==>
      (r == Some(true) <==> lhs.value == rhs.value)
  {
    if lhs.Lit? && rhs.Lit? then Some(PyEq(lhs.value, rhs.value)) else None
  }

  /** A boolean against a number: `True == 1` and `False == 0`, and no
      other number equals either. */
  lemma FoldBoolNumber(b: bool, n: int)
    ensures FoldLiterals(Lit(LitBool(b)), Lit(LitNumber(n))) == Some(n == (if b then 1 else 0))
  {
  }

  /** Folding is transitive: literals folding equal to a common literal fold
      equal to each other. */
  lemma FoldTransitive(a: Literal, b: Literal, c: Literal)
    requires FoldLiterals(Lit(a), Lit(b)) == Some(true)
    requires FoldLiterals(Lit(b), Lit(c)) == Some(true)
    ensures FoldLiterals(Lit(a), Lit(c)) == Some(true)
  {
  }

  /** Folding does not depend on the order of the operands. */
  lemma FoldSymmetric(lhs: Operand, rhs: Operand)
    ensures FoldLiterals(lhs, rhs) == FoldLiterals(rhs, lhs)
  {
  }
}
