/**
 Cleaning filter trees and compiling them to SQL conditions, with the meaning of both.

 Values are numbers, SQL's NULL is None, and conditions have SQL's three truth values; a query
 returns the rows whose condition is true. How two texts match under a LIKE operator is a
 parameter of the row. Conditions collected in one bracket are joined by their connectives, and an
 empty bracket is always true.
 */
module Filter {
  import opened Wrappers

  type Column = string
  type Cell = Option<int>

  datatype Truth = True | False | Unknown

  function And3(a: Truth, b: Truth): Truth {
    if a.False? || b.False? then False else if a.Unknown? || b.Unknown? then Unknown else True
  }

  function Or3(a: Truth, b: Truth): Truth {
    if a.True? || b.True? then True else if a.Unknown? || b.Unknown? then Unknown else False
  }

  function Not3(a: Truth): Truth {
    match a case True => False case False => True case Unknown => Unknown
  }

  function Of(b: bool): Truth {
    if b then True else False
  }

  // --- Filters --------------------------------------------------------------------------------

  datatype Relation = Equal | NotEqual | LessThan | LessOrEqual | GreaterThan | GreaterOrEqual
  datatype Pattern = Contain | StartWith | EndWith
  datatype ScalarOp = Rel(rel: Relation) | Match(pattern: Pattern, negated: bool)

  datatype ScalarData = NoData | NullData | Value(v: int) | ColumnRef(c: Column)
  datatype ListData = NoList | NotAList | Items(items: seq<Cell>) | ArrayRef(c: Column) | ScalarRef(c: Column) | NullRef

  /** A field is missing when the entry names none. */
  datatype Tree =
    | All(data: seq<Tree>)
    | Any(data: seq<Tree>)
    | NullTest(field: Option<Column>, negated: bool)
    | Compare(field: Option<Column>, op: ScalarOp, operand: ScalarData)
    | Member(field: Option<Column>, negated: bool, list: ListData)
    | Between(field: Option<Column>, from: Cell, to: Cell)

  predicate IsGroup(f: Tree) {
    f.All? || f.Any?
  }

  /** A leaf that cleaning keeps. */
  predicate Kept(f: Tree)
    requires !IsGroup(f)
  {
    f.field.Some? &&
    match f
    case NullTest(_, _) => true
    case Compare(_, _, operand) => !operand.NoData? && !operand.NullData?
    case Member(_, _, list) => !list.NoList? && !list.NotAList?
    case Between(_, from, to) => from.Some? && to.Some?
  }

  function Regroup(f: Tree, data: seq<Tree>): Tree
    requires IsGroup(f)
  {
    if f.All? then All(data) else Any(data)
  }

  // --- Cleaning ---------------------------------------------------------------------------------

  /** What one entry contributes to the cleaned list: itself, its cleaned group, or nothing. */
  function Cleaned(f: Tree): seq<Tree>
    decreases f, 0
  {
    if IsGroup(f) then
      var inner := Prepare(f.data);
      if |inner| > 0 then [Regroup(f, inner)] else []
    else if Kept(f) then [f] else []
  }

  function Prepare(filters: seq<Tree>): seq<Tree>
    decreases filters
  {
    if |filters| == 0 then [] else Cleaned(filters[0]) + Prepare(filters[1..])
  }

  /** No empty group and no dropped leaf at any depth. */
  predicate Prepared(f: Tree) {
    if IsGroup(f) then |f.data| > 0 && forall i | 0 <= i < |f.data| :: Prepared(f.data[i]) else Kept(f)
  }

  predicate AllPrepared(filters: seq<Tree>) {
    forall i | 0 <= i < |filters| :: Prepared(filters[i])
  }

  lemma {:induction false} CleaningLeavesNoEmptyGroup(filters: seq<Tree>)
    ensures AllPrepared(Prepare(filters))
    decreases filters
  {
    if |filters| > 0 {
      if IsGroup(filters[0]) { CleaningLeavesNoEmptyGroup(filters[0].data); }
      CleaningLeavesNoEmptyGroup(filters[1..]);
    }
  }

  lemma {:induction false} PreparedIsUntouched(filters: seq<Tree>)
    requires AllPrepared(filters)
    ensures Prepare(filters) == filters
    decreases filters
  {
    if |filters| > 0 {
      if IsGroup(filters[0]) { PreparedIsUntouched(filters[0].data); }
      PreparedIsUntouched(filters[1..]);
    }
  }

  /** Cleaning a cleaned list changes nothing. */
  lemma CleaningIsIdempotent(filters: seq<Tree>)
    ensures Prepare(Prepare(filters)) == Prepare(filters)
  {
    CleaningLeavesNoEmptyGroup(filters);
    PreparedIsUntouched(Prepare(filters));
  }

  lemma {:induction false} PrepareAppend(a: seq<Tree>, b: seq<Tree>)
    ensures Prepare(a + b) == Prepare(a) + Prepare(b)
  {
    if |a| == 0 {
      assert a + b == b;
    } else {
      assert (a + b)[1..] == a[1..] + b;
      PrepareAppend(a[1..], b);
    }
  }

  /** The loop that pushes cleaned entries. */
  method PrepareFilter(filters: Option<seq<Tree>>) returns (out: seq<Tree>)
    ensures out == if filters.Some? then Prepare(filters.value) else []
    ensures AllPrepared(out)
    decreases if filters.Some? then filters.value else []
  {
    out := [];
    if filters.None? { return; }
    var fs := filters.value;
    for i := 0 to |fs|
      invariant out == Prepare(fs[..i])
    {
      var f := fs[i];
      if IsGroup(f) {
        var cleaned := PrepareFilter(Some(f.data));
        if |cleaned| > 0 { out := out + [Regroup(f, cleaned)]; }
      } else if Kept(f) {
        out := out + [f];
      }
      assert fs[..i + 1] == fs[..i] + [f] && Prepare([f]) == Cleaned(f) + Prepare([]);
      PrepareAppend(fs[..i], [f]);
    }
    assert fs[..|fs|] == fs;
    CleaningLeavesNoEmptyGroup(fs);
  }

  // --- SQL conditions ------------------------------------------------------------------------------

  datatype Operand = Col(c: Column) | Param(v: int)
  datatype Connective = AndWhere | OrWhere

  datatype Expr =
    | Cmp(rel: Relation, a: Operand, b: Operand)
    | Like(pattern: Pattern, negated: bool, a: Operand, b: Operand)
    | IsNull(a: Operand)
    | Negate(e: Expr)
    | Both(l: Expr, r: Expr)
    | Either(l: Expr, r: Expr)
    | CoalesceFalse(e: Expr)
    | ConstFalse
    | InParams(c: Column, items: seq<Cell>)
    | NotInParams(c: Column, items: seq<Cell>)
    | EqualsAny(c: Column, arr: Column)
    | ArrayHoldsNull(arr: Column)
    | ArrayIsNull(arr: Column)
    | Brackets(wheres: seq<Where>)
  datatype Where = Where(conn: Connective, cond: Expr)

  /** A row, with the operators on text that are not modelled further. */
  datatype Row = Row(cell: Column -> Cell, arrays: Column -> Option<seq<Cell>>, like: (Pattern, int, int) -> bool)

  function OperandValue(row: Row, a: Operand): Cell {
    match a case Col(c) => row.cell(c) case Param(v) => Some(v)
  }

  predicate Holds(rel: Relation, x: int, y: int) {
    match rel
    case Equal => x == y
    case NotEqual => x != y
    case LessThan => x < y
    case LessOrEqual => x <= y
    case GreaterThan => x > y
    case GreaterOrEqual => x >= y
  }

  function CompareCells(rel: Relation, x: Cell, y: Cell): Truth {
    if x.None? || y.None? then Unknown else Of(Holds(rel, x.value, y.value))
  }

  /** SQL's `x = y1 OR x = y2 ...` over a list that may hold NULL. */
  function MemberOf(x: Cell, items: seq<Cell>): Truth {
    if |items| == 0 then False else Or3(CompareCells(Equal, x, items[0]), MemberOf(x, items[1..]))
  }

  function Eval(row: Row, e: Expr): Truth
    decreases e
  {
    match e
    case Cmp(rel, a, b) => CompareCells(rel, OperandValue(row, a), OperandValue(row, b))
    case Like(pattern, negated, a, b) =>
      var x, y := OperandValue(row, a), OperandValue(row, b);
      if x.None? || y.None? then Unknown else Of(row.like(pattern, x.value, y.value) != negated)
    case IsNull(a) => Of(OperandValue(row, a).None?)
    case Negate(x) => Not3(Eval(row, x))
    case Both(l, r) => And3(Eval(row, l), Eval(row, r))
    case Either(l, r) => Or3(Eval(row, l), Eval(row, r))
    case CoalesceFalse(x) => var t := Eval(row, x); if t.Unknown? then False else t
    case ConstFalse => False
    case InParams(c, items) => MemberOf(row.cell(c), items)
    case NotInParams(c, items) => Not3(MemberOf(row.cell(c), items))
    case EqualsAny(c, arr) =>
      var items := row.arrays(arr);
      if items.None? then Unknown else MemberOf(row.cell(c), items.value)
    case ArrayHoldsNull(arr) => Of(row.arrays(arr).Some? && None in row.arrays(arr).value)
    case ArrayIsNull(arr) => Of(row.arrays(arr).None?)
    case Brackets(wheres) => EvalWheres(row, wheres)
  }

  function EvalWhere(row: Row, w: Where): Truth
    decreases w
  {
    match w case Where(_, cond) => Eval(row, cond)
  }

  /** An empty list is always true; the first connective is not written. */
  function EvalWheres(row: Row, wheres: seq<Where>): Truth
    decreases wheres
  {
    if |wheres| == 0 then True else EvalRest(row, EvalWhere(row, wheres[0]), wheres[1..])
  }

  /** Conditions joined without parentheses: AND binds more tightly, so `run` is the current run of ANDs. */
  function EvalRest(row: Row, run: Truth, wheres: seq<Where>): Truth
    decreases wheres
  {
    if |wheres| == 0 then run
    else
      var next := EvalWhere(row, wheres[0]);
      if wheres[0].conn.AndWhere? then EvalRest(row, And3(run, next), wheres[1..])
      else Or3(run, EvalRest(row, next, wheres[1..]))
  }

  // --- Compiling --------------------------------------------------------------------------------------

  /** Null-safe equality of two columns. */
  function SameColumn(a: Column, b: Column): Expr {
    Either(CoalesceFalse(Cmp(Equal, Col(a), Col(b))), Both(IsNull(Col(a)), IsNull(Col(b))))
  }

  /** Null-safe membership of a column in an array column. */
  function InArray(a: Column, arr: Column): Expr {
    Either(CoalesceFalse(EqualsAny(a, arr)), Both(IsNull(Col(a)), ArrayHoldsNull(arr)))
  }

  function ColumnOperand(op: ScalarOp, a: Column, b: Column): Expr {
    match op
    case Rel(Equal) => SameColumn(a, b)
    case Rel(NotEqual) => Negate(SameColumn(a, b))
    case Rel(rel) => Cmp(rel, Col(a), Col(b))
    case Match(pattern, negated) => Like(pattern, negated, Col(a), Col(b))
  }

  /** The condition a leaf adds to its bracket, if it adds one. */
  datatype Leaf = Adds(cond: Expr) | AddsNothing | Refused

  function CompileLeaf(f: Tree): Leaf
    requires !IsGroup(f)
  {
    if f.field.None? then AddsNothing
    else
      var c := f.field.value;
      match f
      case NullTest(_, negated) => Adds(if negated then Negate(IsNull(Col(c))) else IsNull(Col(c)))
      case Compare(_, op, operand) =>
        (match operand
         case NoData => AddsNothing
         case NullData => AddsNothing
         case ColumnRef(b) => Adds(ColumnOperand(op, c, b))
         case Value(v) =>
           Adds(match op
                case Rel(rel) => Cmp(rel, Col(c), Param(v))
                case Match(p, negated) => Like(p, negated, Col(c), Param(v))))
      case Member(_, negated, list) =>
        (match list
         case NoList => AddsNothing
         case NullRef => AddsNothing
         case NotAList => Refused
         case ScalarRef(_) => Refused
         case ArrayRef(arr) =>
           if negated then Adds(Both(Negate(ArrayIsNull(arr)), Negate(InArray(c, arr)))) else Adds(InArray(c, arr))
         case Items(items) =>
           if |items| == 0 then if negated then AddsNothing else Adds(ConstFalse)
           else Adds(if negated then NotInParams(c, items) else InParams(c, items)))
      case Between(_, from, to) =>
        if from.None? || to.None? then AddsNothing
        else Adds(Both(Cmp(GreaterOrEqual, Col(c), Param(from.value)), Cmp(LessOrEqual, Col(c), Param(to.value))))
  }

  /** Compilation is refused when some leaf is. */
  predicate Compiles(f: Tree) {
    if IsGroup(f) then forall i | 0 <= i < |f.data| :: Compiles(f.data[i]) else !CompileLeaf(f).Refused?
  }

  /** The conditions one filter adds to the builder it is applied to: at most one, joined by AND. */
  function Compile(f: Tree): seq<Where>
    requires Compiles(f)
    decreases f, 0
  {
    if IsGroup(f) then
      if |f.data| == 0 then [] else [Where(AndWhere, Brackets(CompileChildren(f.Any?, f.data)))]
    else if CompileLeaf(f).Adds? then [Where(AndWhere, CompileLeaf(f).cond)] else []
  }

  /** Each child in brackets of its own, joined by the group's connective. */
  function CompileChildren(any: bool, data: seq<Tree>): seq<Where>
    requires forall i | 0 <= i < |data| :: Compiles(data[i])
    decreases data
  {
    if |data| == 0 then []
    else [Where(if any then OrWhere else AndWhere, Brackets(Compile(data[0])))] + CompileChildren(any, data[1..])
  }

  /** The top-level bracket of a query: every filter applied in turn. */
  function CompileAll(filters: seq<Tree>): seq<Where>
    requires forall i | 0 <= i < |filters| :: Compiles(filters[i])
    decreases filters
  {
    if |filters| == 0 then [] else Compile(filters[0]) + CompileAll(filters[1..])
  }

  // --- The builder in place ---------------------------------------------------------------------------

  /** A where-expression builder: conditions accumulate in order. */
  class WhereBuilder {
    var wheres: seq<Where>

    constructor ()
      ensures wheres == []
    {
      wheres := [];
    }

    method Add(conn: Connective, cond: Expr)
      modifies this
      ensures wheres == old(wheres) + [Where(conn, cond)]
    {
      wheres := wheres + [Where(conn, cond)];
    }

    /** Apply one filter; false means that it was refused. */
    method ApplyFilter(f: Tree) returns (ok: bool)
      modifies this
      ensures ok == Compiles(f)
      ensures ok ==> wheres == old(wheres) + Compile(f)
      decreases f, 1
    {
      if IsGroup(f) {
        if |f.data| == 0 { return true; }
        var children := ApplyChildren(f);
        if children.None? { return false; }
        Add(AndWhere, Brackets(children.value));
        return true;
      }
      var leaf := CompileLeaf(f);
      if leaf.Refused? { return false; }
      if leaf.Adds? { Add(AndWhere, leaf.cond); }
      return true;
    }
  }

  /** The group branch: a bracket per child, collected in a builder of its own. */
  method ApplyChildren(f: Tree) returns (r: Option<seq<Where>>)
    requires IsGroup(f)
    ensures r.Some? <==> forall i | 0 <= i < |f.data| :: Compiles(f.data[i])
    ensures r.Some? ==> r.value == CompileChildren(f.Any?, f.data)
    decreases f, 0
  {
    var group := new WhereBuilder();
    for j := 0 to |f.data|
      invariant fresh(group)
      invariant forall i | 0 <= i < j :: Compiles(f.data[i])
      invariant group.wheres == CompileChildren(f.Any?, f.data[..j])
    {
      var inner := new WhereBuilder();
      var ok := inner.ApplyFilter(f.data[j]);
      if !ok { return None; }
      assert inner.wheres == Compile(f.data[j]);
      group.Add(if f.Any? then OrWhere else AndWhere, Brackets(inner.wheres));
      assert f.data[..j + 1] == f.data[..j] + [f.data[j]];
      CompileChildrenAppend(f.Any?, f.data[..j], f.data[j]);
    }
    assert f.data[..|f.data|] == f.data;
    return Some(group.wheres);
  }

  lemma {:induction false} CompileChildrenAppend(any: bool, data: seq<Tree>, f: Tree)
    requires Compiles(f) && forall i | 0 <= i < |data| :: Compiles(data[i])
    ensures CompileChildren(any, data + [f])
            == CompileChildren(any, data) + [Where(if any then OrWhere else AndWhere, Brackets(Compile(f)))]
  {
    if |data| > 0 {
      assert (data + [f])[1..] == data[1..] + [f];
      CompileChildrenAppend(any, data[1..], f);
    }
  }

  // --- Meaning ---------------------------------------------------------------------------------------------

  /** Two texts or cells compared as the caller wrote it, with columns compared null-safely. */
  function MeaningOfCompare(row: Row, c: Column, op: ScalarOp, operand: ScalarData): Truth
    requires operand.Value? || operand.ColumnRef?
  {
    var x, y := row.cell(c), if operand.Value? then Some(operand.v) else row.cell(operand.c);
    match op
    case Rel(rel) =>
      if operand.ColumnRef? && rel.Equal? then Of(x == y)
      else if operand.ColumnRef? && rel.NotEqual? then Of(x != y)
      else CompareCells(rel, x, y)
    case Match(pattern, negated) =>
      if x.None? || y.None? then Unknown else Of(row.like(pattern, x.value, y.value) != negated)
  }

  /** A list of another kind is never asked about: it is dropped or refused. */
  function MeaningOfMember(row: Row, c: Column, negated: bool, list: ListData): Truth {
    match list
    case Items(items) => if negated then Not3(MemberOf(row.cell(c), items)) else MemberOf(row.cell(c), items)
    case ArrayRef(arr) => Of(row.arrays(arr).Some? && (row.cell(c) in row.arrays(arr).value) != negated)
    case _ => Unknown
  }

  /**
   What a tree says about a row. A leaf without a field or with nullish data says nothing, and neither
   does a group of which every entry says nothing. `nullRef` is what a membership test against a null
   column reference says.
   */
  function Meaning(row: Row, f: Tree, nullRef: Option<Truth>): Option<Truth>
    decreases f, 0
  {
    if IsGroup(f) then MeaningOfGroup(row, f.Any?, f.data, nullRef)
    else if f.field.None? then None
    else
      match f
      case NullTest(field, negated) => Some(Of(row.cell(field.value).None? != negated))
      case Compare(field, op, operand) =>
        if operand.Value? || operand.ColumnRef? then Some(MeaningOfCompare(row, field.value, op, operand)) else None
      case Member(field, negated, list) =>
        (match list
         case NoList => None
         case NotAList => None
         case NullRef => nullRef
         case _ => Some(MeaningOfMember(row, field.value, negated, list)))
      case Between(field, from, to) =>
        if from.None? || to.None? then None
        else
          Some(And3(CompareCells(GreaterOrEqual, row.cell(field.value), from),
              CompareCells(LessOrEqual, row.cell(field.value), to)))
  }

  function MeaningOfGroup(row: Row, any: bool, data: seq<Tree>, nullRef: Option<Truth>): Option<Truth>
    decreases data
  {
    if |data| == 0 then None
    else Combine(any, Meaning(row, data[0], nullRef), MeaningOfGroup(row, any, data[1..], nullRef))
  }

  function Combine(any: bool, a: Option<Truth>, b: Option<Truth>): Option<Truth> {
    if a.None? then b else if b.None? then a else Some(if any then Or3(a.value, b.value) else And3(a.value, b.value))
  }

  // --- Cleaning preserves meaning --------------------------------------------------------------------------

  /** Cleaning a list of entries leaves what its group says unchanged, under either connective. */
  lemma {:induction false} CleaningKeepsMeaning(row: Row, any: bool, filters: seq<Tree>, nullRef: Option<Truth>)
    ensures MeaningOfGroup(row, any, Prepare(filters), nullRef) == MeaningOfGroup(row, any, filters, nullRef)
    decreases filters
  {
    if |filters| > 0 {
      var f := filters[0];
      CleaningKeepsMeaning(row, any, filters[1..], nullRef);
      if IsGroup(f) {
        CleaningKeepsMeaning(row, f.Any?, f.data, nullRef);
        if Prepare(f.data) == [] {
          assert Prepare(filters) == Prepare(filters[1..]);
        } else {
          assert Prepare(filters) == [Regroup(f, Prepare(f.data))] + Prepare(filters[1..]);
        }
      } else if Kept(f) {
        assert Prepare(filters) == [f] + Prepare(filters[1..]);
      } else {
        assert Prepare(filters) == Prepare(filters[1..]);
      }
    }
  }

  // --- Compiling preserves meaning ---------------------------------------------------------------------------

  /** The null-safe comparison of two columns never says unknown. */
  lemma SameColumnMeans(row: Row, a: Column, b: Column)
    ensures Eval(row, SameColumn(a, b)) == Of(row.cell(a) == row.cell(b))
  {
    var same := Cmp(Equal, Col(a), Col(b));
    assert Eval(row, CoalesceFalse(same)) == if Eval(row, same).Unknown? then False else Eval(row, same);
    assert Eval(row, Both(IsNull(Col(a)), IsNull(Col(b))))
           == And3(Eval(row, IsNull(Col(a))), Eval(row, IsNull(Col(b))));
  }

  lemma {:induction false} MemberOfFacts(x: Cell, items: seq<Cell>)
    ensures x.Some? ==> (MemberOf(x, items).True? <==> x in items)
    ensures x.None? ==> !MemberOf(x, items).True?
  {
    if |items| > 0 {
      MemberOfFacts(x, items[1..]);
      assert items == [items[0]] + items[1..];
    }
  }

  lemma InArrayMeans(row: Row, a: Column, arr: Column)
    ensures Eval(row, InArray(a, arr)) == Of(row.arrays(arr).Some? && row.cell(a) in row.arrays(arr).value)
  {
    if row.arrays(arr).Some? { MemberOfFacts(row.cell(a), row.arrays(arr).value); }
    var any := EqualsAny(a, arr);
    assert Eval(row, CoalesceFalse(any)) == if Eval(row, any).Unknown? then False else Eval(row, any);
    assert Eval(row, Both(IsNull(Col(a)), ArrayHoldsNull(arr)))
           == And3(Eval(row, IsNull(Col(a))), Eval(row, ArrayHoldsNull(arr)));
  }

  lemma EvalSingle(row: Row, conn: Connective, e: Expr)
    ensures EvalWheres(row, [Where(conn, e)]) == EvalWhere(row, Where(conn, e)) == Eval(row, e)
  {
  }

  lemma BetweenMeans(row: Row, c: Column, from: int, to: int)
    ensures Eval(row, Both(Cmp(GreaterOrEqual, Col(c), Param(from)), Cmp(LessOrEqual, Col(c), Param(to))))
            == And3(CompareCells(GreaterOrEqual, row.cell(c), Some(from)),
                CompareCells(LessOrEqual, row.cell(c), Some(to)))
  {
    assert Eval(row, Cmp(GreaterOrEqual, Col(c), Param(from))) == CompareCells(GreaterOrEqual, row.cell(c), Some(from));
    assert Eval(row, Cmp(LessOrEqual, Col(c), Param(to))) == CompareCells(LessOrEqual, row.cell(c), Some(to));
  }

  lemma NotInArrayMeans(row: Row, a: Column, arr: Column)
    ensures Eval(row, Both(Negate(ArrayIsNull(arr)), Negate(InArray(a, arr))))
            == Of(row.arrays(arr).Some? && row.cell(a) !in row.arrays(arr).value)
  {
    InArrayMeans(row, a, arr);
    assert Eval(row, Negate(ArrayIsNull(arr))) == Not3(Eval(row, ArrayIsNull(arr)));
    assert Eval(row, Negate(InArray(a, arr))) == Not3(Eval(row, InArray(a, arr)));
  }

  lemma ColumnOperandMeans(row: Row, op: ScalarOp, a: Column, b: Column)
    ensures Eval(row, ColumnOperand(op, a, b)) == MeaningOfCompare(row, a, op, ColumnRef(b))
  {
    SameColumnMeans(row, a, b);
    assert Eval(row, Negate(SameColumn(a, b))) == Not3(Eval(row, SameColumn(a, b)));
  }

  /** What a kept leaf adds to its bracket means what the leaf says; adding nothing means true. */
  lemma LeafMeans(row: Row, f: Tree)
    requires !IsGroup(f) && Kept(f) && Compiles(f)
    ensures Meaning(row, f, Some(True)) == Some(EvalWheres(row, Compile(f)))
  {
    var leaf := CompileLeaf(f);
    if leaf.Adds? { EvalSingle(row, AndWhere, leaf.cond); }
    match f
    case Compare(field, op, ColumnRef(b)) => ColumnOperandMeans(row, op, field.value, b);
    case Compare(_, _, _) =>
    case Member(field, negated, ArrayRef(arr)) =>
      InArrayMeans(row, field.value, arr);
      NotInArrayMeans(row, field.value, arr);
    case Member(_, _, _) =>
    case NullTest(field, _) =>
      assert Eval(row, Negate(IsNull(Col(field.value)))) == Not3(Eval(row, IsNull(Col(field.value))));
    case Between(field, from, to) => BetweenMeans(row, field.value, from.value, to.value);
  }

  predicate ChildrenMean(row: Row, data: seq<Tree>) {
    forall i | 0 <= i < |data| ::
      Compiles(data[i]) && Meaning(row, data[i], Some(True)) == Some(EvalWheres(row, Compile(data[i])))
  }

  lemma {:induction false} RunMeans(row: Row, any: bool, run: Truth, data: seq<Tree>)
    requires ChildrenMean(row, data)
    ensures Some(EvalRest(row, run, CompileChildren(any, data)))
            == Combine(any, Some(run), MeaningOfGroup(row, any, data, Some(True)))
    decreases data
  {
    if |data| > 0 {
      var next := EvalWheres(row, Compile(data[0]));
      var wheres := CompileChildren(any, data);
      assert wheres[0] == Where(if any then OrWhere else AndWhere, Brackets(Compile(data[0])));
      assert wheres[1..] == CompileChildren(any, data[1..]);
      EvalSingle(row, wheres[0].conn, wheres[0].cond);
      RunMeans(row, any, if any then next else And3(run, next), data[1..]);
    }
  }

  lemma {:induction false} PreparedMeans(row: Row, f: Tree)
    requires Prepared(f) && Compiles(f)
    ensures Meaning(row, f, Some(True)) == Some(EvalWheres(row, Compile(f)))
    decreases f
  {
    if !IsGroup(f) {
      LeafMeans(row, f);
    } else {
      forall i | 0 <= i < |f.data|
        ensures Meaning(row, f.data[i], Some(True)) == Some(EvalWheres(row, Compile(f.data[i])))
      {
        PreparedMeans(row, f.data[i]);
      }
      var wheres := CompileChildren(f.Any?, f.data);
      assert wheres[0].cond == Brackets(Compile(f.data[0])) && wheres[1..] == CompileChildren(f.Any?, f.data[1..]);
      EvalSingle(row, wheres[0].conn, wheres[0].cond);
      RunMeans(row, f.Any?, EvalWheres(row, Compile(f.data[0])), f.data[1..]);
      EvalSingle(row, AndWhere, Brackets(wheres));
    }
  }

  /** The top level: filters applied in turn are a conjunction. */
  lemma {:induction false} TopLevelMeans(row: Row, run: Truth, filters: seq<Tree>)
    requires AllPrepared(filters) && forall i | 0 <= i < |filters| :: Compiles(filters[i])
    ensures Some(EvalRest(row, run, CompileAll(filters)))
            == Combine(false, Some(run), MeaningOfGroup(row, false, filters, Some(True)))
    decreases filters
  {
    if |filters| > 0 {
      var f := filters[0];
      PreparedMeans(row, f);
      TopLevelMeans(row, And3(run, EvalWheres(row, Compile(f))), filters[1..]);
      if Compile(f) == [] {
        assert CompileAll(filters) == CompileAll(filters[1..]);
      } else {
        assert CompileAll(filters)[0] == Compile(f)[0] && CompileAll(filters)[1..] == CompileAll(filters[1..]);
      }
    }
  }

  /** A bracket of conjunctions does not depend on which condition happens to come first. */
  lemma RestFromTrue(row: Row, filters: seq<Tree>)
    requires forall i | 0 <= i < |filters| :: Compiles(filters[i])
    ensures EvalWheres(row, CompileAll(filters)) == EvalRest(row, True, CompileAll(filters))
  {
    CompileAllIsAnd(filters);
  }

  lemma {:induction false} CompileAllIsAnd(filters: seq<Tree>)
    requires forall i | 0 <= i < |filters| :: Compiles(filters[i])
    ensures forall w <- CompileAll(filters) :: w.conn.AndWhere?
    decreases filters
  {
    if |filters| > 0 { CompileAllIsAnd(filters[1..]); }
  }

  /** What a query with these filters says about a row; no entry left means every row. */
  function QueryTruth(row: Row, filters: seq<Tree>): Truth
    requires forall i | 0 <= i < |filters| :: Compiles(filters[i])
  {
    EvalWheres(row, CompileAll(filters))
  }

  function OrTrue(t: Option<Truth>): Truth {
    if t.Some? then t.value else True
  }

  /** The compiled condition of the cleaned filters means exactly what the original tree says, on every row. */
  lemma QueryMeansTheTree(row: Row, filters: seq<Tree>)
    requires forall i | 0 <= i < |Prepare(filters)| :: Compiles(Prepare(filters)[i])
    ensures QueryTruth(row, Prepare(filters)) == OrTrue(MeaningOfGroup(row, false, filters, Some(True)))
  {
    var cleaned := Prepare(filters);
    CleaningLeavesNoEmptyGroup(filters);
    CleaningKeepsMeaning(row, false, filters, Some(True));
    RestFromTrue(row, cleaned);
    TopLevelMeans(row, True, cleaned);
  }

  // --- Null column references ----------------------------------------------------------------------------------

  /** Cleaning keeps something of the entry. */
  predicate Present(f: Tree) {
    if IsGroup(f) then exists i | 0 <= i < |f.data| :: Present(f.data[i]) else Kept(f)
  }

  /** A membership test against a null column reference, or a group of which nothing else is kept. */
  predicate Vacuous(f: Tree) {
    if IsGroup(f) then Present(f) && forall i | 0 <= i < |f.data| :: Present(f.data[i]) ==> Vacuous(f.data[i])
    else Kept(f) && f.Member? && f.list.NullRef?
  }

  /** An entry that really constrains rows. */
  predicate Solid(f: Tree) {
    Present(f) && !Vacuous(f)
  }

  predicate AllVacuous(data: seq<Tree>) {
    forall i | 0 <= i < |data| :: Present(data[i]) ==> Vacuous(data[i])
  }

  predicate SomeVacuous(data: seq<Tree>) {
    exists i | 0 <= i < |data| :: Vacuous(data[i])
  }

  predicate SomeSolid(data: seq<Tree>) {
    exists i | 0 <= i < |data| :: Solid(data[i])
  }

  /** No OR group, at any depth, mixes vacuous entries with solid ones. */
  predicate Harmless(f: Tree) {
    IsGroup(f) ==>
      && (forall i | 0 <= i < |f.data| :: Harmless(f.data[i]))
      && (f.Any? ==> !(SomeVacuous(f.data) && SomeSolid(f.data)))
  }

  /** What is not kept says nothing; a vacuous entry says `nullRef` and nothing else. */
  lemma {:induction false} VacuousMeaning(row: Row, f: Tree, nullRef: Option<Truth>)
    requires nullRef == None || nullRef == Some(True)
    ensures !Present(f) ==> Meaning(row, f, nullRef) == None
    ensures Vacuous(f) ==> Meaning(row, f, nullRef) == nullRef
    decreases f, 1, 0
  {
    if IsGroup(f) { VacuousGroup(row, f.Any?, f, f.data, nullRef); }
  }

  lemma {:induction false} VacuousGroup(row: Row, any: bool, f: Tree, data: seq<Tree>, nullRef: Option<Truth>)
    requires IsGroup(f) && (forall x <- data :: x in f.data) && (nullRef == None || nullRef == Some(True))
    ensures (forall i | 0 <= i < |data| :: !Present(data[i])) ==> MeaningOfGroup(row, any, data, nullRef) == None
    ensures AllVacuous(data) && (exists i | 0 <= i < |data| :: Present(data[i])) ==>
              MeaningOfGroup(row, any, data, nullRef) == nullRef
    decreases f, 0, |data|
  {
    if |data| > 0 {
      assert data[0] in f.data;
      VacuousMeaning(row, data[0], nullRef);
      VacuousGroup(row, any, f, data[1..], nullRef);
      assert forall i | 0 < i < |data| :: data[i] == data[1..][i - 1];
    }
  }

  /** A solid entry says something. */
  lemma {:induction false} PresentSpeaks(row: Row, f: Tree)
    requires Solid(f)
    ensures Meaning(row, f, None).Some?
    decreases f, 1, 0
  {
    if IsGroup(f) { SolidSpeaks(row, f.Any?, f, f.data); }
  }

  lemma {:induction false} SolidSpeaks(row: Row, any: bool, f: Tree, data: seq<Tree>)
    requires IsGroup(f) && (forall x <- data :: x in f.data) && SomeSolid(data)
    ensures MeaningOfGroup(row, any, data, None).Some?
    decreases f, 0, |data|
  {
    assert data[0] in f.data;
    if Solid(data[0]) {
      PresentSpeaks(row, data[0]);
    } else {
      var i :| 0 <= i < |data| && Solid(data[i]);
      assert data[1..][i - 1] == data[i];
      SolidSpeaks(row, any, f, data[1..]);
    }
  }

  /** A vacuous entry makes its OR group true of every row. */
  lemma {:induction false} VacuousOrIsTrue(row: Row, data: seq<Tree>)
    requires SomeVacuous(data)
    ensures MeaningOfGroup(row, true, data, Some(True)) == Some(True)
    decreases |data|
  {
    var i :| 0 <= i < |data| && Vacuous(data[i]);
    VacuousMeaning(row, data[i], Some(True));
    if i > 0 {
      assert data[1..][i - 1] == data[i];
      VacuousOrIsTrue(row, data[1..]);
    }
  }

  /** Where no OR group mixes, a null column reference is as good as absent. */
  lemma {:induction false} HarmlessMeaning(row: Row, f: Tree)
    requires Harmless(f)
    ensures !Vacuous(f) ==> Meaning(row, f, Some(True)) == Meaning(row, f, None)
    decreases f, 1, 0
  {
    if IsGroup(f) {
      if f.Any? && SomeVacuous(f.data) {
        var i :| 0 <= i < |f.data| && Vacuous(f.data[i]);
        VacuousIsPresent(f.data[i]);
        NothingSolidIsVacuous(f);
      } else {
        HarmlessGroup(row, f.Any?, f, f.data);
        VacuousMeaning(row, f, None);
        VacuousMeaning(row, f, Some(True));
        if Present(f) && !SomeSolid(f.data) { NothingSolidIsVacuous(f); }
      }
    }
  }

  lemma VacuousIsPresent(f: Tree)
    requires Vacuous(f)
    ensures Present(f)
  {
  }

  lemma NothingSolidIsVacuous(f: Tree)
    requires IsGroup(f) && Present(f) && !SomeSolid(f.data)
    ensures Vacuous(f)
  {
    forall i | 0 <= i < |f.data| && Present(f.data[i]) ensures Vacuous(f.data[i]) { assert !Solid(f.data[i]); }
  }

  /** Entries of one group: under OR none of them is vacuous, under AND truth is neutral. */
  lemma {:induction false} HarmlessGroup(row: Row, any: bool, f: Tree, data: seq<Tree>)
    requires IsGroup(f) && (forall x <- data :: x in f.data && Harmless(x))
    requires any ==> !SomeVacuous(data)
    ensures SomeSolid(data) || any ==>
              MeaningOfGroup(row, any, data, Some(True)) == MeaningOfGroup(row, any, data, None)
    ensures !any ==>
              OrTrue(MeaningOfGroup(row, false, data, Some(True))) == OrTrue(MeaningOfGroup(row, false, data, None))
    decreases f, 0, |data|
  {
    if |data| > 0 {
      var rest := data[1..];
      assert data[0] in f.data;
      HarmlessMeaning(row, data[0]);
      VacuousMeaning(row, data[0], Some(True));
      VacuousMeaning(row, data[0], None);
      assert forall i | 0 <= i < |rest| :: rest[i] == data[i + 1];
      HarmlessGroup(row, any, f, rest);
      if SomeSolid(data) && !Solid(data[0]) {
        var i :| 0 <= i < |data| && Solid(data[i]);
        assert Solid(rest[i - 1]);
        SolidSpeaks(row, any, f, rest);
      }
      if Solid(data[0]) { PresentSpeaks(row, data[0]); }
    }
  }

  /** Unless an OR group mixes vacuous entries with solid ones, every nullish entry is as good as absent. */
  lemma NullishEntriesAreAbsent(row: Row, filters: seq<Tree>)
    requires forall i | 0 <= i < |Prepare(filters)| :: Compiles(Prepare(filters)[i])
    requires forall i | 0 <= i < |filters| :: Harmless(filters[i])
    ensures QueryTruth(row, Prepare(filters)) == OrTrue(MeaningOfGroup(row, false, filters, None))
  {
    QueryMeansTheTree(row, filters);
    HarmlessGroup(row, false, All(filters), filters);
  }

  /**
   A null column reference is not absent: cleaning keeps it and compiling adds nothing for it, so an OR
   group that holds one, or a group of nothing else, admits every row.
   */
  lemma NullRefAdmitsEveryRow(row: Row, data: seq<Tree>)
    requires SomeVacuous(data)
    requires forall i | 0 <= i < |Prepare([Any(data)])| :: Compiles(Prepare([Any(data)])[i])
    ensures QueryTruth(row, Prepare([Any(data)])) == True
  {
    QueryMeansTheTree(row, [Any(data)]);
    VacuousOrIsTrue(row, data);
    assert [Any(data)][1..] == [];
    assert MeaningOfGroup(row, false, [Any(data)], Some(True)) == Meaning(row, Any(data), Some(True));
  }

  /**
   An OR group that mixes differs from its meaning with nullish entries absent exactly on the rows the others do not
   admit.
   */
  lemma MixedOrDiffersIff(row: Row, data: seq<Tree>)
    requires SomeVacuous(data) && SomeSolid(data)
    requires forall i | 0 <= i < |Prepare([Any(data)])| :: Compiles(Prepare([Any(data)])[i])
    ensures MeaningOfGroup(row, true, data, None).Some?
    ensures QueryTruth(row, Prepare([Any(data)])) != OrTrue(MeaningOfGroup(row, false, [Any(data)], None)) <==>
              MeaningOfGroup(row, true, data, None) != Some(True)
  {
    NullRefAdmitsEveryRow(row, data);
    SolidSpeaks(row, true, Any(data), data);
    assert [Any(data)][1..] == [];
    assert MeaningOfGroup(row, false, [Any(data)], None) == Meaning(row, Any(data), None);
  }

  // --- Mixed OR groups at any depth ---------------------------------------------------------------------------

  /** The groups around one entry, from the outermost in, each with the entries left and right of it. */
  datatype Spine = Here | Within(any: bool, left: seq<Tree>, inner: Spine, right: seq<Tree>)

  function Plug(spine: Spine, f: Tree): Tree {
    match spine
    case Here => f
    case Within(any, left, inner, right) =>
      var data := left + [Plug(inner, f)] + right;
      if any then Any(data) else All(data)
  }

  /** The entries around it mix nothing themselves, and no OR around it holds a vacuous one. */
  predicate CleanSpine(spine: Spine) {
    match spine
    case Here => true
    case Within(any, left, inner, right) =>
      && (forall x <- left + right :: Harmless(x))
      && (any ==> !SomeVacuous(left + right))
      && CleanSpine(inner)
  }

  /** What the other entries of a group say, with nullish entries absent. */
  function Others(row: Row, spine: Spine): Option<Truth>
    requires spine.Within?
  {
    MeaningOfGroup(row, spine.any, spine.left + spine.right, None)
  }

  /** What the enclosing groups make of an entry that says `t`. */
  function Through(row: Row, spine: Spine, t: Truth): Truth {
    match spine
    case Here => t
    case Within(any, _, inner, _) => Combine(any, Some(Through(row, inner, t)), Others(row, spine)).value
  }

  /** Every enclosing AND is true of the row but for this entry, and no enclosing OR is. */
  predicate Decisive(row: Row, spine: Spine) {
    match spine
    case Here => true
    case Within(any, _, inner, _) =>
      && Decisive(row, inner)
      && (if any then Others(row, spine) != Some(True) else OrTrue(Others(row, spine)) == True)
  }

  lemma CombineLaws(any: bool, a: Option<Truth>, b: Option<Truth>, c: Option<Truth>)
    ensures Combine(any, a, b) == Combine(any, b, a)
    ensures Combine(any, Combine(any, a, b), c) == Combine(any, a, Combine(any, b, c))
  {
  }

  lemma {:induction false} GroupOfAppend(row: Row, any: bool, a: seq<Tree>, b: seq<Tree>, nullRef: Option<Truth>)
    ensures MeaningOfGroup(row, any, a + b, nullRef)
            == Combine(any, MeaningOfGroup(row, any, a, nullRef), MeaningOfGroup(row, any, b, nullRef))
    decreases |a|
  {
    if |a| == 0 {
      assert a + b == b;
    } else {
      assert (a + b)[1..] == a[1..] + b;
      GroupOfAppend(row, any, a[1..], b, nullRef);
      CombineLaws(any, Meaning(row, a[0], nullRef), MeaningOfGroup(row, any, a[1..], nullRef),
          MeaningOfGroup(row, any, b, nullRef));
    }
  }

  /** One entry of a group, set apart from the others. */
  lemma GroupAround(row: Row, any: bool, left: seq<Tree>, f: Tree, right: seq<Tree>, nullRef: Option<Truth>)
    ensures MeaningOfGroup(row, any, left + [f] + right, nullRef)
            == Combine(any, Meaning(row, f, nullRef), MeaningOfGroup(row, any, left + right, nullRef))
  {
    var l, x, r := MeaningOfGroup(row, any, left, nullRef), Meaning(row, f, nullRef),
        MeaningOfGroup(row, any, right, nullRef);
    assert [f][1..] == [] && MeaningOfGroup(row, any, [f], nullRef) == x;
    GroupOfAppend(row, any, left + [f], right, nullRef);
    GroupOfAppend(row, any, left, [f], nullRef);
    GroupOfAppend(row, any, left, right, nullRef);
    CombineLaws(any, l, x, r);
    CombineLaws(any, x, l, r);
  }

  /** Around a clean spine, the enclosing groups treat both readings of the entry alike. */
  lemma {:induction false} ThroughSpine(row: Row, spine: Spine, f: Tree, nullRef: Option<Truth>, t: Truth)
    requires CleanSpine(spine) && Meaning(row, f, nullRef) == Some(t) && (nullRef == None || nullRef == Some(True))
    ensures Meaning(row, Plug(spine, f), nullRef) == Some(Through(row, spine, t))
    decreases spine
  {
    if spine.Within? {
      var around := spine.left + spine.right;
      ThroughSpine(row, spine.inner, f, nullRef, t);
      GroupAround(row, spine.any, spine.left, Plug(spine.inner, f), spine.right, nullRef);
      OthersAlike(row, spine.any, around, nullRef, Through(row, spine.inner, t));
    }
  }

  /** Next to an entry that speaks, the others count the same whether nullish entries are absent or true. */
  lemma OthersAlike(row: Row, any: bool, others: seq<Tree>, nullRef: Option<Truth>, t: Truth)
    requires (forall x <- others :: Harmless(x)) && (any ==> !SomeVacuous(others))
    requires nullRef == None || nullRef == Some(True)
    ensures Combine(any, Some(t), MeaningOfGroup(row, any, others, nullRef))
            == Combine(any, Some(t), MeaningOfGroup(row, any, others, None))
  {
    HarmlessGroup(row, any, if any then Any(others) else All(others), others);
  }

  /** A change of the entry from `t` to true admits the row exactly when the enclosing groups let it through. */
  lemma {:induction false} ThroughDecides(row: Row, spine: Spine, t: Truth)
    ensures Through(row, spine, t).True? ==> Through(row, spine, True).True?
    ensures Through(row, spine, True).True? && !Through(row, spine, t).True? <==> !t.True? && Decisive(row, spine)
    decreases spine
  {
    if spine.Within? { ThroughDecides(row, spine.inner, t); }
  }

  /**
   The exact effect of a mixed OR group at any depth: the query admits a row that it should not, with
   nullish entries absent, exactly when the group's other entries do not admit it and every group around
   lets that decide. It never rejects one that it should admit.
   */
  lemma NestedMixedOrDiffersIff(row: Row, spine: Spine, data: seq<Tree>)
    requires CleanSpine(spine) && SomeVacuous(data) && SomeSolid(data)
    requires var fs := Prepare([Plug(spine, Any(data))]); forall i | 0 <= i < |fs| :: Compiles(fs[i])
    ensures MeaningOfGroup(row, true, data, None).Some?
    ensures var f := Plug(spine, Any(data));
            var admits, should := QueryTruth(row, Prepare([f])).True?, OrTrue(Meaning(row, f, None)).True?;
            && (should ==> admits)
            && (admits && !should <==> MeaningOfGroup(row, true, data, None) != Some(True) && Decisive(row, spine))
  {
    var g, f := Any(data), Plug(spine, Any(data));
    SolidSpeaks(row, true, g, data);
    VacuousOrIsTrue(row, data);
    var t := MeaningOfGroup(row, true, data, None).value;
    ThroughSpine(row, spine, g, Some(True), True);
    ThroughSpine(row, spine, g, None, t);
    ThroughDecides(row, spine, t);
    QueryMeansTheTree(row, [f]);
    assert [f][1..] == [];
    assert MeaningOfGroup(row, false, [f], Some(True)) == Meaning(row, f, Some(True));
  }
}
