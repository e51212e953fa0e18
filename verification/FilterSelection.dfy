/**
 Which rows a query returns, told on the row alone: what each operator asks of its column, and how
 groups combine the answers. Neither cleaning nor SQL nor a third truth value occurs in it.
 */
module FilterSelection {
  import opened Wrappers
  import opened Filter

  /** An entry that takes part in the selection: a leaf with a field and data, or a group that holds one. */
  predicate Counts(f: Tree) {
    match f
    case All(data) => exists i | 0 <= i < |data| :: Counts(data[i])
    case Any(data) => exists i | 0 <= i < |data| :: Counts(data[i])
    case NullTest(field, _) => field.Some?
    case Compare(field, _, operand) => field.Some? && !operand.NoData? && !operand.NullData?
    case Member(field, _, list) => field.Some? && !list.NoList? && !list.NotAList?
    case Between(field, from, to) => field.Some? && from.Some? && to.Some?
  }

  /** A comparison of two values that are not null. */
  predicate Related(row: Row, op: ScalarOp, x: int, y: int) {
    match op
    case Rel(Equal) => x == y
    case Rel(NotEqual) => x != y
    case Rel(LessThan) => x < y
    case Rel(LessOrEqual) => x < y || x == y
    case Rel(GreaterThan) => x > y
    case Rel(GreaterOrEqual) => x > y || x == y
    case Match(pattern, false) => row.like(pattern, x, y)
    case Match(pattern, true) => !row.like(pattern, x, y)
  }

  /** A null cell passes no comparison with a value, and no comparison of columns but the null-safe ones. */
  predicate SelectsCompare(row: Row, x: Cell, op: ScalarOp, operand: ScalarData) {
    match operand
    case Value(v) => x.Some? && Related(row, op, x.value, v)
    case ColumnRef(b) =>
      var y := row.cell(b);
      if op == Rel(Equal) then x == y
      else if op == Rel(NotEqual) then x != y
      else x.Some? && y.Some? && Related(row, op, x.value, y.value)
    case _ => true
  }

  /** Parameters never find a null cell, and a null among them excludes every cell; an array may hold a null. */
  predicate SelectsMember(row: Row, x: Cell, negated: bool, list: ListData) {
    match list
    case Items(items) =>
      if !negated then x.Some? && x in items else items == [] || (x.Some? && x !in items && None !in items)
    case ArrayRef(arr) => row.arrays(arr).Some? && (x in row.arrays(arr).value) != negated
    case ScalarRef(_) => false
    case _ => true
  }

  /** An OR group asks one of its entries, an AND group all; entries that do not count are not asked. */
  predicate Selects(row: Row, f: Tree) {
    match f
    case All(data) => forall i | 0 <= i < |data| :: Selects(row, data[i])
    case Any(data) => !Counts(f) || exists i | 0 <= i < |data| :: Counts(data[i]) && Selects(row, data[i])
    case NullTest(field, negated) => field.None? || (row.cell(field.value) == None) != negated
    case Compare(field, op, operand) => field.None? || SelectsCompare(row, row.cell(field.value), op, operand)
    case Member(field, negated, list) => field.None? || SelectsMember(row, row.cell(field.value), negated, list)
    case Between(field, from, to) =>
      field.Some? && from.Some? && to.Some? ==>
        row.cell(field.value).Some? && from.value <= row.cell(field.value).value <= to.value
  }

  lemma {:induction false} MemberSelects(row: Row, x: Cell, items: seq<Cell>)
    ensures MemberOf(x, items).True? <==> x.Some? && x in items
    ensures MemberOf(x, items).False? <==> items == [] || (x.Some? && x !in items && None !in items)
  {
    if |items| > 0 {
      MemberSelects(row, x, items[1..]);
      assert items == [items[0]] + items[1..];
    }
  }

  /** A tree says something exactly when it counts, and then says true exactly of the rows it selects. */
  lemma {:induction false} MeaningSelects(row: Row, f: Tree)
    ensures Meaning(row, f, Some(True)).Some? <==> Counts(f)
    ensures OrTrue(Meaning(row, f, Some(True))).True? <==> Selects(row, f)
    decreases f, 1, 0
  {
    if IsGroup(f) {
      GroupSelects(row, f.Any?, f, f.data);
    } else if f.Member? && f.list.Items? && f.field.Some? {
      MemberSelects(row, row.cell(f.field.value), f.list.items);
    }
  }

  lemma {:induction false} GroupSelects(row: Row, any: bool, f: Tree, data: seq<Tree>)
    requires IsGroup(f) && forall x <- data :: x in f.data
    ensures var said := MeaningOfGroup(row, any, data, Some(True));
            && (said.Some? <==> exists i | 0 <= i < |data| :: Counts(data[i]))
            && (!any ==> (OrTrue(said).True? <==> forall i | 0 <= i < |data| :: Selects(row, data[i])))
            && (any ==> (said == Some(True) <==>
                  exists i | 0 <= i < |data| :: Counts(data[i]) && Selects(row, data[i])))
    decreases f, 0, |data|
  {
    if |data| > 0 {
      var rest := data[1..];
      assert data[0] in f.data;
      MeaningSelects(row, data[0]);
      GroupSelects(row, any, f, rest);
      assert forall i | 0 <= i < |rest| :: rest[i] == data[i + 1];
      assert forall i | 0 < i < |data| :: data[i] == rest[i - 1];
    }
  }

  /** Cleaning drops exactly the entries that do not count. */
  lemma {:induction false} CleaningDropsIff(f: Tree)
    ensures Cleaned(f) == [] <==> !Counts(f)
    decreases f, 1, 0
  {
    if IsGroup(f) { PrepareDropsIff(f, f.data); }
  }

  lemma {:induction false} PrepareDropsIff(f: Tree, data: seq<Tree>)
    requires IsGroup(f) && forall x <- data :: x in f.data
    ensures Prepare(data) == [] <==> forall i | 0 <= i < |data| :: !Counts(data[i])
    decreases f, 0, |data|
  {
    if |data| > 0 {
      var rest := data[1..];
      assert data[0] in f.data;
      CleaningDropsIff(data[0]);
      PrepareDropsIff(f, rest);
      assert forall i | 0 < i < |data| :: data[i] == rest[i - 1];
      assert forall i | 0 <= i < |rest| :: rest[i] == data[i + 1];
    }
  }

  /** A membership test in a column that is no array, at any depth. */
  predicate Refusable(f: Tree) {
    match f
    case All(data) => exists i | 0 <= i < |data| :: Refusable(data[i])
    case Any(data) => exists i | 0 <= i < |data| :: Refusable(data[i])
    case Member(field, _, list) => field.Some? && list.ScalarRef?
    case _ => false
  }

  predicate AllCompile(filters: seq<Tree>) {
    forall i | 0 <= i < |filters| :: Compiles(filters[i])
  }

  lemma {:induction false} EntryRefusedIff(f: Tree)
    ensures |Cleaned(f)| <= 1 && (Refusable(f) <==> |Cleaned(f)| == 1 && !Compiles(Cleaned(f)[0]))
    decreases f, 1, 0
  {
    if IsGroup(f) { EntriesRefusedIff(f, f.data); }
  }

  lemma {:induction false} EntriesRefusedIff(f: Tree, data: seq<Tree>)
    requires IsGroup(f) && forall x <- data :: x in f.data
    ensures AllCompile(Prepare(data)) <==> forall i | 0 <= i < |data| :: !Refusable(data[i])
    decreases f, 0, |data|
  {
    if |data| > 0 {
      var one, rest := Cleaned(data[0]), data[1..];
      assert data[0] in f.data;
      EntryRefusedIff(data[0]);
      EntriesRefusedIff(f, rest);
      assert forall i | 0 < i < |data| :: data[i] == rest[i - 1];
      assert forall i | 0 <= i < |rest| :: rest[i] == data[i + 1];
      BothCompile(one, Prepare(rest));
    }
  }

  lemma BothCompile(a: seq<Tree>, b: seq<Tree>)
    ensures AllCompile(a + b) <==> AllCompile(a) && AllCompile(b)
  {
    assert forall i | 0 <= i < |a| :: (a + b)[i] == a[i];
    assert forall i | 0 <= i < |b| :: (a + b)[i + |a|] == b[i];
  }

  /** A query is refused for such a test, cleaned or not, and for nothing else. */
  lemma QueriesAreRefusedIff(filters: seq<Tree>)
    ensures AllCompile(Prepare(filters)) <==> forall i | 0 <= i < |filters| :: !Refusable(filters[i])
  {
    EntriesRefusedIff(All(filters), filters);
  }

  /** The query made of the cleaned filters returns exactly the rows that every filter selects. */
  lemma QueriesSelect(row: Row, filters: seq<Tree>)
    requires forall i | 0 <= i < |filters| :: !Refusable(filters[i])
    ensures AllCompile(Prepare(filters))
    ensures QueryTruth(row, Prepare(filters)).True? <==> forall i | 0 <= i < |filters| :: Selects(row, filters[i])
  {
    QueriesAreRefusedIff(filters);
    QueryMeansTheTree(row, filters);
    GroupSelects(row, false, All(filters), filters);
  }
}
