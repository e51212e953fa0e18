/**
 What a tenancy scope demands, told on the scope itself: when it is refused, which rows it admits, and
 which entities may be created in it.
 */
module ScopeSelection {
  import opened Wrappers
  import opened Scope
  import F = Filter
  import S = FilterSelection

  /** The scope has a value for the column. */
  predicate Given(scope: Record, c: Column) {
    c in scope && !scope[c].Nullish?
  }

  /** Neither a scalar nor a list of scalars and nulls. */
  predicate Malformed(x: Raw) {
    match x
    case NotScalar => true
    case Listing(items) => exists y <- items :: y.Listing? || y.NotScalar?
    case _ => false
  }

  /** The values a scope entry stands for: the scalar itself, or every scalar of the list. */
  predicate Allows(x: Raw, v: int) {
    match x
    case Scalar(w) => v == w
    case Listing(items) => Scalar(v) in items
    case _ => false
  }

  /** What makes a scope unusable for reads, mutations and creates alike. */
  predicate Unusable(scope: Record, column: Scoped) {
    (column.required && !Given(scope, column.name)) || (column.name in scope && Malformed(scope[column.name]))
  }

  /** Every column that has a value in the scope holds one of the allowed values. */
  predicate Fits(row: Record, scope: Record, columns: seq<Scoped>) {
    forall column <- columns :: Given(scope, column.name) ==> FitsColumn(row, scope, column.name)
  }

  predicate FitsColumn(row: Record, scope: Record, c: Column)
    requires c in scope
  {
    c in row && row[c].Scalar? && Allows(scope[c], row[c].v)
  }

  // --- Allowed values ---------------------------------------------------------------------------------

  lemma {:induction false} AllowedValuesAre(items: seq<Raw>)
    ensures AllowedValues(items).None? <==> Malformed(Listing(items))
    ensures AllowedValues(items).Some? ==> forall v :: v in AllowedValues(items).value <==> Scalar(v) in items
  {
    if |items| > 0 {
      var init, last := items[..|items| - 1], items[|items| - 1];
      assert items == init + [last];
      AllowedValuesAre(init);
    }
  }

  /** No value is listed twice. */
  lemma {:induction false} AllowedValuesDiffer(items: seq<Raw>)
    requires AllowedValues(items).Some?
    ensures var values := AllowedValues(items).value;
            forall i, j | 0 <= i < j < |values| :: values[i] != values[j]
  {
    if |items| > 0 { AllowedValuesDiffer(items[..|items| - 1]); }
  }

  /** What resolving one column comes to. */
  lemma ColumnResolves(scope: Record, c: Column)
    ensures ResolveColumn(scope, c).Omitted? <==> !Given(scope, c)
    ensures ResolveColumn(scope, c).Refused? <==> c in scope && Malformed(scope[c])
    ensures ResolveColumn(scope, c).Is? ==>
              forall row :: Satisfies(row, ResolveColumn(scope, c).p) <==> FitsColumn(row, scope, c)
  {
    if c in scope && scope[c].Listing? { AllowedValuesAre(scope[c].items); }
  }

  // --- When a scope is refused ---------------------------------------------------------------------------

  lemma {:induction false} ColumnsResolveIff(scope: Record, columns: seq<Scoped>)
    ensures ResolveColumns(scope, columns).None?
            <==> exists column <- columns :: column.name in scope && Malformed(scope[column.name])
    decreases |columns|
  {
    if |columns| > 0 {
      var init, last := columns[..|columns| - 1], columns[|columns| - 1];
      assert columns == init + [last];
      ColumnsResolveIff(scope, init);
      ColumnResolves(scope, last.name);
    }
  }

  lemma RequiredIff(scope: Record, columns: seq<Scoped>)
    ensures HasRequired(scope, columns) <==> forall column <- columns :: column.required ==> Given(scope, column.name)
  {
    assert forall i | 0 <= i < |columns| :: columns[i] in columns;
  }

  /** Exactly when a scope is refused: a required column has no value, or some column's value is malformed. */
  lemma ScopeIsRefusedIff(scope: Record, columns: seq<Scoped>)
    ensures Resolve(scope, columns).None? <==> exists column <- columns :: Unusable(scope, column)
  {
    ColumnsResolveIff(scope, columns);
    RequiredIff(scope, columns);
  }

  // --- Which rows a scope admits ---------------------------------------------------------------------------

  lemma PredicatesFit(row: Record, scope: Record, columns: seq<Scoped>)
    requires Resolve(scope, columns).Some?
    ensures InScope(row, Resolve(scope, columns).value) <==> Fits(row, scope, columns)
  {
    var preds := Resolve(scope, columns).value;
    ResolvedPredicates(scope, columns);
    if InScope(row, preds) {
      forall column | column in columns && Given(scope, column.name) ensures FitsColumn(row, scope, column.name) {
        ColumnResolves(scope, column.name);
        assert Satisfies(row, ResolveColumn(scope, column.name).p);
      }
    }
    if Fits(row, scope, columns) {
      forall p | p in preds ensures Satisfies(row, p) {
        var i :| 0 <= i < |columns| && ResolveColumn(scope, columns[i].name) == Is(p);
        ColumnResolves(scope, columns[i].name);
        assert columns[i] in columns;
      }
    }
  }

  /** A scoped read returns a row exactly when every user filter selects it and it fits the scope. */
  lemma ScopedReadsSelect(seen: F.Row, row: Record, user: seq<F.Tree>, scope: Record, columns: seq<Scoped>)
    requires Shows(seen, row) && Resolve(scope, columns).Some?
    requires forall i | 0 <= i < |user| :: !S.Refusable(user[i])
    ensures S.AllCompile(F.Prepare(user))
    ensures F.QueryTruth(seen, ScopedRead(user, Resolve(scope, columns).value)) == F.True
            <==> (forall i | 0 <= i < |user| :: S.Selects(seen, user[i])) && Fits(row, scope, columns)
  {
    S.QueriesSelect(seen, user);
    ReadsStayInScope(seen, row, user, Resolve(scope, columns).value);
    PredicatesFit(row, scope, columns);
  }

  /** The criteria of a mutation select exactly the rows that fit. */
  lemma CriteriaSelect(row: Record, scope: Record, columns: seq<Scoped>)
    requires Resolve(scope, columns).Some?
    ensures MatchesWhere(row, WhereOf(Resolve(scope, columns).value)) <==> Fits(row, scope, columns)
  {
    ResolvedIsConsistent(scope, columns);
    WhereMeansScope(row, Resolve(scope, columns).value);
    PredicatesFit(row, scope, columns);
  }

  // --- Which entities may be created ---------------------------------------------------------------------------

  /** The list leaves no choice: all its scalars are one value, and there is one. */
  ghost predicate OnlyChoice(x: Raw, v: int) {
    Allows(x, v) && forall w | Allows(x, w) :: w == v
  }

  /** A list of allowed values needs a selected value among them, or exactly one value to choose. */
  ghost predicate Unselected(entity: Record, scope: Record, c: Column) {
    && c in scope && scope[c].Listing?
    && (if c in entity && !entity[c].Nullish? then !FitsColumn(entity, scope, c)
        else forall v :: !OnlyChoice(scope[c], v))
  }

  lemma ColumnAcceptsIff(entity: Record, scope: Record, c: Column)
    ensures Acceptable(entity, ResolveColumn(scope, c))
            <==> !(c in scope && Malformed(scope[c])) && !Unselected(entity, scope, c)
  {
    ColumnResolves(scope, c);
    if c in scope && scope[c].Listing? && !Malformed(scope[c]) {
      var items := scope[c].items;
      var values := AllowedValues(items).value;
      AllowedValuesAre(items);
      AllowedValuesDiffer(items);
      if |values| == 1 {
        assert forall w | w in values :: w == values[0];
        assert OnlyChoice(scope[c], values[0]);
      } else {
        forall v ensures !OnlyChoice(scope[c], v) {
          if Allows(scope[c], v) {
            assert v in values;
            assert values[0] in values && values[1] in values && values[0] != values[1];
            assert Allows(scope[c], values[0]) && Allows(scope[c], values[1]);
          }
        }
      }
    }
  }

  /** Exactly when a create is refused. */
  lemma CreateIsRefusedIff(entity: Record, scope: Record, columns: seq<Scoped>)
    ensures ApplyScope(entity, scope, columns).None?
            <==> exists column <- columns :: Unusable(scope, column) || Unselected(entity, scope, column.name)
  {
    ApplyColumnsFacts(entity, scope, columns);
    forall column | column in columns
      ensures Acceptable(entity, ResolveColumn(scope, column.name))
              <==> !(column.name in scope && Malformed(scope[column.name])) && !Unselected(entity, scope, column.name)
    {
      ColumnAcceptsIff(entity, scope, column.name);
    }
  }

  /** A created entity fits its scope, and only columns in which it did not fit before were written. */
  lemma CreatedEntitiesFit(entity: Record, scope: Record, columns: seq<Scoped>)
    requires ApplyScope(entity, scope, columns).Some?
    ensures Fits(ApplyScope(entity, scope, columns).value, scope, columns)
    ensures var after := ApplyScope(entity, scope, columns).value;
            forall d: Column :: Get(after, d) == Get(entity, d)
              || (Given(scope, d) && !FitsColumn(entity, scope, d) && exists column <- columns :: column.name == d)
  {
    CreatedEntitiesAreInScope(entity, scope, columns);
    PredicatesFit(ApplyScope(entity, scope, columns).value, scope, columns);
    WrittenColumns(entity, scope, columns);
  }

  lemma {:induction false} WrittenColumns(entity: Record, scope: Record, columns: seq<Scoped>)
    requires ApplyColumns(entity, scope, columns).Some?
    ensures var after := ApplyColumns(entity, scope, columns).value;
            forall d: Column :: Get(after, d) == Get(entity, d)
              || (Given(scope, d) && !FitsColumn(entity, scope, d) && exists column <- columns :: column.name == d)
    decreases |columns|
  {
    if |columns| > 0 {
      var c, rest := columns[0].name, columns[1..];
      var mid := ApplyColumn(entity, scope, c).value;
      if c in scope && scope[c].Listing? { AllowedValuesAre(scope[c].items); }
      ApplyColumnFacts(entity, scope, c);
      WrittenColumns(mid, scope, rest);
      assert forall column <- rest :: column in columns;
      assert columns[0] in columns;
      ColumnResolves(scope, c);
    }
  }
}
