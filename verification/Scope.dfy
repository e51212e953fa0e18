/**
 One tenancy scope as reads, mutations and creates see it.

 Scope and entity values are scalars compared by identity; anything else is not a scalar. A table
 maps ids to records; the record's own id is also its `id` column.
 */
module Scope {
  import opened Wrappers
  import F = Filter

  type Column = string

  /** A value handed in by a strategy or a caller. */
  datatype Raw = Nullish | Scalar(v: int) | Listing(items: seq<Raw>) | NotScalar

  datatype Scoped = Scoped(name: Column, required: bool)

  /** Values absent from the map are undefined. */
  type Record = map<Column, Raw>

  function Get(r: Record, c: Column): Raw {
    if c in r then r[c] else Nullish
  }

  datatype Predicate = EqualTo(name: Column, v: int) | OneOf(name: Column, values: seq<int>)

  // --- Resolving a scope ---------------------------------------------------------------------------

  /** Scalars of an allowed list, first occurrences only; None if an entry is neither null nor scalar. */
  function AllowedValues(items: seq<Raw>): Option<seq<int>> {
    if |items| == 0 then Some([])
    else
      var init := AllowedValues(items[..|items| - 1]);
      var last := items[|items| - 1];
      if init.None? || !(last.Nullish? || last.Scalar?) then None
      else if last.Nullish? || last.v in init.value then init
      else Some(init.value + [last.v])
  }

  predicate HasRequired(scope: Record, columns: seq<Scoped>) {
    forall i | 0 <= i < |columns| :: columns[i].required ==> !Get(scope, columns[i].name).Nullish?
  }

  /** The predicate of one column; Refused is an error, Omitted an optional column without a value. */
  datatype Resolved = Omitted | Refused | Is(p: Predicate)

  function ResolveColumn(scope: Record, c: Column): Resolved {
    match Get(scope, c)
    case Nullish => Omitted
    case Scalar(v) => Is(EqualTo(c, v))
    case Listing(items) => if AllowedValues(items).Some? then Is(OneOf(c, AllowedValues(items).value)) else Refused
    case NotScalar => Refused
  }

  function ResolveColumns(scope: Record, columns: seq<Scoped>): Option<seq<Predicate>> {
    if |columns| == 0 then Some([])
    else
      var init := ResolveColumns(scope, columns[..|columns| - 1]);
      var last := ResolveColumn(scope, columns[|columns| - 1].name);
      if init.None? || last.Refused? then None else if last.Omitted? then init else Some(init.value + [last.p])
  }

  function Resolve(scope: Record, columns: seq<Scoped>): Option<seq<Predicate>> {
    if HasRequired(scope, columns) then ResolveColumns(scope, columns) else None
  }

  /** The loop that pushes predicates. */
  method ResolveScopePredicates(scope: Record, columns: seq<Scoped>) returns (r: Option<seq<Predicate>>)
    ensures r == Resolve(scope, columns)
  {
    if !HasRequired(scope, columns) { return None; }
    var predicates: seq<Predicate> := [];
    for i := 0 to |columns|
      invariant ResolveColumns(scope, columns[..i]) == Some(predicates)
    {
      assert columns[..i + 1][..i] == columns[..i];
      var one := ResolveColumn(scope, columns[i].name);
      if one.Refused? {
        RefusedStaysRefused(scope, columns, i);
        return None;
      }
      if one.Is? { predicates := predicates + [one.p]; }
    }
    assert columns[..|columns|] == columns;
    return Some(predicates);
  }

  lemma {:induction false} RefusedStaysRefused(scope: Record, columns: seq<Scoped>, i: nat)
    requires i < |columns| && ResolveColumn(scope, columns[i].name).Refused?
    ensures ResolveColumns(scope, columns).None?
    decreases |columns|
  {
    if i < |columns| - 1 { RefusedStaysRefused(scope, columns[..|columns| - 1], i); }
  }

  /** The predicates are exactly those of the single columns. */
  lemma {:induction false} ResolvedPredicates(scope: Record, columns: seq<Scoped>)
    requires ResolveColumns(scope, columns).Some?
    ensures forall p <- ResolveColumns(scope, columns).value ::
              exists i :: 0 <= i < |columns| && ResolveColumn(scope, columns[i].name) == Is(p)
    ensures forall i | 0 <= i < |columns| ::
              !ResolveColumn(scope, columns[i].name).Refused?
              && (ResolveColumn(scope, columns[i].name).Is? ==>
                    ResolveColumn(scope, columns[i].name).p in ResolveColumns(scope, columns).value)
    decreases |columns|
  {
    if |columns| > 0 {
      var n := |columns| - 1;
      var init := columns[..n];
      ResolvedPredicates(scope, init);
      var all := ResolveColumns(scope, columns).value;
      forall p | p in all ensures exists i :: 0 <= i < |columns| && ResolveColumn(scope, columns[i].name) == Is(p) {
        if p in ResolveColumns(scope, init).value {
          var i :| 0 <= i < |init| && ResolveColumn(scope, init[i].name) == Is(p);
          assert columns[i] == init[i];
        } else {
          assert ResolveColumn(scope, columns[n].name) == Is(p);
        }
      }
      forall i | 0 <= i < |columns|
        ensures !ResolveColumn(scope, columns[i].name).Refused?
                && (ResolveColumn(scope, columns[i].name).Is? ==> ResolveColumn(scope, columns[i].name).p in all)
      {
        if i < n { assert columns[i] == init[i]; }
      }
    }
  }

  // --- What a predicate means ---------------------------------------------------------------------------

  predicate Satisfies(row: Record, p: Predicate) {
    var x := Get(row, p.name);
    x.Scalar? && match p case EqualTo(_, v) => x.v == v case OneOf(_, values) => x.v in values
  }

  predicate InScope(row: Record, preds: seq<Predicate>) {
    forall p <- preds :: Satisfies(row, p)
  }

  // --- Reads: the filter form ----------------------------------------------------------------------------

  function Cells(values: seq<int>): seq<F.Cell> {
    seq(|values|, i requires 0 <= i < |values| => Some(values[i]))
  }

  function FilterOf(p: Predicate): (f: F.Tree)
    ensures F.Prepared(f) && F.Compiles(f)
  {
    match p
    case EqualTo(c, v) => F.Compare(Some(c), F.Rel(F.Equal), F.Value(v))
    case OneOf(c, values) => F.Member(Some(c), false, F.Items(Cells(values)))
  }

  function ScopeFilters(preds: seq<Predicate>): (r: seq<F.Tree>)
    ensures |r| == |preds| && forall i | 0 <= i < |r| :: F.Prepared(r[i]) && F.Compiles(r[i])
  {
    seq(|preds|, i requires 0 <= i < |preds| => FilterOf(preds[i]))
  }

  /** The row a query sees: a column that is no scalar reads as NULL. */
  ghost predicate Shows(seen: F.Row, row: Record) {
    forall c: Column :: seen.cell(c) == if Get(row, c).Scalar? then Some(Get(row, c).v) else None
  }

  lemma {:induction false} MemberOfCells(x: F.Cell, values: seq<int>)
    ensures F.MemberOf(x, Cells(values)).True? <==> x.Some? && x.value in values
  {
    if |values| > 0 {
      MemberOfCells(x, values[1..]);
      assert Cells(values)[1..] == Cells(values[1..]) && Cells(values)[0] == Some(values[0]);
      assert values == [values[0]] + values[1..];
    } else {
      assert Cells(values) == [];
    }
  }

  /** A scope filter is true of exactly the rows that satisfy its predicate. */
  lemma FilterMeansPredicate(seen: F.Row, row: Record, p: Predicate)
    requires Shows(seen, row)
    ensures F.Meaning(seen, FilterOf(p), Some(F.True)) == Some(F.True) <==> Satisfies(row, p)
  {
    if p.OneOf? { MemberOfCells(seen.cell(p.name), p.values); }
  }

  lemma {:induction false} ConjunctionIsTrueIff(seen: F.Row, filters: seq<F.Tree>)
    requires F.AllPrepared(filters) && forall i | 0 <= i < |filters| :: F.Compiles(filters[i])
    ensures F.OrTrue(F.MeaningOfGroup(seen, false, filters, Some(F.True))) == F.True <==>
              AllTrue(seen, filters)
    decreases |filters|
  {
    if |filters| > 0 {
      var rest := filters[1..];
      F.PreparedMeans(seen, filters[0]);
      ConjunctionIsTrueIff(seen, rest);
      assert forall i | 0 <= i < |rest| :: rest[i] == filters[i + 1];
      assert forall i | 0 < i < |filters| :: filters[i] == rest[i - 1];
    }
  }

  /** The filters of a scoped read: the cleaned user filters followed by the scope's own. */
  function ScopedRead(user: seq<F.Tree>, preds: seq<Predicate>): seq<F.Tree> {
    F.Prepare(user) + ScopeFilters(preds)
  }

  /** No user filter admits a row outside the scope, and the scope takes nothing else away. */
  lemma ReadsStayInScope(seen: F.Row, row: Record, user: seq<F.Tree>, preds: seq<Predicate>)
    requires Shows(seen, row)
    requires forall i | 0 <= i < |F.Prepare(user)| :: F.Compiles(F.Prepare(user)[i])
    ensures F.QueryTruth(seen, ScopedRead(user, preds)) == F.True <==>
              F.QueryTruth(seen, F.Prepare(user)) == F.True && InScope(row, preds)
  {
    var cleaned, own := F.Prepare(user), ScopeFilters(preds);
    ScopeFiltersMeanScope(seen, row, preds);
    F.CleaningLeavesNoEmptyGroup(user);
    QueryIsConjunction(seen, cleaned);
    QueryIsConjunction(seen, cleaned + own);
    ConjunctionOfBoth(seen, cleaned, own);
  }

  /** The scope's own filters, one by one. */
  lemma ScopeFiltersMeanScope(seen: F.Row, row: Record, preds: seq<Predicate>)
    requires Shows(seen, row)
    ensures F.AllPrepared(ScopeFilters(preds)) && forall i | 0 <= i < |preds| :: F.Compiles(ScopeFilters(preds)[i])
    ensures AllTrue(seen, ScopeFilters(preds)) <==> InScope(row, preds)
  {
    var own := ScopeFilters(preds);
    forall i | 0 <= i < |preds|
      ensures own[i] == FilterOf(preds[i]) && F.Prepared(own[i]) && F.Compiles(own[i])
      ensures F.Meaning(seen, own[i], Some(F.True)) == Some(F.True) <==> Satisfies(row, preds[i])
    {
      FilterMeansPredicate(seen, row, preds[i]);
    }
    if InScope(row, preds) {
      forall i | 0 <= i < |own| ensures F.Meaning(seen, own[i], Some(F.True)) == Some(F.True) {
        assert preds[i] in preds;
      }
    }
  }

  predicate AllTrue(seen: F.Row, filters: seq<F.Tree>) {
    forall i | 0 <= i < |filters| :: F.Meaning(seen, filters[i], Some(F.True)) == Some(F.True)
  }

  lemma ConjunctionOfBoth(seen: F.Row, a: seq<F.Tree>, b: seq<F.Tree>)
    requires F.AllPrepared(a) && F.AllPrepared(a + b)
    requires forall i | 0 <= i < |a| :: F.Compiles(a[i])
    requires forall i | 0 <= i < |a + b| :: F.Compiles((a + b)[i])
    ensures F.OrTrue(F.MeaningOfGroup(seen, false, a + b, Some(F.True))) == F.True <==>
              F.OrTrue(F.MeaningOfGroup(seen, false, a, Some(F.True))) == F.True && AllTrue(seen, b)
  {
    ConjunctionIsTrueIff(seen, a);
    ConjunctionIsTrueIff(seen, a + b);
    assert forall i | 0 <= i < |a| :: (a + b)[i] == a[i];
    assert forall i | 0 <= i < |b| :: (a + b)[|a| + i] == b[i];
  }

  lemma QueryIsConjunction(seen: F.Row, filters: seq<F.Tree>)
    requires F.AllPrepared(filters) && forall i | 0 <= i < |filters| :: F.Compiles(filters[i])
    ensures F.QueryTruth(seen, filters) == F.OrTrue(F.MeaningOfGroup(seen, false, filters, Some(F.True)))
  {
    F.PreparedIsUntouched(filters);
    F.QueryMeansTheTree(seen, filters);
  }

  // --- Mutations: the where form ----------------------------------------------------------------------------

  datatype Criterion = EqualsValue(v: int) | InValues(values: seq<int>)
  type WhereMap = map<Column, Criterion>

  predicate Meets(x: Raw, c: Criterion) {
    x.Scalar? && match c case EqualsValue(v) => x.v == v case InValues(values) => x.v in values
  }

  predicate MatchesWhere(row: Record, where: WhereMap) {
    forall c <- where :: Meets(Get(row, c), where[c])
  }

  function CriterionOf(p: Predicate): Criterion {
    match p case EqualTo(_, v) => EqualsValue(v) case OneOf(_, values) => InValues(values)
  }

  function WhereOf(preds: seq<Predicate>): WhereMap {
    if |preds| == 0 then map[]
    else WhereOf(preds[..|preds| - 1])[preds[|preds| - 1].name := CriterionOf(preds[|preds| - 1])]
  }

  /** The loop that fills the criteria object. */
  method BuildScopeWhere(scope: Record, columns: seq<Scoped>) returns (r: Option<WhereMap>)
    ensures r.Some? <==> Resolve(scope, columns).Some?
    ensures r.Some? ==> r.value == WhereOf(Resolve(scope, columns).value)
  {
    var resolved := ResolveScopePredicates(scope, columns);
    if resolved.None? { return None; }
    var preds := resolved.value;
    var out: WhereMap := map[];
    for i := 0 to |preds|
      invariant out == WhereOf(preds[..i])
    {
      out := out[preds[i].name := CriterionOf(preds[i])];
      assert preds[..i + 1][..i] == preds[..i];
    }
    assert preds[..|preds|] == preds;
    return Some(out);
  }

  /** A column has one predicate, however often it is listed. */
  predicate Consistent(preds: seq<Predicate>) {
    forall p, q | p in preds && q in preds && p.name == q.name :: p == q
  }

  lemma ResolvedIsConsistent(scope: Record, columns: seq<Scoped>)
    requires Resolve(scope, columns).Some?
    ensures Consistent(Resolve(scope, columns).value)
  {
    var preds := Resolve(scope, columns).value;
    ResolvedPredicates(scope, columns);
    forall p, q | p in preds && q in preds && p.name == q.name ensures p == q {
      var i :| 0 <= i < |columns| && ResolveColumn(scope, columns[i].name) == Is(p);
      var j :| 0 <= j < |columns| && ResolveColumn(scope, columns[j].name) == Is(q);
      assert p.name == columns[i].name && q.name == columns[j].name;
    }
  }

  lemma {:induction false} WhereOfFacts(preds: seq<Predicate>)
    requires Consistent(preds)
    ensures forall p <- preds :: p.name in WhereOf(preds) && WhereOf(preds)[p.name] == CriterionOf(p)
    ensures forall c <- WhereOf(preds) :: exists p :: p in preds && p.name == c && WhereOf(preds)[c] == CriterionOf(p)
  {
    if |preds| > 0 {
      var init, last := preds[..|preds| - 1], preds[|preds| - 1];
      assert preds == init + [last];
      WhereOfFacts(init);
      forall p | p in preds ensures p.name in WhereOf(preds) && WhereOf(preds)[p.name] == CriterionOf(p) {
        if p.name == last.name { assert p == last; } else { assert p in init; }
      }
      forall c | c in WhereOf(preds)
        ensures exists p :: p in preds && p.name == c && WhereOf(preds)[c] == CriterionOf(p)
      {
        if c == last.name {
          assert last in preds;
        } else {
          var p :| p in init && p.name == c && WhereOf(init)[c] == CriterionOf(p);
          assert p in preds;
        }
      }
    }
  }

  /** The where form selects the rows of the scope. */
  lemma WhereMeansScope(row: Record, preds: seq<Predicate>)
    requires Consistent(preds)
    ensures MatchesWhere(row, WhereOf(preds)) <==> InScope(row, preds)
  {
    WhereOfFacts(preds);
    if MatchesWhere(row, WhereOf(preds)) {
      forall p | p in preds ensures Satisfies(row, p) { assert Meets(Get(row, p.name), WhereOf(preds)[p.name]); }
    }
    if InScope(row, preds) {
      forall c | c in WhereOf(preds) ensures Meets(Get(row, c), WhereOf(preds)[c]) {
        var p :| p in preds && p.name == c && WhereOf(preds)[c] == CriterionOf(p);
        assert Satisfies(row, p);
      }
    }
  }

  /** Reads and mutations of one scope select the same rows. */
  lemma FilterAndWhereFormsAgree(seen: F.Row, row: Record, scope: Record, columns: seq<Scoped>)
    requires Shows(seen, row) && Resolve(scope, columns).Some?
    ensures F.QueryTruth(seen, ScopeFilters(Resolve(scope, columns).value)) == F.True
            <==> MatchesWhere(row, WhereOf(Resolve(scope, columns).value))
  {
    var preds := Resolve(scope, columns).value;
    ResolvedIsConsistent(scope, columns);
    WhereMeansScope(row, preds);
    assert F.Prepare([]) == [] && ScopedRead([], preds) == ScopeFilters(preds);
    ReadsStayInScope(seen, row, [], preds);
    assert F.QueryTruth(seen, []) == F.True;
  }

  // --- Creates ---------------------------------------------------------------------------------------------------

  function ApplyColumn(entity: Record, scope: Record, c: Column): Option<Record> {
    match Get(scope, c)
    case Nullish => Some(entity)
    case Scalar(v) => Some(entity[c := Scalar(v)])
    case NotScalar => None
    case Listing(items) =>
      var allowed := AllowedValues(items);
      var selected := Get(entity, c);
      if allowed.None? || |allowed.value| == 0 then None
      else if selected.Nullish? then
        if |allowed.value| == 1 then Some(entity[c := Scalar(allowed.value[0])]) else None
      else if selected.Scalar? && selected.v in allowed.value then Some(entity) else None
  }

  function ApplyColumns(entity: Record, scope: Record, columns: seq<Scoped>): Option<Record>
    decreases |columns|
  {
    if |columns| == 0 then Some(entity)
    else
      var first := ApplyColumn(entity, scope, columns[0].name);
      if first.None? then None else ApplyColumns(first.value, scope, columns[1..])
  }

  function ApplyScope(entity: Record, scope: Record, columns: seq<Scoped>): Option<Record> {
    if HasRequired(scope, columns) then ApplyColumns(entity, scope, columns) else None
  }

  /** An entity under construction, written in place. */
  class Entity {
    var fields: Record

    constructor (fields: Record)
      ensures this.fields == fields
    {
      this.fields := fields;
    }

    /** False means that an error was raised. */
    method ApplyScopeToEntity(scope: Record, columns: seq<Scoped>) returns (ok: bool)
      modifies this
      ensures ok == ApplyScope(old(fields), scope, columns).Some?
      ensures ok ==> fields == ApplyScope(old(fields), scope, columns).value
    {
      if !HasRequired(scope, columns) { return false; }
      assert columns[0..] == columns;
      for i := 0 to |columns|
        invariant ApplyColumns(old(fields), scope, columns) == ApplyColumns(fields, scope, columns[i..])
      {
        assert columns[i..][0] == columns[i] && columns[i..][1..] == columns[i + 1..];
        var c := columns[i].name;
        match Get(scope, c)
        case Nullish =>
        case NotScalar => return false;
        case Scalar(v) => fields := fields[c := Scalar(v)];
        case Listing(items) =>
          var allowed := AllowedValues(items);
          if allowed.None? || |allowed.value| == 0 { return false; }
          var selected := Get(fields, c);
          if selected.Nullish? {
            if |allowed.value| != 1 { return false; }
            fields := fields[c := Scalar(allowed.value[0])];
          } else if !selected.Scalar? || selected.v !in allowed.value {
            return false;
          }
      }
      return true;
    }
  }

  /** What a column's predicate asks of an entity before the scope is applied to it. */
  predicate Acceptable(entity: Record, r: Resolved) {
    match r
    case Omitted => true
    case Refused => false
    case Is(EqualTo(_, _)) => true
    case Is(OneOf(c, values)) =>
      var x := Get(entity, c);
      if x.Nullish? then |values| == 1 else x.Scalar? && x.v in values
  }

  predicate SatisfiesResolved(row: Record, r: Resolved) {
    r.Is? ==> Satisfies(row, r.p)
  }

  lemma ApplyColumnFacts(entity: Record, scope: Record, c: Column)
    ensures ApplyColumn(entity, scope, c).Some? <==> Acceptable(entity, ResolveColumn(scope, c))
    ensures ApplyColumn(entity, scope, c).Some? ==>
              var after := ApplyColumn(entity, scope, c).value;
              && SatisfiesResolved(after, ResolveColumn(scope, c))
              && (forall d: Column | d != c :: Get(after, d) == Get(entity, d))
              && (SatisfiesResolved(entity, ResolveColumn(scope, c)) ==> Get(after, c) == Get(entity, c))
              && Acceptable(after, ResolveColumn(scope, c))
  {
  }

  lemma {:induction false} ApplyColumnsFacts(entity: Record, scope: Record, columns: seq<Scoped>)
    ensures ApplyColumns(entity, scope, columns).Some? <==>
              forall i | 0 <= i < |columns| :: Acceptable(entity, ResolveColumn(scope, columns[i].name))
    ensures ApplyColumns(entity, scope, columns).Some? ==>
              var after := ApplyColumns(entity, scope, columns).value;
              && (forall i | 0 <= i < |columns| :: SatisfiesResolved(after, ResolveColumn(scope, columns[i].name)))
              && (forall d: Column | SatisfiesResolved(entity, ResolveColumn(scope, d)) ::
                  SatisfiesResolved(after, ResolveColumn(scope, d)))
              && (forall d: Column | forall i | 0 <= i < |columns| :: columns[i].name != d ::
                  Get(after, d) == Get(entity, d))
    decreases |columns|
  {
    if |columns| > 0 {
      var c, rest := columns[0].name, columns[1..];
      ApplyColumnFacts(entity, scope, c);
      assert forall i | 0 < i < |columns| :: columns[i] == rest[i - 1];
      assert forall i | 0 <= i < |rest| :: rest[i] == columns[i + 1];
      if ApplyColumn(entity, scope, c).Some? {
        var mid := ApplyColumn(entity, scope, c).value;
        ApplyColumnsFacts(mid, scope, rest);
      }
    }
  }

  /** An accepted entity satisfies every predicate the same scope yields for reads; its other fields are untouched. */
  lemma CreatedEntitiesAreInScope(entity: Record, scope: Record, columns: seq<Scoped>)
    requires ApplyScope(entity, scope, columns).Some?
    ensures Resolve(scope, columns).Some?
    ensures InScope(ApplyScope(entity, scope, columns).value, Resolve(scope, columns).value)
    ensures forall d: Column | forall i | 0 <= i < |columns| :: columns[i].name != d ::
              Get(ApplyScope(entity, scope, columns).value, d) == Get(entity, d)
  {
    var after := ApplyScope(entity, scope, columns).value;
    ApplyColumnsFacts(entity, scope, columns);
    ResolvesIfNothingRefused(scope, columns);
    ResolvedPredicates(scope, columns);
    var preds := Resolve(scope, columns).value;
    forall p | p in preds ensures Satisfies(after, p) {
      var i :| 0 <= i < |columns| && ResolveColumn(scope, columns[i].name) == Is(p);
    }
  }

  lemma {:induction false} ResolvesIfNothingRefused(scope: Record, columns: seq<Scoped>)
    requires forall i | 0 <= i < |columns| :: !ResolveColumn(scope, columns[i].name).Refused?
    ensures ResolveColumns(scope, columns).Some?
    decreases |columns|
  {
    if |columns| > 0 { ResolvesIfNothingRefused(scope, columns[..|columns| - 1]); }
  }

  // --- Mutations in an owned transaction -------------------------------------------------------------------------

  type Table = map<int, Record>

  /** A record carries its own id. */
  predicate TableOk(t: Table) {
    forall id <- t :: Get(t[id], "id") == Scalar(id)
  }

  datatype Change = Patch(fields: Record) | Remove | SetDeletedAt(value: Raw)
  datatype Outcome = Done | NothingAsked | NotFound | ScopeMutation

  function Dedupe(ids: seq<int>): seq<int> {
    if |ids| == 0 then []
    else
      var init := Dedupe(ids[..|ids| - 1]);
      if ids[|ids| - 1] in init then init else init + [ids[|ids| - 1]]
  }

  /** The scope's criteria are spread over the id criterion, so a scoped `id` column would replace it. */
  function MutationWhere(ids: seq<int>, scope: WhereMap): WhereMap {
    map["id" := if |ids| == 1 then EqualsValue(ids[0]) else InValues(ids)] + scope
  }

  function Hits(t: Table, where: WhereMap): set<int> {
    set id | id in t && MatchesWhere(t[id], where)
  }

  function Changed(t: Table, where: WhereMap, change: Change): Table {
    match change
    case Remove => map id | id in t && id !in Hits(t, where) :: t[id]
    case Patch(fields) => map id | id in t :: if id in Hits(t, where) then t[id] + fields else t[id]
    case SetDeletedAt(value) => map id | id in t :: if id in Hits(t, where) then t[id]["deletedAt" := value] else t[id]
  }

  datatype Mutated = Mutated(table: Table, outcome: Outcome)

  /**
   Delete, soft delete and restore: count, then change, and roll back unless both hit every id. Other
   transactions may commit in between, so the count sees `counted` and the change sees `t`.
   */
  function MutateMany(counted: Table, t: Table, requested: seq<int>, scope: WhereMap, change: Change): Mutated {
    var ids := Dedupe(requested);
    var where := MutationWhere(ids, scope);
    if |ids| == 0 then Mutated(t, NothingAsked)
    else if |Hits(counted, where)| != |ids| || |Hits(t, where)| != |ids| then Mutated(t, NotFound)
    else Mutated(Changed(t, where, change), Done)
  }

  function UpdateOne(t: Table, id: int, patch: Record, scope: WhereMap, scoped: set<Column>): Mutated {
    var where := MutationWhere([id], scope);
    if patch.Keys !! scoped then
      if |Hits(t, where)| != 1 && patch != map[] then Mutated(t, NotFound)
      else
        var t' := if patch == map[] then t else Changed(t, where, Patch(patch));
        if Hits(t', where) == {} then Mutated(t, NotFound) else Mutated(t', Done)
    else Mutated(t, ScopeMutation)
  }

  /** The repository with its table in place. */
  class Repository {
    var table: Table

    constructor (table: Table)
      ensures this.table == table
    {
      this.table := table;
    }

    /** `meanwhile` is the table once other transactions have committed between the count and the change. */
    method Mutate(requested: seq<int>, scope: WhereMap, change: Change, meanwhile: Table) returns (r: Outcome)
      modifies this
      ensures Mutated(table, r) == MutateMany(old(table), meanwhile, requested, scope, change)
    {
      var ids := Dedupe(requested);
      var where := MutationWhere(ids, scope);
      var matched := |Hits(table, where)|;
      table := meanwhile;
      if |ids| == 0 { return NothingAsked; }
      if matched != |ids| { return NotFound; }
      var affected := |Hits(table, where)|;
      table := Changed(table, where, change);
      if affected != |ids| {
        table := meanwhile;
        return NotFound;
      }
      return Done;
    }

    method Update(id: int, patch: Record, scope: WhereMap, scoped: set<Column>) returns (r: Outcome)
      modifies this
      ensures Mutated(table, r) == UpdateOne(old(table), id, patch, scope, scoped)
    {
      if !(patch.Keys !! scoped) { return ScopeMutation; }
      var before := table;
      var where := MutationWhere([id], scope);
      if patch != map[] {
        var affected := |Hits(table, where)|;
        table := Changed(table, where, Patch(patch));
        if affected != 1 {
          table := before;
          return NotFound;
        }
      }
      if Hits(table, where) == {} {
        table := before;
        return NotFound;
      }
      return Done;
    }
  }

  // --- What mutations leave alone -----------------------------------------------------------------------------------

  function SetOf(ids: seq<int>): set<int> {
    set x | x in ids
  }

  lemma {:induction false} DedupeFacts(ids: seq<int>)
    ensures forall x :: x in Dedupe(ids) <==> x in ids
    ensures |SetOf(Dedupe(ids))| == |Dedupe(ids)|
  {
    if |ids| > 0 {
      var init, last := ids[..|ids| - 1], ids[|ids| - 1];
      DedupeFacts(init);
      assert ids == init + [last];
      if last !in Dedupe(init) {
        assert SetOf(Dedupe(ids)) == SetOf(Dedupe(init)) + {last};
      }
    }
  }

  lemma MutationWhereMeans(row: Record, id: int, ids: seq<int>, scope: WhereMap)
    requires "id" !in scope && Get(row, "id") == Scalar(id)
    ensures MatchesWhere(row, MutationWhere(ids, scope)) <==> id in ids && MatchesWhere(row, scope)
  {
    var where := MutationWhere(ids, scope);
    assert forall c <- scope :: c in where && where[c] == scope[c];
    assert forall c <- where :: c == "id" || (c in scope && where[c] == scope[c]);
    assert Meets(Get(row, "id"), where["id"]) <==> id in ids;
  }

  /** A full count means that every requested id was hit, and nothing else. */
  lemma FullCountMeansAll(hits: set<int>, wanted: set<int>)
    requires hits <= wanted && |hits| == |wanted|
    ensures hits == wanted
  {
    assert wanted == hits + (wanted - hits);
    assert |wanted - hits| == 0;
  }

  predicate AllInScope(t: Table, ids: seq<int>, scope: WhereMap) {
    forall id <- ids :: id in t && MatchesWhere(t[id], scope)
  }

  lemma HitsAreFullIff(t: Table, ids: seq<int>, scope: WhereMap)
    requires TableOk(t) && "id" !in scope && |SetOf(ids)| == |ids|
    ensures |Hits(t, MutationWhere(ids, scope))| == |ids| <==> AllInScope(t, ids, scope)
    ensures AllInScope(t, ids, scope) ==> Hits(t, MutationWhere(ids, scope)) == SetOf(ids)
  {
    var hits := Hits(t, MutationWhere(ids, scope));
    forall id | id in t ensures id in hits <==> id in ids && MatchesWhere(t[id], scope) {
      MutationWhereMeans(t[id], id, ids, scope);
    }
    assert hits <= SetOf(ids);
    if |hits| == |ids| {
      FullCountMeansAll(hits, SetOf(ids));
      forall id | id in ids ensures id in t && MatchesWhere(t[id], scope) { assert id in hits; }
    }
    if AllInScope(t, ids, scope) {
      forall id | id in SetOf(ids) ensures id in hits { assert id in ids && id in t; }
      assert hits == SetOf(ids);
    }
  }

  /** Exactly these rows changed, each as asked. */
  predicate ChangedExactly(t: Table, t': Table, ids: seq<int>, change: Change) {
    && (forall id <- t :: id !in ids ==> id in t' && t'[id] == t[id])
    && (forall id <- t' :: id in t)
    && (forall id <- ids ::
          match change
          case Remove => id !in t'
          case Patch(fields) => id in t && id in t' && t'[id] == t[id] + fields
          case SetDeletedAt(value) => id in t && id in t' && t'[id] == t[id]["deletedAt" := value])
  }

  /**
   All or nothing: a mutation succeeds exactly when every requested id exists within the scope, at the
   count and at the change, and then changes exactly those rows; otherwise it changes nothing.
   */
  lemma MutationsAreAllOrNothing(counted: Table, t: Table, requested: seq<int>, scope: WhereMap, change: Change)
    requires TableOk(counted) && TableOk(t) && "id" !in scope
    ensures var m := MutateMany(counted, t, requested, scope, change);
            && (m.outcome.Done? <==>
                  requested != [] && AllInScope(counted, requested, scope) && AllInScope(t, requested, scope))
            && (if m.outcome.Done? then ChangedExactly(t, m.table, requested, change) else m.table == t)
  {
    var ids := Dedupe(requested);
    DedupeFacts(requested);
    if requested != [] { assert requested[0] in requested && ids != []; }
    HitsAreFullIff(counted, ids, scope);
    HitsAreFullIff(t, ids, scope);
    assert forall u: Table :: AllInScope(u, ids, scope) <==> AllInScope(u, requested, scope);
  }

  /** Rows outside the scope survive every mutation unchanged, whatever ids were requested. */
  lemma OutOfScopeRowsAreUntouched(
      counted: Table, t: Table, requested: seq<int>, scope: WhereMap, change: Change, id: int)
    requires id in t && !MatchesWhere(t[id], scope)
    ensures var m := MutateMany(counted, t, requested, scope, change); id in m.table && m.table[id] == t[id]
  {
    var where := MutationWhere(Dedupe(requested), scope);
    assert forall c <- scope :: c in where && where[c] == scope[c];
  }

  /** An update succeeds exactly for a row within the scope, touches that row only, and otherwise rolls back. */
  lemma UpdatesKeepTheScope(t: Table, id: int, patch: Record, preds: seq<Predicate>, scoped: set<Column>)
    requires TableOk(t) && Consistent(preds) && "id" !in WhereOf(preds) && "id" !in patch
    requires forall p <- preds :: p.name in scoped
    ensures var m := UpdateOne(t, id, patch, WhereOf(preds), scoped);
            && (m.outcome.Done? <==> patch.Keys !! scoped && id in t && InScope(t[id], preds))
            && (!m.outcome.Done? ==> m.table == t)
            && (m.outcome.Done? ==> m.table == t[id := t[id] + patch])
  {
    var where := MutationWhere([id], WhereOf(preds));
    HitsOfOne(t, id, preds);
    if patch.Keys !! scoped && id in t && InScope(t[id], preds) {
      var t' := t[id := t[id] + patch];
      assert Changed(t, where, Patch(patch)) == t';
      assert forall c: Column | c !in patch :: Get(t'[id], c) == Get(t[id], c);
      HitsOfOne(t', id, preds);
      if patch == map[] {
        assert t[id] + patch == t[id];
        assert t' == t;
      }
    }
  }

  /** No update, successful or not, changes a scope column of any row. */
  lemma UpdatesLeaveScopeColumns(
      t: Table, id: int, patch: Record, scope: WhereMap, scoped: set<Column>, x: int, c: Column)
    requires x in t && c in scoped
    ensures var m := UpdateOne(t, id, patch, scope, scoped); x in m.table && Get(m.table[x], c) == Get(t[x], c)
  {
  }

  lemma HitsOfOne(t: Table, id: int, preds: seq<Predicate>)
    requires TableOk(t) && Consistent(preds) && "id" !in WhereOf(preds)
    ensures Hits(t, MutationWhere([id], WhereOf(preds))) == if id in t && InScope(t[id], preds) then {id} else {}
  {
    forall x | x in t
      ensures MatchesWhere(t[x], MutationWhere([id], WhereOf(preds))) <==> x == id && InScope(t[x], preds)
    {
      MutationWhereMeans(t[x], x, [id], WhereOf(preds));
      WhereMeansScope(t[x], preds);
    }
  }

  /** Soft deletes and restores move no row between scopes either, unless the deletion mark itself is scoped. */
  lemma SoftDeletesKeepTheScope(
      counted: Table, t: Table, requested: seq<int>, scope: WhereMap, value: Raw, id: int, c: Column)
    requires id in t && c != "deletedAt"
    ensures var m := MutateMany(counted, t, requested, scope, SetDeletedAt(value));
            id in m.table && Get(m.table[id], c) == Get(t[id], c)
  {
  }

  /** So a soft-deleted or restored row is in scope exactly if it was before. */
  lemma SoftDeletedRowsStayInScope(counted: Table, t: Table, requested: seq<int>, scope: WhereMap, value: Raw, id: int)
    requires id in t && "deletedAt" !in scope
    ensures var m := MutateMany(counted, t, requested, scope, SetDeletedAt(value));
            id in m.table && (MatchesWhere(m.table[id], scope) <==> MatchesWhere(t[id], scope))
  {
    SoftDeletesKeepTheScope(counted, t, requested, scope, value, id, "");
    forall c | c in scope { SoftDeletesKeepTheScope(counted, t, requested, scope, value, id, c); }
  }

  /**
   With a scoped `id` column the promise fails: the scope's criterion replaces the requested id, and
   a delete of one row removes another.
   */
  lemma ScopedIdDeletesAnotherRow()
    ensures var t := map[1 := map["id" := Scalar(1)], 2 := map["id" := Scalar(2)]];
            var m := MutateMany(t, t, [1], map["id" := EqualsValue(2)], Remove);
            TableOk(t) && m.outcome.Done? && 1 in m.table && 2 !in m.table
  {
    var t: Table := map[1 := map["id" := Scalar(1)], 2 := map["id" := Scalar(2)]];
    var scope: WhereMap := map["id" := EqualsValue(2)];
    assert [1][..0] == [] && Dedupe([1]) == [1];
    assert MutationWhere([1], scope) == scope;
    assert !MatchesWhere(t[1], scope) by { assert !Meets(Get(t[1], "id"), scope["id"]); }
    assert MatchesWhere(t[2], scope);
    assert Hits(t, scope) == {2};
  }

  /** Only requested rows are ever removed. */
  ghost predicate RemovesOnlyRequested(scope: WhereMap, t: Table, requested: seq<int>) {
    forall id | id in t && id !in requested :: id in MutateMany(t, t, requested, scope, Remove).table
  }

  ghost predicate Admits(scope: WhereMap, row: Record) {
    Get(row, "id").Scalar? && MatchesWhere(row, scope)
  }

  /**
   Exactly when a delete keeps to the requested rows: the `id` column is not scoped, or the scope admits no row at all.
   */
  lemma KeepsToRequestedRowsIff(scope: WhereMap)
    ensures (forall t, requested | TableOk(t) :: RemovesOnlyRequested(scope, t, requested))
            <==> "id" !in scope || forall row :: !Admits(scope, row)
  {
    if "id" !in scope {
      forall t, requested | TableOk(t) ensures RemovesOnlyRequested(scope, t, requested) {
        MutationsAreAllOrNothing(t, t, requested, scope, Remove);
      }
    } else if row :| Admits(scope, row) {
      var x := Get(row, "id").v;
      var t: Table := map[x := row];
      var requested := [x + 1];
      assert requested[..0] == [] && Dedupe(requested) == requested;
      assert MutationWhere(requested, scope) == scope;
      assert Hits(t, scope) == {x};
      assert TableOk(t) && !RemovesOnlyRequested(scope, t, requested) by {
        assert x in t && x !in requested && x !in MutateMany(t, t, requested, scope, Remove).table;
      }
    } else {
      forall t, requested | TableOk(t) ensures RemovesOnlyRequested(scope, t, requested) {
        var where := MutationWhere(Dedupe(requested), scope);
        assert where == scope;
        forall id | id in t ensures id !in Hits(t, where) { assert !Admits(scope, t[id]); }
      }
    }
  }
}
