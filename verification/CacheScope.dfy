/**
 The security namespace of a cache key: which contexts share one, and which get none at all.

 A context is an object in a heap whose values may be shared, cyclic or not serialisable. A property
 that is not an enumerable data property is marked as not plain.
 */
module CacheScope {
  import opened Wrappers
  import opened Unicode
  import opened CacheEncoding

  type Ref = nat

  datatype Value =
    | VUndefined
    | VNull
    | VBool(value: bool)
    | VStr(text: Text)
    | VNum(printed: Text)
    | VUnsafe
    | VRef(ref: Ref)

  datatype Property = Property(plain: bool, value: Value)

  datatype Object =
    | ArrayObject(items: seq<Value>)
    | PlainObject(props: map<Text, Property>, symbolKeys: bool)
    | ExoticObject

  type Heap = Ref -> Object

  const MAX_DEPTH: nat := 32

  // --- From a heap value to a tree --------------------------------------------------------------

  function Leaf(v: Value): Option<Tree>
    requires !v.VRef?
  {
    match v
    case VUndefined => Some(Undefined)
    case VNull => Some(Null)
    case VBool(b) => Some(Bool(b))
    case VStr(s) => Some(Str(s))
    case VNum(s) => Some(Num(s))
    case VUnsafe => None
  }

  /** `toSafeCacheValue`: refuses cycles by the set of ancestors and deep values by the depth. */
  function Safe(h: Heap, v: Value, ancestors: set<Ref>, depth: nat): Option<Tree>
    decreases MAX_DEPTH + 1 - depth
  {
    if depth > MAX_DEPTH then None
    else if !v.VRef? then Leaf(v)
    else if v.ref in ancestors then None
    else
      match h(v.ref)
      case ArrayObject(items) =>
        if forall i | 0 <= i < |items| :: Safe(h, items[i], ancestors + {v.ref}, depth + 1).Some? then
          Some(Array(seq(|items|, i requires 0 <= i < |items| =>
              Safe(h, items[i], ancestors + {v.ref}, depth + 1).value)))
        else None
      case PlainObject(props, symbolKeys) =>
        if !symbolKeys && forall k <- props ::
            props[k].plain && Safe(h, props[k].value, ancestors + {v.ref}, depth + 1).Some? then
          Some(Record(map k | k in props :: Safe(h, props[k].value, ancestors + {v.ref}, depth + 1).value))
        else None
      case ExoticObject => None
  }

  /** What a value stands for: its unfolding into a tree, if it has one no deeper than the limit. */
  function Unfold(h: Heap, v: Value, depth: nat): Option<Tree>
    decreases MAX_DEPTH + 1 - depth
  {
    if depth > MAX_DEPTH then None
    else if !v.VRef? then Leaf(v)
    else
      match h(v.ref)
      case ArrayObject(items) =>
        if forall i | 0 <= i < |items| :: Unfold(h, items[i], depth + 1).Some? then
          Some(Array(seq(|items|, i requires 0 <= i < |items| => Unfold(h, items[i], depth + 1).value)))
        else None
      case PlainObject(props, symbolKeys) =>
        if !symbolKeys && forall k <- props :: props[k].plain && Unfold(h, props[k].value, depth + 1).Some? then
          Some(Record(map k | k in props :: Unfold(h, props[k].value, depth + 1).value))
        else None
      case ExoticObject => None
  }

  lemma {:induction false} UnfoldIgnoresDepth(h: Heap, v: Value, d: nat, e: nat)
    requires Unfold(h, v, d).Some? && Unfold(h, v, e).Some?
    ensures Unfold(h, v, d) == Unfold(h, v, e)
    decreases MAX_DEPTH + 1 - d
  {
    if v.VRef? {
      match h(v.ref)
      case ArrayObject(items) =>
        forall i | 0 <= i < |items| ensures Unfold(h, items[i], d + 1) == Unfold(h, items[i], e + 1) {
          UnfoldIgnoresDepth(h, items[i], d + 1, e + 1);
        }
        assert Unfold(h, v, d).value.items == Unfold(h, v, e).value.items;
      case PlainObject(props, _) =>
        forall k | k in props ensures Unfold(h, props[k].value, d + 1) == Unfold(h, props[k].value, e + 1) {
          UnfoldIgnoresDepth(h, props[k].value, d + 1, e + 1);
        }
        assert Unfold(h, v, d).value.fields == Unfold(h, v, e).value.fields;
    }
  }

  /** Everything the ancestors stand for is a larger tree than `t`. */
  ghost predicate Above(h: Heap, ancestors: set<Ref>, t: Tree) {
    forall a, d: nat | a in ancestors && Unfold(h, VRef(a), d).Some? :: t < Unfold(h, VRef(a), d).value
  }

  lemma AboveChild(h: Heap, ancestors: set<Ref>, r: Ref, depth: nat, child: Tree)
    requires Unfold(h, VRef(r), depth).Some?
    requires Above(h, ancestors, Unfold(h, VRef(r), depth).value) && child < Unfold(h, VRef(r), depth).value
    ensures Above(h, ancestors + {r}, child)
  {
    forall a, d: nat | a in ancestors + {r} && Unfold(h, VRef(a), d).Some? ensures child < Unfold(h, VRef(a), d).value {
      if a == r { UnfoldIgnoresDepth(h, VRef(r), d, depth); }
    }
  }

  lemma {:induction false} SafeIsUnfoldBelow(h: Heap, v: Value, ancestors: set<Ref>, depth: nat)
    requires Unfold(h, v, depth).Some? && Above(h, ancestors, Unfold(h, v, depth).value)
    ensures Safe(h, v, ancestors, depth) == Unfold(h, v, depth)
    decreases MAX_DEPTH + 1 - depth
  {
    if v.VRef? {
      assert v.ref !in ancestors;
      var t := Unfold(h, v, depth).value;
      match h(v.ref)
      case ArrayObject(items) =>
        forall i | 0 <= i < |items|
          ensures Safe(h, items[i], ancestors + {v.ref}, depth + 1) == Unfold(h, items[i], depth + 1)
        {
          assert Unfold(h, items[i], depth + 1).value == t.items[i];
          AboveChild(h, ancestors, v.ref, depth, t.items[i]);
          SafeIsUnfoldBelow(h, items[i], ancestors + {v.ref}, depth + 1);
        }
        assert Safe(h, v, ancestors, depth).value.items == t.items;
      case PlainObject(props, _) =>
        forall k | k in props
          ensures Safe(h, props[k].value, ancestors + {v.ref}, depth + 1) == Unfold(h, props[k].value, depth + 1)
        {
          assert Unfold(h, props[k].value, depth + 1).value == t.fields[k];
          AboveChild(h, ancestors, v.ref, depth, t.fields[k]);
          SafeIsUnfoldBelow(h, props[k].value, ancestors + {v.ref}, depth + 1);
        }
        assert Safe(h, v, ancestors, depth).value.fields == t.fields;
    }
  }

  lemma {:induction false} SafeUnfolds(h: Heap, v: Value, ancestors: set<Ref>, depth: nat)
    requires Safe(h, v, ancestors, depth).Some?
    ensures Unfold(h, v, depth) == Safe(h, v, ancestors, depth)
    decreases MAX_DEPTH + 1 - depth
  {
    if v.VRef? {
      match h(v.ref)
      case ArrayObject(items) =>
        forall i | 0 <= i < |items|
          ensures Safe(h, items[i], ancestors + {v.ref}, depth + 1) == Unfold(h, items[i], depth + 1)
        {
          SafeUnfolds(h, items[i], ancestors + {v.ref}, depth + 1);
        }
        assert Unfold(h, v, depth).value.items == Safe(h, v, ancestors, depth).value.items;
      case PlainObject(props, _) =>
        forall k | k in props
          ensures Safe(h, props[k].value, ancestors + {v.ref}, depth + 1) == Unfold(h, props[k].value, depth + 1)
        {
          SafeUnfolds(h, props[k].value, ancestors + {v.ref}, depth + 1);
        }
        assert Unfold(h, v, depth).value.fields == Safe(h, v, ancestors, depth).value.fields;
    }
  }

  /** Refusing repeated ancestors refuses nothing but values with no tree within the limit; sharing is fine. */
  lemma SafeIsUnfold(h: Heap, v: Value, depth: nat)
    ensures Safe(h, v, {}, depth) == Unfold(h, v, depth)
  {
    if Unfold(h, v, depth).Some? {
      SafeIsUnfoldBelow(h, v, {}, depth);
    } else if Safe(h, v, {}, depth).Some? {
      SafeUnfolds(h, v, {}, depth);
    }
  }

  /** The walk itself, pushing items and entries in loops. */
  method ToSafeCacheValue(h: Heap, value: Value, ancestors: set<Ref>, depth: nat) returns (r: Option<Tree>)
    ensures r == Safe(h, value, ancestors, depth)
    decreases MAX_DEPTH + 1 - depth, 0
  {
    if depth > MAX_DEPTH { return None; }
    if !value.VRef? { return Leaf(value); }
    if value.ref in ancestors { return None; }
    var within := ancestors + {value.ref};
    match h(value.ref)
    case ArrayObject(items) =>
      var safeItems: seq<Tree> := [];
      for i := 0 to |items|
        invariant |safeItems| == i
        invariant forall j | 0 <= j < i :: Safe(h, items[j], within, depth + 1) == Some(safeItems[j])
      {
        var safe := ToSafeCacheValue(h, items[i], within, depth + 1);
        if safe.None? { return None; }
        safeItems := safeItems + [safe.value];
      }
      assert safeItems == Safe(h, value, ancestors, depth).value.items;
      return Some(Array(safeItems));
    case ExoticObject => return None;
    case PlainObject(props, symbolKeys) =>
      if symbolKeys { return None; }
      var entries := SafeEntries(h, props, within, depth + 1);
      if entries.None? { return None; }
      assert entries.value == Safe(h, value, ancestors, depth).value.fields;
      return Some(Record(entries.value));
  }

  /** The record branch's loop over the sorted keys. */
  method SafeEntries(
      h: Heap, props: map<Text, Property>, within: set<Ref>, depth: nat) returns (r: Option<map<Text, Tree>>)
    ensures r.Some? <==> forall k <- props :: props[k].plain && Safe(h, props[k].value, within, depth).Some?
    ensures r.Some? ==> r.value == map k | k in props :: Safe(h, props[k].value, within, depth).value
    decreases MAX_DEPTH + 1 - depth, 1
  {
    var keys := SortedKeys(props.Keys);
    var entries: map<Text, Tree> := map[];
    for i := 0 to |keys|
      invariant forall k :: k in entries <==> k in keys[..i]
      invariant forall k | k in entries ::
                  k in props && props[k].plain && Safe(h, props[k].value, within, depth) == Some(entries[k])
    {
      var property := props[keys[i]];
      if !property.plain { return None; }
      var safe := ToSafeCacheValue(h, property.value, within, depth);
      if safe.None? { return None; }
      entries := entries[keys[i] := safe.value];
      assert keys[..i + 1] == keys[..i] + [keys[i]];
    }
    assert keys[..|keys|] == keys;
    EntriesComplete(h, props, within, depth, entries);
    return Some(entries);
  }

  lemma EntriesComplete(h: Heap, props: map<Text, Property>, within: set<Ref>, depth: nat, entries: map<Text, Tree>)
    requires forall k :: k in entries <==> k in props
    requires forall k | k in entries :: props[k].plain && Safe(h, props[k].value, within, depth) == Some(entries[k])
    ensures forall k <- props :: props[k].plain && Safe(h, props[k].value, within, depth).Some?
    ensures entries == map k | k in props :: Safe(h, props[k].value, within, depth).value
  {
  }

  // --- Sorting string lists ---------------------------------------------------------------------

  predicate AtMost(a: Text, b: Text) {
    a == b || Less(a, b)
  }

  predicate Ascending(s: seq<Text>) {
    forall i, j | 0 <= i < j < |s| :: AtMost(s[i], s[j])
  }

  function InsertText(t: Text, s: seq<Text>): seq<Text> {
    if |s| == 0 || AtMost(t, s[0]) then [t] + s else [s[0]] + InsertText(t, s[1..])
  }

  function SortTexts(s: seq<Text>): seq<Text> {
    if |s| == 0 then [] else InsertText(s[0], SortTexts(s[1..]))
  }

  lemma {:induction false} InsertKeepsOrder(t: Text, s: seq<Text>)
    requires Ascending(s)
    ensures Ascending(InsertText(t, s)) && multiset(InsertText(t, s)) == multiset{t} + multiset(s)
  {
    if |s| > 0 {
      LessIsTotal(t, s[0]);
      assert s == [s[0]] + s[1..];
      if AtMost(t, s[0]) {
        forall j | 0 <= j < |s| ensures AtMost(t, s[j]) {
          if t != s[0] && s[0] != s[j] { LessIsTransitive(t, s[0], s[j]); }
        }
      } else {
        var rest := InsertText(t, s[1..]);
        InsertKeepsOrder(t, s[1..]);
        forall j | 0 <= j < |rest| ensures AtMost(s[0], rest[j]) {
          assert rest[j] in multiset(rest);
          assert rest[j] == t || rest[j] in s[1..];
        }
      }
    }
  }

  lemma {:induction false} SortTextsSorts(s: seq<Text>)
    ensures Ascending(SortTexts(s)) && multiset(SortTexts(s)) == multiset(s)
  {
    if |s| > 0 {
      SortTextsSorts(s[1..]);
      InsertKeepsOrder(s[0], SortTexts(s[1..]));
      assert s == [s[0]] + s[1..];
    }
  }

  lemma LeastComesFirst(a: seq<Text>, b: seq<Text>)
    requires Ascending(a) && Ascending(b) && multiset(a) == multiset(b) && |a| > 0 && |b| > 0
    ensures a[0] == b[0]
  {
    assert a[0] in multiset(b) && b[0] in multiset(a);
    var i :| 0 <= i < |b| && b[i] == a[0];
    var j :| 0 <= j < |a| && a[j] == b[0];
    LessIsTotal(a[0], b[0]);
  }

  lemma TailMultiset(s: seq<Text>)
    requires |s| > 0
    ensures multiset(s[1..]) == multiset(s) - multiset{s[0]} && |multiset(s)| == |s|
  {
    assert s == [s[0]] + s[1..];
  }

  lemma {:induction false} AscendingIsUnique(a: seq<Text>, b: seq<Text>)
    requires Ascending(a) && Ascending(b) && multiset(a) == multiset(b)
    ensures a == b
  {
    assert |multiset(a)| == |a| && |multiset(b)| == |b|;
    if |a| > 0 {
      LeastComesFirst(a, b);
      TailMultiset(a);
      TailMultiset(b);
      AscendingIsUnique(a[1..], b[1..]);
      assert a == [a[0]] + a[1..] && b == [b[0]] + b[1..];
    }
  }

  /** Sorting forgets the order of a list and nothing else. */
  lemma SortsEquallyIff(a: seq<Text>, b: seq<Text>)
    ensures SortTexts(a) == SortTexts(b) <==> multiset(a) == multiset(b)
  {
    SortTextsSorts(a);
    SortTextsSorts(b);
    if multiset(a) == multiset(b) { AscendingIsUnique(SortTexts(a), SortTexts(b)); }
  }

  // --- Scope material ---------------------------------------------------------------------------

  datatype Scope = Global | Tenant | User

  /** Code units of an ASCII literal. */
  function Ascii(s: string): Text {
    seq(|s|, i requires 0 <= i < |s| => if s[i] < '\U{80}' then s[i] as int else 0)
  }

  function ScopeName(scope: Scope): Text {
    match scope
    case Global => Ascii("global")
    case Tenant => Ascii("tenant")
    case User => Ascii("user")
  }

  /** Fields that belong to the namespace: not runtime references or credentials, and no user id in tenant scope. */
  predicate Relevant(scope: Scope, key: Text) {
    && key !in {Ascii("request"), Ascii("response"), Ascii("token"), Ascii("user")}
    && !(scope.Tenant? && key == Ascii("userId"))
  }

  predicate IsListField(key: Text) {
    key == Ascii("roles") || key == Ascii("permissions")
  }

  predicate IsStringList(h: Heap, v: Value) {
    v.VRef? && h(v.ref).ArrayObject? && forall item <- h(v.ref).items :: item.VStr?
  }

  function Strings(h: Heap, v: Value): seq<Text>
    requires IsStringList(h, v)
  {
    var items := h(v.ref).items;
    seq(|items|, i requires 0 <= i < |items| => assert items[i] in items; items[i].text)
  }

  function StringTrees(s: seq<Text>): seq<Tree> {
    seq(|s|, i requires 0 <= i < |s| => Str(s[i]))
  }

  /** One copied field: string lists of roles and permissions are sorted first. */
  function SelectedField(h: Heap, key: Text, v: Value): Option<Tree> {
    if IsListField(key) && IsStringList(h, v) then Some(Array(StringTrees(SortTexts(Strings(h, v)))))
    else Safe(h, v, {}, 1)
  }

  predicate Present(fields: map<Text, Tree>, key: Text) {
    key in fields && fields[key].Str? && |Trim(fields[key].text)| > 0
  }

  predicate Selectable(h: Heap, scope: Scope, props: map<Text, Property>) {
    forall k <- props :: Relevant(scope, k) ==> props[k].plain && SelectedField(h, k, props[k].value).Some?
  }

  function Selected(h: Heap, scope: Scope, props: map<Text, Property>): map<Text, Tree>
    requires Selectable(h, scope, props)
  {
    map k | k in props && Relevant(scope, k) :: SelectedField(h, k, props[k].value).value
  }

  function Material(scope: Scope, fields: map<Text, Tree>): Tree {
    Record(map[Ascii("scope") := Str(ScopeName(scope)), Ascii("context") := Record(fields)])
  }

  /** None means the cache is bypassed. */
  function BuildScopeMaterial(h: Heap, scope: Scope, context: Option<Ref>): Option<Tree> {
    if scope.Global? then Some(Record(map[Ascii("scope") := Str(ScopeName(scope))]))
    else if context.None? then None
    else
      match h(context.value)
      case PlainObject(props, symbolKeys) =>
        if symbolKeys || !Selectable(h, scope, props) then None
        else
          var fields := Selected(h, scope, props);
          if !Present(fields, Ascii("tenant")) then None
          else if scope.User? && !Present(fields, Ascii("userId")) then None
          else Some(Material(scope, fields))
      case _ => None
  }

  // --- Which contexts share a namespace ----------------------------------------------------------

  /** Two values of one field mean the same: equal unfoldings, or the same strings in any order. */
  ghost predicate SameField(key: Text, h: Heap, v: Value, h': Heap, v': Value) {
    if IsListField(key) && IsStringList(h, v) && IsStringList(h', v')
    then multiset(Strings(h, v)) == multiset(Strings(h', v'))
    else Unfold(h, v, 1) == Unfold(h', v', 1)
  }

  ghost predicate Agree(scope: Scope, h: Heap, props: map<Text, Property>, h': Heap, props': map<Text, Property>) {
    && (forall k | Relevant(scope, k) :: k in props <==> k in props')
    && (forall k | Relevant(scope, k) && k in props && k in props' ::
        SameField(k, h, props[k].value, h', props'[k].value))
  }

  lemma UnfoldStringList(h: Heap, v: Value)
    requires IsStringList(h, v)
    ensures Unfold(h, v, 1) == Some(Array(StringTrees(Strings(h, v))))
  {
    var items := h(v.ref).items;
    forall i | 0 <= i < |items| ensures Unfold(h, items[i], 2) == Some(Str(Strings(h, v)[i])) {
      assert items[i] in items;
    }
    assert Unfold(h, v, 1).value.items == StringTrees(Strings(h, v));
  }

  lemma StringTreesInjective(a: seq<Text>, b: seq<Text>)
    requires StringTrees(a) == StringTrees(b)
    ensures a == b
  {
    forall i | 0 <= i < |a| ensures i < |b| && a[i] == b[i] {
      assert StringTrees(a)[i] == Str(a[i]) && |StringTrees(a)| == |StringTrees(b)|;
      assert StringTrees(b)[i] == Str(b[i]);
    }
    assert |a| == |StringTrees(a)| && |b| == |StringTrees(b)|;
  }

  /** Only a list of strings unfolds to one. */
  lemma StringListByUnfolding(h: Heap, v: Value, s: seq<Text>)
    requires Unfold(h, v, 1) == Some(Array(StringTrees(s)))
    ensures IsStringList(h, v)
  {
    var items := h(v.ref).items;
    forall i | 0 <= i < |items| ensures items[i].VStr? {
      assert Unfold(h, v, 1).value.items[i] == Str(s[i]);
      assert Unfold(h, items[i], 2) == Some(Str(s[i]));
    }
  }

  lemma SelectedFieldsEqualIff(key: Text, h: Heap, v: Value, h': Heap, v': Value)
    requires SelectedField(h, key, v).Some? && SelectedField(h', key, v').Some?
    ensures SelectedField(h, key, v) == SelectedField(h', key, v') <==> SameField(key, h, v, h', v')
  {
    SafeIsUnfold(h, v, 1);
    SafeIsUnfold(h', v', 1);
    if IsListField(key) {
      if IsStringList(h, v) && IsStringList(h', v') {
        var a, b := SortTexts(Strings(h, v)), SortTexts(Strings(h', v'));
        SortsEquallyIff(Strings(h, v), Strings(h', v'));
        if StringTrees(a) == StringTrees(b) { StringTreesInjective(a, b); }
      } else if IsStringList(h, v) {
        UnfoldStringList(h, v);
        NotAStringList(h', v', SortTexts(Strings(h, v)));
        NotAStringList(h', v', Strings(h, v));
      } else if IsStringList(h', v') {
        UnfoldStringList(h', v');
        NotAStringList(h, v, SortTexts(Strings(h', v')));
        NotAStringList(h, v, Strings(h', v'));
      }
    }
  }

  lemma NotAStringList(h: Heap, v: Value, s: seq<Text>)
    requires !IsStringList(h, v)
    ensures Unfold(h, v, 1) != Some(Array(StringTrees(s)))
  {
    if Unfold(h, v, 1) == Some(Array(StringTrees(s))) { StringListByUnfolding(h, v, s); }
  }

  lemma MaterialInjective(scope: Scope, fields: map<Text, Tree>, scope': Scope, fields': map<Text, Tree>)
    ensures Material(scope, fields) == Material(scope', fields') <==> scope == scope' && fields == fields'
  {
    var m, m' := Material(scope, fields).fields, Material(scope', fields').fields;
    assert Ascii("scope") != Ascii("context") by { assert |Ascii("scope")| == 5 && |Ascii("context")| == 7; }
    assert m[Ascii("context")] == Record(fields) && m'[Ascii("context")] == Record(fields');
    assert m[Ascii("scope")] == Str(ScopeName(scope)) && m'[Ascii("scope")] == Str(ScopeName(scope'));
    assert |Ascii("global")| == 6 && |Ascii("tenant")| == 6 && |Ascii("user")| == 4;
    assert Ascii("global")[0] == 'g' as int && Ascii("tenant")[0] == 't' as int;
  }

  lemma SelectedEqualIff(scope: Scope, h: Heap, props: map<Text, Property>, h': Heap, props': map<Text, Property>)
    requires Selectable(h, scope, props) && Selectable(h', scope, props')
    ensures Selected(h, scope, props) == Selected(h', scope, props') <==> Agree(scope, h, props, h', props')
  {
    var s, s' := Selected(h, scope, props), Selected(h', scope, props');
    forall k | k in props && k in props' && Relevant(scope, k)
      ensures k in s && k in s' && (s[k] == s'[k] <==> SameField(k, h, props[k].value, h', props'[k].value))
    {
      SelectedFieldsEqualIff(k, h, props[k].value, h', props'[k].value);
    }
    assert forall k :: k in s <==> k in props && Relevant(scope, k);
    assert forall k :: k in s' <==> k in props' && Relevant(scope, k);
    if Agree(scope, h, props, h', props') { assert s == s'; }
    if s == s' {
      forall k | Relevant(scope, k) ensures k in props <==> k in props' { assert k in s <==> k in s'; }
    }
  }

  lemma ScopeNamesDiffer(scope: Scope, scope': Scope)
    ensures Utf8(ScopeName(scope)) == Utf8(ScopeName(scope')) ==> scope == scope'
  {
    if Utf8(ScopeName(scope)) == Utf8(ScopeName(scope')) {
      AsciiIsWellFormed("global");
      AsciiIsWellFormed("tenant");
      AsciiIsWellFormed("user");
      TextRoundTrip(ScopeName(scope));
      TextRoundTrip(ScopeName(scope'));
      assert |Ascii("global")| == 6 && |Ascii("tenant")| == 6 && |Ascii("user")| == 4;
      assert Ascii("global")[0] == 'g' as int && Ascii("tenant")[0] == 't' as int;
    }
  }

  lemma {:induction false} AsciiIsWellFormed(s: string)
    ensures WellFormed(Ascii(s))
  {
    if |s| > 0 {
      assert Ascii(s)[1..] == Ascii(s[1..]);
      AsciiIsWellFormed(s[1..]);
    }
  }

  /** Materials share their bytes exactly when scope and canonical fields agree, whatever strings they hold. */
  lemma MaterialsEncodeEquallyIff(scope: Scope, f: map<Text, Tree>, scope': Scope, f': map<Text, Tree>)
    ensures Encode(Material(scope, f)) == Encode(Material(scope', f')) <==> scope == scope' && SameEntries(f, f')
  {
    EncodesEquallyIffCanonical(Material(scope, f), Material(scope', f'));
    assert Ascii("scope") != Ascii("context") by { assert |Ascii("scope")| == 5 && |Ascii("context")| == 7; }
    var m, m' := Material(scope, f).fields, Material(scope', f').fields;
    TwoFieldsCanonicalIff(m, m', Ascii("scope"), Ascii("context"));
    assert m[Ascii("context")] == Record(f) && m'[Ascii("context")] == Record(f');
    assert m[Ascii("scope")] == Str(ScopeName(scope)) && m'[Ascii("scope")] == Str(ScopeName(scope'));
    CanonicalRecordsEqualIff(f, f');
    ScopeNamesDiffer(scope, scope');
  }

  /** The one-field material of the global scope is never that of another scope. */
  lemma GlobalIsApart(scope: Scope, f: map<Text, Tree>)
    ensures Encode(Record(map[Ascii("scope") := Str(ScopeName(Global))])) != Encode(Material(scope, f))
  {
    var g, m := map[Ascii("scope") := Str(ScopeName(Global))], Material(scope, f).fields;
    EncodesEquallyIffCanonical(Record(g), Material(scope, f));
    CanonicalRecordsEqualIff(g, m);
    assert Ascii("scope") != Ascii("context") by { assert |Ascii("scope")| == 5 && |Ascii("context")| == 7; }
    assert g.Keys == {Ascii("scope")} && m.Keys == {Ascii("scope"), Ascii("context")};
    SortedKeysCount(g.Keys);
    SortedKeysCount(m.Keys);
  }

  // --- The whole key ------------------------------------------------------------------------------

  /** The name of the handler and the two hashes; a collision-free hash is its pre-image. */
  datatype Key = Key(name: Text, scopePart: seq<Byte>, businessPart: seq<Byte>)

  /** `business` is what the key resolver returned, None if it threw; an unknown scope is None. */
  function BuildKey(
      name: Text, h: Heap, scope: Option<Scope>, context: Option<Ref>, business: Option<Value>): Option<Key> {
    if scope.None? then None
    else
      var material := BuildScopeMaterial(h, scope.value, context);
      if material.None? || business.None? then None
      else
        var safe := Safe(h, business.value, {}, 0);
        if safe.None? then None else Some(Key(name, Encode(material.value), Encode(safe.value)))
  }

  // --- Main results --------------------------------------------------------------------------------

  /**
   Two contexts get the same tenant or user namespace exactly when the fields that belong to it, roles
   and permissions sorted, agree in their canonical forms. This holds for every context.
   */
  lemma SameNamespaceIffCanonical(scope: Scope, h: Heap, c: Ref, h': Heap, c': Ref)
    requires !scope.Global?
    requires BuildScopeMaterial(h, scope, Some(c)).Some? && BuildScopeMaterial(h', scope, Some(c')).Some?
    ensures Encode(BuildScopeMaterial(h, scope, Some(c)).value) == Encode(BuildScopeMaterial(h', scope, Some(c')).value)
            <==> SameEntries(Selected(h, scope, h(c).props), Selected(h', scope, h'(c').props))
  {
    MaterialsEncodeEquallyIff(scope, Selected(h, scope, h(c).props), scope, Selected(h', scope, h'(c').props));
  }

  /**
   With well-formed strings, canonical agreement is agreement on every field, with roles and
   permissions as unordered lists.
   */
  lemma SameNamespaceIff(scope: Scope, h: Heap, c: Ref, h': Heap, c': Ref)
    requires !scope.Global?
    requires var m, m' := BuildScopeMaterial(h, scope, Some(c)), BuildScopeMaterial(h', scope, Some(c'));
             m.Some? && m'.Some? && WellFormedTree(m.value) && WellFormedTree(m'.value)
    ensures Encode(BuildScopeMaterial(h, scope, Some(c)).value) == Encode(BuildScopeMaterial(h', scope, Some(c')).value)
            <==> Agree(scope, h, h(c).props, h', h'(c').props)
  {
    var m, m' := BuildScopeMaterial(h, scope, Some(c)), BuildScopeMaterial(h', scope, Some(c'));
    EncodesEquallyIff(m.value, m'.value);
    var s, s' := Selected(h, scope, h(c).props), Selected(h', scope, h'(c').props);
    MaterialInjective(scope, s, scope, s');
    SelectedEqualIff(scope, h, h(c).props, h', h'(c').props);
  }

  /** A context that holds nothing but this tenant. */
  function TenantOnly(tenant: Text): Object {
    PlainObject(map[Ascii("tenant") := Property(true, VStr(tenant))], false)
  }

  /** Agreement cannot be asked of every context: two tenants that differ in a lone surrogate share a namespace. */
  lemma LoneSurrogatesShareANamespace(h: Heap)
    requires h(0) == TenantOnly([0xD800]) && h(1) == TenantOnly([0xDFFF])
    ensures var m, m' := BuildScopeMaterial(h, Tenant, Some(0)), BuildScopeMaterial(h, Tenant, Some(1));
            && m.Some? && m'.Some? && Encode(m.value) == Encode(m'.value)
            && !Agree(Tenant, h, h(0).props, h, h(1).props)
  {
    var t := Ascii("tenant");
    TenantOnlySelects(h, 0, [0xD800]);
    TenantOnlySelects(h, 1, [0xDFFF]);
    OneFieldCanonicalIff(t, Str([0xD800]), Str([0xDFFF]));
    Collide();
    MaterialsEncodeEquallyIff(Tenant, map[t := Str([0xD800])], Tenant, map[t := Str([0xDFFF])]);
    SelectedEqualIff(Tenant, h, h(0).props, h, h(1).props);
    assert map[t := Str([0xD800])][t] != map[t := Str([0xDFFF])][t];
  }

  lemma Collide()
    ensures Canonical(Str([0xD800])) == Canonical(Str([0xDFFF]))
  {
    assert Scalars([0xD800]) == Scalars([0xDFFF]);
  }

  lemma TenantOnlySelects(h: Heap, c: Ref, tenant: Text)
    requires h(c) == TenantOnly(tenant) && |Trim(tenant)| > 0
    ensures Selectable(h, Tenant, h(c).props) && Selected(h, Tenant, h(c).props) == map[Ascii("tenant") := Str(tenant)]
    ensures BuildScopeMaterial(h, Tenant, Some(c)) == Some(Material(Tenant, map[Ascii("tenant") := Str(tenant)]))
  {
    var t := Ascii("tenant");
    assert |t| == 6 && t[0] == 't' as int && |Ascii("userId")| == 6 && Ascii("userId")[0] == 'u' as int;
    assert |Ascii("request")| == 7 && |Ascii("response")| == 8 && |Ascii("token")| == 5 && |Ascii("user")| == 4;
    assert |Ascii("roles")| == 5 && |Ascii("permissions")| == 11;
    assert Relevant(Tenant, t) && !IsListField(t);
    assert SelectedField(h, t, VStr(tenant)) == Some(Str(tenant));
  }

  /** Exactly when a namespace exists: never without a tenant, and in user scope never without a user. */
  lemma NamespaceExistsIff(h: Heap, scope: Scope, context: Option<Ref>)
    requires !scope.Global?
    ensures BuildScopeMaterial(h, scope, context).Some? <==>
              && context.Some? && h(context.value).PlainObject? && !h(context.value).symbolKeys
              && var props := h(context.value).props;
              && (forall k <- props :: Relevant(scope, k) ==> props[k].plain && Unfold(h, props[k].value, 1).Some?)
              && NonBlankField(props, Ascii("tenant")) && (scope.User? ==> NonBlankField(props, Ascii("userId")))
  {
    if context.Some? && h(context.value).PlainObject? {
      var props := h(context.value).props;
      forall k | k in props ensures SelectedField(h, k, props[k].value).Some? <==> Unfold(h, props[k].value, 1).Some? {
        SafeIsUnfold(h, props[k].value, 1);
        if IsStringList(h, props[k].value) { UnfoldStringList(h, props[k].value); }
      }
      if Selectable(h, scope, props) {
        PresentIff(h, scope, props, Ascii("tenant"));
        if scope.User? { PresentIff(h, scope, props, Ascii("userId")); }
      }
    }
  }

  predicate NonBlankField(props: map<Text, Property>, key: Text) {
    key in props && props[key].value.VStr? && |Trim(props[key].value.text)| > 0
  }

  lemma PresentIff(h: Heap, scope: Scope, props: map<Text, Property>, key: Text)
    requires Selectable(h, scope, props)
    requires key == Ascii("tenant") || (key == Ascii("userId") && scope.User?)
    ensures Present(Selected(h, scope, props), key) <==> NonBlankField(props, key)
  {
    assert |key| == 6 && (key[0] == 't' as int || key[0] == 'u' as int);
    assert |Ascii("request")| == 7 && |Ascii("response")| == 8 && |Ascii("token")| == 5 && |Ascii("user")| == 4;
    assert |Ascii("roles")| == 5 && |Ascii("permissions")| == 11;
    assert Relevant(scope, key) && !IsListField(key);
    if key in props { SafeIsUnfold(h, props[key].value, 1); }
  }

  /** Keys of different scopes never meet, so a tenant-shared answer is never served under a user key. */
  lemma ScopesAreDisjoint(h: Heap, scope: Scope, c: Option<Ref>, h': Heap, scope': Scope, c': Option<Ref>)
    requires scope != scope' && BuildScopeMaterial(h, scope, c).Some? && BuildScopeMaterial(h', scope', c').Some?
    ensures Encode(BuildScopeMaterial(h, scope, c).value) != Encode(BuildScopeMaterial(h', scope', c').value)
  {
    if scope.Global? {
      GlobalIsApart(scope', Selected(h', scope', h'(c'.value).props));
    } else if scope'.Global? {
      GlobalIsApart(scope, Selected(h, scope, h(c.value).props));
    } else {
      var fields, fields' := Selected(h, scope, h(c.value).props), Selected(h', scope', h'(c'.value).props);
      MaterialsEncodeEquallyIff(scope, fields, scope', fields');
    }
  }

  /** Two requests of one handler share a cached answer exactly when namespace and business value agree canonically. */
  lemma SameKeyIffCanonical(name: Text, scope: Scope, h: Heap, c: Ref, v: Value, h': Heap, c': Ref, v': Value)
    requires !scope.Global?
    requires BuildKey(name, h, Some(scope), Some(c), Some(v)).Some?
    requires BuildKey(name, h', Some(scope), Some(c'), Some(v')).Some?
    ensures BuildKey(name, h, Some(scope), Some(c), Some(v)) == BuildKey(name, h', Some(scope), Some(c'), Some(v'))
            <==>
              && SameEntries(Selected(h, scope, h(c).props), Selected(h', scope, h'(c').props))
              && Unfold(h, v, 0).Some? && Unfold(h', v', 0).Some?
              && Canonical(Unfold(h, v, 0).value) == Canonical(Unfold(h', v', 0).value)
  {
    SameNamespaceIffCanonical(scope, h, c, h', c');
    SafeIsUnfold(h, v, 0);
    SafeIsUnfold(h', v', 0);
    EncodesEquallyIffCanonical(Safe(h, v, {}, 0).value, Safe(h', v', {}, 0).value);
  }

  /** With well-formed strings: exactly when namespace and business value are the same. */
  lemma SameKeyIff(name: Text, scope: Scope, h: Heap, c: Ref, v: Value, h': Heap, c': Ref, v': Value)
    requires !scope.Global?
    requires BuildKey(name, h, Some(scope), Some(c), Some(v)).Some?
    requires BuildKey(name, h', Some(scope), Some(c'), Some(v')).Some?
    requires WellFormedTree(BuildScopeMaterial(h, scope, Some(c)).value)
    requires WellFormedTree(BuildScopeMaterial(h', scope, Some(c')).value)
    requires WellFormedTree(Safe(h, v, {}, 0).value) && WellFormedTree(Safe(h', v', {}, 0).value)
    ensures BuildKey(name, h, Some(scope), Some(c), Some(v)) == BuildKey(name, h', Some(scope), Some(c'), Some(v'))
            <==> Agree(scope, h, h(c).props, h', h'(c').props) && Unfold(h, v, 0) == Unfold(h', v', 0)
  {
    SameNamespaceIff(scope, h, c, h', c');
    SafeIsUnfold(h, v, 0);
    SafeIsUnfold(h', v', 0);
    EncodesEquallyIff(Safe(h, v, {}, 0).value, Safe(h', v', {}, 0).value);
  }
}
