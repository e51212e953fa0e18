/**
 Which requests share a cached answer, field by field and value by value.
 */
module CacheFields {
  import opened Wrappers
  import opened Unicode
  import opened CacheEncoding
  import opened CacheScope

  /** Runtime references and credentials, and in tenant scope the user id. */
  predicate Ignored(scope: Scope, key: Text) {
    || key == Ascii("request") || key == Ascii("response") || key == Ascii("token") || key == Ascii("user")
    || (scope == Tenant && key == Ascii("userId"))
  }

  /** The same strings in any order for roles and permissions, the same value for every other field. */
  ghost predicate Alike(key: Text, h: Heap, v: Value, h': Heap, v': Value) {
    if (key == Ascii("roles") || key == Ascii("permissions")) && IsStringList(h, v) && IsStringList(h', v')
    then multiset(Strings(h, v)) == multiset(Strings(h', v'))
    else Unfold(h, v, 1) == Unfold(h', v', 1)
  }

  lemma IgnoredIff(scope: Scope, key: Text)
    ensures Relevant(scope, key) <==> !Ignored(scope, key)
  {
  }

  lemma AgreeButOne(scope: Scope, h: Heap, props: map<Text, Property>, key: Text, p: Property)
    requires key in props
    ensures Agree(scope, h, props, h, props[key := p])
            <==> Ignored(scope, key) || Alike(key, h, props[key].value, h, p.value)
  {
    var props' := props[key := p];
    IgnoredIff(scope, key);
    assert SameField(key, h, props[key].value, h, p.value) <==> Alike(key, h, props[key].value, h, p.value);
    forall k | k in props && k != key ensures SameField(k, h, props[k].value, h, props'[k].value) { }
    if Agree(scope, h, props, h, props') && Relevant(scope, key) {
      assert SameField(key, h, props[key].value, h, props'[key].value);
    }
  }

  /** Two contexts that differ in one field share a namespace exactly when that field is ignored or alike in both. */
  lemma OneFieldApart(scope: Scope, h: Heap, c: Ref, c': Ref, key: Text, p: Property)
    requires !scope.Global? && h(c).PlainObject? && key in h(c).props
    requires h(c') == PlainObject(h(c).props[key := p], false)
    requires var m, m' := BuildScopeMaterial(h, scope, Some(c)), BuildScopeMaterial(h, scope, Some(c'));
             m.Some? && m'.Some? && WellFormedTree(m.value) && WellFormedTree(m'.value)
    ensures Encode(BuildScopeMaterial(h, scope, Some(c)).value) == Encode(BuildScopeMaterial(h, scope, Some(c')).value)
            <==> Ignored(scope, key) || Alike(key, h, h(c).props[key].value, h, p.value)
  {
    SameNamespaceIff(scope, h, c, h, c');
    AgreeButOne(scope, h, h(c).props, key, p);
  }

  /** Scalars are told apart, each from every other, and what is no finite number or JSON scalar is refused. */
  lemma ScalarsAreToldApart(h: Heap, v: Value, v': Value, depth: nat)
    requires !v.VRef? && !v'.VRef? && depth <= 32
    ensures Unfold(h, v, depth).None? <==> v == VUnsafe
    ensures Unfold(h, v, depth) == Unfold(h, v', depth) <==> v == v'
  {
  }

  /** A key exists exactly for a known scope with a namespace and a business value with a tree; it names its handler. */
  lemma KeyExistsIff(name: Text, h: Heap, scope: Option<Scope>, context: Option<Ref>, business: Option<Value>)
    ensures var key := BuildKey(name, h, scope, context, business);
            && (key.Some? <==>
                  && scope.Some? && BuildScopeMaterial(h, scope.value, context).Some?
                  && business.Some? && Unfold(h, business.value, 0).Some?)
            && (key.Some? ==> key.value.name == name)
  {
    if business.Some? { SafeIsUnfold(h, business.value, 0); }
  }
}
