/** Rule specifications and their canonical form. Children of and/or nodes are commutative; the
    canonical form sorts them, at every depth, by their JSON text. The text is a parameter: any
    injective function from specifications to strings. */
module RuleSpec {
  datatype Op = And | Or

  /** An atomic rule, any other specification that is left alone, or a composite. The composite's
      further keys are kept; its "rules" key may be missing. */
  datatype Spec =
    | Atomic(rule: string, params: string)
    | Code(body: string)
    | Composite(op: Op, extra: string, hasRules: bool, rules: seq<Spec>)

  type KeyFn = Spec -> string

  ghost predicate Injective(key: KeyFn) {
    forall a, b :: key(a) == key(b) ==> a == b
  }

  function Children(s: Spec): (r: seq<Spec>)
    requires s.Composite?
    ensures forall i :: 0 <= i < |r| ==> r[i] < s
  {
    if s.hasRules then s.rules else []
  }

  // ----- sorting by key -----

  /** Lexicographic order of strings. */
  predicate AtMost(a: string, b: string) {
    if a == [] then true
    else if b == [] then false
    else a[0] < b[0] || (a[0] == b[0] && AtMost(a[1..], b[1..]))
  }

  lemma {:induction false} AtMostTotal(a: string, b: string)
    ensures AtMost(a, b) || AtMost(b, a)
    ensures AtMost(a, b) && AtMost(b, a) ==> a == b
  {
    if a != [] && b != [] && a[0] == b[0] {
      AtMostTotal(a[1..], b[1..]);
      assert a == [a[0]] + a[1..] && b == [b[0]] + b[1..];
    }
  }

  lemma {:induction false} AtMostTransitive(a: string, b: string, c: string)
    requires AtMost(a, b) && AtMost(b, c)
    ensures AtMost(a, c)
  {
    if a != [] && b != [] && c != [] && a[0] == b[0] == c[0] {
      AtMostTransitive(a[1..], b[1..], c[1..]);
    }
  }

  predicate Sorted(key: KeyFn, s: seq<Spec>) {
    forall i, j :: 0 <= i < j < |s| ==> AtMost(key(s[i]), key(s[j]))
  }

  /** Insert before the first element whose key is not smaller, so that equal keys keep their order. */
  function Insert(key: KeyFn, x: Spec, s: seq<Spec>): (r: seq<Spec>)
    ensures multiset(r) == multiset{x} + multiset(s)
  {
    if s == [] then [x]
    else if AtMost(key(x), key(s[0])) then [x] + s
    else
      assert s == [s[0]] + s[1..];
      [s[0]] + Insert(key, x, s[1..])
  }

  /** What is at most the inserted element and the others is at most all of the result. */
  lemma InsertedAtLeast(key: KeyFn, low: string, x: Spec, s: seq<Spec>)
    requires AtMost(low, key(x)) && forall k :: 0 <= k < |s| ==> AtMost(low, key(s[k]))
    ensures forall j :: 0 <= j < |Insert(key, x, s)| ==> AtMost(low, key(Insert(key, x, s)[j]))
  {
    hide AtMost, Insert;
    var r := Insert(key, x, s);
    forall j | 0 <= j < |r|
      ensures AtMost(low, key(r[j]))
    {
      assert r[j] in multiset(r);
      if r[j] != x { assert r[j] in multiset(s); }
    }
  }

  lemma {:induction false} InsertSorted(key: KeyFn, x: Spec, s: seq<Spec>)
    requires Sorted(key, s)
    ensures Sorted(key, Insert(key, x, s))
  {
    hide AtMost;
    if s != [] {
      if AtMost(key(x), key(s[0])) {
        forall j | 0 <= j < |s|
          ensures AtMost(key(x), key(s[j]))
        {
          if j > 0 { AtMostTransitive(key(x), key(s[0]), key(s[j])); }
        }
      } else {
        InsertSorted(key, x, s[1..]);
        AtMostTotal(key(x), key(s[0]));
        InsertedAtLeast(key, key(s[0]), x, s[1..]);
      }
    }
  }

  function SortByKey(key: KeyFn, s: seq<Spec>): (r: seq<Spec>)
    ensures multiset(r) == multiset(s)
  {
    if s == [] then []
    else
      assert s == [s[0]] + s[1..];
      Insert(key, s[0], SortByKey(key, s[1..]))
  }

  lemma {:induction false} SortByKeySorted(key: KeyFn, s: seq<Spec>)
    ensures Sorted(key, SortByKey(key, s))
  {
    if s != [] {
      SortByKeySorted(key, s[1..]);
      InsertSorted(key, s[0], SortByKey(key, s[1..]));
    }
  }

  /** With an injective key there is one way to sort a bag of specifications. */
  lemma {:induction false} SortedUnique(key: KeyFn, s: seq<Spec>, r: seq<Spec>)
    requires Injective(key) && Sorted(key, s) && Sorted(key, r) && multiset(s) == multiset(r)
    ensures s == r
  {
    if s == [] {
      assert |multiset(r)| == |r|;
    } else {
      HeadIsLeast(key, s, r);
      HeadIsLeast(key, r, s);
      AtMostTotal(key(s[0]), key(r[0]));
      SameTails(s, r);
      SortedUnique(key, s[1..], r[1..]);
    }
  }

  lemma SameTails<T>(s: seq<T>, r: seq<T>)
    requires s != [] && r != [] && s[0] == r[0] && multiset(s) == multiset(r)
    ensures multiset(s[1..]) == multiset(r[1..])
    ensures s[1..] == r[1..] ==> s == r
  {
    assert s == [s[0]] + s[1..] && r == [r[0]] + r[1..];
    assert multiset(s[1..]) == multiset(s) - multiset{s[0]};
    assert multiset(r[1..]) == multiset(r) - multiset{r[0]};
  }

  lemma HeadIsLeast(key: KeyFn, s: seq<Spec>, r: seq<Spec>)
    requires Sorted(key, s) && s != [] && multiset(s) == multiset(r)
    ensures r != [] && AtMost(key(s[0]), key(r[0]))
  {
    assert s[0] in multiset(r);
    assert r[0] in multiset(s);
    var k :| 0 <= k < |s| && s[k] == r[0];
    AtMostTotal(key(s[0]), key(s[0]));
  }

  // ----- canonical form -----

  function Canonical(key: KeyFn, s: Spec): Spec
    decreases s, 1
  {
    if s.Composite? then Composite(s.op, s.extra, true, SortByKey(key, CanonicalAll(key, s, Children(s)))) else s
  }

  /** The canonical forms of some children of `parent`, in their order. */
  function CanonicalAll(key: KeyFn, parent: Spec, cs: seq<Spec>): (r: seq<Spec>)
    requires forall i :: 0 <= i < |cs| ==> cs[i] < parent
    ensures |r| == |cs|
    decreases parent, 0
  {
    seq(|cs|, i requires 0 <= i < |cs| => Canonical(key, cs[i]))
  }

  /** Equal up to reordering: the same leaves, and composites of the same kind whose children can be
      paired off one to one with children that are equal up to reordering themselves. */
  ghost predicate SameUpToOrder(a: Spec, b: Spec)
    decreases a, 1
  {
    if a.Composite? && b.Composite? then a.op == b.op && a.extra == b.extra && PairOff(a, Children(a), Children(b))
    else a == b
  }

  ghost predicate PairOff(parent: Spec, xs: seq<Spec>, ys: seq<Spec>)
    requires forall i :: 0 <= i < |xs| ==> xs[i] < parent
    decreases parent, 0, |xs|
  {
    if xs == [] then ys == []
    else exists j :: 0 <= j < |ys| && SameUpToOrder(xs[0], ys[j]) && PairOff(parent, xs[1..], Without(ys, j))
  }

  function Without<T>(s: seq<T>, j: nat): (r: seq<T>)
    requires j < |s|
    ensures |r| == |s| - 1
    ensures forall i :: 0 <= i < |r| ==> r[i] == if i < j then s[i] else s[i + 1]
  {
    s[..j] + s[j + 1..]
  }

  lemma WithoutBag<T>(s: seq<T>, j: nat)
    requires j < |s|
    ensures multiset(s) == multiset(Without(s, j)) + multiset{s[j]}
  {
    assert s == s[..j] + [s[j]] + s[j + 1..];
  }

  /** Canonical forms commute with dropping a child. */
  lemma CanonicalWithout(key: KeyFn, parent: Spec, cs: seq<Spec>, j: nat)
    requires forall i :: 0 <= i < |cs| ==> cs[i] < parent
    requires j < |cs|
    ensures CanonicalAll(key, parent, Without(cs, j)) == Without(CanonicalAll(key, parent, cs), j)
  {
  }

  lemma CanonicalRest(key: KeyFn, parent: Spec, cs: seq<Spec>)
    requires forall i :: 0 <= i < |cs| ==> cs[i] < parent
    requires cs != []
    ensures multiset(CanonicalAll(key, parent, cs))
            == multiset(CanonicalAll(key, parent, cs[1..])) + multiset{Canonical(key, cs[0])}
  {
    assert cs[1..] == Without(cs, 0);
    CanonicalWithout(key, parent, cs, 0);
    WithoutBag(CanonicalAll(key, parent, cs), 0);
  }

  /** Children pair off exactly when their canonical forms are the same bag. */
  lemma {:induction false} PairOffIsSameBag(key: KeyFn, a: Spec, b: Spec, xs: seq<Spec>, ys: seq<Spec>)
    requires Injective(key)
    requires forall i :: 0 <= i < |xs| ==> xs[i] < a
    requires forall i :: 0 <= i < |ys| ==> ys[i] < b
    ensures PairOff(a, xs, ys) <==> multiset(CanonicalAll(key, a, xs)) == multiset(CanonicalAll(key, b, ys))
    decreases a, 0, |xs|, 1
  {
    if xs == [] {
      assert |multiset(CanonicalAll(key, b, ys))| == |ys|;
    } else {
      var cy := CanonicalAll(key, b, ys);
      var head, rest := Canonical(key, xs[0]), multiset(CanonicalAll(key, a, xs[1..]));
      CanonicalRest(key, a, xs);
      BagHead(head, rest, cy);
      forall j | 0 <= j < |ys|
        ensures SameUpToOrder(xs[0], ys[j]) && PairOff(a, xs[1..], Without(ys, j))
                <==> head == cy[j] && rest == multiset(Without(cy, j))
      {
        HeadPairsWith(key, a, b, xs, ys, j);
      }
    }
  }

  lemma HeadPairsWith(key: KeyFn, a: Spec, b: Spec, xs: seq<Spec>, ys: seq<Spec>, j: nat)
    requires Injective(key) && xs != [] && j < |ys|
    requires forall i :: 0 <= i < |xs| ==> xs[i] < a
    requires forall i :: 0 <= i < |ys| ==> ys[i] < b
    ensures SameUpToOrder(xs[0], ys[j]) <==> Canonical(key, xs[0]) == CanonicalAll(key, b, ys)[j]
    ensures PairOff(a, xs[1..], Without(ys, j))
            <==> multiset(CanonicalAll(key, a, xs[1..])) == multiset(Without(CanonicalAll(key, b, ys), j))
    decreases a, 0, |xs|, 0
  {
    EqualCanonicalIffReordered(key, xs[0], ys[j]);
    PairOffIsSameBag(key, a, b, xs[1..], Without(ys, j));
    CanonicalWithout(key, b, ys, j);
  }

  /** A bag is a head and a rest exactly when dropping some occurrence of the head leaves the rest. */
  lemma BagHead<T>(x: T, rest: multiset<T>, s: seq<T>)
    ensures rest + multiset{x} == multiset(s) <==>
              exists j :: 0 <= j < |s| && x == s[j] && rest == multiset(Without(s, j))
  {
    if rest + multiset{x} == multiset(s) {
      var j := HeadOccurs(x, rest, s);
    }
    if exists j :: 0 <= j < |s| && x == s[j] && rest == multiset(Without(s, j)) {
      var j :| 0 <= j < |s| && x == s[j] && rest == multiset(Without(s, j));
      WithoutBag(s, j);
    }
  }

  lemma HeadOccurs<T>(x: T, rest: multiset<T>, s: seq<T>) returns (j: nat)
    requires rest + multiset{x} == multiset(s)
    ensures j < |s| && s[j] == x && rest == multiset(Without(s, j))
  {
    assert x in multiset(s);
    j :| 0 <= j < |s| && s[j] == x;
    WithoutBag(s, j);
    assert rest == (rest + multiset{x}) - multiset{x};
    assert multiset(Without(s, j)) == (multiset(Without(s, j)) + multiset{x}) - multiset{x};
  }

  /** The canonical form is sound and complete for commutativity: two specifications have the same
      canonical form if and only if they are equal up to reordering, at any depth. */
  lemma {:induction false} EqualCanonicalIffReordered(key: KeyFn, a: Spec, b: Spec)
    requires Injective(key)
    ensures Canonical(key, a) == Canonical(key, b) <==> SameUpToOrder(a, b)
    decreases a, 1
  {
    if a.Composite? && b.Composite? {
      PairOffIsSameBag(key, a, b, Children(a), Children(b));
      var ca, cb := CanonicalAll(key, a, Children(a)), CanonicalAll(key, b, Children(b));
      SortByKeySorted(key, ca);
      SortByKeySorted(key, cb);
      if multiset(ca) == multiset(cb) { SortedUnique(key, SortByKey(key, ca), SortByKey(key, cb)); }
    }
  }

  /** Canonical forms are their own canonical form. */
  lemma {:induction false} CanonicalIdempotent(key: KeyFn, s: Spec)
    requires Injective(key)
    ensures Canonical(key, Canonical(key, s)) == Canonical(key, s)
  {
    if s.Composite? {
      var cs := CanonicalAll(key, s, Children(s));
      var sorted := SortByKey(key, cs);
      var again := Canonical(key, s);
      forall i | 0 <= i < |sorted|
        ensures Canonical(key, sorted[i]) == sorted[i]
      {
        assert sorted[i] in multiset(cs);
        var k :| 0 <= k < |cs| && cs[k] == sorted[i];
        CanonicalIdempotent(key, Children(s)[k]);
      }
      assert CanonicalAll(key, again, Children(again)) == sorted;
      SortByKeySorted(key, cs);
      SortByKeySorted(key, sorted);
      SortedUnique(key, SortByKey(key, sorted), sorted);
    }
  }

  /** A composite without the key "rules" and one with an empty list have the same canonical form:
      the canonical form adds the key. */
  lemma MissingRulesIsEmpty(key: KeyFn, op: Op, extra: string)
    ensures Canonical(key, Composite(op, extra, false, [])) == Canonical(key, Composite(op, extra, true, []))
  {
  }
}
