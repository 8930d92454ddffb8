/** The nightly sampler of rule hypotheses and the ledger of what was evaluated before. Random
    draws and the hash are parameters; the hash need not be injective. */
module HypothesisSampling {
  import opened RuleSpec
  import opened Wrappers

  datatype Hypothesis = Hypothesis(spec: Spec, market: string, lookbackYears: int)

  type HashFn = Hypothesis -> string

  /** One attempt: the roll, the number of children and the atomic rules drawn in turn. */
  datatype Draw = Draw(roll: real, nChildren: nat, atoms: seq<Spec>) {
    predicate Valid() {
      2 <= nChildren <= 3 && |atoms| >= nChildren && forall i :: 0 <= i < |atoms| ==> atoms[i].Atomic?
    }
  }

  /** A stored row: its market, its hash and its specification, if that could be read. */
  datatype LedgerRow = LedgerRow(market: string, hash: string, spec: Option<Spec>)

  function HashOf(key: KeyFn, hash: HashFn, spec: Spec, market: string, lookbackYears: int): string {
    hash(Hypothesis(Canonical(key, spec), market, lookbackYears))
  }

  /** The stored hashes, and for each readable row of the market the hash of its canonical form. */
  ghost predicate IsEvaluated(h: string, ledger: seq<LedgerRow>, key: KeyFn, hash: HashFn, market: string,
                              lookbackYears: int) {
    || (exists i :: 0 <= i < |ledger| && ledger[i].hash == h)
    || (exists i :: 0 <= i < |ledger| && ledger[i].market == market && ledger[i].spec.Some?
                    && HashOf(key, hash, ledger[i].spec.value, market, lookbackYears) == h)
  }

  method EvaluatedHashes(ledger: seq<LedgerRow>, key: KeyFn, hash: HashFn, market: string, lookbackYears: int)
    returns (hashes: set<string>)
    ensures forall h :: h in hashes <==> IsEvaluated(h, ledger, key, hash, market, lookbackYears)
  {
    hashes := set i | 0 <= i < |ledger| :: ledger[i].hash;
    for n := 0 to |ledger|
      invariant forall h :: h in hashes <==>
                  || (exists i :: 0 <= i < |ledger| && ledger[i].hash == h)
                  || (exists i :: 0 <= i < n && ledger[i].market == market && ledger[i].spec.Some?
                                  && HashOf(key, hash, ledger[i].spec.value, market, lookbackYears) == h)
    {
      if ledger[n].market == market && ledger[n].spec.Some? {
        hashes := hashes + {HashOf(key, hash, ledger[n].spec.value, market, lookbackYears)};
      }
    }
  }

  /** The first drawn of each rule, in the order of the draws. */
  function FirstOfEachRule(atoms: seq<Spec>): (r: seq<Spec>)
    requires forall i :: 0 <= i < |atoms| ==> atoms[i].Atomic?
    ensures forall i :: 0 <= i < |r| ==> r[i].Atomic?
  {
    if atoms == [] then []
    else
      var before, last := FirstOfEachRule(atoms[..|atoms| - 1]), atoms[|atoms| - 1];
      if exists i :: 0 <= i < |before| && before[i].rule == last.rule then before else before + [last]
  }

  /** The children of a composite: the drawn rules, each rule at most once. */
  method PickChildren(draw: Draw) returns (children: seq<Spec>)
    requires draw.Valid()
    ensures children == FirstOfEachRule(draw.atoms[..draw.nChildren])
    ensures forall i, j :: 0 <= i < j < |children| ==> children[i].rule != children[j].rule
  {
    children := [];
    var usedRules: set<string> := {};
    for n := 0 to draw.nChildren
      invariant children == FirstOfEachRule(draw.atoms[..n])
      invariant forall r :: r in usedRules <==> exists i :: 0 <= i < |children| && children[i].rule == r
      invariant forall i, j :: 0 <= i < j < |children| ==> children[i].rule != children[j].rule
    {
      assert draw.atoms[..n + 1][..n] == draw.atoms[..n];
      var child := draw.atoms[n];
      if child.rule !in usedRules {
        ghost var before := children;
        usedRules := usedRules + {child.rule};
        children := children + [child];
        assert forall i :: 0 <= i < |before| ==> children[i] == before[i];
        assert children[|before|] == child;
      }
    }
  }

  /** No two sampled hypotheses, and no sampled one and a known hash, coincide. */
  ghost predicate Fresh(sampled: seq<Hypothesis>, existing: set<string>, hash: HashFn) {
    && (forall i :: 0 <= i < |sampled| ==> hash(sampled[i]) !in existing)
    && (forall i, j :: 0 <= i < j < |sampled| ==> hash(sampled[i]) != hash(sampled[j]))
  }

  /** Sampled hypotheses are canonical and for the asked market and span. */
  ghost predicate InForm(sampled: seq<Hypothesis>, key: KeyFn, market: string, lookbackYears: int) {
    forall i :: 0 <= i < |sampled| ==>
      && Canonical(key, sampled[i].spec) == sampled[i].spec
      && sampled[i].market == market && sampled[i].lookbackYears == lookbackYears
  }

  predicate AtomsExhausted(atoms: seq<Spec>, seen: set<string>, hash: HashFn, market: string, lookbackYears: int) {
    forall i :: 0 <= i < |atoms| ==> hash(Hypothesis(atoms[i], market, lookbackYears)) in seen
  }

  /** The share of single rules, none once all of them were seen, and where "and" ends and "or" begins. */
  function AtomicShare(atoms: seq<Spec>, seen: set<string>, hash: HashFn, market: string, lookbackYears: int): real {
    if AtomsExhausted(atoms, seen, hash, market, lookbackYears) then 0.0 else 0.4
  }

  function AndThreshold(atomicShare: real): real {
    atomicShare + (1.0 - atomicShare) * (0.4 / (0.4 + 0.2))
  }

  /** The specification that an attempt draws: a single rule, or a canonical composite of at least two. */
  function Drawn(draw: Draw, atomicShare: real, key: KeyFn): Option<Spec>
    requires draw.Valid()
  {
    if draw.roll < atomicShare then Some(draw.atoms[0])
    else
      var children := FirstOfEachRule(draw.atoms[..draw.nChildren]);
      if |children| < 2 then None
      else Some(Canonical(key,
                          Composite(if draw.roll < AndThreshold(atomicShare) then And else Or, "", true, children)))
  }

  /** While some single rule is unseen, two fifths of the attempts are single rules, two fifths "and" and one
      fifth "or"; then none are single rules, and "and" stays twice as likely as "or". */
  lemma SharesOfKinds(atoms: seq<Spec>, seen: set<string>, hash: HashFn, market: string, lookbackYears: int)
    ensures
      var share := AtomicShare(atoms, seen, hash, market, lookbackYears);
      var exhausted := forall i :: 0 <= i < |atoms| ==> hash(Hypothesis(atoms[i], market, lookbackYears)) in seen;
      && share == (if exhausted then 0.0 else 2.0 / 5.0)
      && AndThreshold(share) - share == 2.0 * (1.0 - AndThreshold(share))
  {
  }

  /** No rule drawn before is that of draw i. */
  predicate FirstOfItsRule(atoms: seq<Spec>, i: nat)
    requires i < |atoms| && forall k :: 0 <= k < |atoms| ==> atoms[k].Atomic?
  {
    forall j :: 0 <= j < i ==> atoms[j].rule != atoms[i].rule
  }

  lemma FrontOfDraws(atoms: seq<Spec>, i: nat)
    requires (forall k :: 0 <= k < |atoms| ==> atoms[k].Atomic?) && i < |atoms| - 1
    ensures atoms[..|atoms| - 1][i] == atoms[i]
    ensures FirstOfItsRule(atoms[..|atoms| - 1], i) == FirstOfItsRule(atoms, i)
  {
    assert forall j :: 0 <= j < |atoms| - 1 ==> atoms[..|atoms| - 1][j] == atoms[j];
  }

  /** The rule of every draw is that of some child. */
  lemma {:induction false} RuleHasChild(atoms: seq<Spec>, i: nat) returns (k: nat)
    requires (forall j :: 0 <= j < |atoms| ==> atoms[j].Atomic?) && i < |atoms|
    ensures k < |FirstOfEachRule(atoms)| && FirstOfEachRule(atoms)[k].rule == atoms[i].rule
  {
    var shorter, last := atoms[..|atoms| - 1], atoms[|atoms| - 1];
    var before := FirstOfEachRule(shorter);
    if i < |atoms| - 1 {
      FrontOfDraws(atoms, i);
      k := RuleHasChild(shorter, i);
    } else if exists j :: 0 <= j < |before| && before[j].rule == last.rule {
      k :| 0 <= k < |before| && before[k].rule == last.rule;
    } else {
      k := |before|;
    }
  }

  /** Every child is the first draw of its rule. */
  lemma {:induction false} ChildIsFirst(atoms: seq<Spec>, k: nat) returns (i: nat)
    requires (forall j :: 0 <= j < |atoms| ==> atoms[j].Atomic?) && k < |FirstOfEachRule(atoms)|
    ensures i < |atoms| && FirstOfEachRule(atoms)[k] == atoms[i] && FirstOfItsRule(atoms, i)
  {
    var shorter, last := atoms[..|atoms| - 1], atoms[|atoms| - 1];
    var before := FirstOfEachRule(shorter);
    if k < |before| {
      i := ChildIsFirst(shorter, k);
      FrontOfDraws(atoms, i);
    } else {
      i := |atoms| - 1;
      forall j | 0 <= j < i
        ensures atoms[j].rule != last.rule
      {
        FrontOfDraws(atoms, j);
        var other := RuleHasChild(shorter, j);
      }
    }
  }

  /** The first draw of every rule is a child. */
  lemma FirstIsChild(atoms: seq<Spec>, i: nat) returns (k: nat)
    requires (forall j :: 0 <= j < |atoms| ==> atoms[j].Atomic?) && i < |atoms| && FirstOfItsRule(atoms, i)
    ensures k < |FirstOfEachRule(atoms)| && FirstOfEachRule(atoms)[k] == atoms[i]
  {
    hide FirstOfEachRule;
    k := RuleHasChild(atoms, i);
    var first := ChildIsFirst(atoms, k);
  }

  /** What an attempt draws: below the share of single rules its first draw, else, if there are two rules, an
      "and" below the threshold and an "or" above it, of the first draws of each rule in some order. */
  lemma DrawnIs(draw: Draw, atomicShare: real, key: KeyFn)
    requires Injective(key) && draw.Valid()
    ensures
      var spec, children := Drawn(draw, atomicShare, key), FirstOfEachRule(draw.atoms[..draw.nChildren]);
      if draw.roll < atomicShare then spec == Some(draw.atoms[0])
      else if |children| < 2 then spec == None
      else
        && spec.Some? && spec.value.Composite?
        && spec.value.op == (if draw.roll < AndThreshold(atomicShare) then And else Or)
        && SameUpToOrder(spec.value, Composite(spec.value.op, "", true, children))
  {
    var children := FirstOfEachRule(draw.atoms[..draw.nChildren]);
    if draw.roll >= atomicShare && |children| >= 2 {
      var composite := Composite(if draw.roll < AndThreshold(atomicShare) then And else Or, "", true, children);
      CanonicalIdempotent(key, composite);
      EqualCanonicalIffReordered(key, Canonical(key, composite), composite);
    }
  }

  method DrawSpec(draw: Draw, atomicShare: real, andThreshold: real, key: KeyFn) returns (spec: Option<Spec>)
    requires Injective(key) && draw.Valid() && andThreshold == AndThreshold(atomicShare)
    ensures spec == Drawn(draw, atomicShare, key)
    ensures spec.Some? ==> Canonical(key, spec.value) == spec.value
  {
    if draw.roll < atomicShare {
      return Some(draw.atoms[0]);
    }
    var children := PickChildren(draw);
    if |children| < 2 {
      return None;
    }
    var composite := Composite(if draw.roll < andThreshold then And else Or, "", true, children);
    CanonicalIdempotent(key, composite);
    spec := Some(Canonical(key, composite));
  }

  /** What every attempt draws is among the known hashes or the sampled ones. */
  ghost predicate AllSeen(draws: seq<Draw>, sampled: seq<Hypothesis>, existing: set<string>, atomicShare: real,
                          key: KeyFn, hash: HashFn, market: string, lookbackYears: int)
    requires forall i :: 0 <= i < |draws| ==> draws[i].Valid()
  {
    forall n :: 0 <= n < |draws| ==>
        DrawSeen(draws[n], sampled, existing, atomicShare, key, hash, market, lookbackYears)
  }

  ghost predicate DrawSeen(draw: Draw, sampled: seq<Hypothesis>, existing: set<string>, atomicShare: real, key: KeyFn,
                           hash: HashFn, market: string, lookbackYears: int)
    requires draw.Valid()
  {
    var spec := Drawn(draw, atomicShare, key);
    spec.Some? ==>
      var h := hash(Hypothesis(spec.value, market, lookbackYears));
      h in existing || exists i :: 0 <= i < |sampled| && hash(sampled[i]) == h
  }

  /** Every sampled specification was drawn by some attempt. */
  ghost predicate AllDrawn(sampled: seq<Hypothesis>, draws: seq<Draw>, atomicShare: real, key: KeyFn)
    requires forall i :: 0 <= i < |draws| ==> draws[i].Valid()
  {
    forall i :: 0 <= i < |sampled| ==>
        exists n :: 0 <= n < |draws| && Drawn(draws[n], atomicShare, key) == Some(sampled[i].spec)
  }

  /** The hashes the sampler must avoid: the known ones and those of what it sampled. */
  ghost predicate SeenExactly(seen: set<string>, sampled: seq<Hypothesis>, existing: set<string>, hash: HashFn) {
    forall h :: h in seen <==> h in existing || exists i :: 0 <= i < |sampled| && hash(sampled[i]) == h
  }

  lemma AddSampled(sampled: seq<Hypothesis>, h: Hypothesis, seen: set<string>, existing: set<string>, key: KeyFn,
                   hash: HashFn, market: string, lookbackYears: int)
    requires InForm(sampled, key, market, lookbackYears) && Fresh(sampled, existing, hash)
    requires SeenExactly(seen, sampled, existing, hash) && hash(h) !in seen
    requires Canonical(key, h.spec) == h.spec && h.market == market && h.lookbackYears == lookbackYears
    ensures InForm(sampled + [h], key, market, lookbackYears) && Fresh(sampled + [h], existing, hash)
    ensures SeenExactly(seen + {hash(h)}, sampled + [h], existing, hash)
  {
    hide Canonical;
    var longer := sampled + [h];
    assert longer[|sampled|] == h;
    forall x | x in seen
      ensures x in existing || exists i :: 0 <= i < |longer| && hash(longer[i]) == x
    {
      if x !in existing {
        var i :| 0 <= i < |sampled| && hash(sampled[i]) == x;
        assert longer[i] == sampled[i];
      }
    }
  }

  /** Up to `budget` new hypotheses, from at most fifty draws each. No sampled hypothesis equals
      another one up to the order of children, and fewer than the budget are returned only when
      everything drawn is already known or sampled. */
  method SampleHypotheses(market: string, budget: nat, existing: set<string>, lookbackYears: int, allAtoms: seq<Spec>,
                          draws: seq<Draw>, key: KeyFn, hash: HashFn)
    returns (sampled: seq<Hypothesis>)
    requires Injective(key)
    requires |draws| == budget * 50 && forall i :: 0 <= i < |draws| ==> draws[i].Valid()
    ensures |sampled| <= budget
    ensures InForm(sampled, key, market, lookbackYears) && Fresh(sampled, existing, hash)
    ensures forall i, j :: 0 <= i < j < |sampled| ==> !SameUpToOrder(sampled[i].spec, sampled[j].spec)
    ensures AllDrawn(sampled, draws, AtomicShare(allAtoms, existing, hash, market, lookbackYears), key)
    ensures |sampled| < budget ==>
              AllSeen(draws, sampled, existing, AtomicShare(allAtoms, existing, hash, market, lookbackYears), key,
                      hash, market, lookbackYears)
  {
    sampled := [];
    var seen := existing;
    var atomicShare := if AtomsExhausted(allAtoms, seen, hash, market, lookbackYears) then 0.0 else 0.4;
    var andThreshold := atomicShare + (1.0 - atomicShare) * (0.4 / (0.4 + 0.2));
    for n := 0 to |draws|
      invariant |sampled| <= budget
      invariant InForm(sampled, key, market, lookbackYears) && Fresh(sampled, existing, hash)
      invariant SeenExactly(seen, sampled, existing, hash)
      invariant AllDrawn(sampled, draws, atomicShare, key)
      invariant AllSeen(draws[..n], sampled, existing, atomicShare, key, hash, market, lookbackYears)
    {
      if |sampled| >= budget {
        break;
      }
      var spec := DrawSpec(draws[n], atomicShare, andThreshold, key);
      ghost var before := sampled;
      if spec.Some? {
        var hypothesis := Hypothesis(spec.value, market, lookbackYears);
        if hash(hypothesis) !in seen {
          AddSampled(sampled, hypothesis, seen, existing, key, hash, market, lookbackYears);
          seen := seen + {hash(hypothesis)};
          sampled := sampled + [hypothesis];
          AddDrawn(before, hypothesis, draws, n, atomicShare, key);
        }
      }
      MoreSeen(draws, n, before, sampled, existing, atomicShare, key, hash, market, lookbackYears);
    }
    assert draws[..|draws|] == draws;
    DistinctUpToOrder(sampled, existing, key, hash, market, lookbackYears);
  }

  lemma AddDrawn(sampled: seq<Hypothesis>, h: Hypothesis, draws: seq<Draw>, n: nat, atomicShare: real, key: KeyFn)
    requires (forall i :: 0 <= i < |draws| ==> draws[i].Valid()) && n < |draws|
    requires AllDrawn(sampled, draws, atomicShare, key) && Drawn(draws[n], atomicShare, key) == Some(h.spec)
    ensures AllDrawn(sampled + [h], draws, atomicShare, key)
  {
  }

  lemma MoreSeen(draws: seq<Draw>, n: nat, sampled: seq<Hypothesis>, more: seq<Hypothesis>, existing: set<string>,
                 atomicShare: real, key: KeyFn, hash: HashFn, market: string, lookbackYears: int)
    requires (forall i :: 0 <= i < |draws| ==> draws[i].Valid()) && n < |draws| && sampled <= more
    requires AllSeen(draws[..n], sampled, existing, atomicShare, key, hash, market, lookbackYears)
    requires DrawSeen(draws[n], more, existing, atomicShare, key, hash, market, lookbackYears)
    ensures AllSeen(draws[..n + 1], more, existing, atomicShare, key, hash, market, lookbackYears)
  {
    forall k | 0 <= k < n
      ensures DrawSeen(draws[k], more, existing, atomicShare, key, hash, market, lookbackYears)
    {
      assert DrawSeen(draws[..n][k], sampled, existing, atomicShare, key, hash, market, lookbackYears);
      var spec := Drawn(draws[k], atomicShare, key);
      if spec.Some? && hash(Hypothesis(spec.value, market, lookbackYears)) !in existing {
        var i :| 0 <= i < |sampled| && hash(sampled[i]) == hash(Hypothesis(spec.value, market, lookbackYears));
        assert more[i] == sampled[i];
      }
    }
  }

  lemma DistinctUpToOrder(sampled: seq<Hypothesis>, existing: set<string>, key: KeyFn, hash: HashFn, market: string,
                          lookbackYears: int)
    requires Injective(key) && InForm(sampled, key, market, lookbackYears) && Fresh(sampled, existing, hash)
    ensures forall i, j :: 0 <= i < j < |sampled| ==> !SameUpToOrder(sampled[i].spec, sampled[j].spec)
  {
    forall i, j | 0 <= i < j < |sampled|
      ensures !SameUpToOrder(sampled[i].spec, sampled[j].spec)
    {
      EqualCanonicalIffReordered(key, sampled[i].spec, sampled[j].spec);
    }
  }

  /** A canonical hypothesis whose hash was not evaluated is no reordering of any readable ledger row
      of its market, however that row was stored. */
  lemma NewToLedger(h: Hypothesis, ledger: seq<LedgerRow>, key: KeyFn, hash: HashFn, i: nat)
    requires Injective(key) && Canonical(key, h.spec) == h.spec
    requires !IsEvaluated(hash(h), ledger, key, hash, h.market, h.lookbackYears)
    requires i < |ledger| && ledger[i].market == h.market && ledger[i].spec.Some?
    ensures !SameUpToOrder(h.spec, ledger[i].spec.value)
  {
    EqualCanonicalIffReordered(key, h.spec, ledger[i].spec.value);
  }

  /** The night's sampling: nothing sampled repeats the ledger or itself, up to reordering. */
  method SampleNight(ledger: seq<LedgerRow>, market: string, budget: nat, lookbackYears: int, allAtoms: seq<Spec>,
                     draws: seq<Draw>, key: KeyFn, hash: HashFn)
    returns (sampled: seq<Hypothesis>)
    requires Injective(key)
    requires |draws| == budget * 50 && forall i :: 0 <= i < |draws| ==> draws[i].Valid()
    ensures |sampled| <= budget
    ensures forall i, j :: 0 <= i < j < |sampled| ==> !SameUpToOrder(sampled[i].spec, sampled[j].spec)
    ensures forall i, k ::
              0 <= i < |sampled| && 0 <= k < |ledger| && ledger[k].market == market && ledger[k].spec.Some? ==>
              !SameUpToOrder(sampled[i].spec, ledger[k].spec.value)
  {
    var existing := EvaluatedHashes(ledger, key, hash, market, lookbackYears);
    sampled := SampleHypotheses(market, budget, existing, lookbackYears, allAtoms, draws, key, hash);
    forall i, k | 0 <= i < |sampled| && 0 <= k < |ledger| && ledger[k].market == market && ledger[k].spec.Some?
      ensures !SameUpToOrder(sampled[i].spec, ledger[k].spec.value)
    {
      NewToLedger(sampled[i], ledger, key, hash, k);
    }
  }
}
