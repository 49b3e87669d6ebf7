/** Comparing the documented features with those of the workspace. The order in which drifts are
    listed is not modelled. */
module FeatureDrift {
  import opened FeatureLines
  import opened FeatureMatrix
  import opened Sorting

  /** Dependencies as found: a list, or a single value, which counts as none when empty. */
  datatype Dependencies = Listed(items: seq<string>) | Single(text: string)

  type Features = map<string, Dependencies>

  datatype Drift =
    | CrateUndocumented(crate: string)
    | CrateUnknown(crate: string)
    | FeatureMissing(crate: string, feature: string)
    | DependenciesDiffer(crate: string, feature: string, expected: seq<string>, actual: seq<string>)
    | FeatureUndocumented(crate: string, feature: string)

  function AsMultiset(dependencies: Dependencies): multiset<string> {
    match dependencies
    case Listed(items) => multiset(items)
    case Single(text) => if text == "" then multiset{} else multiset{text}
  }

  function Normalize(dependencies: Dependencies): (r: seq<string>)
    ensures multiset(r) == AsMultiset(dependencies) && IsSorted(r)
  {
    match dependencies
    case Listed(items) => Sorted(items)
    case Single(text) => if text == "" then [] else [text]
  }

  lemma NormalizeComparesMultisets(a: Dependencies, b: Dependencies)
    ensures Normalize(a) == Normalize(b) <==> AsMultiset(a) == AsMultiset(b)
  {
    if AsMultiset(a) == AsMultiset(b) {
      SortedIsUnique(Normalize(a), Normalize(b));
    }
  }

  /** A difference between the features of one crate and their documentation. */
  predicate IsFeatureDrift(crate: string, cargo: Features, documented: Features, drift: Drift) {
    && drift.crate == crate
    && match drift
       case CrateUndocumented(_) => false
       case CrateUnknown(_) => false
       case FeatureMissing(_, f) => f in documented && f !in cargo
       case DependenciesDiffer(_, f, expected, actual) =>
         && f in documented && f in cargo && AsMultiset(documented[f]) != AsMultiset(cargo[f])
         && expected == Normalize(documented[f]) && actual == Normalize(cargo[f])
       case FeatureUndocumented(_, f) => f in cargo && f !in documented
  }

  predicate IsDrift(crates: map<string, Features>, doc: map<string, Features>, drift: Drift) {
    match drift
    case CrateUndocumented(c) => c in crates && c !in doc
    case CrateUnknown(c) => c in doc && c !in crates
    case _ => IsSharedDrift(crates, doc, drift)
  }

  predicate IsSharedDrift(crates: map<string, Features>, doc: map<string, Features>, drift: Drift) {
    && drift.crate in crates && drift.crate in doc
    && IsFeatureDrift(drift.crate, crates[drift.crate], doc[drift.crate], drift)
  }

  predicate IsDistinct(drifts: seq<Drift>) {
    forall i, j | 0 <= i < j < |drifts| :: drifts[i] != drifts[j]
  }

  lemma ConcatIsDistinct(a: seq<Drift>, b: seq<Drift>)
    requires IsDistinct(a) && IsDistinct(b) && forall drift | drift in a :: drift !in b
    ensures IsDistinct(a + b)
  {
    forall i, j | 0 <= i < j < |a + b| ensures (a + b)[i] != (a + b)[j] {
      if i < |a| <= j {
        assert a[i] in a && b[j - |a|] in b;
      }
    }
  }

  /** The documented features that the crate lacks or declares with other dependencies. */
  method CompareDocumented(crate: string, cargo: Features, documented: Features) returns (drifts: seq<Drift>)
    ensures forall drift :: drift in drifts <==>
              IsFeatureDrift(crate, cargo, documented, drift) && !drift.FeatureUndocumented?
    ensures IsDistinct(drifts)
  {
    drifts := [];
    var rest := documented.Keys;
    while rest != {}
      invariant rest <= documented.Keys
      invariant forall drift :: drift in drifts <==>
                  && IsFeatureDrift(crate, cargo, documented, drift)
                  && !drift.FeatureUndocumented? && drift.feature !in rest
      invariant IsDistinct(drifts)
      decreases |rest|
    {
      var feature :| feature in rest;
      rest := rest - {feature};
      if feature !in cargo {
        drifts := drifts + [FeatureMissing(crate, feature)];
      } else {
        var actual, expected := Normalize(cargo[feature]), Normalize(documented[feature]);
        NormalizeComparesMultisets(cargo[feature], documented[feature]);
        if actual != expected {
          drifts := drifts + [DependenciesDiffer(crate, feature, expected, actual)];
        }
      }
    }
  }

  method CompareFeatures(crate: string, cargo: Features, documented: Features) returns (drifts: seq<Drift>)
    ensures forall drift :: drift in drifts <==> IsFeatureDrift(crate, cargo, documented, drift)
    ensures IsDistinct(drifts)
  {
    drifts := CompareDocumented(crate, cargo, documented);
    var rest := cargo.Keys;
    while rest != {}
      invariant rest <= cargo.Keys
      invariant forall drift :: drift in drifts <==>
                  && IsFeatureDrift(crate, cargo, documented, drift)
                  && (drift.FeatureUndocumented? ==> drift.feature !in rest)
      invariant IsDistinct(drifts)
      decreases |rest|
    {
      var feature :| feature in rest;
      rest := rest - {feature};
      if feature !in documented {
        drifts := drifts + [FeatureUndocumented(crate, feature)];
      }
    }
  }

  /** The drifts of crates that are both in the workspace and documented. */
  method CompareSharedCrates(crates: map<string, Features>, doc: map<string, Features>) returns (drifts: seq<Drift>)
    ensures forall drift :: drift in drifts <==> IsSharedDrift(crates, doc, drift)
    ensures IsDistinct(drifts)
  {
    drifts := [];
    var rest := crates.Keys;
    while rest != {}
      invariant rest <= crates.Keys
      invariant forall drift :: drift in drifts <==> IsSharedDrift(crates, doc, drift) && drift.crate !in rest
      invariant IsDistinct(drifts)
      decreases |rest|
    {
      var crate :| crate in rest;
      rest := rest - {crate};
      if crate !in doc {
        continue;
      }
      var more := CompareFeatures(crate, crates[crate], doc[crate]);
      ConcatIsDistinct(drifts, more);
      drifts := drifts + more;
    }
  }

  /** Lists each drift exactly once and nothing else. */
  method CheckDrift(crates: map<string, Features>, doc: map<string, Features>) returns (drifts: seq<Drift>)
    ensures forall drift :: drift in drifts <==> IsDrift(crates, doc, drift)
    ensures IsDistinct(drifts)
    ensures drifts == [] <==> InAgreement(crates, doc)
  {
    drifts := [];
    var rest := crates.Keys;
    while rest != {}
      invariant rest <= crates.Keys
      invariant forall drift :: drift in drifts <==>
                  IsDrift(crates, doc, drift) && drift.CrateUndocumented? && drift.crate !in rest
      invariant IsDistinct(drifts)
      decreases |rest|
    {
      var crate :| crate in rest;
      rest := rest - {crate};
      if crate !in doc {
        drifts := drifts + [CrateUndocumented(crate)];
      }
    }
    rest := doc.Keys;
    while rest != {}
      invariant rest <= doc.Keys
      invariant forall drift :: drift in drifts <==>
                  && IsDrift(crates, doc, drift)
                  && (drift.CrateUndocumented? || (drift.CrateUnknown? && drift.crate !in rest))
      invariant IsDistinct(drifts)
      decreases |rest|
    {
      var crate :| crate in rest;
      rest := rest - {crate};
      if crate !in crates {
        drifts := drifts + [CrateUnknown(crate)];
      }
    }
    var shared := CompareSharedCrates(crates, doc);
    ConcatIsDistinct(drifts, shared);
    drifts := drifts + shared;
    NothingListedMeansAgreement(crates, doc, drifts);
  }

  /** Same crate names, per crate the same feature names, per feature the same dependencies,
      each as often as in the other. */
  predicate InAgreement(crates: map<string, Features>, doc: map<string, Features>) {
    && crates.Keys == doc.Keys
    && forall crate | crate in crates ::
         && crates[crate].Keys == doc[crate].Keys
         && forall feature | feature in crates[crate] ::
              AsMultiset(crates[crate][feature]) == AsMultiset(doc[crate][feature])
  }

  lemma NoDriftMeansAgreement(crates: map<string, Features>, doc: map<string, Features>)
    ensures (forall drift :: !IsDrift(crates, doc, drift)) <==> InAgreement(crates, doc)
  {
    if !InAgreement(crates, doc) {
      var drift := FindDrift(crates, doc);
      assert IsDrift(crates, doc, drift);
    }
  }

  lemma NothingListedMeansAgreement(crates: map<string, Features>, doc: map<string, Features>, drifts: seq<Drift>)
    requires forall drift :: drift in drifts <==> IsDrift(crates, doc, drift)
    ensures drifts == [] <==> InAgreement(crates, doc)
  {
    NoDriftMeansAgreement(crates, doc);
    assert drifts != [] ==> drifts[0] in drifts;
  }

  /** Some drift, where there is disagreement. */
  lemma FindDrift(crates: map<string, Features>, doc: map<string, Features>) returns (drift: Drift)
    requires !InAgreement(crates, doc)
    ensures IsDrift(crates, doc, drift)
  {
    if c :| c in crates && c !in doc {
      return CrateUndocumented(c);
    }
    if c :| c in doc && c !in crates {
      return CrateUnknown(c);
    }
    var c :| c in crates && !(crates[c].Keys == doc[c].Keys
                              && forall f | f in crates[c] :: AsMultiset(crates[c][f]) == AsMultiset(doc[c][f]));
    if f :| f in crates[c] && f !in doc[c] {
      return FeatureUndocumented(c, f);
    }
    if f :| f in doc[c] && f !in crates[c] {
      return FeatureMissing(c, f);
    }
    var f :| f in crates[c] && AsMultiset(crates[c][f]) != AsMultiset(doc[c][f]);
    return DependenciesDiffer(c, f, Normalize(doc[c][f]), Normalize(crates[c][f]));
  }

  function Documented(doc: map<string, Section>): map<string, Features> {
    map crate | crate in doc :: map feature | feature in doc[crate].features :: Listed(doc[crate].features[feature])
  }

  /** From the text of the document to the verdict of the check without compilation. */
  method CheckFeatureContract(crates: map<string, Features>, lines: seq<string>, read: string -> Bullet)
    returns (drifts: seq<Drift>)
    ensures var doc := Documented(Fold(ClassifyAll(lines, read)).doc);
            && (forall drift :: drift in drifts <==> IsDrift(crates, doc, drift))
            && (drifts == [] <==> InAgreement(crates, doc))
  {
    var doc := ParseFeatureMatrix(ClassifyAll(lines, read));
    drifts := CheckDrift(crates, Documented(doc));
  }
}
