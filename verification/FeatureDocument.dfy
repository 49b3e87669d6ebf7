/** A feature matrix document written out in its documented form, and what reading it gives. */
module FeatureDocument {
  import opened Wrappers
  import opened Text
  import opened FeatureLines
  import opened FeatureMatrix
  import opened FeatureDrift

  datatype Entry = Entry(crate: string, features: seq<(string, seq<string>)>, combinations: seq<string>)

  /** How the code span of a bullet is written and a bullet is read. */
  datatype Format = Format(
    feature: ((string, seq<string>)) -> string, combination: string -> string, read: string -> Bullet)

  /** A crate name without white space at its ends. */
  predicate IsName(name: string) {
    name != "" && !IsSpace(name[0]) && !IsSpace(name[|name| - 1])
  }

  function BulletLine(code: string): string {
    "- `" + code + "`"
  }

  /** The bullets of the entry read back as what was written. */
  predicate ReadsBack(entry: Entry, format: Format) {
    && (forall i | 0 <= i < |entry.features| ::
          var bullet := format.read(BulletLine(format.feature(entry.features[i])));
          (bullet.name, bullet.dependencies) == entry.features[i])
    && (forall i | 0 <= i < |entry.combinations| ::
          format.read(BulletLine(format.combination(entry.combinations[i]))).combination == entry.combinations[i])
  }

  function FeatureBullets(features: seq<(string, seq<string>)>, format: Format): seq<string> {
    seq(|features|, i requires 0 <= i < |features| => BulletLine(format.feature(features[i])))
  }

  function CombinationBullets(combinations: seq<string>, format: Format): seq<string> {
    seq(|combinations|, i requires 0 <= i < |combinations| => BulletLine(format.combination(combinations[i])))
  }

  const TITLE := "**Minimal combinations" + " that must compile:**"

  function FeaturesBlock(entry: Entry, format: Format): seq<string> {
    ["### " + entry.crate] + ["**Features:**"] + FeatureBullets(entry.features, format)
  }

  function CombinationsBlock(entry: Entry, format: Format): seq<string> {
    [""] + [TITLE] + CombinationBullets(entry.combinations, format) + [""]
  }

  function Written(entry: Entry, format: Format): seq<string> {
    FeaturesBlock(entry, format) + CombinationsBlock(entry, format)
  }

  function Document(entries: seq<Entry>, format: Format): seq<string> {
    if entries == [] then []
    else Document(entries[..|entries| - 1], format) + Written(entries[|entries| - 1], format)
  }

  function FeatureMap(features: seq<(string, seq<string>)>): map<string, seq<string>> {
    if features == [] then map[]
    else
      var (name, dependencies) := features[|features| - 1];
      FeatureMap(features[..|features| - 1])[name := dependencies]
  }

  function Expected(entries: seq<Entry>): map<string, Section> {
    if entries == [] then map[]
    else
      var last := entries[|entries| - 1];
      Expected(entries[..|entries| - 1])[last.crate := Section(FeatureMap(last.features), last.combinations)]
  }

  // ---- the lines ----

  lemma TrimsNothing(text: string)
    requires IsName(text)
    ensures TrimStart(text) == TrimEnd(text) == Trim(text) == text
  {
  }

  lemma HeadingIsRead(crate: string, read: string -> Bullet)
    requires IsName(crate)
    ensures Classify("### " + crate, read).heading == Some(crate)
  {
    var line := "### " + crate;
    assert line[|line| - 1] == crate[|crate| - 1];
    TrimsNothing(line);
    assert line[..3] == "###";
    assert IsMarked(line, "###");
    assert line[3..] == " " + crate;
    TrimStartSkips(" " + crate);
    assert (" " + crate)[1..] == crate;
    TrimsNothing(crate);
  }

  lemma OtherFirst(line: string, prefix: string)
    requires line != "" && prefix != "" && line[0] != prefix[0]
    ensures !(prefix <= line)
  {
  }

  /** A line that does not start with `#` is no heading and ends no block by its marks. */
  lemma IsUnmarked(line: string)
    requires IsName(line) && line[0] != '#'
    ensures HeadingName(line).None? && !IsMarked(TrimStart(line), "###") && !IsMarked(TrimStart(line), "##")
    ensures Trim(line) == TrimEnd(line) == line
  {
    TrimsNothing(line);
    OtherFirst(line, "###");
    OtherFirst(line, "##");
  }

  lemma BulletIsRead(code: string, read: string -> Bullet)
    ensures var line, row := BulletLine(code), Classify(BulletLine(code), read);
            row.heading.None? && !row.endsFeatures && !row.endsCombinations && row.bullet == Some(read(line))
  {
    var line := BulletLine(code);
    assert line[0] == '-' && line[|line| - 1] == '`';
    IsUnmarked(line);
    assert line[..1] == "-";
    assert !("**Minimal" <= line) by {
      assert "**Minimal"[0] == '*';
    }
  }

  lemma FeaturesOpen(read: string -> Bullet)
    ensures var row := Classify("**Features:**", read); row.heading.None? && row.opens == InFeatures
  {
    IsUnmarked("**Features:**");
    ContainsMiddle("", "**Features:**", "");
    assert "" + "**Features:**" + "" == "**Features:**";
  }

  lemma NoFInCombinations()
    ensures 'F' !in "**Minimal combinations"
  {
  }

  lemma NoFInRest()
    ensures 'F' !in " that must compile:**"
  {
  }

  lemma CombinationsOpen(read: string -> Bullet)
    ensures var row := Classify("**Minimal combinations" + " that must compile:**", read);
            row.heading.None? && row.opens == InCombinations
  {
    var start, rest := "**Minimal combinations", " that must compile:**";
    NoFInCombinations();
    NoFInRest();
    CombinationsOpenWith(start, rest, read);
  }

  lemma CombinationsOpenWith(start: string, rest: string, read: string -> Bullet)
    requires start == COMBINATIONS && IsName(start + rest) && 'F' !in start + rest
    ensures var row := Classify(start + rest, read); row.heading.None? && row.opens == InCombinations
  {
    var line := start + rest;
    ClassifiedExactlyWhen(line, read);
    IsUnmarked(line);
    OccursInside(start, rest);
    LacksFeatures(line);
  }

  lemma OccursInside(start: string, rest: string)
    ensures Contains(start + rest, start)
  {
    ContainsMiddle("", start, rest);
    assert "" + start + rest == start + rest;
  }

  lemma LacksFeatures(line: string)
    requires 'F' !in line
    ensures !Contains(line, FEATURES)
  {
    forall i | 0 <= i <= |line| ensures !OccursAt(line, FEATURES, i) {
      Mismatch(line, FEATURES, i, 2);
    }
  }

  lemma BlankEnds(read: string -> Bullet)
    ensures var row := Classify("", read);
            row.heading.None? && row.endsFeatures && row.endsCombinations && row.opens == Outside && row.bullet.None?
  {
    assert forall pattern | |pattern| > 0 :: !Contains("", pattern);
  }

  // ---- reading the document, for any way to classify its lines ----

  function Rows(lines: seq<string>, classify: string -> Line): seq<Line> {
    seq(|lines|, i requires 0 <= i < |lines| => classify(lines[i]))
  }

  function Read(lines: seq<string>, classify: string -> Line): Matrix {
    Fold(Rows(lines, classify))
  }

  predicate IsFeatureRow(row: Line, feature: (string, seq<string>)) {
    && row.heading.None? && !row.endsFeatures && row.bullet.Some?
    && (row.bullet.value.name, row.bullet.value.dependencies) == feature
  }

  predicate IsCombinationRow(row: Line, combination: string) {
    && row.heading.None? && !row.endsCombinations && row.bullet.Some?
    && row.bullet.value.combination == combination
  }

  predicate UnderstandsFeatures(classify: string -> Line, entry: Entry, format: Format) {
    forall i | 0 <= i < |entry.features| ::
      IsFeatureRow(classify(FeatureBullets(entry.features, format)[i]), entry.features[i])
  }

  predicate UnderstandsCombinations(classify: string -> Line, entry: Entry, format: Format) {
    forall i | 0 <= i < |entry.combinations| ::
      IsCombinationRow(classify(CombinationBullets(entry.combinations, format)[i]), entry.combinations[i])
  }

  predicate UnderstandsBlank(row: Line) {
    row.heading.None? && row.endsFeatures && row.endsCombinations && row.opens == Outside
  }

  predicate UnderstandsTitle(row: Line, mode: Mode) {
    row.heading.None? && row.opens == mode
  }

  /** The lines of the entry are classified as what they were written for. */
  predicate Understands(classify: string -> Line, entry: Entry, format: Format) {
    && classify("### " + entry.crate).heading == Some(entry.crate)
    && UnderstandsTitle(classify("**Features:**"), InFeatures) && UnderstandsTitle(classify(TITLE), InCombinations)
    && UnderstandsBlank(classify(""))
    && UnderstandsFeatures(classify, entry, format) && UnderstandsCombinations(classify, entry, format)
  }

  lemma ReadOneMore(lines: seq<string>, line: string, classify: string -> Line)
    ensures Read(lines + [line], classify) == Step(Read(lines, classify), classify(line))
  {
    assert Rows(lines + [line], classify)[..|lines|] == Rows(lines, classify);
  }

  /** A line that no block takes only sets the mode. */
  lemma ReadOpening(lines: seq<string>, line: string, classify: string -> Line)
    requires Read(lines, classify).current.Some? && classify(line).heading.None?
    requires !StaysInBlock(Read(lines, classify).mode, classify(line))
    ensures Read(lines + [line], classify) == Read(lines, classify).(mode := classify(line).opens)
  {
    var m := Read(lines, classify);
    ReadOneMore(lines, line, classify);
    assert m.doc[m.current.value := m.doc[m.current.value]] == m.doc;
  }

  lemma {:induction false} ReadFeatures(lines: seq<string>, bullets: seq<string>, crate: string,
                                        features: seq<(string, seq<string>)>, doc: map<string, Section>,
                                        classify: string -> Line)
    requires |bullets| == |features| && forall i | 0 <= i < |bullets| :: IsFeatureRow(classify(bullets[i]), features[i])
    requires Read(lines, classify) == Matrix(doc[crate := EMPTY], Some(crate), InFeatures)
    ensures Read(lines + bullets, classify) ==
            Matrix(doc[crate := Section(FeatureMap(features), [])], Some(crate), InFeatures)
  {
    var n := |bullets| - 1;
    if bullets == [] {
      assert lines + bullets == lines;
    } else {
      ReadFeatures(lines, bullets[..n], crate, features[..n], doc, classify);
      assert lines + bullets == lines + bullets[..n] + [bullets[n]];
      ReadOneMore(lines + bullets[..n], bullets[n], classify);
    }
  }

  lemma {:induction false} ReadCombinations(lines: seq<string>, bullets: seq<string>, crate: string,
                                            combinations: seq<string>, features: map<string, seq<string>>,
                                            doc: map<string, Section>, classify: string -> Line)
    requires |bullets| == |combinations|
    requires forall i | 0 <= i < |bullets| :: IsCombinationRow(classify(bullets[i]), combinations[i])
    requires Read(lines, classify) == Matrix(doc[crate := Section(features, [])], Some(crate), InCombinations)
    ensures Read(lines + bullets, classify) ==
            Matrix(doc[crate := Section(features, combinations)], Some(crate), InCombinations)
  {
    var n := |bullets| - 1;
    if bullets == [] {
      assert lines + bullets == lines;
    } else {
      ReadCombinations(lines, bullets[..n], crate, combinations[..n], features, doc, classify);
      assert lines + bullets == lines + bullets[..n] + [bullets[n]];
      assert combinations == combinations[..n] + [combinations[n]];
      ReadOneMore(lines + bullets[..n], bullets[n], classify);
    }
  }

  /** Reading `block` after `lines` leads from what has been read to `after`. */
  predicate Leads(lines: seq<string>, block: seq<string>, after: Matrix, classify: string -> Line) {
    Read(lines + block, classify) == after
  }

  lemma LeadsOn(lines: seq<string>, a: seq<string>, b: seq<string>, after: Matrix, classify: string -> Line)
    requires Leads(lines + a, b, after, classify)
    ensures Leads(lines, a + b, after, classify)
  {
    assert lines + (a + b) == lines + a + b;
  }

  lemma LeadsByHeading(lines: seq<string>, line: string, classify: string -> Line)
    requires classify(line).heading.Some?
    ensures var crate := classify(line).heading;
            Leads(lines, [line], Matrix(Read(lines, classify).doc[crate.value := EMPTY], crate, Outside), classify)
  {
    ReadOneMore(lines, line, classify);
  }

  /** After `m`, a title line only opens its block. */
  lemma LeadsByTitle(lines: seq<string>, m: Matrix, line: string, classify: string -> Line)
    requires Read(lines, classify) == m && m.current.Some? && classify(line).heading.None?
    requires !StaysInBlock(m.mode, classify(line))
    ensures Leads(lines, [line], m.(mode := classify(line).opens), classify)
  {
    ReadOpening(lines, line, classify);
  }

  lemma ReadFeaturesBlock(lines: seq<string>, doc: map<string, Section>, entry: Entry, format: Format,
                          classify: string -> Line)
    requires Understands(classify, entry, format) && Read(lines, classify).doc == doc
    ensures Leads(lines, FeaturesBlock(entry, format),
                  Matrix(doc[entry.crate := Section(FeatureMap(entry.features), [])], Some(entry.crate), InFeatures),
                  classify)
  {
    var heading, title, bullets := ["### " + entry.crate], ["**Features:**"], FeatureBullets(entry.features, format);
    var begun := Matrix(doc[entry.crate := EMPTY], Some(entry.crate), Outside);
    var read := Matrix(doc[entry.crate := Section(FeatureMap(entry.features), [])], Some(entry.crate), InFeatures);
    LeadsByHeading(lines, "### " + entry.crate, classify);
    LeadsByTitle(lines + heading, begun, "**Features:**", classify);
    LeadsOn(lines, heading, title, begun.(mode := InFeatures), classify);
    ReadFeatures(lines + (heading + title), bullets, entry.crate, entry.features, doc, classify);
    LeadsOn(lines, heading + title, bullets, read, classify);
  }

  lemma ReadCombinationsBlock(lines: seq<string>, doc: map<string, Section>, features: map<string, seq<string>>,
                              entry: Entry, format: Format, classify: string -> Line)
    requires Understands(classify, entry, format)
    requires Read(lines, classify) == Matrix(doc[entry.crate := Section(features, [])], Some(entry.crate), InFeatures)
    ensures Leads(lines, CombinationsBlock(entry, format),
                  Matrix(doc[entry.crate := Section(features, entry.combinations)], Some(entry.crate), Outside),
                  classify)
  {
    var blank, title, bullets := [""], [TITLE], CombinationBullets(entry.combinations, format);
    var open := Matrix(doc[entry.crate := Section(features, [])], Some(entry.crate), InCombinations);
    var read := Matrix(doc[entry.crate := Section(features, entry.combinations)], Some(entry.crate), InCombinations);
    LeadsByTitle(lines, open.(mode := InFeatures), "", classify);
    LeadsByTitle(lines + blank, open.(mode := Outside), TITLE, classify);
    LeadsOn(lines, blank, title, open, classify);
    ReadCombinations(lines + (blank + title), bullets, entry.crate, entry.combinations, features, doc, classify);
    LeadsOn(lines, blank + title, bullets, read, classify);
    LeadsByTitle(lines + (blank + title + bullets), read, "", classify);
    LeadsOn(lines, blank + title + bullets, blank, read.(mode := Outside), classify);
  }

  /** Reading on with an entry sets that of its crate and nothing else. */
  lemma ReadEntry(lines: seq<string>, doc: map<string, Section>, entry: Entry, format: Format, classify: string -> Line)
    requires Understands(classify, entry, format) && Read(lines, classify).doc == doc
    ensures Leads(lines, Written(entry, format),
                  Matrix(doc[entry.crate := Section(FeatureMap(entry.features), entry.combinations)],
                         Some(entry.crate), Outside), classify)
  {
    var features := FeatureMap(entry.features);
    ReadFeaturesBlock(lines, doc, entry, format, classify);
    ReadCombinationsBlock(lines + FeaturesBlock(entry, format), doc, features, entry, format, classify);
    LeadsOn(lines, FeaturesBlock(entry, format), CombinationsBlock(entry, format),
            Matrix(doc[entry.crate := Section(features, entry.combinations)], Some(entry.crate), Outside), classify);
  }

  lemma {:induction false} ReadDocument(entries: seq<Entry>, format: Format, classify: string -> Line)
    requires forall i | 0 <= i < |entries| :: Understands(classify, entries[i], format)
    ensures Read(Document(entries, format), classify).doc == Expected(entries)
  {
    if entries != [] {
      var n := |entries| - 1;
      ReadDocument(entries[..n], format, classify);
      ReadEntry(Document(entries[..n], format), Expected(entries[..n]), entries[n], format, classify);
    }
  }

  // ---- reading the document ----

  lemma FeaturesAreUnderstood(entry: Entry, format: Format)
    requires ReadsBack(entry, format)
    ensures UnderstandsFeatures(line => Classify(line, format.read), entry, format)
  {
    forall i | 0 <= i < |entry.features|
      ensures IsFeatureRow(Classify(FeatureBullets(entry.features, format)[i], format.read), entry.features[i])
    {
      BulletIsRead(format.feature(entry.features[i]), format.read);
    }
  }

  lemma CombinationsAreUnderstood(entry: Entry, format: Format)
    requires ReadsBack(entry, format)
    ensures UnderstandsCombinations(line => Classify(line, format.read), entry, format)
  {
    forall i | 0 <= i < |entry.combinations|
      ensures IsCombinationRow(Classify(CombinationBullets(entry.combinations, format)[i], format.read),
                               entry.combinations[i])
    {
      BulletIsRead(format.combination(entry.combinations[i]), format.read);
    }
  }

  lemma UnderstoodBy(classify: string -> Line, entry: Entry, format: Format, heading: Line, features: Line, title: Line,
                     blank: Line)
    requires classify("### " + entry.crate) == heading && heading.heading == Some(entry.crate)
    requires classify("**Features:**") == features && UnderstandsTitle(features, InFeatures)
    requires classify(TITLE) == title && UnderstandsTitle(title, InCombinations)
    requires classify("") == blank && UnderstandsBlank(blank)
    requires UnderstandsFeatures(classify, entry, format) && UnderstandsCombinations(classify, entry, format)
    ensures Understands(classify, entry, format)
  {
  }

  lemma EntryIsUnderstood(entry: Entry, format: Format)
    requires IsName(entry.crate) && ReadsBack(entry, format)
    ensures Understands(line => Classify(line, format.read), entry, format)
  {
    HeadingIsRead(entry.crate, format.read);
    FeaturesOpen(format.read);
    CombinationsOpen(format.read);
    BlankEnds(format.read);
    FeaturesAreUnderstood(entry, format);
    CombinationsAreUnderstood(entry, format);
    UnderstoodBy(line => Classify(line, format.read), entry, format,
                 Classify("### " + entry.crate, format.read), Classify("**Features:**", format.read),
                 Classify(TITLE, format.read), Classify("", format.read));
  }

  /** A document written out in the documented form is read back as exactly its entries. */
  lemma DocumentIsReadBack(entries: seq<Entry>, format: Format)
    requires forall i | 0 <= i < |entries| :: IsName(entries[i].crate) && ReadsBack(entries[i], format)
    ensures Fold(ClassifyAll(Document(entries, format), format.read)).doc == Expected(entries)
  {
    var classify := line => Classify(line, format.read);
    forall i | 0 <= i < |entries| ensures Understands(classify, entries[i], format) {
      EntryIsUnderstood(entries[i], format);
    }
    ReadDocument(entries, format, classify);
    assert ClassifyAll(Document(entries, format), format.read) == Rows(Document(entries, format), classify);
  }

  /** With one entry a crate, each crate is expected with the features and combinations of its entry. */
  lemma {:induction false} ExpectedAreTheEntries(entries: seq<Entry>, i: nat)
    requires i < |entries| && forall k | 0 <= k < |entries| && k != i :: entries[k].crate != entries[i].crate
    ensures entries[i].crate in Expected(entries)
    ensures Expected(entries)[entries[i].crate] == Section(FeatureMap(entries[i].features), entries[i].combinations)
  {
    if i < |entries| - 1 {
      ExpectedAreTheEntries(entries[..|entries| - 1], i);
    }
  }

  lemma {:induction false} FeatureIsMapped(features: seq<(string, seq<string>)>, i: nat)
    requires i < |features| && forall k | i < k < |features| :: features[k].0 != features[i].0
    ensures features[i].0 in FeatureMap(features) && FeatureMap(features)[features[i].0] == features[i].1
  {
    if i < |features| - 1 {
      FeatureIsMapped(features[..|features| - 1], i);
    }
  }

  // ---- the verdict ----

  /** The dependencies found are those written, each as often; a single one that is empty is none. */
  predicate IsListing(found: Dependencies, written: seq<string>) {
    match found
    case Listed(items) => multiset(items) == multiset(written)
    case Single(text) => written == if text == "" then [] else [text]
  }

  predicate HasFeature(entry: Entry, name: string) {
    exists k :: 0 <= k < |entry.features| && entry.features[k].0 == name
  }

  predicate HasCrate(entries: seq<Entry>, crate: string) {
    exists i :: 0 <= i < |entries| && entries[i].crate == crate
  }

  /** The crate declares the features of the entry, with their dependencies, and no others. */
  predicate Declares(cargo: Features, entry: Entry) {
    && (forall feature | feature in cargo :: HasFeature(entry, feature))
    && forall k | 0 <= k < |entry.features| ::
         entry.features[k].0 in cargo && IsListing(cargo[entry.features[k].0], entry.features[k].1)
  }

  predicate WorkspaceIsWritten(crates: map<string, Features>, entries: seq<Entry>) {
    && (forall crate | crate in crates :: HasCrate(entries, crate))
    && forall i | 0 <= i < |entries| :: entries[i].crate in crates && Declares(crates[entries[i].crate], entries[i])
  }

  predicate NamesOnce(entry: Entry) {
    forall j, k | 0 <= j < k < |entry.features| :: entry.features[j].0 != entry.features[k].0
  }

  /** One entry a crate and one bullet a feature. */
  predicate IsPlain(entries: seq<Entry>) {
    && (forall i, k | 0 <= i < k < |entries| :: entries[i].crate != entries[k].crate)
    && forall i | 0 <= i < |entries| :: NamesOnce(entries[i])
  }

  lemma ListingsAreMultisets(found: Dependencies, written: seq<string>)
    ensures AsMultiset(found) == multiset(written) <==> IsListing(found, written)
  {
    if found.Single? && AsMultiset(found) == multiset(written) {
      assert |multiset(written)| == |written|;
      if found.text != "" {
        assert written[0] in multiset(written);
      }
    }
  }

  lemma {:induction false} MappedFeatures(features: seq<(string, seq<string>)>, name: string)
    ensures name in FeatureMap(features) <==> exists k :: 0 <= k < |features| && features[k].0 == name
  {
    if features != [] {
      var n := |features| - 1;
      MappedFeatures(features[..n], name);
      assert forall k | 0 <= k < n :: features[..n][k] == features[k];
    }
  }

  lemma {:induction false} ExpectedCrates(entries: seq<Entry>, crate: string)
    ensures crate in Expected(entries) <==> HasCrate(entries, crate)
  {
    if entries != [] {
      var n := |entries| - 1;
      ExpectedCrates(entries[..n], crate);
      assert forall i | 0 <= i < n :: entries[..n][i] == entries[i];
      assert entries[n].crate == crate ==> HasCrate(entries, crate);
    }
  }

  /** What agreement means for one crate. */
  predicate SameFeatures(cargo: Features, features: map<string, seq<string>>) {
    && cargo.Keys == features.Keys
    && forall feature | feature in cargo :: AsMultiset(cargo[feature]) == multiset(features[feature])
  }

  lemma DeclaredFeature(cargo: Features, entry: Entry, k: nat)
    requires NamesOnce(entry) && k < |entry.features|
    ensures var (name, dependencies), features := entry.features[k], FeatureMap(entry.features);
            && name in features
            && (name in cargo ==>
                  (AsMultiset(cargo[name]) == multiset(features[name]) <==> IsListing(cargo[name], dependencies)))
  {
    FeatureIsMapped(entry.features, k);
    if entry.features[k].0 in cargo {
      ListingsAreMultisets(cargo[entry.features[k].0], entry.features[k].1);
    }
  }

  lemma SameIsDeclared(cargo: Features, entry: Entry)
    requires NamesOnce(entry) && SameFeatures(cargo, FeatureMap(entry.features))
    ensures Declares(cargo, entry)
  {
    forall feature | feature in cargo ensures HasFeature(entry, feature) {
      MappedFeatures(entry.features, feature);
    }
    forall k | 0 <= k < |entry.features|
      ensures entry.features[k].0 in cargo && IsListing(cargo[entry.features[k].0], entry.features[k].1)
    {
      DeclaredFeature(cargo, entry, k);
    }
  }

  lemma DeclaredIsSame(cargo: Features, entry: Entry)
    requires NamesOnce(entry) && Declares(cargo, entry)
    ensures SameFeatures(cargo, FeatureMap(entry.features))
  {
    var features := FeatureMap(entry.features);
    forall feature | feature in cargo
      ensures feature in features && AsMultiset(cargo[feature]) == multiset(features[feature])
    {
      var k :| 0 <= k < |entry.features| && entry.features[k].0 == feature;
      DeclaredFeature(cargo, entry, k);
    }
    forall feature | feature in features ensures feature in cargo {
      MappedFeatures(entry.features, feature);
    }
  }

  lemma EntryDecides(cargo: Features, entry: Entry)
    requires NamesOnce(entry)
    ensures SameFeatures(cargo, FeatureMap(entry.features)) <==> Declares(cargo, entry)
  {
    if Declares(cargo, entry) {
      DeclaredIsSame(cargo, entry);
    } else if SameFeatures(cargo, FeatureMap(entry.features)) {
      SameIsDeclared(cargo, entry);
    }
  }

  lemma AgreementByCrate(crates: map<string, Features>, doc: map<string, Section>)
    ensures InAgreement(crates, Documented(doc)) <==>
            && crates.Keys == doc.Keys
            && forall crate | crate in crates :: SameFeatures(crates[crate], doc[crate].features)
  {
    var documented := Documented(doc);
    assert documented.Keys == doc.Keys;
    forall crate | crate in crates && crate in doc
      ensures documented[crate].Keys == doc[crate].features.Keys
      ensures forall f | f in documented[crate] ::
                AsMultiset(documented[crate][f]) == multiset(doc[crate].features[f])
    {
    }
  }

  /** Agreement with what is read back is agreement with what was written. */
  lemma AgreementIsWithTheEntries(crates: map<string, Features>, entries: seq<Entry>)
    requires IsPlain(entries)
    ensures InAgreement(crates, Documented(Expected(entries))) <==> WorkspaceIsWritten(crates, entries)
  {
    var doc := Expected(entries);
    AgreementByCrate(crates, doc);
    forall crate ensures crate in doc <==> HasCrate(entries, crate) {
      ExpectedCrates(entries, crate);
    }
    forall i | 0 <= i < |entries|
      ensures entries[i].crate in doc && doc[entries[i].crate].features == FeatureMap(entries[i].features)
      ensures entries[i].crate in crates ==>
                (SameFeatures(crates[entries[i].crate], FeatureMap(entries[i].features)) <==>
                 Declares(crates[entries[i].crate], entries[i]))
    {
      ExpectedAreTheEntries(entries, i);
      if entries[i].crate in crates {
        EntryDecides(crates[entries[i].crate], entries[i]);
      }
    }
    if WorkspaceIsWritten(crates, entries) {
      forall crate | crate in crates ensures SameFeatures(crates[crate], doc[crate].features) {
        var i :| 0 <= i < |entries| && entries[i].crate == crate;
      }
    }
  }

  /** The check of a document that was written out finds nothing if and only if its entries agree
      with the workspace. */
  method CheckWritten(crates: map<string, Features>, entries: seq<Entry>, format: Format) returns (drifts: seq<Drift>)
    requires forall i | 0 <= i < |entries| :: IsName(entries[i].crate) && ReadsBack(entries[i], format)
    ensures IsPlain(entries) ==> (drifts == [] <==> WorkspaceIsWritten(crates, entries))
    ensures forall drift :: drift in drifts <==> IsDrift(crates, Documented(Expected(entries)), drift)
  {
    drifts := CheckFeatureContract(crates, Document(entries, format), format.read);
    DocumentIsReadBack(entries, format);
    if IsPlain(entries) {
      AgreementIsWithTheEntries(crates, entries);
    }
  }
}
