/** Parsing the feature matrix document: nested index-driven loops, proved equal to a fold that
    takes the lines one at a time, and what that fold collects for each crate. */
module FeatureMatrix {
  import opened Wrappers
  import opened FeatureLines

  datatype Section = Section(features: map<string, seq<string>>, combinations: seq<string>)

  const EMPTY := Section(map[], [])

  // ---- one line at a time ----

  /** What has been collected since a heading. */
  datatype Part = Part(mode: Mode, section: Section)

  function WithFeature(section: Section, bullet: Bullet): Section {
    section.(features := section.features[bullet.name := bullet.dependencies])
  }

  function WithCombination(section: Section, bullet: Bullet): Section {
    section.(combinations := section.combinations + [bullet.combination])
  }

  /** The line belongs to the block that is open. */
  predicate StaysInBlock(mode: Mode, line: Line) {
    match mode
    case Outside => false
    case InFeatures => !line.endsFeatures
    case InCombinations => !line.endsCombinations
  }

  function PartStep(part: Part, line: Line): Part {
    if !StaysInBlock(part.mode, line) then part.(mode := line.opens)
    else if line.bullet.None? then part
    else if part.mode.InFeatures? then part.(section := WithFeature(part.section, line.bullet.value))
    else part.(section := WithCombination(part.section, line.bullet.value))
  }

  function PartOf(body: seq<Line>): Part {
    if body == [] then Part(Outside, EMPTY)
    else PartStep(PartOf(body[..|body| - 1]), body[|body| - 1])
  }

  /** The matrix so far; before the first heading nothing is collected. */
  datatype Matrix = Matrix(doc: map<string, Section>, current: Option<string>, mode: Mode)

  predicate IsValid(m: Matrix) {
    if m.current.Some? then m.current.value in m.doc else m.mode.Outside?
  }

  function Step(m: Matrix, line: Line): (r: Matrix)
    requires IsValid(m)
    ensures IsValid(r)
  {
    var name := line.heading;
    if name.Some? then Matrix(m.doc[name.value := EMPTY], name, Outside)
    else if m.current.None? then m
    else
      var part := PartStep(Part(m.mode, m.doc[m.current.value]), line);
      Matrix(m.doc[m.current.value := part.section], m.current, part.mode)
  }

  function Fold(lines: seq<Line>): (r: Matrix)
    ensures IsValid(r)
  {
    if lines == [] then Matrix(map[], None, Outside)
    else Step(Fold(lines[..|lines| - 1]), lines[|lines| - 1])
  }

  lemma FoldOneMore(lines: seq<Line>, i: nat)
    requires i < |lines|
    ensures Fold(lines[..i + 1]) == Step(Fold(lines[..i]), lines[i])
  {
    assert lines[..i + 1][..i] == lines[..i];
  }

  /** Outside a heading, a line that the open block does not take only decides what is open next. */
  lemma FoldOutside(lines: seq<Line>, i: nat)
    requires i < |lines| && lines[i].heading.None? && !StaysInBlock(Fold(lines[..i]).mode, lines[i])
    ensures var m := Fold(lines[..i]);
            Fold(lines[..i + 1]) == if m.current.Some? then m.(mode := lines[i].opens) else m
  {
    FoldOneMore(lines, i);
    var m := Fold(lines[..i]);
    if m.current.Some? {
      assert m.doc[m.current.value := m.doc[m.current.value]] == m.doc;
    }
  }

  /** A line inside a block adds its bullet, if it has one, to the current crate. */
  lemma FoldInside(lines: seq<Line>, i: nat)
    requires i < |lines| && StaysInBlock(Fold(lines[..i]).mode, lines[i])
    ensures var m, bullet := Fold(lines[..i]), lines[i].bullet;
            && m.current.Some? && m.current.value in m.doc
            && var section := m.doc[m.current.value];
            Fold(lines[..i + 1]) ==
              if bullet.None? then m
              else m.(doc := m.doc[m.current.value := if m.mode.InFeatures? then WithFeature(section, bullet.value)
                                                      else WithCombination(section, bullet.value)])
  {
    FoldOneMore(lines, i);
    var m := Fold(lines[..i]);
    assert m.doc[m.current.value := m.doc[m.current.value]] == m.doc;
  }

  // ---- the nested loops ----

  /** The outer loop is at line `i`: a block that is still open does not take that line. */
  ghost predicate AtOuterLevel(lines: seq<Line>, i: nat, doc: map<string, Section>, current: Option<string>) {
    && i <= |lines|
    && var m := Fold(lines[..i]);
    m.doc == doc && m.current == current && (i < |lines| ==> !StaysInBlock(m.mode, lines[i]))
  }

  /** An inner loop is at line `i`, in a block of the current crate. */
  ghost predicate InBlock(lines: seq<Line>, i: nat, doc: map<string, Section>, current: Option<string>, mode: Mode) {
    i <= |lines| && current.Some? && current.value in doc && Fold(lines[..i]) == Matrix(doc, current, mode)
  }

  lemma TakeHeading(lines: seq<Line>, i: nat, doc: map<string, Section>, current: Option<string>)
    requires i < |lines| && AtOuterLevel(lines, i, doc, current) && lines[i].heading.Some?
    ensures AtOuterLevel(lines, i + 1, doc[lines[i].heading.value := EMPTY], lines[i].heading)
  {
    FoldOneMore(lines, i);
  }

  lemma TakeOutside(lines: seq<Line>, i: nat, doc: map<string, Section>, current: Option<string>)
    requires i < |lines| && AtOuterLevel(lines, i, doc, current) && lines[i].heading.None?
    ensures current.Some? && !lines[i].opens.Outside? ==> InBlock(lines, i + 1, doc, current, lines[i].opens)
    ensures current.None? || lines[i].opens.Outside? ==> AtOuterLevel(lines, i + 1, doc, current)
  {
    FoldOutside(lines, i);
  }

  lemma TakeInside(lines: seq<Line>, i: nat, doc: map<string, Section>, current: Option<string>, mode: Mode)
    requires i < |lines| && InBlock(lines, i, doc, current, mode) && StaysInBlock(mode, lines[i])
    ensures InBlock(lines, i + 1,
                    if lines[i].bullet.None? then doc
                    else if mode.InFeatures?
                    then doc[current.value := WithFeature(doc[current.value], lines[i].bullet.value)]
                    else doc[current.value := WithCombination(doc[current.value], lines[i].bullet.value)],
                    current, mode)
  {
    FoldInside(lines, i);
  }

  lemma LeaveBlock(lines: seq<Line>, i: nat, doc: map<string, Section>, current: Option<string>, mode: Mode)
    requires InBlock(lines, i, doc, current, mode) && (i < |lines| ==> !StaysInBlock(mode, lines[i]))
    ensures AtOuterLevel(lines, i, doc, current)
  {
  }

  method ParseFeatureMatrix(lines: seq<Line>) returns (doc: map<string, Section>)
    ensures doc == Fold(lines).doc
  {
    doc := map[];
    var current: Option<string> := None;
    var i := 0;
    while i < |lines|
      invariant 0 <= i <= |lines|
      invariant AtOuterLevel(lines, i, doc, current)
    {
      var heading := lines[i].heading;
      if heading.Some? {
        TakeHeading(lines, i, doc, current);
        current := heading;
        doc := doc[current.value := EMPTY];
        i := i + 1;
        continue;
      }
      TakeOutside(lines, i, doc, current);
      if current.None? {
        i := i + 1;
        continue;
      }
      if lines[i].opens.InFeatures? {
        i := i + 1;
        while i < |lines|
          invariant 0 < i <= |lines|
          invariant InBlock(lines, i, doc, current, InFeatures)
        {
          if lines[i].endsFeatures {
            break;
          }
          TakeInside(lines, i, doc, current, InFeatures);
          if lines[i].bullet.Some? {
            doc := doc[current.value := WithFeature(doc[current.value], lines[i].bullet.value)];
          }
          i := i + 1;
        }
        LeaveBlock(lines, i, doc, current, InFeatures);
        continue;
      }
      if lines[i].opens.InCombinations? {
        i := i + 1;
        while i < |lines|
          invariant 0 < i <= |lines|
          invariant InBlock(lines, i, doc, current, InCombinations)
        {
          if lines[i].endsCombinations {
            break;
          }
          TakeInside(lines, i, doc, current, InCombinations);
          if lines[i].bullet.Some? {
            doc := doc[current.value := WithCombination(doc[current.value], lines[i].bullet.value)];
          }
          i := i + 1;
        }
        LeaveBlock(lines, i, doc, current, InCombinations);
        continue;
      }
      i := i + 1;
    }
    assert lines[..|lines|] == lines;
  }

  // ---- what is collected ----

  /** The documented crates are those that headings name. */
  lemma {:induction false} CratesAreTheHeadings(lines: seq<Line>, crate: string)
    ensures crate in Fold(lines).doc <==> exists i :: 0 <= i < |lines| && lines[i].heading == Some(crate)
  {
    if lines != [] {
      var n := |lines| - 1;
      CratesAreTheHeadings(lines[..n], crate);
      CrateInStep(Fold(lines[..n]), lines[n], crate);
      assert forall i | 0 <= i < n :: lines[..n][i] == lines[i];
    }
  }

  lemma CrateInStep(m: Matrix, line: Line, crate: string)
    requires IsValid(m)
    ensures crate in Step(m, line).doc <==> crate in m.doc || line.heading == Some(crate)
  {
  }

  predicate NoHeading(lines: seq<Line>) {
    forall i | 0 <= i < |lines| :: lines[i].heading.None?
  }

  /** The lines `from..to` follow the last heading of `crate` up to the next heading. */
  predicate IsLastSection(lines: seq<Line>, crate: string, from: nat, to: nat) {
    && 0 < from <= to <= |lines|
    && lines[from - 1].heading == Some(crate)
    && NoHeading(lines[from..to])
    && (to < |lines| ==> lines[to].heading.Some?)
    && forall i | to <= i < |lines| :: lines[i].heading != Some(crate)
  }

  lemma BodyOneMore(lines: seq<Line>, from: nat, to: nat)
    requires from < to <= |lines| && NoHeading(lines[from..to])
    ensures NoHeading(lines[from..to - 1]) && lines[to - 1].heading.None?
    ensures PartOf(lines[from..to]) == PartStep(PartOf(lines[from..to - 1]), lines[to - 1])
  {
    assert lines[from..to][..to - 1 - from] == lines[from..to - 1];
    assert lines[from..to][to - 1 - from] == lines[to - 1];
    assert NoHeading(lines[from..to - 1]) by {
      assert lines[from..to - 1] == lines[from..to][..to - 1 - from];
    }
  }

  /** Reading on below a heading, up to the next one. */
  lemma {:induction false} BelowHeading(lines: seq<Line>, crate: string, from: nat, to: nat)
    requires 0 < from <= to <= |lines| && lines[from - 1].heading == Some(crate) && NoHeading(lines[from..to])
    ensures var m, part := Fold(lines[..to]), PartOf(lines[from..to]);
            && m.current == Some(crate) && m.mode == part.mode
            && m.doc == Fold(lines[..from - 1]).doc[crate := part.section]
  {
    if from == to {
      FoldOneMore(lines, from - 1);
    } else {
      BodyOneMore(lines, from, to);
      BelowHeading(lines, crate, from, to - 1);
      FoldOneMore(lines, to - 1);
    }
  }

  /** Lines under headings of other crates leave the crate alone. */
  lemma {:induction false} OtherSectionsKeep(lines: seq<Line>, crate: string, from: nat, to: nat)
    requires from < to <= |lines| && lines[from].heading.Some?
    requires forall i | from <= i < to :: lines[i].heading != Some(crate)
    ensures var before, after := Fold(lines[..from]), Fold(lines[..to]);
            && after.current.Some? && after.current != Some(crate)
            && (crate in before.doc ==> crate in after.doc && after.doc[crate] == before.doc[crate])
  {
    FoldOneMore(lines, to - 1);
    if from + 1 < to {
      OtherSectionsKeep(lines, crate, from, to - 1);
    }
  }

  /** The entry of a crate is read off the lines between its last heading and the next heading
      alone: every bullet goes to the latest heading's crate, and a repeated heading starts the
      entry afresh. */
  lemma EntryIsTheLastSection(lines: seq<Line>, crate: string, from: nat, to: nat)
    requires IsLastSection(lines, crate, from, to)
    ensures crate in Fold(lines).doc && Fold(lines).doc[crate] == PartOf(lines[from..to]).section
  {
    BelowHeading(lines, crate, from, to);
    assert lines[..|lines|] == lines;
    if to < |lines| {
      OtherSectionsKeep(lines, crate, to, |lines|);
    }
  }

  /** Every documented crate has such a last section. */
  lemma {:induction false} LastSectionExists(lines: seq<Line>, crate: string) returns (from: nat, to: nat)
    requires exists i :: 0 <= i < |lines| && lines[i].heading == Some(crate)
    ensures IsLastSection(lines, crate, from, to)
  {
    from := |lines|;
    while lines[from - 1].heading != Some(crate)
      invariant 0 < from <= |lines|
      invariant exists i :: 0 <= i < from && lines[i].heading == Some(crate)
      invariant forall i | from <= i < |lines| :: lines[i].heading != Some(crate)
      decreases from
    {
      from := from - 1;
    }
    to := from;
    while to < |lines| && lines[to].heading.None?
      invariant from <= to <= |lines|
      invariant forall i | from <= i < to :: lines[i].heading.None?
    {
      to := to + 1;
    }
  }

  // ---- which bullets a section takes ----

  /** Line `k` opens a block of this mode that is still open before line `j`. */
  predicate OpenSince(body: seq<Line>, k: nat, j: nat, mode: Mode)
    requires k < j <= |body|
  {
    && !StaysInBlock(PartOf(body[..k]).mode, body[k]) && body[k].opens == mode
    && forall i | k < i < j :: StaysInBlock(mode, body[i])
  }

  lemma PartOneMore(body: seq<Line>, i: nat)
    requires i < |body|
    ensures PartOf(body[..i + 1]) == PartStep(PartOf(body[..i]), body[i])
  {
    assert body[..i + 1][..i] == body[..i];
  }

  /** A block is open exactly when some line opened one of its mode and every line since belongs
      to it. */
  lemma {:induction false} BlockIsOpen(body: seq<Line>, j: nat, mode: Mode)
    requires j <= |body| && mode != Outside
    ensures PartOf(body[..j]).mode == mode <==> exists k :: 0 <= k < j && OpenSince(body, k, j, mode)
  {
    if j > 0 {
      BlockIsOpen(body, j - 1, mode);
      PartOneMore(body, j - 1);
      if PartOf(body[..j]).mode == mode {
        if StaysInBlock(PartOf(body[..j - 1]).mode, body[j - 1]) {
          var k :| 0 <= k < j - 1 && OpenSince(body, k, j - 1, mode);
          assert OpenSince(body, k, j, mode);
        } else {
          assert OpenSince(body, j - 1, j, mode);
        }
      } else if k :| 0 <= k < j && OpenSince(body, k, j, mode) {
        assert k < j - 1 ==> OpenSince(body, k, j - 1, mode);
      }
    }
  }

  /** Line `j` is a bullet of an open features block and documents `name`. */
  predicate DocumentsFeature(body: seq<Line>, j: nat, name: string)
    requires j < |body|
  {
    && PartOf(body[..j]).mode.InFeatures? && !body[j].endsFeatures
    && body[j].bullet.Some? && body[j].bullet.value.name == name
  }

  lemma FeatureStep(part: Part, line: Line, name: string)
    ensures var features, features' := part.section.features, PartStep(part, line).section.features;
            if part.mode.InFeatures? && !line.endsFeatures && line.bullet.Some? && line.bullet.value.name == name
            then name in features' && features'[name] == line.bullet.value.dependencies
            else (name in features' <==> name in features) && (name in features ==> features'[name] == features[name])
  {
  }

  lemma FeatureOneMore(body: seq<Line>, i: nat, name: string)
    requires i < |body|
    ensures var features, features' := PartOf(body[..i]).section.features, PartOf(body[..i + 1]).section.features;
            if DocumentsFeature(body, i, name)
            then name in features' && features'[name] == body[i].bullet.value.dependencies
            else (name in features' <==> name in features) && (name in features ==> features'[name] == features[name])
  {
    PartOneMore(body, i);
    FeatureStep(PartOf(body[..i]), body[i], name);
  }

  /** The last line before `n` that documents the feature. */
  predicate IsLastDocumenting(body: seq<Line>, j: nat, n: nat, name: string)
    requires j < n <= |body|
  {
    DocumentsFeature(body, j, name) && forall k | j < k < n :: !DocumentsFeature(body, k, name)
  }

  lemma {:induction false} FeatureIsDocumented(body: seq<Line>, n: nat, name: string)
    requires n <= |body|
    ensures name in PartOf(body[..n]).section.features <==> exists j :: 0 <= j < n && DocumentsFeature(body, j, name)
  {
    if n > 0 {
      FeatureIsDocumented(body, n - 1, name);
      FeatureOneMore(body, n - 1, name);
    }
  }

  lemma {:induction false} LastBulletWins(body: seq<Line>, j: nat, n: nat, name: string)
    requires j < n <= |body| && IsLastDocumenting(body, j, n, name)
    ensures name in PartOf(body[..n]).section.features
    ensures PartOf(body[..n]).section.features[name] == body[j].bullet.value.dependencies
  {
    FeatureOneMore(body, n - 1, name);
    if j < n - 1 {
      assert IsLastDocumenting(body, j, n - 1, name);
      LastBulletWins(body, j, n - 1, name);
    }
  }

  /** A section knows the features that bullets of its features blocks document, each with the
      dependencies of the last such bullet. */
  lemma FeaturesAreTheBullets(body: seq<Line>, n: nat, name: string)
    requires n <= |body|
    ensures name in PartOf(body[..n]).section.features <==> exists j :: 0 <= j < n && DocumentsFeature(body, j, name)
    ensures forall j | 0 <= j < n && IsLastDocumenting(body, j, n, name) ::
              PartOf(body[..n]).section.features[name] == body[j].bullet.value.dependencies
  {
    FeatureIsDocumented(body, n, name);
    forall j | 0 <= j < n && IsLastDocumenting(body, j, n, name)
      ensures PartOf(body[..n]).section.features[name] == body[j].bullet.value.dependencies
    {
      LastBulletWins(body, j, n, name);
    }
  }

  /** Line `j` is a bullet of an open combinations block. */
  predicate GivesCombination(body: seq<Line>, j: nat)
    requires j < |body|
  {
    PartOf(body[..j]).mode.InCombinations? && !body[j].endsCombinations && body[j].bullet.Some?
  }

  /** The combinations that the first `n` lines give, in their order. */
  function Given(body: seq<Line>, n: nat): seq<string>
    requires n <= |body|
  {
    if n == 0 then []
    else Given(body, n - 1) + (if GivesCombination(body, n - 1) then [body[n - 1].bullet.value.combination] else [])
  }

  /** A section lists the combinations of exactly the bullets of its open combinations blocks, in
      their order and with repetitions. */
  lemma {:induction false} CombinationsAreTheBullets(body: seq<Line>, n: nat)
    requires n <= |body|
    ensures PartOf(body[..n]).section.combinations == Given(body, n)
  {
    if n > 0 {
      CombinationsAreTheBullets(body, n - 1);
      PartOneMore(body, n - 1);
    }
  }
}
