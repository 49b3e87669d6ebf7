/** The lines of the feature matrix document: what each of them is for the parser. */
module FeatureLines {
  import opened Wrappers
  import opened Text

  /** The block that a line outside all blocks opens. */
  datatype Mode = Outside | InFeatures | InCombinations

  /** A bullet, read as a feature with its dependencies and as a minimal combination. */
  datatype Bullet = Bullet(name: string, dependencies: seq<string>, combination: string)

  datatype Row = Row(heading: Option<string>, opens: Mode, endsFeatures: bool, endsCombinations: bool,
                     bullet: Option<Bullet>)

  /** A heading ends every block. */
  type Line = row: Row | row.heading.Some? ==> row.endsFeatures && row.endsCombinations
    witness Row(None, Outside, false, false, None)

  const FEATURES := "**Features:**"
  const COMBINATIONS := "**Minimal combinations"
  const MINIMAL := "**Minimal"

  predicate StartsWith(text: string, prefix: string) {
    prefix <= text
  }

  /** Some number of `#` and then white space. */
  predicate IsMarked(text: string, marks: string) {
    StartsWith(text, marks) && |text| > |marks| && IsSpace(text[|marks|])
  }

  /** The crate that a heading line names. */
  function HeadingName(line: string): Option<string> {
    var text := TrimStart(TrimEnd(line));
    if IsMarked(text, "###") then Some(TrimStart(text[3..])) else None
  }

  predicate EndsCombinations(line: string) {
    Trim(line) == "" || IsMarked(TrimStart(line), "###") || IsMarked(TrimStart(line), "##")
  }

  predicate EndsFeatures(line: string) {
    EndsCombinations(line) || StartsWith(Trim(line), MINIMAL)
  }

  predicate IsBullet(line: string) {
    StartsWith(Trim(line), "-")
  }

  lemma {:induction false} TrimEndKeepsFirst(text: string)
    requires text != "" && !IsSpace(text[0])
    ensures TrimEnd(text) != "" && TrimEnd(text)[0] == text[0]
  {
    if IsSpace(text[|text| - 1]) {
      TrimEndKeepsFirst(text[..|text| - 1]);
    }
  }

  lemma {:induction false} TrimEndOfRest(text: string)
    requires text != "" && TrimEnd(text[1..]) != ""
    ensures TrimEnd(text) == [text[0]] + TrimEnd(text[1..])
  {
    if |text| > 1 && IsSpace(text[|text| - 1]) {
      assert text[1..][..|text| - 2] == text[..|text| - 1][1..];
      TrimEndOfRest(text[..|text| - 1]);
    } else {
      assert text == [text[0]] + text[1..];
    }
  }

  lemma TrimStartSkips(text: string)
    requires text != "" && IsSpace(text[0])
    ensures TrimStart(text) == TrimStart(text[1..])
  {
  }

  lemma {:induction false} TrimsCommute(text: string)
    ensures TrimStart(TrimEnd(text)) <= TrimStart(text)
  {
    if text != "" && IsSpace(text[0]) {
      TrimsCommute(text[1..]);
      TrimStartSkips(text);
      if TrimEnd(text[1..]) != "" {
        TrimEndOfRest(text);
        assert TrimEnd(text)[1..] == TrimEnd(text[1..]);
        TrimStartSkips(TrimEnd(text));
      } else {
        NothingLeft(text);
      }
    } else if text != "" {
      TrimEndKeepsFirst(text);
      assert TrimStart(TrimEnd(text)) == TrimEnd(text);
    }
  }

  lemma {:induction false} NothingLeft(text: string)
    requires text != "" && IsSpace(text[0]) && TrimEnd(text[1..]) == ""
    ensures TrimEnd(text) == ""
  {
    if |text| > 1 {
      assert text[1..][..|text| - 2] == text[..|text| - 1][1..];
      NothingLeft(text[..|text| - 1]);
    }
  }

  lemma MarkedPrefix(text: string, longer: string, marks: string)
    requires IsMarked(text, marks) && text <= longer
    ensures IsMarked(longer, marks)
  {
    assert text[..|marks|] == longer[..|marks|];
    assert text[|marks|] == longer[|marks|];
  }

  /** A heading ends every block, so no heading is taken for the line of a block. */
  lemma HeadingEndsBlocks(line: string)
    requires HeadingName(line).Some?
    ensures EndsCombinations(line) && EndsFeatures(line)
  {
    TrimsCommute(line);
    MarkedPrefix(TrimStart(TrimEnd(line)), TrimStart(line), "###");
  }

  function Opened(line: string): Mode {
    if Contains(TrimEnd(line), FEATURES) then InFeatures
    else if Contains(TrimEnd(line), COMBINATIONS) then InCombinations
    else Outside
  }

  function HeadingRow(name: Option<string>): Line {
    Row(name, Outside, true, true, None)
  }

  function PlainRow(opens: Mode, endsFeatures: bool, endsCombinations: bool, bullet: Option<Bullet>): Line {
    Row(None, opens, endsFeatures, endsCombinations, bullet)
  }

  /** What a line of text is; `read` stands for the regular expressions that take a bullet apart. */
  function Classify(line: string, read: string -> Bullet): Line {
    if HeadingName(line).Some? then HeadingRow(HeadingName(line))
    else PlainRow(Opened(line), EndsFeatures(line), EndsCombinations(line),
                  if IsBullet(line) then Some(read(Trim(line))) else None)
  }

  /** What a line of text is, by its text. */
  lemma ClassifiedExactlyWhen(line: string, read: string -> Bullet)
    ensures var row := Classify(line, read);
            && row.heading == HeadingName(line)
            && (row.heading.None? ==>
                  && (row.opens == InFeatures <==> Contains(TrimEnd(line), "**Features:**"))
                  && (row.opens == InCombinations <==>
                        Contains(TrimEnd(line), "**Minimal combinations") && !Contains(TrimEnd(line), "**Features:**"))
                  && row.bullet == (if "-" <= Trim(line) then Some(read(Trim(line))) else None))
            && (row.endsCombinations <==>
                  Trim(line) == "" || IsMarked(TrimStart(line), "###") || IsMarked(TrimStart(line), "##"))
            && (row.endsFeatures <==> row.endsCombinations || "**Minimal" <= Trim(line))
  {
    if HeadingName(line).Some? {
      HeadingEndsBlocks(line);
    }
  }

  function ClassifyAll(lines: seq<string>, read: string -> Bullet): (r: seq<Line>)
    ensures |r| == |lines| && forall i | 0 <= i < |lines| :: r[i] == Classify(lines[i], read)
  {
    seq(|lines|, i requires 0 <= i < |lines| => Classify(lines[i], read))
  }
}
