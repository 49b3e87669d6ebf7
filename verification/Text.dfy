/** The few string operations the modelled code relies on. White space is the ASCII one. */
module Text {
  import opened Wrappers

  predicate IsSpace(c: char) {
    c == ' ' || '\t' <= c <= '\r'
  }

  /** Trimming leaves nothing. */
  predicate IsBlank(text: string) {
    forall c | c in text :: IsSpace(c)
  }

  predicate OccursAt(text: string, pattern: string, i: int) {
    0 <= i <= |text| - |pattern| && text[i..i + |pattern|] == pattern
  }

  predicate Contains(text: string, pattern: string) {
    exists i | 0 <= i <= |text| :: OccursAt(text, pattern, i)
  }

  /** The first occurrence at or after `from`. */
  function FindFrom(text: string, pattern: string, from: nat): (found: Option<nat>)
    requires from <= |text|
    ensures found.Some? ==> from <= found.value && OccursAt(text, pattern, found.value)
    ensures found.Some? ==> forall i | from <= i < found.value :: !OccursAt(text, pattern, i)
    ensures found.None? ==> forall i | from <= i <= |text| :: !OccursAt(text, pattern, i)
    decreases |text| - from
  {
    if OccursAt(text, pattern, from) then Some(from)
    else if from == |text| then None
    else FindFrom(text, pattern, from + 1)
  }

  function Find(text: string, pattern: string): Option<nat> {
    FindFrom(text, pattern, 0)
  }

  lemma FindIsFirst(text: string, pattern: string, i: nat)
    requires OccursAt(text, pattern, i) && forall k | 0 <= k < i :: !OccursAt(text, pattern, k)
    ensures Find(text, pattern) == Some(i)
  {
  }

  lemma ContainsMiddle(before: string, pattern: string, after: string)
    ensures Contains(before + pattern + after, pattern)
  {
    var text := before + pattern + after;
    assert text[|before|..|before| + |pattern|] == pattern;
    assert OccursAt(text, pattern, |before|);
  }

  lemma Mismatch(text: string, pattern: string, i: int, k: nat)
    requires k < |pattern| && (0 <= i && i + k < |text| ==> text[i + k] != pattern[k])
    ensures !OccursAt(text, pattern, i)
  {
    if 0 <= i <= |text| - |pattern| {
      assert text[i..i + |pattern|][k] == text[i + k];
    }
  }

  function TrimStart(text: string): (r: string)
    ensures |r| <= |text| && r == text[|text| - |r|..]
    ensures r != "" ==> !IsSpace(r[0])
    ensures IsBlank(text[..|text| - |r|])
  {
    if text == "" || !IsSpace(text[0]) then text
    else
      var r := TrimStart(text[1..]);
      assert text[..|text| - |r|] == [text[0]] + text[1..][..|text| - 1 - |r|];
      r
  }

  function TrimEnd(text: string): (r: string)
    ensures |r| <= |text| && r == text[..|r|]
    ensures r != "" ==> !IsSpace(r[|r| - 1])
    ensures IsBlank(text[|r|..])
  {
    if text == "" || !IsSpace(text[|text| - 1]) then text
    else
      var r := TrimEnd(text[..|text| - 1]);
      assert text[|r|..] == text[..|text| - 1][|r|..] + [text[|text| - 1]];
      r
  }

  function Trim(text: string): string {
    TrimEnd(TrimStart(text))
  }
}
