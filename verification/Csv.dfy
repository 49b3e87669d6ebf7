/** Lists stored as comma-separated values. Reading takes the pieces from the end. */
module Csv {
  import opened Wrappers

  function Join(pieces: seq<string>): string {
    if pieces == [] then ""
    else if |pieces| == 1 then pieces[0]
    else pieces[0] + "," + Join(pieces[1..])
  }

  /** One more character in front. */
  function Ahead(c: char, pieces: seq<string>): (r: seq<string>)
    requires pieces != []
    ensures r != []
  {
    if c == ',' then [""] + pieces else [[c] + pieces[0]] + pieces[1..]
  }

  lemma AheadAdds(c: char, pieces: seq<string>, more: seq<string>)
    requires pieces != []
    ensures Ahead(c, pieces + more) == Ahead(c, pieces) + more
  {
    assert (pieces + more)[1..] == pieces[1..] + more;
  }

  /** Always at least one piece: the text before the first comma. */
  function Split(text: string): (pieces: seq<string>)
    ensures pieces != []
  {
    if text == "" then [""]
    else Ahead(text[0], Split(text[1..]))
  }

  /** Joining undoes splitting, and no piece holds a comma. */
  lemma {:induction false} JoinSplit(text: string)
    ensures Join(Split(text)) == text && forall piece | piece in Split(text) :: ',' !in piece
  {
    if text != "" {
      var rest := Split(text[1..]);
      JoinSplit(text[1..]);
      assert text == [text[0]] + text[1..];
      if text[0] == ',' {
        assert ([""] + rest)[1..] == rest;
      } else {
        assert ([[text[0]] + rest[0]] + rest[1..])[1..] == rest[1..];
      }
    }
  }

  lemma {:induction false} SplitPiece(piece: string)
    requires ',' !in piece
    ensures Split(piece) == [piece]
  {
    if piece != "" {
      SplitPiece(piece[1..]);
      assert piece == [piece[0]] + piece[1..];
    }
  }

  lemma SplitStep(c: char, rest: string)
    ensures Split([c] + rest) == Ahead(c, Split(rest))
  {
    assert ([c] + rest)[1..] == rest;
  }

  lemma {:induction false} SplitAtComma(before: string, after: string)
    ensures Split(before + "," + after) == Split(before) + Split(after)
  {
    if before == "" {
      SplitStep(',', after);
      assert before + "," + after == [','] + after;
    } else {
      var rest := before[1..];
      SplitAtComma(rest, after);
      SplitStep(before[0], rest + "," + after);
      AheadAdds(before[0], Split(rest), Split(after));
      assert before + "," + after == [before[0]] + (rest + "," + after);
    }
  }

  lemma CommaMakesPieces(piece: string)
    ensures |Split(piece)| == 1 <==> ',' !in piece
  {
    if ',' !in piece {
      SplitPiece(piece);
    } else {
      JoinSplit(piece);
    }
  }

  /** Splitting undoes joining exactly when no piece holds a comma. */
  lemma {:induction false} SplitJoin(pieces: seq<string>)
    requires pieces != []
    ensures |Split(Join(pieces))| >= |pieces|
    ensures |Split(Join(pieces))| == |pieces| ==> forall piece | piece in pieces :: ',' !in piece
    ensures (forall piece | piece in pieces :: ',' !in piece) ==> Split(Join(pieces)) == pieces
  {
    CommaMakesPieces(pieces[0]);
    if ',' !in pieces[0] {
      SplitPiece(pieces[0]);
    }
    assert pieces == [pieces[0]] + pieces[1..];
    if |pieces| > 1 {
      SplitJoin(pieces[1..]);
      SplitAtComma(pieces[0], Join(pieces[1..]));
    }
  }

  // ---- reading and writing lists ----

  function Reversed<R>(values: seq<R>): (r: seq<R>)
    ensures |r| == |values| && forall i | 0 <= i < |values| :: r[i] == values[|values| - 1 - i]
  {
    seq(|values|, i requires 0 <= i < |values| => values[|values| - 1 - i])
  }

  /** Parses the pieces from the last to the first and stops at the first error met. */
  function Reading<R>(pieces: seq<string>, parse: string -> Result<R, string>): Result<seq<R>, string> {
    if pieces == [] then Success([])
    else
      match parse(pieces[|pieces| - 1])
      case Failure(error) => Failure(error)
      case Success(value) =>
        Continued([value], Reading(pieces[..|pieces| - 1], parse))
  }

  /** A reading succeeds when every piece parses, and lists the values back to front. */
  lemma {:induction false} ReadingIsBackwards<R>(pieces: seq<string>, parse: string -> Result<R, string>)
    ensures Reading(pieces, parse).Success? <==> forall piece | piece in pieces :: parse(piece).Success?
    ensures Reading(pieces, parse).Success? ==>
              && |Reading(pieces, parse).value| == |pieces|
              && forall i | 0 <= i < |pieces| :: parse(pieces[i]) == Success(Reversed(Reading(pieces, parse).value)[i])
  {
    if pieces != [] {
      var n := |pieces| - 1;
      ReadingIsBackwards(pieces[..n], parse);
      assert pieces == pieces[..n] + [pieces[n]];
      if Reading(pieces, parse).Success? {
        var all, rest := Reading(pieces, parse).value, Reading(pieces[..n], parse).value;
        forall i | 0 <= i < |pieces| ensures parse(pieces[i]) == Success(Reversed(all)[i]) {
          if i < n {
            assert pieces[..n][i] == pieces[i]
              && Reversed(all)[i] == all[n - i] == rest[n - i - 1] == Reversed(rest)[i];
          }
        }
      }
    }
  }

  /** A failed reading gives the error of the last piece that does not parse. */
  lemma {:induction false} ReadingFailsAtTheLast<R>(pieces: seq<string>, parse: string -> Result<R, string>)
    requires Reading(pieces, parse).Failure?
    ensures exists k :: 0 <= k < |pieces| && parse(pieces[k]) == Failure(Reading(pieces, parse).error)
                        && forall i | k < i < |pieces| :: parse(pieces[i]).Success?
  {
    var n := |pieces| - 1;
    if parse(pieces[n]).Success? {
      var init := pieces[..n];
      ReadingFailsAtTheLast(init, parse);
      var k :| 0 <= k < n && parse(init[k]) == Failure(Reading(init, parse).error)
               && forall i | k < i < n :: parse(init[i]).Success?;
      assert parse(pieces[k]) == Failure(Reading(pieces, parse).error);
      forall i | k < i < |pieces| ensures parse(pieces[i]).Success? {
        assert i < n ==> pieces[i] == init[i];
      }
    }
  }

  /** A reading that goes on after `values` have been read. */
  function Continued<R>(values: seq<R>, rest: Result<seq<R>, string>): Result<seq<R>, string> {
    match rest
    case Failure(error) => Failure(error)
    case Success(more) => Success(values + more)
  }

  lemma ContinuedTwice<R>(values: seq<R>, value: R, rest: Result<seq<R>, string>)
    ensures Continued(values, Continued([value], rest)) == Continued(values + [value], rest)
  {
    if rest.Success? {
      assert values + ([value] + rest.value) == values + [value] + rest.value;
    }
  }

  lemma ContinuedFromNothing<R>(rest: Result<seq<R>, string>)
    ensures Continued([], rest) == rest
  {
    if rest.Success? {
      assert [] + rest.value == rest.value;
    }
  }

  method FromCsv<R>(text: string, parse: string -> Result<R, string>) returns (r: Result<seq<R>, string>)
    ensures r == Reading(Split(text), parse)
  {
    var pieces := Split(text);
    var values := [];
    ghost var all := pieces;
    ContinuedFromNothing(Reading(all, parse));
    while pieces != []
      invariant Reading(all, parse) == Continued(values, Reading(pieces, parse))
      decreases |pieces|
    {
      var parsed := parse(pieces[|pieces| - 1]);
      pieces := pieces[..|pieces| - 1];
      if parsed.Failure? {
        return Failure(parsed.error);
      }
      ContinuedTwice(values, parsed.value, Reading(pieces, parse));
      values := values + [parsed.value];
    }
    assert values + [] == values;
    return Success(values);
  }

  function Prints<R>(values: seq<R>, show: R -> string): (r: seq<string>)
    ensures |r| == |values| && forall i | 0 <= i < |values| :: r[i] == show(values[i])
  {
    seq(|values|, i requires 0 <= i < |values| => show(values[i]))
  }

  function IntoCsv<R>(values: seq<R>, show: R -> string): string {
    Join(Prints(values, show))
  }

  /** Each element prints without a comma and parses back to itself. */
  predicate IsReadable<R(==)>(values: seq<R>, show: R -> string, parse: string -> Result<R, string>) {
    forall i | 0 <= i < |values| :: ',' !in show(values[i]) && parse(show(values[i])) == Success(values[i])
  }

  lemma ReversedTwice<R>(values: seq<R>)
    ensures Reversed(Reversed(values)) == values
  {
  }

  lemma ReadableReverses<R>(values: seq<R>, show: R -> string, parse: string -> Result<R, string>)
    requires values != [] && IsReadable(values, show, parse)
    ensures Reading(Split(IntoCsv(values, show)), parse) == Success(Reversed(values))
  {
    var prints := Prints(values, show);
    SplitJoin(prints);
    assert Split(Join(prints)) == prints;
    ReadingIsBackwards(prints, parse);
    assert Reading(prints, parse).Success?;
    var read := Reading(prints, parse).value;
    assert Reversed(read) == values by {
      forall i | 0 <= i < |values| ensures Reversed(read)[i] == values[i] {
        assert parse(prints[i]) == Success(values[i]);
      }
    }
    ReversedTwice(read);
  }

  lemma ReversingIsReadable<R>(values: seq<R>, show: R -> string, parse: string -> Result<R, string>)
    requires values != [] && Reading(Split(IntoCsv(values, show)), parse) == Success(Reversed(values))
    ensures IsReadable(values, show, parse)
  {
    var prints := Prints(values, show);
    var pieces := Split(Join(prints));
    SplitJoin(prints);
    ReadingIsBackwards(pieces, parse);
    assert pieces == prints;
    ReversedTwice(values);
    forall i | 0 <= i < |values| ensures ',' !in show(values[i]) && parse(show(values[i])) == Success(values[i]) {
      assert prints[i] in prints;
    }
  }

  /** A nonempty list reads back as its reverse exactly when each of its elements is readable. */
  lemma RoundTripReverses<R>(values: seq<R>, show: R -> string, parse: string -> Result<R, string>)
    requires values != []
    ensures Reading(Split(IntoCsv(values, show)), parse) == Success(Reversed(values)) <==>
            IsReadable(values, show, parse)
  {
    if IsReadable(values, show, parse) {
      ReadableReverses(values, show, parse);
    } else if Reading(Split(IntoCsv(values, show)), parse) == Success(Reversed(values)) {
      ReversingIsReadable(values, show, parse);
    }
  }

  /** Two trips restore the list. */
  lemma TwoTripsRestore<R>(values: seq<R>, show: R -> string, parse: string -> Result<R, string>)
    requires values != [] && IsReadable(values, show, parse)
    ensures var once := Reading(Split(IntoCsv(values, show)), parse);
            && once.Success? && multiset(once.value) == multiset(values)
            && Reading(Split(IntoCsv(once.value, show)), parse) == Success(values)
  {
    ReadableReverses(values, show, parse);
    ReadableReverses(Reversed(values), show, parse);
    ReversedTwice(values);
    ReversedKeepsElements(values);
  }

  lemma {:induction false} ReversedKeepsElements<R>(values: seq<R>)
    ensures multiset(Reversed(values)) == multiset(values)
  {
    if values != [] {
      ReversedKeepsElements(values[1..]);
      assert values == [values[0]] + values[1..];
      assert Reversed(values) == Reversed(values[1..]) + [values[0]];
    }
  }

  /** One trip gives the list back only if it is its own reverse. */
  lemma OneTripRestoresPalindromes<R>(values: seq<R>, show: R -> string, parse: string -> Result<R, string>)
    requires values != [] && IsReadable(values, show, parse)
    ensures Reading(Split(IntoCsv(values, show)), parse) == Success(values)
            <==> forall i | 0 <= i < |values| :: values[i] == values[|values| - 1 - i]
  {
    ReadableReverses(values, show, parse);
    if forall i | 0 <= i < |values| :: values[i] == values[|values| - 1 - i] {
      assert Reversed(values) == values;
    }
  }

  /** The empty list is never read back: its text is one empty piece. */
  lemma EmptyListIsLost<R>(show: R -> string, parse: string -> Result<R, string>)
    ensures Reading(Split(IntoCsv([], show)), parse) != Success([])
  {
    ReadingIsBackwards(Split(""), parse);
  }
}
