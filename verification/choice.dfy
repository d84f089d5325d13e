/**
 * The text encodings of a leg in the purchase URLs: the departure part
 * writes spaces as '_', and a round-trip choice is "airline|flight|departure".
 */
module Choice {
  import opened Optional

  /** `str.replace("_", " ")`: every underscore becomes a space. */
  function UnderscoresToSpaces(s: string): (r: string)
    ensures |r| == |s| && '_' !in r
    ensures forall k :: 0 <= k < |s| && s[k] != '_' ==> r[k] == s[k]
    ensures forall k :: 0 <= k < |s| && s[k] == '_' ==> r[k] == ' '
  {
    if s == [] then []
    else [if s[0] == '_' then ' ' else s[0]] + UnderscoresToSpaces(s[1..])
  }

  /** `str.split(sep)`: the pieces between the separators, in order. */
  function Split(s: string, sep: char): (parts: seq<string>)
    ensures |parts| >= 1 && |parts| <= |s| + 1
  {
    if s == [] then [[]]
    else
      var rest := Split(s[1..], sep);
      if s[0] == sep then [[]] + rest
      else [[s[0]] + rest[0]] + rest[1..]
  }

  /**
   * Splitting gives one more piece than there are separators, none of which
   * holds the separator.
   */
  lemma {:induction false} SplitPieces(s: string, sep: char)
    ensures |Split(s, sep)| == multiset(s)[sep] + 1
    ensures forall k :: 0 <= k < |Split(s, sep)| ==> sep !in Split(s, sep)[k]
  {
    if s != [] {
      SplitPieces(s[1..], sep);
      assert s == [s[0]] + s[1..];
    }
  }

  /** `sep.join(parts)`. */
  function Join(parts: seq<string>, sep: char): string
    requires |parts| >= 1
  {
    if |parts| == 1 then parts[0] else parts[0] + [sep] + Join(parts[1..], sep)
  }

  /** Splitting and joining again gives back the text. */
  lemma {:induction false} SplitJoin(s: string, sep: char)
    ensures Join(Split(s, sep), sep) == s
  {
    if s != [] {
      SplitJoin(s[1..], sep);
      SplitJoinStep(s, sep);
    }
  }

  /** One step of SplitJoin: the first character is put back in front. */
  lemma SplitJoinStep(s: string, sep: char)
    requires s != [] && Join(Split(s[1..], sep), sep) == s[1..]
    ensures Join(Split(s, sep), sep) == s
  {
    var rest := Split(s[1..], sep);
    assert s == [s[0]] + s[1..];
    if s[0] == sep {
      JoinCons([], rest, sep);
    } else if |rest| == 1 {
      assert Split(s, sep) == [[s[0]] + rest[0]];
    } else {
      var first := [s[0]] + rest[0];
      assert Split(s, sep) == [first] + rest[1..];
      JoinCons(first, rest[1..], sep);
      JoinCons(rest[0], rest[1..], sep);
      assert rest == [rest[0]] + rest[1..];
    }
  }

  lemma JoinCons(head: string, tail: seq<string>, sep: char)
    requires |tail| >= 1
    ensures Join([head] + tail, sep) == head + [sep] + Join(tail, sep)
  {
  }

  /** Splitting a separator-free head followed by the separator splits off the head. */
  lemma {:induction false} SplitAfterHead(head: string, sep: char, tail: string)
    requires sep !in head
    ensures Split(head + [sep] + tail, sep) == [head] + Split(tail, sep)
    decreases |head|
  {
    if head == [] {
      assert head + [sep] + tail == [sep] + tail;
      assert ([sep] + tail)[1..] == tail;
    } else {
      SplitAfterHead(head[1..], sep, tail);
      var s := head + [sep] + tail;
      assert s[1..] == head[1..] + [sep] + tail;
      assert [head[0]] + head[1..] == head;
    }
  }

  /** A separator-free text splits into itself. */
  lemma {:induction false} SplitNoSeparator(s: string, sep: char)
    requires sep !in s
    ensures Split(s, sep) == [s]
  {
    if s != [] {
      SplitNoSeparator(s[1..], sep);
      assert [s[0]] + s[1..] == s;
    }
  }

  /** One leg chosen on the round-trip search page. */
  datatype LegChoice = LegChoice(airline: string, flight: string, departure: string)

  /**
   * parse_choice: split on '|' into exactly three fields and turn the
   * underscores of the departure field into spaces. Any other number of
   * fields makes the unpacking fail (None).
   */
  function ParseChoice(choice: string): (r: Option<LegChoice>)
    ensures r.Some? <==> multiset(choice)['|'] == 2
    ensures r.Some? ==> '|' !in r.value.airline && '|' !in r.value.flight
                        && '|' !in r.value.departure && '_' !in r.value.departure
  {
    var parts := Split(choice, '|');
    SplitPieces(choice, '|');
    if |parts| != 3 then None
    else Some(LegChoice(parts[0], parts[1], UnderscoresToSpaces(parts[2])))
  }

  /** The encoding "airline|flight|departure" is read back field by field. */
  lemma ParseChoiceOfFields(airline: string, flight: string, departure: string)
    requires '|' !in airline && '|' !in flight && '|' !in departure
    ensures ParseChoice(airline + "|" + flight + "|" + departure)
            == Some(LegChoice(airline, flight, UnderscoresToSpaces(departure)))
  {
    var tail := flight + "|" + departure;
    JoinThree(airline, flight, departure);
    SplitNoSeparator(departure, '|');
    SplitAfterHead(flight, '|', departure);
    assert Split(tail, '|') == [flight, departure];
    SplitAfterHead(airline, '|', tail);
    assert Split(airline + ['|'] + tail, '|') == [airline, flight, departure];
  }

  lemma JoinThree(a: string, b: string, c: string)
    ensures a + "|" + b + "|" + c == a + ['|'] + (b + "|" + c)
  {
  }

  datatype ChoiceError = MissingChoice | MalformedChoice

  /**
   * The first step of the round-trip seat page: both choices must be
   * present, then each is parsed.
   */
  function RoundTripChoices(onwardChoice: string, returnChoice: string)
    : (r: Result<(LegChoice, LegChoice), ChoiceError>)
    ensures r == Err(MissingChoice) <==> onwardChoice == [] || returnChoice == []
    ensures r.Ok? <==> onwardChoice != [] && returnChoice != []
                       && ParseChoice(onwardChoice).Some? && ParseChoice(returnChoice).Some?
    ensures r.Ok? ==> r.value == (ParseChoice(onwardChoice).value, ParseChoice(returnChoice).value)
  {
    if onwardChoice == [] || returnChoice == [] then Err(MissingChoice)
    else
      match (ParseChoice(onwardChoice), ParseChoice(returnChoice))
      case (Some(onward), Some(ret)) => Ok((onward, ret))
      case _ => Err(MalformedChoice)
  }
}
