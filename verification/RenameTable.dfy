/** The expansion loop of the table-renaming middleware, over the matches a regular expression found. */
module RenameTable {
  import opened Common
  import opened RenameTemplate

  datatype Span = Span(start: nat, end: nat)

  /** The spans of one match's captures; position 0 is the whole match. */
  type Match = seq<Option<Span>>

  datatype RenameError = NoWholeMatch | Absent(index: nat)

  predicate HasWhole(found: Match) {
    found != [] && found[0].Some?
  }

  /** What a regular expression guarantees: spans lie in the input, and matches come left to right
      without overlap, starting at the offset. */
  predicate Ordered(input: string, offset: nat, matches: seq<Match>)
    decreases |matches|
  {
    if matches == [] then offset <= |input|
    else
      && offset <= |input|
      && (forall i :: 0 <= i < |matches[0]| && matches[0][i].Some? ==>
            matches[0][i].value.start <= matches[0][i].value.end <= |input|)
      && (HasWhole(matches[0]) ==>
            offset <= matches[0][0].value.start && Ordered(input, matches[0][0].value.end, matches[1..]))
  }

  /** The text a capture span stands for; a span outside the input, which does not occur, has none. */
  function Text(input: string, span: Option<Span>): Option<string> {
    if span.Some? && span.value.start <= span.value.end <= |input|
    then Some(input[span.value.start..span.value.end]) else None
  }

  function Texts(input: string, found: Match): Captures {
    seq(|found|, i requires 0 <= i < |found| => Text(input, found[i]))
  }

  /** The input from the offset on, with every match replaced by its expansion. */
  function Replaced(input: string, offset: nat, matches: seq<Match>, parts: seq<Part>): Result<string, RenameError>
    requires Ordered(input, offset, matches)
    decreases |matches|
  {
    if matches == [] then Ok(input[offset..])
    else if !HasWhole(matches[0]) then Err(NoWholeMatch)
    else
      var whole := matches[0][0].value;
      var expanded := Expand(parts, Texts(input, matches[0]));
      if expanded.Err? then Err(Absent(expanded.error))
      else
        var rest := Replaced(input, whole.end, matches[1..], parts);
        if rest.Err? then rest else Ok(input[offset..whole.start] + expanded.value + rest.value)
  }

  /** One match's replacement, appended to the output part by part. */
  method AppendExpansion(parts: seq<Part>, captures: Captures, output: string) returns (r: Result<string, RenameError>)
    ensures r == (match Expand(parts, captures)
                  case Ok(text) => Ok(output + text)
                  case Err(index) => Err(Absent(index)))
  {
    var text := "";
    assert parts[0..] == parts;
    FollowFollow("", "", Expand(parts, captures));
    for i := 0 to |parts|
      invariant Expand(parts, captures) == Follow(text, Expand(parts[i..], captures))
    {
      assert parts[i..][1..] == parts[i + 1..];
      ghost var rest := Expand(parts[i + 1..], captures);
      match parts[i]
      case Literal(literal) =>
        FollowFollow(text, literal, rest);
        text := text + literal;
      case Capture(index) =>
        if index >= |captures| || captures[index].None? {
          return Err(Absent(index));
        }
        FollowFollow(text, captures[index].value, rest);
        text := text + captures[index].value;
    }
    assert text + "" == text;
    return Ok(output + text);
  }

  /** The expansion loop: nothing without a match, otherwise the input with all matches replaced, or
      the first error met from the left. */
  method Renamed(input: string, matches: seq<Match>, parts: seq<Part>) returns (r: Result<Option<string>, RenameError>)
    requires Ordered(input, 0, matches)
    ensures matches == [] ==> r == Ok(None)
    ensures matches != [] ==>
              r == (match Replaced(input, 0, matches, parts) case Ok(text) => Ok(Some(text)) case Err(e) => Err(e))
  {
    var output, offset: nat, matched := "", 0, false;
    assert matches[0..] == matches;
    AfterAfter("", "", "", Replaced(input, 0, matches, parts));
    for i := 0 to |matches|
      invariant matched == (i > 0)
      invariant Ordered(input, offset, matches[i..])
      invariant Replaced(input, 0, matches, parts) == After(output, Replaced(input, offset, matches[i..], parts))
    {
      if !HasWhole(matches[i]) {
        return Err(NoWholeMatch);
      }
      var whole := matches[i][0].value;
      assert matches[i..][1..] == matches[i + 1..];
      matched := true;
      var appended := AppendExpansion(parts, Texts(input, matches[i]), output + input[offset..whole.start]);
      if appended.Err? {
        return Err(appended.error);
      }
      AfterAfter(output, input[offset..whole.start], Expand(parts, Texts(input, matches[i])).value,
                 Replaced(input, whole.end, matches[i + 1..], parts));
      output, offset := appended.value, whole.end;
    }
    if !matched {
      return Ok(None);
    }
    return Ok(Some(output + input[offset..]));
  }

  function After(output: string, rest: Result<string, RenameError>): Result<string, RenameError> {
    if rest.Ok? then Ok(output + rest.value) else rest
  }

  lemma AfterAfter(output: string, gap: string, text: string, rest: Result<string, RenameError>)
    ensures After("", rest) == rest
    ensures After(output, if rest.Err? then rest else Ok(gap + text + rest.value)) == After(output + gap + text, rest)
  {
    if rest.Ok? {
      assert "" + rest.value == rest.value;
      assert output + (gap + text + rest.value) == output + gap + text + rest.value;
    }
  }

  /** A printed and reparsed template renames every input alike, errors included. */
  lemma {:induction false} PrintedTemplateRenamesAlike(
    names: Names, parts: seq<Part>, input: string, offset: nat, matches: seq<Match>)
    requires |names| <= U64_MAX && Ordered(input, offset, matches)
    requires CapturesExist(|names|, parts)
    ensures Parse(names, Print(parts)).Ok?
    ensures Replaced(input, offset, matches, Parse(names, Print(parts)).value) == Replaced(input, offset, matches, parts)
    decreases |matches|
  {
    ParsePrint(names, parts, if matches == [] then [] else Texts(input, matches[0]));
    if matches != [] && HasWhole(matches[0]) {
      PrintedTemplateRenamesAlike(names, parts, input, matches[0][0].value.end, matches[1..]);
    }
  }

  /** The template `${0}` gives every name back. */
  lemma {:induction false} WholeMatchIsIdentity(input: string, offset: nat, matches: seq<Match>)
    requires Ordered(input, offset, matches)
    requires forall i :: 0 <= i < |matches| ==> HasWhole(matches[i])
    ensures Replaced(input, offset, matches, [Literal(""), Capture(0), Literal("")]) == Ok(input[offset..])
    decreases |matches|
  {
    if matches != [] {
      var whole := matches[0][0].value;
      WholeMatchIsIdentity(input, whole.end, matches[1..]);
      ExpandWhole(Texts(input, matches[0]));
      assert input[offset..whole.start] + input[whole.start..whole.end] + input[whole.end..] == input[offset..];
    }
  }

  lemma ExpandWhole(captures: Captures)
    requires captures != [] && captures[0].Some?
    ensures Expand([Literal(""), Capture(0), Literal("")], captures) == Ok(captures[0].value)
  {
    var last := [Literal("")];
    assert last[1..] == [] && Expand(last, captures) == Ok("" + "");
    assert ([Capture(0)] + last)[1..] == last && captures[0].value + "" == captures[0].value;
    ExpandTwo(Literal(""), Capture(0), last, captures);
    assert [Literal(""), Capture(0)] + last == [Literal(""), Capture(0), Literal("")];
  }

  /** `${0}` is that template in every pattern. */
  lemma WholeMatchTemplate(names: Names)
    requires names != [] && |names| <= U64_MAX
    ensures Parse(names, "${0}") == Ok([Literal(""), Capture(0), Literal("")])
  {
    ParseDecimal(0);
    ParseCapture(ByNames(names), 0, "");
    assert "${" + Decimal(0) + "}" + "" == "${0}";
    assert [Literal(""), Capture(0)] + [Literal("")] == [Literal(""), Capture(0), Literal("")];
  }
}
