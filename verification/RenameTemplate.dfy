/**
  Replacement templates of the table-renaming middleware: parsing, printing and expanding.

  A pattern is the list of its capture names (position 0 is the whole match, usually unnamed); what a
  regular expression matches is a parameter.
 */
module RenameTemplate {
  import opened Common

  datatype Part = Literal(text: string) | Capture(index: nat)

  datatype TemplateError = UnclosedReference | EmptyReference | UnknownCapture(reference: string)

  type Names = seq<Option<string>>

  // Scanning.

  /** The position of the first `c`, or the length. */
  function Find(text: string, c: char): (at: nat)
    ensures at <= |text|
  {
    if text == [] then 0 else if text[0] == c then 0 else 1 + Find(text[1..], c)
  }

  predicate IsDigit(c: char) {
    '0' <= c <= '9'
  }

  predicate IsWordChar(c: char) {
    IsDigit(c) || 'a' <= c <= 'z' || 'A' <= c <= 'Z' || c == '_'
  }

  /** The length of the longest prefix of word characters. */
  function WordLength(text: string): (n: nat)
    ensures n <= |text|
  {
    if text == [] || !IsWordChar(text[0]) then 0 else 1 + WordLength(text[1..])
  }

  // Numbers.

  predicate AllDigits(text: string) {
    forall i :: 0 <= i < |text| ==> IsDigit(text[i])
  }

  function DigitValue(c: char): nat
    requires IsDigit(c)
  {
    c as int - '0' as int
  }

  function Number(digits: string): nat
    requires AllDigits(digits)
  {
    if digits == [] then 0 else 10 * Number(digits[..|digits| - 1]) + DigitValue(digits[|digits| - 1])
  }

  /** `str::parse::<usize>`: an optional plus sign, then digits whose value fits the word. */
  function ParseUsize(text: string): Option<nat> {
    var digits := if text != [] && text[0] == '+' then text[1..] else text;
    if digits == [] || !AllDigits(digits) || Number(digits) > U64_MAX then None else Some(Number(digits))
  }

  function Digit(n: nat): char
    requires n < 10
  {
    ('0' as int + n) as char
  }

  function Decimal(n: nat): string {
    if n < 10 then [Digit(n)] else Decimal(n / 10) + [Digit(n % 10)]
  }

  lemma {:induction false} NumberOfDecimal(n: nat)
    ensures Decimal(n) != [] && AllDigits(Decimal(n)) && Number(Decimal(n)) == n
  {
    if n < 10 {
      assert Decimal(n)[..0] == [];
    } else {
      NumberOfDecimal(n / 10);
      assert Decimal(n)[..|Decimal(n)| - 1] == Decimal(n / 10);
    }
  }

  lemma ParseDecimal(n: nat)
    requires n <= U64_MAX
    ensures ParseUsize(Decimal(n)) == Some(n)
  {
    NumberOfDecimal(n);
    assert IsDigit(Decimal(n)[0]);
  }

  // Parsing.

  /** The first position of a name, or the length. */
  function NamePosition(names: Names, name: string): (at: nat)
    ensures at <= |names|
  {
    if names == [] then 0 else if names[0] == Some(name) then 0 else 1 + NamePosition(names[1..], name)
  }

  /** An in-range number is that capture; anything else is looked up as a name. */
  function Resolve(names: Names, reference: string): (index: Option<nat>)
    ensures index.Some? ==> index.value < |names|
  {
    var number := ParseUsize(reference);
    if number.Some? && number.value < |names| then number
    else if NamePosition(names, reference) < |names| then Some(NamePosition(names, reference))
    else None
  }

  /** How references are looked up. */
  type Resolver = string -> Option<nat>

  function ByNames(names: Names): Resolver {
    (reference: string) => Resolve(names, reference)
  }

  /** What follows a dollar sign: the parts it stands for, and the text after them. */
  datatype Reference = Escaped(rest: string) | Named(reference: string, rest: string) | Unclosed

  function AfterDollar(text: string): (r: Reference)
    ensures !r.Unclosed? ==> |r.rest| <= |text|
  {
    if text != [] && text[0] == '$' then Escaped(text[1..])
    else if text != [] && text[0] == '{' then
      var braced := text[1..];
      var end := Find(braced, '}');
      if end == |braced| then Unclosed else Named(braced[..end], braced[end + 1..])
    else Named(text[..WordLength(text)], text[WordLength(text)..])
  }

  /** The part a dollar sign introduces, and the text after it. */
  function PartOf(resolve: Resolver, reference: Reference): Result<(Part, string), TemplateError> {
    match reference
    case Unclosed => Err(UnclosedReference)
    case Escaped(rest) => Ok((Literal("$"), rest))
    case Named(name, rest) =>
      if name == [] then Err(EmptyReference)
      else if resolve(name).None? then Err(UnknownCapture(name))
      else Ok((Capture(resolve(name).value), rest))
  }

  function Prepend(parts: seq<Part>, parsed: Result<seq<Part>, TemplateError>): Result<seq<Part>, TemplateError> {
    if parsed.Ok? then Ok(parts + parsed.value) else parsed
  }

  /** The template as a grammar, read from the left. */
  function ParseWith(resolve: Resolver, text: string): Result<seq<Part>, TemplateError>
    decreases |text|
  {
    var dollar := Find(text, '$');
    if dollar == |text| then Ok([Literal(text)])
    else
      var part := PartOf(resolve, AfterDollar(text[dollar + 1..]));
      if part.Err? then Err(part.error)
      else Prepend([Literal(text[..dollar]), part.value.0], ParseWith(resolve, part.value.1))
  }

  /** A template for a pattern with these capture names. */
  function Parse(names: Names, text: string): Result<seq<Part>, TemplateError> {
    ParseWith(ByNames(names), text)
  }

  /** `parse_replacement`. */
  method ParseReplacement(names: Names, text: string) returns (parsed: Result<seq<Part>, TemplateError>)
    ensures parsed == Parse(names, text)
  {
    var parts := [];
    var rest := text;
    PrependNothing(Parse(names, text));
    while true
      invariant Parse(names, text) == Prepend(parts, Parse(names, rest))
      decreases |rest|
    {
      var dollar := Find(rest, '$');
      if dollar == |rest| {
        return Ok(parts + [Literal(rest)]);
      }
      ghost var whole, before := rest, parts;
      parts := parts + [Literal(rest[..dollar])];
      rest := rest[dollar + 1..];
      var after := AfterDollar(rest);
      if after.Escaped? {
        parts := parts + [Literal("$")];
        rest := after.rest;
        PrependTwice(before, [Literal(whole[..dollar]), Literal("$")], Parse(names, rest));
        continue;
      }
      if after.Unclosed? {
        return Err(UnclosedReference);
      }
      var reference := after.reference;
      rest := after.rest;
      if reference == [] {
        return Err(EmptyReference);
      }
      var index := Resolve(names, reference);
      if index.None? {
        return Err(UnknownCapture(reference));
      }
      parts := parts + [Capture(index.value)];
      PrependTwice(before, [Literal(whole[..dollar]), Capture(index.value)], Parse(names, rest));
    }
  }

  lemma PrependTwice(a: seq<Part>, b: seq<Part>, parsed: Result<seq<Part>, TemplateError>)
    requires |b| == 2
    ensures Prepend(a, Prepend(b, parsed)) == Prepend(a + [b[0]] + [b[1]], parsed)
  {
    if parsed.Ok? {
      assert a + (b + parsed.value) == a + [b[0]] + [b[1]] + parsed.value;
    }
  }

  lemma PrependNothing(parsed: Result<seq<Part>, TemplateError>)
    ensures Prepend([], parsed) == parsed
  {
    if parsed.Ok? {
      assert [] + parsed.value == parsed.value;
    }
  }

  /** Every capture refers to one of the pattern's captures. */
  ghost predicate CapturesExist(count: nat, parts: seq<Part>) {
    forall i :: 0 <= i < |parts| && parts[i].Capture? ==> parts[i].index < count
  }

  lemma CapturesExistConcat(count: nat, a: seq<Part>, b: seq<Part>)
    requires CapturesExist(count, a) && CapturesExist(count, b)
    ensures CapturesExist(count, a + b)
  {
  }

  lemma {:induction false} ParsedWithCapturesExist(resolve: Resolver, count: nat, text: string)
    requires forall reference :: resolve(reference).Some? ==> resolve(reference).value < count
    requires ParseWith(resolve, text).Ok?
    ensures CapturesExist(count, ParseWith(resolve, text).value)
    decreases |text|
  {
    var dollar := Find(text, '$');
    if dollar < |text| {
      var part := PartOf(resolve, AfterDollar(text[dollar + 1..])).value;
      ParsedWithCapturesExist(resolve, count, part.1);
      CapturesExistConcat(count, [Literal(text[..dollar]), part.0], ParseWith(resolve, part.1).value);
    }
  }

  /** Every capture an accepted template refers to exists in the pattern. */
  lemma ParsedCapturesExist(names: Names, text: string)
    requires Parse(names, text).Ok?
    ensures CapturesExist(|names|, Parse(names, text).value)
  {
    ParsedWithCapturesExist(ByNames(names), |names|, text);
  }

  // Expansion.

  /** The texts of one match's captures; a capture that took no part has none. */
  type Captures = seq<Option<string>>

  /** A failed expansion names the capture that took no part. */
  function Expand(parts: seq<Part>, captures: Captures): Result<string, nat> {
    if parts == [] then Ok("")
    else
      match parts[0]
      case Literal(text) => Follow(text, Expand(parts[1..], captures))
      case Capture(index) =>
        if index < |captures| && captures[index].Some?
        then Follow(captures[index].value, Expand(parts[1..], captures))
        else Err(index)
  }

  function Follow(text: string, rest: Result<string, nat>): Result<string, nat> {
    if rest.Ok? then Ok(text + rest.value) else rest
  }

  lemma FollowFollow(a: string, b: string, rest: Result<string, nat>)
    ensures Follow(a, Follow(b, rest)) == Follow(a + b, rest)
    ensures Follow("", rest) == rest
  {
    if rest.Ok? {
      assert a + (b + rest.value) == a + b + rest.value && "" + rest.value == rest.value;
    }
  }

  // Printing.

  /** Literal text with every dollar sign doubled. */
  function Escape(text: string): string {
    if text == [] then "" else EscapeChar(text[0]) + Escape(text[1..])
  }

  function EscapeChar(c: char): string {
    if c == '$' then "$$" else [c]
  }

  function Print(parts: seq<Part>): string {
    if parts == [] then ""
    else
      (match parts[0]
       case Literal(text) => Escape(text)
       case Capture(index) => "${" + Decimal(index) + "}") + Print(parts[1..])
  }

  /** One step of the scan: the text before the first dollar sign, and what follows it, if any. */
  function Continue(resolve: Resolver, head: string, after: Option<string>): Result<seq<Part>, TemplateError> {
    if after.None? then Ok([Literal(head)])
    else
      var part := PartOf(resolve, AfterDollar(after.value));
      if part.Err? then Err(part.error)
      else Prepend([Literal(head), part.value.0], ParseWith(resolve, part.value.1))
  }

  function AfterFirst(text: string, dollar: nat): Option<string>
    requires dollar <= |text|
  {
    if dollar == |text| then None else Some(text[dollar + 1..])
  }

  lemma ParseContinues(resolve: Resolver, text: string)
    ensures ParseWith(resolve, text) == Continue(resolve, text[..Find(text, '$')], AfterFirst(text, Find(text, '$')))
  {
    assert text[..|text|] == text;
  }

  lemma FindPlain(c: char, text: string)
    requires c != '$'
    ensures Find([c] + text, '$') == Find(text, '$') + 1
    ensures ([c] + text)[..Find(text, '$') + 1] == [c] + text[..Find(text, '$')]
    ensures AfterFirst([c] + text, Find(text, '$') + 1) == AfterFirst(text, Find(text, '$'))
  {
    var longer, dollar := [c] + text, Find(text, '$');
    assert longer[1..] == text;
    if dollar < |text| {
      assert longer[dollar + 2..] == text[dollar + 1..];
    }
  }

  lemma ContinuePlain(resolve: Resolver, c: char, head: string, after: Option<string>)
    requires Continue(resolve, head, after).Ok?
    ensures var shorter, longer := Continue(resolve, head, after).value, Continue(resolve, [c] + head, after);
            shorter != [] && shorter[0] == Literal(head)
            && longer == Ok([Literal([c] + shorter[0].text)] + shorter[1..])
  {
    var shorter := Continue(resolve, head, after).value;
    if after.Some? {
      var part := PartOf(resolve, AfterDollar(after.value)).value;
      var rest := ParseWith(resolve, part.1).value;
      assert shorter == [Literal(head)] + ([part.0] + rest);
      assert [Literal([c] + head), part.0] + rest == [Literal([c] + head)] + ([part.0] + rest);
    } else {
      assert [Literal([c] + head)] == [Literal([c] + head)] + shorter[1..];
    }
  }

  /** A plain character only lengthens the first literal. */
  lemma ParsePlain(resolve: Resolver, c: char, text: string)
    requires c != '$' && ParseWith(resolve, text).Ok?
    ensures var shorter, longer := ParseWith(resolve, text).value, ParseWith(resolve, [c] + text);
            shorter != [] && shorter[0].Literal?
            && longer == Ok([Literal([c] + shorter[0].text)] + shorter[1..])
  {
    FindPlain(c, text);
    ParseContinues(resolve, text);
    ParseContinues(resolve, [c] + text);
    ContinuePlain(resolve, c, text[..Find(text, '$')], AfterFirst(text, Find(text, '$')));
  }

  lemma ExpandPlain(c: char, parts: seq<Part>, captures: Captures)
    requires parts != [] && parts[0].Literal?
    ensures Expand([Literal([c] + parts[0].text)] + parts[1..], captures) == Follow([c], Expand(parts, captures))
  {
    var longer := [Literal([c] + parts[0].text)] + parts[1..];
    assert longer[1..] == parts[1..];
    FollowFollow([c], parts[0].text, Expand(parts[1..], captures));
  }

  lemma ExpandTwo(a: Part, b: Part, rest: seq<Part>, captures: Captures)
    requires a == Literal("")
    ensures Expand([a, b] + rest, captures) == Expand([b] + rest, captures)
    ensures b.Literal? ==> Expand([b] + rest, captures) == Follow(b.text, Expand(rest, captures))
  {
    assert ([a, b] + rest)[1..] == [b] + rest && ([b] + rest)[1..] == rest;
    FollowFollow("", "", Expand([b] + rest, captures));
  }

  /** A doubled dollar sign is one dollar sign. */
  lemma ParseEscaped(resolve: Resolver, text: string)
    ensures ParseWith(resolve, "$$" + text) == Prepend([Literal(""), Literal("$")], ParseWith(resolve, text))
  {
    var whole := "$$" + text;
    assert Find(whole, '$') == 0 && whole[..0] == "" && whole[1..][1..] == text;
  }

  lemma {:induction false} FindAfter(prefix: string, c: char, rest: string)
    requires c !in prefix
    ensures Find(prefix + [c] + rest, c) == |prefix|
  {
    if prefix != [] {
      FindAfter(prefix[1..], c, rest);
      assert (prefix + [c] + rest)[1..] == prefix[1..] + [c] + rest;
    }
  }

  /** A printed capture is read as that capture. */
  lemma ParseCapture(resolve: Resolver, index: nat, text: string)
    requires resolve(Decimal(index)) == Some(index)
    ensures ParseWith(resolve, "${" + Decimal(index) + "}" + text) == Prepend([Literal(""), Capture(index)], ParseWith(resolve, text))
  {
    var whole := "${" + Decimal(index) + "}" + text;
    NumberOfDecimal(index);
    assert '}' !in Decimal(index);
    FindAfter(Decimal(index), '}', text);
    var braced := whole[1..][1..];
    assert braced == Decimal(index) + ['}'] + text;
    assert Find(whole, '$') == 0 && whole[..0] == "";
    assert braced[..|Decimal(index)|] == Decimal(index) && braced[|Decimal(index)| + 1..] == text;
    assert AfterDollar(whole[1..]) == Named(Decimal(index), text);
  }

  /** What a template text means for one match, if it parses. */
  ghost function Meaning(resolve: Resolver, captures: Captures): string -> Option<Result<string, nat>> {
    (text: string) => if ParseWith(resolve, text).Ok? then Some(Expand(ParseWith(resolve, text).value, captures)) else None
  }

  /** One escaped character in front of a template adds exactly itself to every expansion. */
  lemma ParseEscapedChar(resolve: Resolver, c: char, rest: string, captures: Captures)
    requires ParseWith(resolve, rest).Ok?
    ensures Meaning(resolve, captures)(EscapeChar(c) + rest)
            == Some(Follow([c], Expand(ParseWith(resolve, rest).value, captures)))
  {
    var parts := ParseWith(resolve, rest).value;
    if c == '$' {
      ParseEscaped(resolve, rest);
      ExpandTwo(Literal(""), Literal("$"), parts, captures);
    } else {
      ParsePlain(resolve, c, rest);
      ExpandPlain(c, parts, captures);
    }
  }

  /** What holds of one escaped character holds of escaped text. */
  lemma {:induction false} EscapedTextFollows(
    meaning: string -> Option<Result<string, nat>>, text: string, rest: string)
    requires forall c: char, t: string {:trigger EscapeChar(c) + t} ::
               meaning(t).Some? ==> meaning(EscapeChar(c) + t) == Some(Follow([c], meaning(t).value))
    requires meaning(rest).Some?
    ensures meaning(Escape(text) + rest) == Some(Follow(text, meaning(rest).value))
  {
    if text == [] {
      assert Escape(text) + rest == rest;
      FollowFollow("", "", meaning(rest).value);
    } else {
      EscapedTextFollows(meaning, text[1..], rest);
      assert Escape(text) + rest == EscapeChar(text[0]) + (Escape(text[1..]) + rest);
      assert [text[0]] + text[1..] == text;
      FollowFollow([text[0]], text[1..], meaning(rest).value);
    }
  }

  lemma ParseEscapedText(resolve: Resolver, text: string, rest: string, captures: Captures)
    requires ParseWith(resolve, rest).Ok?
    ensures Meaning(resolve, captures)(Escape(text) + rest)
            == Some(Follow(text, Expand(ParseWith(resolve, rest).value, captures)))
  {
    var meaning := Meaning(resolve, captures);
    forall c: char, t: string | meaning(t).Some?
      ensures meaning(EscapeChar(c) + t) == Some(Follow([c], meaning(t).value))
    {
      ParseEscapedChar(resolve, c, t, captures);
    }
    EscapedTextFollows(meaning, text, rest);
  }

  lemma {:induction false} ParseWithPrint(resolve: Resolver, parts: seq<Part>, captures: Captures)
    requires forall i :: 0 <= i < |parts| && parts[i].Capture? ==> resolve(Decimal(parts[i].index)) == Some(parts[i].index)
    ensures ParseWith(resolve, Print(parts)).Ok?
    ensures Expand(ParseWith(resolve, Print(parts)).value, captures) == Expand(parts, captures)
  {
    if parts == [] {
      assert ParseWith(resolve, "") == Ok([Literal("")]) && [Literal("")][1..] == [];
      FollowFollow("", "", Ok(""));
    } else {
      ParseWithPrint(resolve, parts[1..], captures);
      var rest := Print(parts[1..]);
      match parts[0]
      case Literal(text) =>
        ParseEscapedText(resolve, text, rest, captures);
      case Capture(index) =>
        ParseCapture(resolve, index, rest);
        var parsed := ParseWith(resolve, rest).value;
        ExpandTwo(Literal(""), Capture(index), parsed, captures);
        assert ([Capture(index)] + parsed)[1..] == parsed;
    }
  }

  /** Parsing a printed template gives the template back: for every list of literals and in-range
      captures, and every match, both expand to the same text or fail on the same capture. */
  lemma ParsePrint(names: Names, parts: seq<Part>, captures: Captures)
    requires |names| <= U64_MAX && CapturesExist(|names|, parts)
    ensures Parse(names, Print(parts)).Ok?
    ensures Expand(Parse(names, Print(parts)).value, captures) == Expand(parts, captures)
  {
    forall i | 0 <= i < |parts| && parts[i].Capture?
      ensures ByNames(names)(Decimal(parts[i].index)) == Some(parts[i].index)
    {
      ParseDecimal(parts[i].index);
    }
    ParseWithPrint(ByNames(names), parts, captures);
  }

  /** Printing loses nothing either: a template that parses, printed and parsed again, means the same. */
  lemma PrintParse(names: Names, text: string, captures: Captures)
    requires |names| <= U64_MAX && Parse(names, text).Ok?
    ensures var printed := Parse(names, Print(Parse(names, text).value));
            printed.Ok? && Expand(printed.value, captures) == Expand(Parse(names, text).value, captures)
  {
    ParsedCapturesExist(names, text);
    ParsePrint(names, Parse(names, text).value, captures);
  }

  // References.

  lemma {:induction false} NamePositionIsFirst(names: Names, name: string)
    ensures var at := NamePosition(names, name);
            && (at < |names| ==> names[at] == Some(name))
            && (forall i :: 0 <= i < at ==> names[i] != Some(name))
  {
    if names != [] && names[0] != Some(name) {
      NamePositionIsFirst(names[1..], name);
      assert forall i :: 0 < i < |names| ==> names[i] == names[1..][i - 1];
    }
  }

  predicate InRangeNumber(names: Names, reference: string) {
    ParseUsize(reference).Some? && ParseUsize(reference).value < |names|
  }

  /** A reference means capture `i` exactly if it is the number `i`, or is no number of a capture and
      `i` is the first capture of that name. */
  lemma ResolveIsExact(names: Names, reference: string, i: nat)
    ensures Resolve(names, reference) == Some(i) <==>
            if InRangeNumber(names, reference) then ParseUsize(reference) == Some(i)
            else i < |names| && names[i] == Some(reference) && forall j :: 0 <= j < i ==> names[j] != Some(reference)
  {
    NamePositionIsFirst(names, reference);
  }

  predicate IsWord(text: string) {
    forall i :: 0 <= i < |text| ==> IsWordChar(text[i])
  }

  lemma {:induction false} WordLengthAfter(word: string, rest: string)
    requires IsWord(word) && (rest != [] ==> !IsWordChar(rest[0]))
    ensures WordLength(word + rest) == |word|
  {
    if word == [] {
      assert word + rest == rest;
    } else {
      WordLengthAfter(word[1..], rest);
      assert (word + rest)[1..] == word[1..] + rest;
    }
  }

  lemma AfterBare(word: string, rest: string)
    requires word != [] && IsWord(word) && (rest != [] ==> !IsWordChar(rest[0]))
    ensures AfterDollar(word + rest) == Named(word, rest)
  {
    WordLengthAfter(word, rest);
    assert IsWordChar((word + rest)[0]);
    assert (word + rest)[..|word|] == word && (word + rest)[|word|..] == rest;
  }

  lemma AfterBraced(name: string, rest: string)
    requires '}' !in name
    ensures AfterDollar("{" + name + "}" + rest) == Named(name, rest)
  {
    FindAfter(name, '}', rest);
    var braced := name + ['}'] + rest;
    assert ("{" + name + "}" + rest)[1..] == braced;
    assert braced[..|name|] == name && braced[|name| + 1..] == rest;
  }

  /** A bare reference means the same as the braced one, when what follows cannot extend it. */
  lemma BareEqualsBraced(resolve: Resolver, word: string, rest: string)
    requires word != [] && IsWord(word) && (rest != [] ==> !IsWordChar(rest[0]))
    ensures ParseWith(resolve, "$" + (word + rest)) == ParseWith(resolve, "$" + ("{" + word + "}" + rest))
  {
    AfterBare(word, rest);
    assert '}' !in word;
    AfterBraced(word, rest);
    ParseReference(resolve, word + rest);
    ParseReference(resolve, "{" + word + "}" + rest);
  }

  lemma ParseReference(resolve: Resolver, after: string)
    ensures var part := PartOf(resolve, AfterDollar(after));
            ParseWith(resolve, "$" + after) ==
            if part.Err? then Err(part.error) else Prepend([Literal(""), part.value.0], ParseWith(resolve, part.value.1))
  {
    var whole := "$" + after;
    assert Find(whole, '$') == 0 && whole[..0] == "" && whole[1..] == after;
  }
}
