/** Turning the text `git` prints into menu choices: the classification of
    `git status --short` lines, the extraction of their paths, and the loops the
    menus run over the lines of a listing. The status text arrives already
    split into lines; every character is assumed to be ASCII, so that Rust's
    byte offsets are character offsets. */
module Choices {

  import opened Cli
  import opened Utils

  /** The message the add menu fails with on a line it cannot classify
      (src/menus/add_cli.rs:60-63; the spelling is the source's). */
  const UnknownFirstChar: string := "git add cli menu recieved unknown first char: "

  // ---------------------------------------------------------------------------
  // Paths

  /** The line is long enough for its path to be taken without a panic: with
      quote stripping the code reads character 3 and, when it is a quote,
      slices `[4..len-1]`; without it the code slices `[3..]`. */
  predicate PathReadable(line: string, unquote: bool) {
    if unquote then |line| >= 4 && (line[3] == '"' ==> |line| >= 5) else |line| >= 3
  }

  /** The path of a status line: what follows the two-character code and the
      separator, without the quotes `git` puts around a name with a space
      when `unquote` is set (src/menus/add_cli.rs:30-34). */
  function PathOf(line: string, unquote: bool): string
    requires PathReadable(line, unquote)
  {
    if unquote && line[3] == '"' then line[4..|line| - 1] else line[3..]
  }

  /** A quoted name is recovered exactly, without its quotes. */
  lemma PathOfQuoted(code: string, sep: char, name: string)
    requires |code| == 2
    ensures PathReadable(code + [sep] + "\"" + name + "\"", true)
    ensures PathOf(code + [sep] + "\"" + name + "\"", true) == name
  {
    var line := code + [sep] + "\"" + name + "\"";
    assert line[3] == '"';
    assert line[4..|line| - 1] == name;
  }

  /** A name that does not start with a quote is taken verbatim, with or
      without quote stripping. */
  lemma PathOfPlain(code: string, sep: char, name: string, unquote: bool)
    requires |code| == 2 && |name| > 0 && name[0] != '"'
    ensures PathReadable(code + [sep] + name, unquote)
    ensures PathOf(code + [sep] + name, unquote) == name
  {
    var line := code + [sep] + name;
    assert line[3] == name[0];
    assert line[3..] == name;
  }

  // ---------------------------------------------------------------------------
  // The add menu: classification by the second, then the first, status character

  /** What the add menu does with one status line. */
  datatype Offer = Skip | Choice(colour: Colour) | Unknown

  /** Classification of the status code `x y` (src/menus/add_cli.rs:22-88):
      an unchanged work tree (`y == ' '`) and any unlisted `y` offer nothing,
      `y == 'M'` needs a known `x`, and every other listed `y` offers the line
      in a colour of its own. */
  function ClassifyUnstaged(x: char, y: char): (r: Offer)
    ensures r == Unknown <==> y == 'M' && x !in " AMDRU"
    ensures r == Skip <==> y !in "?MDRA"
    ensures y == '?' ==> r == Choice(BrightGreen)
    ensures y == 'D' || y == 'R' ==> r == Choice(BrightYellow)
    ensures y == 'A' ==> r == Choice(BrightRed)
    ensures y == 'M' && (x == ' ' || x == 'A') ==> r == Choice(Green)
    ensures y == 'M' && x in "MDRU" ==> r == Choice(Yellow)
  {
    if y == ' ' then Skip
    else if y == '?' then Choice(BrightGreen)
    else if y == 'M' then
      if x == ' ' || x == 'A' then Choice(Green)
      else if x == 'M' || x == 'D' || x == 'R' || x == 'U' then Choice(Yellow)
      else Unknown
    else if y == 'D' || y == 'R' then Choice(BrightYellow)
    else if y == 'A' then Choice(BrightRed)
    else Skip
  }

  /** The add menu fails on this line. */
  predicate Rejects(line: string) {
    |line| >= 2 && ClassifyUnstaged(line[0], line[1]) == Unknown
  }

  /** No line is rejected. */
  predicate NoRejects(lines: seq<string>) {
    forall i :: 0 <= i < |lines| ==> !Rejects(lines[i])
  }

  /** The add loop can read this line: it has a status code, and a path when it is offered. */
  predicate AddLineReadable(line: string, unquote: bool) {
    |line| >= 2 && (ClassifyUnstaged(line[0], line[1]).Choice? ==> PathReadable(line, unquote))
  }

  /** Every line the add loop reaches, up to the first rejected one, can be read. */
  predicate AddLinesReadable(lines: seq<string>, unquote: bool)
    decreases |lines|
  {
    lines == [] ||
    (AddLineReadable(lines[0], unquote) &&
     (!Rejects(lines[0]) ==> AddLinesReadable(lines[1..], unquote)))
  }

  /** `cs` put in front of the choices of `r`, or the error of `r`. */
  function Prepend(cs: seq<string>, r: Result<seq<string>>): Result<seq<string>> {
    match r
    case Ok(rest) => Ok(cs + rest)
    case Err(m) => Err(m)
  }

  /** The choices of the add menu, line by line in order, or the error for the
      first rejected line (the `for` loop of src/menus/add_cli.rs:19-89). */
  function AddChoices(st: Styling, lines: seq<string>, unquote: bool): Result<seq<string>>
    requires AddLinesReadable(lines, unquote)
    decreases |lines|
  {
    if lines == [] then Ok([])
    else
      var line := lines[0];
      match ClassifyUnstaged(line[0], line[1])
      case Skip => AddChoices(st, lines[1..], unquote)
      case Unknown => Err(UnknownFirstChar + line)
      case Choice(c) => Prepend([st.paint(c, PathOf(line, unquote))], AddChoices(st, lines[1..], unquote))
  }

  /** The paths the add menu offers, unstyled: the reference the choices are checked against. */
  function OfferedPaths(lines: seq<string>, unquote: bool): seq<string>
    requires forall i :: 0 <= i < |lines| ==> AddLineReadable(lines[i], unquote)
  {
    if lines == [] then []
    else
      assert AddLineReadable(lines[0], unquote);
      if ClassifyUnstaged(lines[0][0], lines[0][1]).Choice?
    then [PathOf(lines[0], unquote)] + OfferedPaths(lines[1..], unquote)
    else OfferedPaths(lines[1..], unquote)
  }

  /** The add loop succeeds exactly when no line is rejected. */
  lemma {:induction false} AddChoicesOkIff(st: Styling, lines: seq<string>, unquote: bool)
    requires AddLinesReadable(lines, unquote)
    ensures AddChoices(st, lines, unquote).Ok? <==> NoRejects(lines)
  {
    if lines != [] {
      if !Rejects(lines[0]) {
        AddChoicesOkIff(st, lines[1..], unquote);
        assert NoRejects(lines) <==> NoRejects(lines[1..]) by {
          assert forall i :: 0 < i < |lines| ==> lines[i] == lines[1..][i - 1];
        }
      }
    }
  }

  /** The error names the first rejected line, and nothing is offered. */
  lemma {:induction false} AddChoicesRejects(st: Styling, lines: seq<string>, unquote: bool, i: nat)
    requires AddLinesReadable(lines, unquote)
    requires i < |lines| && Rejects(lines[i]) && NoRejects(lines[..i])
    ensures AddChoices(st, lines, unquote) == Err(UnknownFirstChar + lines[i])
  {
    if i > 0 {
      assert !Rejects(lines[..i][0]);
      assert lines[1..][..i - 1] == lines[1..i];
      assert forall k :: 0 <= k < i - 1 ==> lines[1..i][k] == lines[..i][k + 1];
      AddChoicesRejects(st, lines[1..], unquote, i - 1);
    }
  }

  /** There are never more choices than lines. */
  lemma {:induction false} AddChoicesLength(st: Styling, lines: seq<string>, unquote: bool)
    requires AddLinesReadable(lines, unquote)
    ensures AddChoices(st, lines, unquote).Ok? ==> |AddChoices(st, lines, unquote).value| <= |lines|
  {
    if lines != [] && !Rejects(lines[0]) {
      AddChoicesLength(st, lines[1..], unquote);
    }
  }

  /** Readability of a concatenation: the first part, and the second part when
      the loop gets past the first. */
  lemma {:induction false} AddLinesReadableAppend(a: seq<string>, b: seq<string>, unquote: bool)
    ensures AddLinesReadable(a + b, unquote) <==>
      AddLinesReadable(a, unquote) && (NoRejects(a) ==> AddLinesReadable(b, unquote))
  {
    if a == [] {
      assert a + b == b;
    } else {
      assert (a + b)[0] == a[0] && (a + b)[1..] == a[1..] + b;
      AddLinesReadableAppend(a[1..], b, unquote);
      assert NoRejects(a) <==> !Rejects(a[0]) && NoRejects(a[1..]) by {
        assert forall i :: 0 < i < |a| ==> a[i] == a[1..][i - 1];
      }
    }
  }

  /** Putting two lists of choices in front, one after the other. */
  lemma PrependPrepend(a: seq<string>, b: seq<string>, r: Result<seq<string>>)
    ensures Prepend(a, Prepend(b, r)) == Prepend(a + b, r)
  {
    if r.Ok? {
      assert a + (b + r.value) == (a + b) + r.value;
    }
  }

  /** The add loop works line by line: when it gets past the first part, the
      choices of a concatenation are those of the first part, then those of
      the second. */
  lemma {:induction false} AddChoicesAppend(st: Styling, a: seq<string>, b: seq<string>, unquote: bool)
    requires AddLinesReadable(a + b, unquote) && NoRejects(a)
    ensures AddLinesReadable(a, unquote) && AddLinesReadable(b, unquote)
    ensures AddChoices(st, a, unquote).Ok?
    ensures AddChoices(st, a + b, unquote) == Prepend(AddChoices(st, a, unquote).value, AddChoices(st, b, unquote))
  {
    AddLinesReadableAppend(a, b, unquote);
    AddChoicesOkIff(st, a, unquote);
    if a == [] {
      assert a + b == b;
      match AddChoices(st, b, unquote)
      case Ok(cb) => assert [] + cb == cb;
      case Err(_) =>
    } else {
      assert (a + b)[0] == a[0] && (a + b)[1..] == a[1..] + b;
      assert NoRejects(a[1..]) by {
        assert forall i :: 0 <= i < |a| - 1 ==> a[1..][i] == a[i + 1];
      }
      AddChoicesAppend(st, a[1..], b, unquote);
      var line := a[0];
      match ClassifyUnstaged(line[0], line[1])
      case Skip =>
      case Choice(c) =>
        PrependPrepend([st.paint(c, PathOf(line, unquote))], AddChoices(st, a[1..], unquote).value, AddChoices(st, b, unquote));
    }
  }

  /** Once the first part holds a rejected line, the second part plays no role. */
  lemma {:induction false} AddChoicesAppendRejected(st: Styling, a: seq<string>, b: seq<string>, unquote: bool)
    requires AddLinesReadable(a + b, unquote) && !NoRejects(a)
    ensures AddLinesReadable(a, unquote)
    ensures AddChoices(st, a + b, unquote) == AddChoices(st, a, unquote)
  {
    AddLinesReadableAppend(a, b, unquote);
    assert a != [];
    assert (a + b)[0] == a[0] && (a + b)[1..] == a[1..] + b;
    if !Rejects(a[0]) {
      assert !NoRejects(a[1..]) by {
        assert forall i :: 0 < i < |a| ==> a[i] == a[1..][i - 1];
      }
      AddChoicesAppendRejected(st, a[1..], b, unquote);
    }
  }

  /** A line with an unchanged work tree (second character ' '), or with an
      unlisted second character, contributes nothing: removing it leaves the
      outcome unchanged. */
  lemma AddChoicesSkip(st: Styling, a: seq<string>, line: string, b: seq<string>, unquote: bool)
    requires AddLinesReadable(a + [line] + b, unquote)
    requires |line| >= 2 && ClassifyUnstaged(line[0], line[1]) == Skip
    ensures AddLinesReadable(a + b, unquote)
    ensures AddChoices(st, a + [line] + b, unquote) == AddChoices(st, a + b, unquote)
  {
    assert a + [line] + b == a + ([line] + b);
    assert ([line] + b)[0] == line && ([line] + b)[1..] == b;
    AddLinesReadableAppend(a, [line] + b, unquote);
    AddLinesReadableAppend(a, b, unquote);
    if NoRejects(a) {
      AddChoicesAppend(st, a, [line] + b, unquote);
      AddChoicesAppend(st, a, b, unquote);
    } else {
      AddChoicesAppendRejected(st, a, [line] + b, unquote);
      AddChoicesAppendRejected(st, a, b, unquote);
    }
  }

  /** An offered line after lines that are not rejected contributes exactly
      one choice, its path in the colour of its code, between the choices of
      the lines before it and those of the lines after it. */
  lemma AddChoicesOffer(st: Styling, a: seq<string>, line: string, b: seq<string>, unquote: bool)
    requires AddLinesReadable(a + [line] + b, unquote)
    requires NoRejects(a) && |line| >= 2 && ClassifyUnstaged(line[0], line[1]).Choice?
    ensures AddLinesReadable(a, unquote) && AddLinesReadable(b, unquote) && PathReadable(line, unquote)
    ensures AddChoices(st, a, unquote).Ok?
    ensures AddChoices(st, a + [line] + b, unquote) ==
      Prepend(AddChoices(st, a, unquote).value +
              [st.paint(ClassifyUnstaged(line[0], line[1]).colour, PathOf(line, unquote))],
              AddChoices(st, b, unquote))
  {
    assert a + [line] + b == a + ([line] + b);
    assert ([line] + b)[0] == line && ([line] + b)[1..] == b;
    AddChoicesAppend(st, a, [line] + b, unquote);
    PrependPrepend(AddChoices(st, a, unquote).value,
                   [st.paint(ClassifyUnstaged(line[0], line[1]).colour, PathOf(line, unquote))],
                   AddChoices(st, b, unquote));
  }

  /** Under the readability of the whole list, every line is readable once no line is rejected. */
  lemma {:induction false} AllAddLinesReadable(lines: seq<string>, unquote: bool)
    requires AddLinesReadable(lines, unquote) && NoRejects(lines)
    ensures forall i :: 0 <= i < |lines| ==> AddLineReadable(lines[i], unquote)
  {
    if lines != [] {
      assert !Rejects(lines[0]);
      assert NoRejects(lines[1..]) by {
        assert forall i :: 0 <= i < |lines| - 1 ==> lines[1..][i] == lines[i + 1];
      }
      AllAddLinesReadable(lines[1..], unquote);
      assert forall i :: 0 < i < |lines| ==> lines[i] == lines[1..][i - 1];
    }
  }

  /** Stripping the choices gives back exactly the paths of the offered lines,
      byte for byte, when stripping undoes painting. */
  lemma {:induction false} AddChoicesRoundTrip(st: Styling, lines: seq<string>, unquote: bool)
    requires StripUndoesPaint(st)
    requires AddLinesReadable(lines, unquote) && NoRejects(lines)
    ensures AddChoices(st, lines, unquote).Ok?
    ensures (AllAddLinesReadable(lines, unquote);
             StripAll(st, AddChoices(st, lines, unquote).value) == OfferedPaths(lines, unquote))
  {
    AddChoicesOkIff(st, lines, unquote);
    AllAddLinesReadable(lines, unquote);
    if lines != [] {
      assert NoRejects(lines[1..]) by {
        assert forall i :: 0 <= i < |lines| - 1 ==> lines[1..][i] == lines[i + 1];
      }
      AddChoicesRoundTrip(st, lines[1..], unquote);
      var line := lines[0];
      match ClassifyUnstaged(line[0], line[1])
      case Skip =>
      case Choice(c) =>
        var rest := AddChoices(st, lines[1..], unquote).value;
        assert AddChoices(st, lines, unquote).value == [st.paint(c, PathOf(line, unquote))] + rest;
        StripAllAppend(st, [st.paint(c, PathOf(line, unquote))], rest);
    }
  }

  /** The add loop: walks the lines, pushes one painted path per offered line,
      and returns early with an error on a rejected line (src/menus/add_cli.rs:19-89;
      with `unquote` false, the older copy in src/cli_menus.rs:21-66). */
  method CollectAddChoices(st: Styling, lines: seq<string>, unquote: bool) returns (r: Result<seq<string>>)
    requires AddLinesReadable(lines, unquote)
    ensures r == AddChoices(st, lines, unquote)
  {
    var choices: seq<string> := [];
    var i := 0;
    assert lines[0..] == lines;
    match AddChoices(st, lines, unquote) {
      case Ok(cs) => assert [] + cs == cs;
      case Err(_) =>
    }
    while i < |lines|
      invariant 0 <= i <= |lines|
      invariant AddLinesReadable(lines[i..], unquote)
      invariant AddChoices(st, lines, unquote) == Prepend(choices, AddChoices(st, lines[i..], unquote))
    {
      var line := lines[i];
      assert lines[i..][0] == line && lines[i..][1..] == lines[i + 1..];
      var offer := ClassifyUnstaged(line[0], line[1]);
      if offer.Unknown? {
        return Err(UnknownFirstChar + line);
      } else if offer.Choice? {
        PrependPrepend(choices, [st.paint(offer.colour, PathOf(line, unquote))], AddChoices(st, lines[i + 1..], unquote));
        choices := choices + [st.paint(offer.colour, PathOf(line, unquote))];
      }
      i := i + 1;
    }
    assert AddChoices(st, lines[i..], unquote) == Ok([]);
    assert choices + [] == choices;
    return Ok(choices);
  }

  // ---------------------------------------------------------------------------
  // The reset and commit menus: the staged lines

  /** The first status character records a staged change (modified, added,
      copied or deleted). */
  predicate IsStaged(line: string)
    requires |line| >= 1
  {
    line[0] in "MACD"
  }

  /** Every line has a status code, and a readable path when it is staged. */
  predicate StagedLinesReadable(lines: seq<string>, unquote: bool) {
    forall i :: 0 <= i < |lines| ==>
      |lines[i]| >= 1 && (IsStaged(lines[i]) ==> PathReadable(lines[i], unquote))
  }

  /** The staged paths, painted yellow, in line order
      (src/menus/reset_cli.rs:23-35 and src/menus/commit_cli.rs:26-38). */
  function StagedChoices(st: Styling, lines: seq<string>, unquote: bool): seq<string>
    requires StagedLinesReadable(lines, unquote)
  {
    if lines == [] then []
    else if IsStaged(lines[0]) then [st.paint(Yellow, PathOf(lines[0], unquote))] + StagedChoices(st, lines[1..], unquote)
    else StagedChoices(st, lines[1..], unquote)
  }

  /** Readability of a concatenation is readability of both parts. */
  lemma StagedLinesReadableAppend(a: seq<string>, b: seq<string>, unquote: bool)
    ensures StagedLinesReadable(a + b, unquote) <==> StagedLinesReadable(a, unquote) && StagedLinesReadable(b, unquote)
  {
    assert forall i :: 0 <= i < |a| ==> (a + b)[i] == a[i];
    assert forall i :: 0 <= i < |b| ==> (a + b)[|a| + i] == b[i];
  }

  /** The staged filter works line by line: concatenation in order. */
  lemma {:induction false} StagedChoicesAppend(st: Styling, a: seq<string>, b: seq<string>, unquote: bool)
    requires StagedLinesReadable(a, unquote) && StagedLinesReadable(b, unquote)
    ensures StagedLinesReadable(a + b, unquote)
    ensures StagedChoices(st, a + b, unquote) == StagedChoices(st, a, unquote) + StagedChoices(st, b, unquote)
  {
    StagedLinesReadableAppend(a, b, unquote);
    if a == [] {
      assert a + b == b;
    } else {
      assert (a + b)[0] == a[0] && (a + b)[1..] == a[1..] + b;
      StagedLinesReadableAppend(a[..1], a[1..], unquote);
      assert a[..1] + a[1..] == a;
      StagedChoicesAppend(st, a[1..], b, unquote);
    }
  }

  /** A line without a staged change is dropped: removing it changes nothing. */
  lemma StagedChoicesDrop(st: Styling, a: seq<string>, line: string, b: seq<string>, unquote: bool)
    requires StagedLinesReadable(a + [line] + b, unquote)
    requires |line| >= 1 && !IsStaged(line)
    ensures StagedLinesReadable(a + b, unquote)
    ensures StagedChoices(st, a + [line] + b, unquote) == StagedChoices(st, a + b, unquote)
  {
    StagedLinesReadableAppend(a + [line], b, unquote);
    StagedLinesReadableAppend(a, [line], unquote);
    StagedChoicesAppend(st, a + [line], b, unquote);
    StagedChoicesAppend(st, a, [line], unquote);
    StagedChoicesAppend(st, a, b, unquote);
    assert StagedChoices(st, [line], unquote) == [];
  }

  /** A staged line contributes exactly its yellow path, in its own position. */
  lemma StagedChoicesKeep(st: Styling, a: seq<string>, line: string, b: seq<string>, unquote: bool)
    requires StagedLinesReadable(a + [line] + b, unquote)
    requires |line| >= 1 && IsStaged(line)
    ensures StagedLinesReadable(a, unquote) && StagedLinesReadable(b, unquote) && PathReadable(line, unquote)
    ensures StagedChoices(st, a + [line] + b, unquote) ==
      StagedChoices(st, a, unquote) + [st.paint(Yellow, PathOf(line, unquote))] + StagedChoices(st, b, unquote)
  {
    StagedLinesReadableAppend(a + [line], b, unquote);
    StagedLinesReadableAppend(a, [line], unquote);
    StagedChoicesAppend(st, a + [line], b, unquote);
    StagedChoicesAppend(st, a, [line], unquote);
    assert StagedChoices(st, [line], unquote) == [st.paint(Yellow, PathOf(line, unquote))];
  }

  /** There are no staged choices exactly when no line has a staged change. */
  lemma {:induction false} StagedChoicesEmptyIff(st: Styling, lines: seq<string>, unquote: bool)
    requires StagedLinesReadable(lines, unquote)
    ensures StagedChoices(st, lines, unquote) == [] <==> forall i :: 0 <= i < |lines| ==> !IsStaged(lines[i])
  {
    if lines != [] {
      StagedChoicesEmptyIff(st, lines[1..], unquote);
      assert forall i :: 0 < i < |lines| ==> lines[i] == lines[1..][i - 1];
    }
  }

  /** One choice per staged line at most: never more choices than lines. */
  lemma {:induction false} StagedChoicesLength(st: Styling, lines: seq<string>, unquote: bool)
    requires StagedLinesReadable(lines, unquote)
    ensures |StagedChoices(st, lines, unquote)| <= |lines|
  {
    if lines != [] {
      StagedChoicesLength(st, lines[1..], unquote);
    }
  }

  /** The staged-line loop (src/menus/reset_cli.rs:23-35, repeated in
      src/menus/commit_cli.rs:26-38; with `unquote` false, the older copies
      in src/cli_menus.rs:106-112 and 141-147). */
  method CollectStaged(st: Styling, lines: seq<string>, unquote: bool) returns (choices: seq<string>)
    requires StagedLinesReadable(lines, unquote)
    ensures choices == StagedChoices(st, lines, unquote)
  {
    choices := [];
    var i := 0;
    while i < |lines|
      invariant 0 <= i <= |lines|
      invariant StagedLinesReadable(lines[i..], unquote)
      invariant StagedChoices(st, lines, unquote) == choices + StagedChoices(st, lines[i..], unquote)
    {
      var line := lines[i];
      assert lines[i..][0] == line && lines[i..][1..] == lines[i + 1..];
      if line[0] == 'M' || line[0] == 'A' || line[0] == 'C' || line[0] == 'D' {
        choices := choices + [st.paint(Yellow, PathOf(line, unquote))];
      }
      i := i + 1;
    }
  }

  // ---------------------------------------------------------------------------
  // The older checkout menu: the unstaged lines

  /** Every line has a status code, and a path when its work tree changed. */
  predicate UnstagedLinesReadable(lines: seq<string>) {
    forall i :: 0 <= i < |lines| ==> |lines[i]| >= 2 && (lines[i][1] != ' ' ==> |lines[i]| >= 3)
  }

  /** The paths of the lines whose work tree changed (second character not
      ' '), painted yellow, without quote stripping (src/cli_menus.rs:303-311). */
  function UnstagedChoices(st: Styling, lines: seq<string>): seq<string>
    requires UnstagedLinesReadable(lines)
  {
    if lines == [] then []
    else if lines[0][1] == ' ' then UnstagedChoices(st, lines[1..])
    else [st.paint(Yellow, lines[0][3..])] + UnstagedChoices(st, lines[1..])
  }

  /** There is nothing to offer exactly when every line's work tree is unchanged. */
  lemma {:induction false} UnstagedChoicesEmptyIff(st: Styling, lines: seq<string>)
    requires UnstagedLinesReadable(lines)
    ensures UnstagedChoices(st, lines) == [] <==> forall i :: 0 <= i < |lines| ==> lines[i][1] == ' '
  {
    if lines != [] {
      UnstagedChoicesEmptyIff(st, lines[1..]);
      assert forall i :: 0 < i < |lines| ==> lines[i] == lines[1..][i - 1];
    }
  }

  /** The unstaged-line loop of src/cli_menus.rs:303-311. */
  method CollectUnstaged(st: Styling, lines: seq<string>) returns (choices: seq<string>)
    requires UnstagedLinesReadable(lines)
    ensures choices == UnstagedChoices(st, lines)
  {
    choices := [];
    var i := 0;
    while i < |lines|
      invariant 0 <= i <= |lines|
      invariant UnstagedLinesReadable(lines[i..])
      invariant UnstagedChoices(st, lines) == choices + UnstagedChoices(st, lines[i..])
    {
      var line := lines[i];
      assert lines[i..][0] == line && lines[i..][1..] == lines[i + 1..];
      if line[1] != ' ' {
        choices := choices + [st.paint(Yellow, line[3..])];
      }
      i := i + 1;
    }
  }

  // ---------------------------------------------------------------------------
  // Listings offered line by line

  /** Every line of a listing painted in one colour, in order. */
  function PaintAll(st: Styling, c: Colour, lines: seq<string>): (r: seq<string>)
    ensures |r| == |lines|
  {
    if lines == [] then [] else [st.paint(c, lines[0])] + PaintAll(st, c, lines[1..])
  }

  /** Element `i` of the painted listing is line `i`, painted. */
  lemma {:induction false} PaintAllAt(st: Styling, c: Colour, lines: seq<string>, i: nat)
    requires i < |lines|
    ensures PaintAll(st, c, lines)[i] == st.paint(c, lines[i])
  {
    if i > 0 {
      PaintAllAt(st, c, lines[1..], i - 1);
    }
  }

  /** Stripping a painted listing gives the listing back, when stripping undoes painting. */
  lemma PaintAllRoundTrip(st: Styling, c: Colour, lines: seq<string>)
    requires StripUndoesPaint(st)
    ensures StripAll(st, PaintAll(st, c, lines)) == lines
  {
    forall i | 0 <= i < |lines| ensures PaintAll(st, c, lines)[i] == st.paint(c, lines[i]) {
      PaintAllAt(st, c, lines, i);
    }
    StripAllPainted(st, c, lines, PaintAll(st, c, lines));
  }

  /** The loop that pushes every line of a listing, painted (src/menus/remove_cli.rs:15-18). */
  method CollectPainted(st: Styling, c: Colour, lines: seq<string>) returns (choices: seq<string>)
    ensures choices == PaintAll(st, c, lines)
  {
    choices := [];
    var i := 0;
    while i < |lines|
      invariant 0 <= i <= |lines|
      invariant PaintAll(st, c, lines) == choices + PaintAll(st, c, lines[i..])
    {
      assert lines[i..][0] == lines[i] && lines[i..][1..] == lines[i + 1..];
      choices := choices + [st.paint(c, lines[i])];
      i := i + 1;
    }
  }

  /** Every line has a path. */
  predicate PathsReadable(lines: seq<string>) {
    forall i :: 0 <= i < |lines| ==> |lines[i]| >= 3
  }

  /** The path of every line, without quote stripping, in order. */
  function RawPaths(lines: seq<string>): (r: seq<string>)
    requires PathsReadable(lines)
    ensures |r| == |lines|
    ensures forall i :: 0 <= i < |lines| ==> r[i] == lines[i][3..]
  {
    if lines == [] then [] else [lines[0][3..]] + RawPaths(lines[1..])
  }

  /** The loop that offers the path of every status line, painted yellow
      (src/cli_menus.rs:319-321). */
  method CollectAllPaths(st: Styling, lines: seq<string>) returns (choices: seq<string>)
    requires PathsReadable(lines)
    ensures choices == PaintAll(st, Yellow, RawPaths(lines))
  {
    choices := [];
    var i := 0;
    while i < |lines|
      invariant 0 <= i <= |lines|
      invariant PathsReadable(lines[i..])
      invariant PaintAll(st, Yellow, RawPaths(lines)) == choices + PaintAll(st, Yellow, RawPaths(lines[i..]))
    {
      assert lines[i..][0] == lines[i] && lines[i..][1..] == lines[i + 1..];
      choices := choices + [st.paint(Yellow, lines[i][3..])];
      i := i + 1;
    }
  }

  /** The loop that copies every line of a `git log` listing into the choices
      (src/menus/undo_commit_cli.rs:18-21 and src/menus/branches_cli.rs:110-114). */
  method CollectLines(lines: seq<string>) returns (choices: seq<string>)
    ensures choices == lines
  {
    choices := [];
    var i := 0;
    while i < |lines|
      invariant 0 <= i <= |lines|
      invariant choices == lines[..i]
    {
      choices := choices + [lines[i]];
      i := i + 1;
    }
    assert lines[..i] == lines;
  }

  /** The leading seven characters of a `git log --oneline` line: its short hash. */
  function ShortHash(line: string): (h: string)
    requires |line| >= 7
    ensures |h| == 7 && line == h + line[7..]
  {
    line[..7]
  }
}
