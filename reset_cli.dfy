/** The reset menu (src/menus/reset_cli.rs): offers the staged files and
    unstages what the operator picks. */
module ResetCli {

  import opened Cli
  import opened Utils
  import opened Choices

  /** The error for an "All" answer, which the prompt is not meant to offer
      here (src/menus/reset_cli.rs:43). */
  const ResetAllMsg: string := "User shouldn't have been able to select 'all' in 'reset'"

  /** What the reset menu is told: the status query and the file multi-select. */
  datatype ResetAnswers = ResetAnswers(status: Result<Option<seq<string>>>, select: Select)

  /** The status lines are ones the staged-line loop can read without a panic. */
  predicate ResetReadable(a: ResetAnswers, unquote: bool) {
    a.status.Ok? && a.status.value.Some? ==> StagedLinesReadable(a.status.value.value, unquote)
  }

  /** The outcome of `git_reset_cli` (src/menus/reset_cli.rs:6-47); with
      `unquote` false, of its older copy (src/cli_menus.rs:89-123), which is the
      same but for quote stripping. */
  function ResetRun(a: ResetAnswers, st: Styling, vcs: Vcs, unquote: bool): Run
    requires ResetReadable(a, unquote)
  {
    match a.status
    case Err(e) => Stop(e)
    case Ok(None) => Done
    case Ok(Some(lines)) =>
      match a.select(StagedChoices(st, lines, unquote))
      case Err(e) => Stop(e)
      case Ok(None) => Done
      case Ok(Some(xs)) => Issue(vcs, Reset(xs))
      case Ok(All) => Stop(ResetAllMsg)
  }

  /** `git_reset_cli` (src/menus/reset_cli.rs:6-47 and, with `unquote` false,
      src/cli_menus.rs:89-123). */
  method GitResetCli(a: ResetAnswers, st: Styling, vcs: Vcs, unquote: bool) returns (result: Result<()>, trace: seq<Action>)
    requires ResetReadable(a, unquote)
    ensures Run(result, trace) == ResetRun(a, st, vcs, unquote)
  {
    trace := [];
    match a.status {
      case Err(e) =>
        result := Err(e);
      case Ok(None) =>
        result := Ok(());
      case Ok(Some(status)) =>
        var choices := CollectStaged(st, status, unquote);
        var answer := a.select(choices);
        if answer.Err? {
          return Err(answer.msg), [];
        }
        match answer.value {
          case None =>
            result := Ok(());
          case Some(choice) =>
            trace := [Reset(choice)];
            result := vcs(Reset(choice));
          case All =>
            result := Err(ResetAllMsg);
        }
    }
  }

  /** The prompt is shown exactly the staged paths: a line whose first
      character is not M, A, C or D never reaches it, and every staged line
      does, in order. */
  lemma ResetOffersStaged(a: ResetAnswers, st: Styling, vcs: Vcs, unquote: bool, before: seq<string>, line: string, after: seq<string>)
    requires a.status == Ok(Option.Some(before + [line] + after))
    requires ResetReadable(a, unquote)
    ensures |line| >= 1
    ensures !IsStaged(line) ==>
      StagedLinesReadable(before + after, unquote) &&
      ResetRun(a, st, vcs, unquote) == ResetRun(ResetAnswers(Ok(Option.Some(before + after)), a.select), st, vcs, unquote)
    ensures IsStaged(line) ==>
      StagedLinesReadable(before, unquote) && StagedLinesReadable(after, unquote) && PathReadable(line, unquote) &&
      StagedChoices(st, before + [line] + after, unquote) ==
        StagedChoices(st, before, unquote) + [st.paint(Yellow, PathOf(line, unquote))] + StagedChoices(st, after, unquote)
  {
    assert (before + [line] + after)[|before|] == line;
    if IsStaged(line) {
      StagedChoicesKeep(st, before, line, after, unquote);
    } else {
      StagedChoicesDrop(st, before, line, after, unquote);
    }
  }

  /** A clean work tree, and the "None" entry, reset nothing and return `Ok`. */
  lemma ResetRunNothingToDo(a: ResetAnswers, st: Styling, vcs: Vcs, unquote: bool)
    requires ResetReadable(a, unquote) && a.status.Ok?
    requires a.status.value.None? ||
             a.select(StagedChoices(st, a.status.value.value, unquote)) == Ok(UserResponse.None)
    ensures ResetRun(a, st, vcs, unquote) == Done
  {
  }

  /** A selection is unstaged exactly as returned, by one `git reset`; there is
      no check for an empty selection. */
  lemma ResetRunSome(a: ResetAnswers, st: Styling, vcs: Vcs, unquote: bool, xs: seq<string>)
    requires ResetReadable(a, unquote) && a.status.Ok? && a.status.value.Some?
    requires a.select(StagedChoices(st, a.status.value.value, unquote)) == Ok(UserResponse.Some(xs))
    ensures ResetRun(a, st, vcs, unquote) == Issue(vcs, Reset(xs))
  {
  }

  /** An "All" answer is an error, and nothing is reset. */
  lemma ResetRunAll(a: ResetAnswers, st: Styling, vcs: Vcs, unquote: bool)
    requires ResetReadable(a, unquote) && a.status.Ok? && a.status.value.Some?
    requires a.select(StagedChoices(st, a.status.value.value, unquote)) == Ok(UserResponse.All)
    ensures ResetRun(a, st, vcs, unquote) == Stop(ResetAllMsg)
  {
  }
}
