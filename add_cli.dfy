/** The add menu (src/menus/add_cli.rs): offers the changed files of the work
    tree and stages what the operator picks. */
module AddCli {

  import opened Cli
  import opened Utils
  import opened Choices

  /** What the add menu is told: the answer of `git status --short`, split
      into lines (`None` when nothing changed), and the file multi-select. */
  datatype AddAnswers = AddAnswers(status: Result<Option<seq<string>>>, select: Select)

  /** The status lines are ones the add loop can read without a panic. */
  predicate AddReadable(a: AddAnswers) {
    a.status.Ok? && a.status.value.Some? ==> AddLinesReadable(a.status.value.value, true)
  }

  /** The outcome of `git_add_cli` (src/menus/add_cli.rs:7-117). */
  function AddRun(a: AddAnswers, st: Styling, vcs: Vcs): Run
    requires AddReadable(a)
  {
    match a.status
    case Err(e) => Stop(e)
    case Ok(None) => Done
    case Ok(Some(lines)) =>
      match AddChoices(st, lines, true)
      case Err(e) => Stop(e)
      case Ok(choices) =>
        if choices == [] then Done
        else
          match a.select(choices)
          case Err(e) => Stop(e)
          case Ok(None) => Done
          case Ok(Some(xs)) => if xs == [] then Done else Issue(vcs, Add(xs))
          case Ok(All) => Issue(vcs, Add(StripAll(st, choices)))
  }

  /** `git_add_cli` (src/menus/add_cli.rs:7-117): query the status, collect
      the choices, prompt, and forward the selection to `git add`. */
  method GitAddCli(a: AddAnswers, st: Styling, vcs: Vcs) returns (result: Result<()>, trace: seq<Action>)
    requires AddReadable(a)
    ensures Run(result, trace) == AddRun(a, st, vcs)
  {
    trace := [];
    if a.status.Err? {
      return Err(a.status.msg), [];
    }
    if a.status.value.None? {
      return Ok(()), [];
    }
    var collected := CollectAddChoices(st, a.status.value.value, true);
    if collected.Err? {
      return Err(collected.msg), [];
    }
    var choices := collected.value;
    if |choices| == 0 {
      return Ok(()), [];
    }
    var usrSelected := a.select(choices);
    if usrSelected.Err? {
      return Err(usrSelected.msg), [];
    }
    match usrSelected.value {
      case None =>
        result := Ok(());
      case Some(choice) =>
        if |choice| == 0 {
          result := Ok(());
        } else {
          trace := [Add(choice)];
          result := vcs(Add(choice));
        }
      case All =>
        var paths := StripVecColors(st, choices);
        trace := [Add(paths)];
        result := vcs(Add(paths));
    }
  }

  /** The menu stages nothing, and returns `Ok`, when the work tree is clean,
      when no line yields a choice, when the operator picks the "None" entry,
      and when the operator confirms an empty selection. */
  lemma AddRunNothingToDo(a: AddAnswers, st: Styling, vcs: Vcs)
    requires AddReadable(a) && a.status.Ok?
    requires a.status.value.None? ||
             AddChoices(st, a.status.value.value, true) == Ok([]) ||
             (AddChoices(st, a.status.value.value, true).Ok? &&
              var r := a.select(AddChoices(st, a.status.value.value, true).value);
              r == Ok(UserResponse.None) || r == Ok(UserResponse.Some([])))
    ensures AddRun(a, st, vcs) == Done
  {
  }

  /** A line the add menu rejects (second character 'M' under an unknown first
      character) makes the whole menu fail with a message naming the first such
      line; nothing is staged and the prompt is never shown. */
  lemma AddRunRejects(a: AddAnswers, st: Styling, vcs: Vcs, i: nat)
    requires AddReadable(a) && a.status.Ok? && a.status.value.Some?
    requires var lines := a.status.value.value;
      i < |lines| && Rejects(lines[i]) && NoRejects(lines[..i])
    ensures AddRun(a, st, vcs) == Stop(UnknownFirstChar + a.status.value.value[i])
  {
    AddChoicesRejects(st, a.status.value.value, true, i);
  }

  /** A non-empty selection is staged exactly as the prompt returned it, by one `git add`. */
  lemma AddRunSome(a: AddAnswers, st: Styling, vcs: Vcs, xs: seq<string>)
    requires AddReadable(a) && a.status.Ok? && a.status.value.Some?
    requires var r := AddChoices(st, a.status.value.value, true);
      r.Ok? && r.value != [] && a.select(r.value) == Ok(UserResponse.Some(xs))
    requires xs != []
    ensures AddRun(a, st, vcs).trace == [Add(xs)]
    ensures AddRun(a, st, vcs).result == vcs(Add(xs))
  {
  }

  /** Picking "All" stages every offered path, unstyled and in line order: when
      stripping undoes painting, exactly the paths the status lines name, with
      their quotes removed. */
  lemma AddRunAll(a: AddAnswers, st: Styling, vcs: Vcs)
    requires AddReadable(a) && a.status.Ok? && a.status.value.Some?
    requires var r := AddChoices(st, a.status.value.value, true);
      r.Ok? && r.value != [] && a.select(r.value) == Ok(UserResponse.All)
    requires StripUndoesPaint(st)
    ensures NoRejects(a.status.value.value)
    ensures (AllAddLinesReadable(a.status.value.value, true);
             var paths := OfferedPaths(a.status.value.value, true);
             AddRun(a, st, vcs) == Issue(vcs, Add(paths)))
  {
    var lines := a.status.value.value;
    AddChoicesOkIff(st, lines, true);
    AddChoicesRoundTrip(st, lines, true);
  }

  /** Whatever happens, the menu issues at most one `git add` and nothing else. */
  lemma AddRunAtMostOneAdd(a: AddAnswers, st: Styling, vcs: Vcs)
    requires AddReadable(a)
    ensures |AddRun(a, st, vcs).trace| <= 1
    ensures forall k :: 0 <= k < |AddRun(a, st, vcs).trace| ==> AddRun(a, st, vcs).trace[k].Add?
  {
  }
}
