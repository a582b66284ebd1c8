/** The undo-commit menu (src/menus/undo_commit_cli.rs): offers the commits of
    the current branch and reverts the one the operator picks. */
module UndoCommitCli {

  import opened Cli
  import opened Choices

  /** What the undo menu is told: the `git log --oneline` listing as lines
      (`None` when there are no commits), and the single-select over them. */
  datatype UndoAnswers = UndoAnswers(log: Result<Option<seq<string>>>, pick: Pick)

  /** The prompt behaves as the source relies on: an index it returns is in
      range and names a line long enough to hold a short hash, and it does
      not answer "All", which it is not asked to offer (src/menus/undo_commit_cli.rs:30-42). */
  predicate UndoDefined(a: UndoAnswers) {
    a.log.Ok? && a.log.value.Some? && a.pick(a.log.value.value).Ok? ==>
      var lines := a.log.value.value;
      var r := a.pick(lines).value;
      !r.All? && (r.Some? ==> r.items < |lines| && |lines[r.items]| >= 7)
  }

  /** The outcome of `git_undo_commit_cli` (src/menus/undo_commit_cli.rs:6-44). */
  function UndoRun(a: UndoAnswers, vcs: Vcs): Run
    requires UndoDefined(a)
  {
    match a.log
    case Err(e) => Stop(e)
    case Ok(None) => Done
    case Ok(Some(lines)) =>
      match a.pick(lines)
      case Err(e) => Stop(e)
      case Ok(None) => Done
      case Ok(Some(i)) => Issue(vcs, Revert(ShortHash(lines[i])))
      case Ok(All) => assert false; Done
  }

  /** `git_undo_commit_cli` (src/menus/undo_commit_cli.rs:6-44). */
  method GitUndoCommitCli(a: UndoAnswers, vcs: Vcs) returns (result: Result<()>, trace: seq<Action>)
    requires UndoDefined(a)
    ensures Run(result, trace) == UndoRun(a, vcs)
  {
    trace := [];
    if a.log.Err? {
      return Err(a.log.msg), [];
    }
    if a.log.value.None? {
      return Ok(()), [];
    }
    var choices := CollectLines(a.log.value.value);
    var usrSelected := a.pick(choices);
    if usrSelected.Err? {
      return Err(usrSelected.msg), [];
    }
    match usrSelected.value {
      case None =>
        result := Ok(());
      case Some(choice) =>
        var hash := choices[choice][..7];
        trace := [Revert(hash)];
        result := vcs(Revert(hash));
      case All =>
        assert false;
    }
  }

  /** No commits, and the "None" entry, revert nothing and return `Ok`. */
  lemma UndoRunNothingToDo(a: UndoAnswers, vcs: Vcs)
    requires UndoDefined(a)
    requires a.log == Ok(Option.None) ||
             (a.log.Ok? && a.log.value.Some? && a.pick(a.log.value.value) == Ok(UserResponse.None))
    ensures UndoRun(a, vcs) == Done
  {
  }

  /** Picking line `i` reverts exactly the commit named by its first seven
      characters, with one `git revert`. */
  lemma UndoRunRevert(a: UndoAnswers, vcs: Vcs, i: nat)
    requires UndoDefined(a) && a.log.Ok? && a.log.value.Some?
    requires a.pick(a.log.value.value) == Ok(UserResponse.Some(i))
    ensures i < |a.log.value.value|
    ensures var line := a.log.value.value[i];
      UndoRun(a, vcs) == Issue(vcs, Revert(line[..7])) && line == line[..7] + line[7..]
  {
  }
}
