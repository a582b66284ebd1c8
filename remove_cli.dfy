/** The remove menu (src/menus/remove_cli.rs): offers every tracked file and
    removes what the operator picks from tracking. */
module RemoveCli {

  import opened Cli
  import opened Utils
  import opened Choices

  /** What the remove menu is told: the `git ls-tree` listing as lines (`None`
      when the repository holds no files), the answer to the yes/no question
      about the disk, and the file multi-select. */
  datatype RemoveAnswers = RemoveAnswers(
    lsTree: Result<Option<seq<string>>>,
    asCached: Result<bool>,
    select: Select)

  /** The paths a selection answer stands for: every choice for "All", the
      selection itself for `Some`, nothing for "None"; each unstyled
      (src/menus/remove_cli.rs:21-26). */
  function SelectedPaths(st: Styling, choices: seq<string>, r: UserResponse<seq<string>>): (paths: seq<string>)
    ensures r.None? ==> paths == []
    ensures r.All? ==> (|paths| == |choices| &&
      forall i :: 0 <= i < |paths| ==> paths[i] == st.strip(choices[i]))
    ensures r.Some? ==> (|paths| == |r.items| &&
      forall i :: 0 <= i < |paths| ==> paths[i] == st.strip(r.items[i]))
  {
    match r
    case All => StripAllEach(st, choices); StripAll(st, choices)
    case Some(selected) => StripAllEach(st, selected); StripAll(st, selected)
    case None => []
  }

  /** The outcome of `git_remove_cli` (src/menus/remove_cli.rs:7-41). */
  function RemoveRun(a: RemoveAnswers, st: Styling, vcs: Vcs): Run {
    match a.lsTree
    case Err(e) => Stop(e)
    case Ok(None) => Done
    case Ok(Some(lines)) =>
      var choices := PaintAll(st, Yellow, lines);
      match a.asCached
      case Err(e) => Stop(e)
      case Ok(cached) =>
        match a.select(choices)
        case Err(e) => Stop(e)
        case Ok(r) =>
          var paths := SelectedPaths(st, choices, r);
          if paths == [] then Done else Issue(vcs, Rm(paths, cached))
  }

  /** `git_remove_cli` (src/menus/remove_cli.rs:7-41). */
  method GitRemoveCli(a: RemoveAnswers, st: Styling, vcs: Vcs) returns (result: Result<()>, trace: seq<Action>)
    ensures Run(result, trace) == RemoveRun(a, st, vcs)
  {
    trace := [];
    if a.lsTree.Err? {
      return Err(a.lsTree.msg), [];
    }
    if a.lsTree.value.None? {
      return Ok(()), [];
    }
    var choices := CollectPainted(st, Yellow, a.lsTree.value.value);
    if a.asCached.Err? {
      return Err(a.asCached.msg), [];
    }
    var asCached := a.asCached.value;
    var answer := a.select(choices);
    if answer.Err? {
      return Err(answer.msg), [];
    }
    var userChoices: seq<string>;
    match answer.value {
      case All =>
        userChoices := StripVecColors(st, choices);
      case Some(selected) =>
        userChoices := StripVecColors(st, selected);
      case None =>
        userChoices := [];
    }
    if |userChoices| == 0 {
      result := Ok(());
    } else {
      trace := [Rm(userChoices, asCached)];
      result := vcs(Rm(userChoices, asCached));
    }
  }

  /** There is one choice per listed file, in listing order; when stripping
      undoes painting, "All" names exactly the listed files. */
  lemma RemoveChoices(st: Styling, lines: seq<string>)
    ensures |PaintAll(st, Yellow, lines)| == |lines|
    ensures forall i :: 0 <= i < |lines| ==> PaintAll(st, Yellow, lines)[i] == st.paint(Yellow, lines[i])
    ensures StripUndoesPaint(st) ==> SelectedPaths(st, PaintAll(st, Yellow, lines), UserResponse.All) == lines
  {
    forall i | 0 <= i < |lines| ensures PaintAll(st, Yellow, lines)[i] == st.paint(Yellow, lines[i]) {
      PaintAllAt(st, Yellow, lines, i);
    }
    if StripUndoesPaint(st) {
      PaintAllRoundTrip(st, Yellow, lines);
    }
  }

  /** The disk question comes before the file selection: when it fails, the
      menu fails with its message whatever the selection would have been. */
  lemma RemoveAsksDiskFirst(a: RemoveAnswers, st: Styling, vcs: Vcs)
    requires a.lsTree.Ok? && a.lsTree.value.Some? && a.asCached.Err?
    ensures RemoveRun(a, st, vcs) == Stop(a.asCached.msg)
  {
  }

  /** An empty listing answer, or an empty resulting path list, removes nothing. */
  lemma RemoveRunNothingToDo(a: RemoveAnswers, st: Styling, vcs: Vcs)
    requires a.lsTree == Ok(Option.None) ||
             (a.lsTree.Ok? && a.lsTree.value.Some? && a.asCached.Ok? &&
              var r := a.select(PaintAll(st, Yellow, a.lsTree.value.value));
              r.Ok? && SelectedPaths(st, PaintAll(st, Yellow, a.lsTree.value.value), r.value) == [])
    ensures RemoveRun(a, st, vcs) == Done
  {
  }

  /** A non-empty resulting path list is removed by exactly one `git rm`,
      carrying the answer to the disk question. */
  lemma RemoveRunRm(a: RemoveAnswers, st: Styling, vcs: Vcs, r: UserResponse<seq<string>>)
    requires a.lsTree.Ok? && a.lsTree.value.Some? && a.asCached.Ok?
    requires a.select(PaintAll(st, Yellow, a.lsTree.value.value)) == Ok(r)
    requires SelectedPaths(st, PaintAll(st, Yellow, a.lsTree.value.value), r) != []
    ensures RemoveRun(a, st, vcs) ==
      Issue(vcs, Rm(SelectedPaths(st, PaintAll(st, Yellow, a.lsTree.value.value), r), a.asCached.value))
  {
  }
}
