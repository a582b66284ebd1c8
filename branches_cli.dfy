/** The branches menu (src/menus/branches_cli.rs): switch HEAD to a listed
    branch, fetching first when it is a remote one, or create a branch,
    optionally started on a commit picked from some branch's log. */
module BranchesCli {

  import opened Cli
  import opened Utils
  import opened Choices

  /** The error when no branch comes back from the switch prompt. */
  const SwitchUnselected: string := "How did you do that one!"
  /** The error for an action index other than the two offered. */
  const UnknownAction: string := "Wow, I don't even know what to say...\n Goodbye"
  /** The error when the action prompt answers without an index. */
  const NoAction: string := "You achieved the impossible"
  /** The marker of a remote-tracking branch name. */
  const RemoteMarker: string := "remotes/"

  /** `part` occurs somewhere in `s` (Rust's `str::contains`). */
  predicate Contains(s: string, part: string)
    decreases |s|
  {
    part <= s || (s != [] && Contains(s[1..], part))
  }

  /** A branch name that needs a fetch before it can be used. */
  predicate IsRemote(branch: string) {
    Contains(branch, RemoteMarker)
  }

  /** Every name with the marker somewhere inside it is remote. */
  lemma {:induction false} RemoteNames(before: string, after: string)
    ensures IsRemote(before + RemoteMarker + after)
  {
    var s := before + RemoteMarker + after;
    if before == [] {
      assert s == RemoteMarker + after;
    } else {
      assert s[1..] == before[1..] + RemoteMarker + after;
      RemoteNames(before[1..], after);
    }
  }

  /** Only names with the marker somewhere inside them are remote. */
  lemma {:induction false} RemoteNamesOnly(branch: string)
    requires IsRemote(branch)
    ensures exists before, after :: branch == before + RemoteMarker + after
    decreases |branch|
  {
    if RemoteMarker <= branch {
      assert branch == [] + RemoteMarker + branch[|RemoteMarker|..];
    } else {
      RemoteNamesOnly(branch[1..]);
      var before, after :| branch[1..] == before + RemoteMarker + after;
      assert branch == ([branch[0]] + before) + RemoteMarker + after;
    }
  }

  /** What the branches menu is told: the action picked from "Switch HEAD" and
      "Create new branch"; the branch list; the branch prompt, as a function
      of the branches it shows; whether to start on a specific commit; the log
      of a branch, as a function of that branch; the commit prompt, as a
      function of the log lines it shows (it offers a "None" entry); and the
      name typed for a new branch. */
  datatype BranchAnswers = BranchAnswers(
    action: Result<UserResponse<nat>>,
    branches: Result<Option<seq<string>>>,
    pickBranch: Pick,
    onCommit: Result<bool>,
    log: string -> Result<Option<seq<string>>>,
    pickCommit: Pick,
    name: Result<string>)

  /** An index that comes back from a prompt lies within what it showed. */
  predicate InRange(r: Result<UserResponse<nat>>, shown: seq<string>) {
    r.Ok? && r.value.Some? ==> r.value.items < |shown|
  }

  /** The commit prompt never answers `All`, and a picked log line starts
      with a seven-character abbreviated hash (src/menus/branches_cli.rs:122-139). */
  predicate CommitPickDefined(a: BranchAnswers, branch: string) {
    a.log(branch).Ok? && a.log(branch).value.Some? ==>
      var lines := a.log(branch).value.value;
      var r := a.pickCommit(lines);
      InRange(r, lines) && (r.Ok? ==> !r.value.All?) &&
      (r.Ok? && r.value.Some? ==> |lines[r.value.items]| >= 7)
  }

  /** The answers for which the menu does not panic: indexed branches and log
      lines exist, the branch list asked for a base commit exists, and its
      prompt answers with an index (src/menus/branches_cli.rs:49, 77-101, 128, 137). */
  predicate BranchesDefined(a: BranchAnswers, st: Styling, askBase: bool) {
    (a.branches.Ok? && a.branches.value.Some? ==>
       InRange(a.pickBranch(a.branches.value.value), a.branches.value.value)) &&
    (a.action == Ok(UserResponse.Some(1)) && askBase && a.onCommit == Ok(true) && a.branches.Ok? ==>
       a.branches.value.Some? &&
       var branches := a.branches.value.value;
       var r := a.pickBranch(branches);
       (r.Ok? ==> r.value.Some?) &&
       (r.Ok? ==> CommitPickDefined(a, st.strip(branches[r.value.items]))))
  }

  /** `git fetch`, for a remote branch only. */
  function FetchIfRemote(vcs: Vcs, branch: string): Run {
    if IsRemote(branch) then Issue(vcs, Fetch) else Done
  }

  /** The switch (src/menus/branches_cli.rs:35-61): check out the stripped
      name of the picked branch, alone. */
  function SwitchRun(a: BranchAnswers, st: Styling, vcs: Vcs): Run
    requires a.branches.Ok? && a.branches.value.Some? ==>
      InRange(a.pickBranch(a.branches.value.value), a.branches.value.value)
  {
    match a.branches
    case Err(e) => Stop(e)
    case Ok(None) => Done
    case Ok(Some(branches)) =>
      match a.pickBranch(branches)
      case Err(e) => Stop(e)
      case Ok(target) =>
        if target.Some? then
          var branch := st.strip(branches[target.items]);
          Then(FetchIfRemote(vcs, branch), Issue(vcs, Checkout([branch])))
        else Stop(SwitchUnselected)
  }

  /** Asking for the name and creating the branch at `start`. */
  function NameRun(a: BranchAnswers, vcs: Vcs, start: Option<string>): Run {
    match a.name
    case Err(e) => Stop(e)
    case Ok(name) => Issue(vcs, CreateBranch(name, start))
  }

  /** The part after a base branch is known (src/menus/branches_cli.rs:103-140):
      its log, the commit picked from it, and the branch created at that
      commit's abbreviated hash. */
  function BaseRun(a: BranchAnswers, vcs: Vcs, branch: string): Run
    requires CommitPickDefined(a, branch)
  {
    match a.log(branch)
    case Err(e) => Stop(e)
    case Ok(None) => Done
    case Ok(Some(lines)) =>
      match a.pickCommit(lines)
      case Err(e) => Stop(e)
      case Ok(picked) =>
        if picked.Some? then NameRun(a, vcs, Option.Some(ShortHash(lines[picked.items])))
        else Done
  }

  /** The creation (src/menus/branches_cli.rs:63-145); without `askBase` the
      question about a base commit is not asked, as in the older menu. */
  function CreateRun(a: BranchAnswers, st: Styling, vcs: Vcs, askBase: bool): Run
    requires a.action == Ok(UserResponse.Some(1)) && BranchesDefined(a, st, askBase)
  {
    if !askBase then NameRun(a, vcs, Option.None)
    else
      match a.onCommit
      case Err(e) => Stop(e)
      case Ok(onCommit) =>
        if !onCommit then NameRun(a, vcs, Option.None)
        else
          match a.branches
          case Err(e) => Stop(e)
          case Ok(listed) =>
            var branches := listed.value;
            match a.pickBranch(branches)
            case Err(e) => Stop(e)
            case Ok(picked) =>
              var branch := st.strip(branches[picked.items]);
              Then(FetchIfRemote(vcs, branch), BaseRun(a, vcs, branch))
  }

  /** The outcome of `git_branches_cli` (src/menus/branches_cli.rs:8-152). */
  function BranchesRun(a: BranchAnswers, st: Styling, vcs: Vcs, askBase: bool): Run
    requires BranchesDefined(a, st, askBase)
  {
    match a.action
    case Err(e) => Stop(e)
    case Ok(choice) =>
      if !choice.Some? then Stop(NoAction)
      else if choice.items == 0 then SwitchRun(a, st, vcs)
      else if choice.items == 1 then CreateRun(a, st, vcs, askBase)
      else Stop(UnknownAction)
  }

  /** `git fetch` for a remote branch; the imperative counterpart of
      `FetchIfRemote`. */
  method FetchBranch(vcs: Vcs, branch: string) returns (result: Result<()>, trace: seq<Action>)
    ensures Run(result, trace) == FetchIfRemote(vcs, branch)
  {
    result, trace := Ok(()), [];
    if IsRemote(branch) {
      result, trace := vcs(Fetch), [Fetch];
    }
  }

  /** The commit-based part, imperatively. */
  method CreateOnCommit(a: BranchAnswers, vcs: Vcs, branch: string) returns (result: Result<()>, trace: seq<Action>)
    requires CommitPickDefined(a, branch)
    ensures Run(result, trace) == BaseRun(a, vcs, branch)
  {
    result, trace := Ok(()), [];
    var listed := a.log(branch);
    if listed.Err? {
      return Err(listed.msg), [];
    }
    if listed.value.None? {
      return;
    }
    var choices := CollectLines(listed.value.value);
    var usrSelected := a.pickCommit(choices);
    if usrSelected.Err? {
      return Err(usrSelected.msg), [];
    }
    match usrSelected.value
    case None =>
    case Some(choice) =>
      var hash := choices[choice][..7];
      if a.name.Err? {
        return Err(a.name.msg), [];
      }
      var action := CreateBranch(a.name.value, Option.Some(hash));
      result, trace := vcs(action), [action];
    case All =>
      assert false;
  }

  /** `git_branches_cli` (src/menus/branches_cli.rs:8-152); `askBase` false
      gives the older menu (src/cli_menus.rs:237-281). */
  method GitBranchesCli(a: BranchAnswers, st: Styling, vcs: Vcs, askBase: bool)
    returns (result: Result<()>, trace: seq<Action>)
    requires BranchesDefined(a, st, askBase)
    ensures Run(result, trace) == BranchesRun(a, st, vcs, askBase)
  {
    result, trace := Ok(()), [];
    if a.action.Err? {
      return Err(a.action.msg), [];
    }
    if !a.action.value.Some? {
      return Err(NoAction), [];
    }
    var val := a.action.value.items;
    if val == 0 {
      if a.branches.Err? {
        return Err(a.branches.msg), [];
      }
      if a.branches.value.None? {
        return;
      }
      var branches := a.branches.value.value;
      var target := a.pickBranch(branches);
      if target.Err? {
        return Err(target.msg), [];
      }
      if !target.value.Some? {
        return Err(SwitchUnselected), [];
      }
      var branch := st.strip(branches[target.value.items]);
      result, trace := FetchBranch(vcs, branch);
      if result.Err? {
        return;
      }
      branches := [];
      branches := branches + [branch];
      assert branches == [branch];
      result := vcs(Checkout(branches));
      trace := trace + [Checkout(branches)];
    } else if val == 1 {
      var onCommit := false;
      if askBase {
        if a.onCommit.Err? {
          return Err(a.onCommit.msg), [];
        }
        onCommit := a.onCommit.value;
      }
      if onCommit {
        if a.branches.Err? {
          return Err(a.branches.msg), [];
        }
        var branches := a.branches.value.value;
        var picked := a.pickBranch(branches);
        if picked.Err? {
          return Err(picked.msg), [];
        }
        var branch := st.strip(branches[picked.value.items]);
        result, trace := FetchBranch(vcs, branch);
        if result.Err? {
          return;
        }
        var created, createTrace := CreateOnCommit(a, vcs, branch);
        result, trace := created, trace + createTrace;
      } else {
        if a.name.Err? {
          return Err(a.name.msg), [];
        }
        var action := CreateBranch(a.name.value, Option.None);
        result, trace := vcs(action), [action];
      }
    } else {
      return Err(UnknownAction), [];
    }
  }

  /** Switching to a picked branch checks out exactly its stripped name, after
      a fetch if and only if that name is remote; a failed fetch checks out
      nothing. */
  lemma SwitchChecksOut(a: BranchAnswers, st: Styling, vcs: Vcs, askBase: bool, branches: seq<string>, index: nat)
    requires BranchesDefined(a, st, askBase)
    requires a.action == Ok(UserResponse.Some(0)) && a.branches == Ok(Option.Some(branches))
    requires a.pickBranch(branches) == Ok(UserResponse.Some(index))
    ensures index < |branches|
    ensures var branch := st.strip(branches[index]);
      var run := BranchesRun(a, st, vcs, askBase);
      if IsRemote(branch) && vcs(Fetch).Err? then run == Run(vcs(Fetch), [Fetch])
      else run == Run(vcs(Checkout([branch])), (if IsRemote(branch) then [Fetch] else []) + [Checkout([branch])])
  {
  }

  /** A fetch happens on a switch if and only if the picked name is remote. */
  lemma SwitchFetchesIffRemote(a: BranchAnswers, st: Styling, vcs: Vcs, askBase: bool, branches: seq<string>, index: nat)
    requires BranchesDefined(a, st, askBase)
    requires a.action == Ok(UserResponse.Some(0)) && a.branches == Ok(Option.Some(branches))
    requires a.pickBranch(branches) == Ok(UserResponse.Some(index))
    ensures index < |branches|
    ensures Fetch in BranchesRun(a, st, vcs, askBase).trace <==> IsRemote(st.strip(branches[index]))
  {
    SwitchChecksOut(a, st, vcs, askBase, branches, index);
  }

  /** No branches: nothing happens; a switch prompt answering without an
      index, an unknown action index, and an action prompt answering without
      an index are errors with their fixed messages, and touch nothing. */
  lemma BranchesRunStops(a: BranchAnswers, st: Styling, vcs: Vcs, askBase: bool)
    requires BranchesDefined(a, st, askBase) && a.action.Ok?
    ensures a.action.value == UserResponse.Some(0) && a.branches == Ok(Option.None) ==>
      BranchesRun(a, st, vcs, askBase) == Done
    ensures a.action.value == UserResponse.Some(0) && a.branches.Ok? && a.branches.value.Some? &&
            a.pickBranch(a.branches.value.value).Ok? && !a.pickBranch(a.branches.value.value).value.Some? ==>
      BranchesRun(a, st, vcs, askBase) == Stop(SwitchUnselected)
    ensures a.action.value.Some? && a.action.value.items >= 2 ==>
      BranchesRun(a, st, vcs, askBase) == Stop(UnknownAction)
    ensures !a.action.value.Some? ==> BranchesRun(a, st, vcs, askBase) == Stop(NoAction)
  {
  }

  /** Creating without a base (the older menu, or declining the question)
      creates the named branch at HEAD and does nothing else. */
  lemma CreateAtHead(a: BranchAnswers, st: Styling, vcs: Vcs, askBase: bool, name: string)
    requires BranchesDefined(a, st, askBase)
    requires a.action == Ok(UserResponse.Some(1)) && a.name == Ok(name)
    requires askBase ==> a.onCommit == Ok(false)
    ensures BranchesRun(a, st, vcs, askBase) == Issue(vcs, CreateBranch(name, Option.None))
  {
  }

  /** Creating on a commit: the picked branch is fetched if and only if it is
      remote, its own log is the one offered, and the branch is created at
      the first seven characters of the picked log line. */
  lemma CreateOnPickedCommit(a: BranchAnswers, st: Styling, vcs: Vcs, branches: seq<string>, index: nat,
                             lines: seq<string>, choice: nat, name: string)
    requires BranchesDefined(a, st, true)
    requires a.action == Ok(UserResponse.Some(1)) && a.onCommit == Ok(true)
    requires a.branches == Ok(Option.Some(branches)) && a.pickBranch(branches) == Ok(UserResponse.Some(index))
    requires index < |branches|
    requires var branch := st.strip(branches[index]);
      (IsRemote(branch) ==> vcs(Fetch).Ok?) && a.log(branch) == Ok(Option.Some(lines))
    requires a.pickCommit(lines) == Ok(UserResponse.Some(choice)) && a.name == Ok(name)
    ensures choice < |lines| && |lines[choice]| >= 7
    ensures var branch := st.strip(branches[index]);
      var action := CreateBranch(name, Option.Some(lines[choice][..7]));
      BranchesRun(a, st, vcs, true) ==
        Run(vcs(action), (if IsRemote(branch) then [Fetch] else []) + [action])
  {
  }

  /** An empty log, or the "None" entry of the commit prompt, returns to the
      menu without creating a branch. */
  lemma CreateAbandoned(a: BranchAnswers, st: Styling, vcs: Vcs, branches: seq<string>, index: nat)
    requires BranchesDefined(a, st, true)
    requires a.action == Ok(UserResponse.Some(1)) && a.onCommit == Ok(true)
    requires a.branches == Ok(Option.Some(branches)) && a.pickBranch(branches) == Ok(UserResponse.Some(index))
    requires index < |branches|
    requires var branch := st.strip(branches[index]);
      (IsRemote(branch) ==> vcs(Fetch).Ok?) &&
      (a.log(branch) == Ok(Option.None) ||
       (a.log(branch).Ok? && a.log(branch).value.Some? &&
        a.pickCommit(a.log(branch).value.value) == Ok(UserResponse.None)))
    ensures BranchesRun(a, st, vcs, true) ==
      Run(Ok(()), if IsRemote(st.strip(branches[index])) then [Fetch] else [])
  {
  }
}
