/** The collaborators every menu talks to: the answers of the terminal prompts,
    and the `git` invocations that change the repository, recorded in order. */
module Cli {

  /** Rust's `Option`. */
  datatype Option<T> = None | Some(value: T)

  /** Rust's `Result<T, String>`: every collaborator reports failure as a message. */
  datatype Result<T> = Ok(value: T) | Err(msg: string)

  /** The answer of a menu prompt (`cli::UserResponse`): the synthetic "All" entry,
      a selection, or the synthetic "None" entry. */
  datatype UserResponse<T> = All | Some(items: T) | None

  /** A multi-select prompt, as a function of the choices it is shown. */
  type Select = seq<string> -> Result<UserResponse<seq<string>>>

  /** A single-select prompt, as a function of the choices it is shown; it answers an index. */
  type Pick = seq<string> -> Result<UserResponse<nat>>

  /** One `git` invocation that changes the repository. */
  datatype Action =
    | Add(paths: seq<string>)                         // git add <paths>
    | Reset(paths: seq<string>)                       // git reset <paths>
    | Checkout(targets: seq<string>)                  // git checkout <paths or branch>
    | Fetch                                           // git fetch --all
    | CreateBranch(name: string, start: Option<string>) // git checkout -b <name> [<commit>]
    | Revert(hash: string)                            // git revert <hash>
    | Rm(paths: seq<string>, cached: bool)            // git rm <paths>, with the operator's disk answer
    | Commit(args: Option<seq<string>>, verbose: bool) // git commit [-m <text> ...], given verbose_commit

  /** The version-control collaborator: what each invocation reports. */
  type Vcs = Action -> Result<()>

  /** What a menu returns, together with the `git` invocations it issued, in order. */
  datatype Run = Run(result: Result<()>, trace: seq<Action>)

  /** A menu that returns `Ok(())` without touching the repository. */
  const Done: Run := Run(Ok(()), [])

  /** A menu that returns an error before touching the repository. */
  function Stop(msg: string): Run {
    Run(Err(msg), [])
  }

  /** Issuing one invocation whose outcome the menu passes on. */
  function Issue(vcs: Vcs, a: Action): Run {
    Run(vcs(a), [a])
  }

  /** `first` followed by `rest`, unless `first` failed: Rust's `?` operator. */
  function Then(first: Run, rest: Run): Run {
    if first.result.Err? then first else Run(rest.result, first.trace + rest.trace)
  }
}
