/** The command names of src/commands.rs: a closed enumeration with a parser and
    its inverse. */
module Commands {

  import Cli
  type Option<T> = Cli.Option<T>

  /** `Commands` (src/commands.rs:1-5). */
  datatype Command = Add | Reset | Commit

  /** Lower-casing of one ASCII character. */
  function LowerChar(c: char): char {
    if 'A' <= c <= 'Z' then (c as int + 32) as char else c
  }

  predicate IsLowerChar(c: char) {
    !('A' <= c <= 'Z')
  }

  /** `str::to_lowercase`, restricted to ASCII text. */
  function ToLower(s: string): (r: string)
    ensures |r| == |s|
    ensures forall i :: 0 <= i < |s| ==> r[i] == LowerChar(s[i])
  {
    if s == [] then [] else [LowerChar(s[0])] + ToLower(s[1..])
  }

  /** A text without upper-case letters. */
  predicate IsLower(s: string) {
    forall i :: 0 <= i < |s| ==> IsLowerChar(s[i])
  }

  /** `Commands::to_string` (src/commands.rs:17-23). */
  function ToString(c: Command): (name: string)
    ensures name in {"add", "reset", "commit"}
  {
    match c
    case Add => "add"
    case Reset => "reset"
    case Commit => "commit"
  }

  /** `Commands::get_from_string` (src/commands.rs:8-15): the input is
      lower-cased, then compared with the three command names. */
  function GetFromString(input: string): (r: Option<Command>)
    ensures r.Some? <==> ToLower(input) in {"add", "reset", "commit"}
    ensures r.Some? ==> ToString(r.value) == ToLower(input)
  {
    var word := ToLower(input);
    if word == "add" then Cli.Option.Some(Add)
    else if word == "reset" then Cli.Option.Some(Reset)
    else if word == "commit" then Cli.Option.Some(Commit)
    else Cli.Option.None
  }

  /** Lower-casing leaves a lower-case text alone. */
  lemma {:induction false} ToLowerOfLower(s: string)
    requires IsLower(s)
    ensures ToLower(s) == s
  {
    if s != [] {
      ToLowerOfLower(s[1..]);
    }
  }

  /** Lower-casing is idempotent. */
  lemma ToLowerIdempotent(s: string)
    ensures ToLower(ToLower(s)) == ToLower(s)
  {
    ToLowerOfLower(ToLower(s));
  }

  /** Every command name is a lower-case word. */
  lemma ToStringIsLower(c: Command)
    ensures IsLower(ToString(c)) && ToLower(ToString(c)) == ToString(c)
  {
    ToLowerOfLower(ToString(c));
  }

  /** No two commands share a name. */
  lemma ToStringInjective(c: Command, d: Command)
    requires ToString(c) == ToString(d)
    ensures c == d
  {
  }

  /** Parsing a command's name gives the command back. */
  lemma RoundTrip(c: Command)
    ensures GetFromString(ToString(c)) == Cli.Option.Some(c)
  {
    ToStringIsLower(c);
  }

  /** Parsing ignores letter case: an input and its lower-case form parse alike. */
  lemma CaseInsensitive(input: string)
    ensures GetFromString(input) == GetFromString(ToLower(input))
  {
    ToLowerIdempotent(input);
  }

  /** An input parses to a command exactly when its lower-case form is that command's name. */
  lemma ParseIff(input: string, c: Command)
    ensures GetFromString(input) == Cli.Option.Some(c) <==> ToLower(input) == ToString(c)
  {
    if ToLower(input) == ToString(c) {
      ToStringIsLower(c);
      match c
      case Add =>
      case Reset =>
      case Commit =>
    }
  }
}
