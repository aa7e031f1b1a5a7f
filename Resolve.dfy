/**
 * Resolving the command's inputs: the API token, the repositories a source string names,
 * and the author filter.
 */
module Resolve {
  import opened Wrappers
  import opened Text
  import opened Records

  // ---------------------------------------------------------------------------
  // Token

  const TOKEN_VAR := "GITHUB_TOKEN"
  const TOKEN_FILE := "/.config/reporter/github_token.txt"

  /** The token file: `$HOME/.config/reporter/github_token.txt`. */
  function TokenPath(getenv: string -> string): string {
    getenv("HOME") + TOKEN_FILE
  }

  function NonEmpty(s: string): Option<string> {
    if s == "" then None else Some(s)
  }

  /** The first source that yields a value, in order. */
  function FirstAvailable(sources: seq<Option<string>>): (r: Option<string>)
    ensures r.Some? <==> exists i :: 0 <= i < |sources| && sources[i].Some?
    ensures r.Some? ==> exists i :: 0 <= i < |sources| && sources[i] == r && forall j :: 0 <= j < i ==> sources[j].None?
  {
    if sources == [] then None
    else if sources[0].Some? then sources[0]
    else
      var r := FirstAvailable(sources[1..]);
      assert forall i :: 1 <= i < |sources| ==> sources[i] == sources[1..][i - 1];
      if r.Some? then
        var k :| 0 <= k < |sources[1..]| && sources[1..][k] == r && forall j :: 0 <= j < k ==> sources[1..][j].None?;
        assert sources[k + 1] == r && forall j :: 0 <= j < k + 1 ==> sources[j].None?;
        r
      else r
  }

  /**
   * The API token: the `--token` flag, else `$GITHUB_TOKEN`, else the token file's contents
   * (even when empty). `getenv` gives the environment ("" when unset) and `readFile` the
   * outcome of reading a file (None when the read fails).
   */
  function Token(flag: string, getenv: string -> string, readFile: string -> Option<string>): (r: Result<string>)
    ensures flag != "" ==> r == Success(flag)
    ensures flag == "" && getenv(TOKEN_VAR) != "" ==> r == Success(getenv(TOKEN_VAR))
    ensures r.Failure? <==> flag == "" && getenv(TOKEN_VAR) == "" && readFile(TokenPath(getenv)).None?
    ensures r.Failure? ==> HasSuffix(r.error, TokenPath(getenv))
  {
    if flag != "" then Success(flag)
    else if getenv(TOKEN_VAR) != "" then Success(getenv(TOKEN_VAR))
    else
      var file := TokenPath(getenv);
      match readFile(file)
      case Some(contents) => Success(contents)
      case None =>
        var msg := "GitHub token neither given as a flag, nor found in env, not in " + file;
        assert msg[|msg| - |file|..] == file;
        Failure(msg)
  }

  /** The token is the first of flag, environment and file that is available. */
  lemma TokenIsFirstAvailable(flag: string, getenv: string -> string, readFile: string -> Option<string>)
    ensures var first := FirstAvailable([NonEmpty(flag), NonEmpty(getenv(TOKEN_VAR)), readFile(TokenPath(getenv))]);
            (first.Some? ==> Token(flag, getenv, readFile) == Success(first.value))
            && (first.None? <==> Token(flag, getenv, readFile).Failure?)
  {
    var sources := [NonEmpty(flag), NonEmpty(getenv(TOKEN_VAR)), readFile(TokenPath(getenv))];
    assert sources[1..] == [NonEmpty(getenv(TOKEN_VAR)), readFile(TokenPath(getenv))];
    assert sources[1..][1..] == [readFile(TokenPath(getenv))];
    assert sources[1..][1..][1..] == [];
    assert FirstAvailable(sources[1..][1..][1..]) == None;
    if FirstAvailable(sources).None? {
      assert sources[0].None? && sources[1].None? && sources[2].None?;
    }
  }

  // ---------------------------------------------------------------------------
  // Repositories

  /**
   * `repos`: "owner" lists the organisation's repositories, "owner/name" looks up one
   * repository, anything with more slashes is refused.
   */
  function Repos(gh: GitHub, src: string): (r: Result<seq<Repo>>)
    ensures Count(src, '/') >= 2 ==> r == Failure("Unexpected source string: " + src)
    ensures Count(src, '/') == 1 && r.Success? ==> |r.value| == 1
  {
    var parts := Split(src, '/');
    if |parts| == 1 then gh.listByOrg(parts[0])
    else if |parts| == 2 then
      match gh.getRepo(parts[0], parts[1])
      case Failure(e) => Failure(e)
      case Success(rep) => Success([rep])
    else Failure("Unexpected source string: " + src)
  }

  /** A source without a slash is handed whole to the organisation listing. */
  lemma ReposOrganisation(gh: GitHub, src: string)
    requires '/' !in src
    ensures Repos(gh, src) == gh.listByOrg(src)
  {
    SplitJoin([src], '/');
  }

  /** "owner/name" looks up exactly that repository. */
  lemma ReposSingle(gh: GitHub, owner: string, name: string)
    requires '/' !in owner && '/' !in name
    ensures var r := Repos(gh, owner + "/" + name);
            r == (match gh.getRepo(owner, name)
                  case Failure(e) => Failure(e)
                  case Success(rep) => Success([rep]))
  {
    SplitJoin([owner, name], '/');
    assert [owner, name][1..] == [name];
  }

  // ---------------------------------------------------------------------------
  // Author filter

  /**
   * `author`: "me" stands for the authenticated user's login (`me`, the outcome of that
   * lookup); a leading '@' is dropped when the value is longer than two bytes; a non-empty
   * result is lower-cased. "" means no filter.
   */
  function Author(flag: string, me: Result<string>): (r: Result<string>)
    ensures flag == "me" && me.Failure? ==> r == Failure(me.error)
    ensures flag != "me" ==> r.Success?
    ensures r.Success? ==> IsLower(r.value)
    ensures flag == "" ==> r == Success("")
    ensures r.Success? && r.value == "" ==> (if flag == "me" then me.value else flag) == ""
  {
    var base := if flag == "me" then me else Success(flag);
    match base
    case Failure(e) => Failure(e)
    case Success(a) =>
      var stripped := if Utf8Len(a) > 2 && a[0] == '@' then a[1..] else a;
      ToLowerIsLower(stripped);
      Success(if stripped != "" then ToLower(stripped) else stripped)
  }

  /** A leading '@' on a name of more than two bytes is dropped before lower-casing. */
  lemma AuthorStripsAt(flag: string, me: Result<string>)
    requires flag != "me" && |flag| > 1 && flag[0] == '@' && Utf8Len(flag) > 2
    ensures Author(flag, me) == Success(ToLower(flag[1..]))
  {
  }

  /** A flag that is not "me" and does not start with '@' is only lower-cased. */
  lemma AuthorPlain(flag: string, me: Result<string>)
    requires flag != "me" && !(|flag| > 0 && flag[0] == '@')
    ensures Author(flag, me) == Success(ToLower(flag))
  {
    if flag == "" {
      assert ToLower(flag) == "";
    }
  }

  /** "me" stands for the authenticated user's login, which is then treated as if it had been given. */
  lemma AuthorMe(login: string)
    ensures Author("me", Success(login)) == Author(login, Success(login))
  {
  }

  /** "@" and "@x" with a one-byte x are too short to be stripped. */
  lemma AuthorKeepsShortAt(c: char, me: Result<string>)
    requires c as int < 0x80
    ensures Author("@", me) == Success("@")
    ensures Author("@" + [c], me) == Success(ToLower("@" + [c]))
  {
    assert Utf8Len("@") == 1;
    assert ToLower("@") == "@";
    assert Utf8Len("@" + [c]) == 2 by {
      assert ("@" + [c])[1..] == [c];
    }
  }

  /** The length test counts bytes: "@é" is three bytes long, so its '@' goes. */
  lemma AuthorCountsBytes(me: Result<string>)
    ensures Author("@é", me) == Success("é")
  {
    assert Utf8Len("@é") == 3 by {
      assert "@é"[1..] == "é";
    }
    assert ToLower("é") == "é";
  }

  /** "me", "@Foo" and "foo" all name the same user when the authenticated login is "Foo". */
  lemma AuthorNormalises()
    ensures Author("me", Success("Foo")) == Author("@Foo", Success("x")) == Author("foo", Success("y"))
    ensures Author("foo", Success("y")) == Success("foo")
  {
    assert Utf8Len("Foo") == 3;
    assert Utf8Len("@Foo") == 4;
    assert "@Foo"[1..] == "Foo";
    assert ToLower("Foo") == "foo";
    assert ToLower("foo") == "foo";
  }
}
