/**
 * The configuration file `config/repositories.json` and the text handling of
 * `interactive_setup`: reading the repository list back, stripping and
 * lower-casing answers, and the default local path.
 */
module Config {

  import opened Common
  import opened FileSystem

  /** One element of the `repositories` list: a JSON object of string fields. */
  type ConfigEntry = map<string, string>

  /**
   * The configuration file as `json.load` sees it: absent, not JSON, or a JSON
   * object whose `repositories` member may be missing.
   */
  datatype ConfigFile =
    | Missing
    | NotJson
    | Json(repositories: Option<seq<ConfigEntry>>)

  /**
   * `load_repositories`: the list in file order; `[]` for a missing file or
   * invalid JSON; a document without `repositories` raises `KeyError`, which
   * is not caught.
   */
  function LoadRepositories(file: ConfigFile): (r: Result<seq<ConfigEntry>>)
    ensures r.Err? <==> file == Json(None)
    ensures r.Err? ==> r.error == KeyError("repositories")
    ensures file.Missing? || file.NotJson? ==> r == Ok([])
    ensures file.Json? && file.repositories.Some? ==> r == Ok(file.repositories.value)
  {
    match file
    case Missing => Ok([])
    case NotJson => Ok([])
    case Json(None) => Err(KeyError("repositories"))
    case Json(Some(entries)) => Ok(entries)
  }

  /** An entry `backup_and_sync` can process without raising: all three keys, and a non-empty local path. */
  predicate WellFormedEntry(e: ConfigEntry) {
    "name" in e && "url" in e && "local_path" in e && e["local_path"] != ""
  }

  /** Python's `str.isspace` for one character. */
  predicate IsSpace(c: char) {
    var k := c as int;
    || k == 0x20 || 0x09 <= k <= 0x0D || 0x1C <= k <= 0x1F || k == 0x85 || k == 0xA0
    || k == 0x1680 || 0x2000 <= k <= 0x200A || k == 0x2028 || k == 0x2029
    || k == 0x202F || k == 0x205F || k == 0x3000
  }

  /** `str.lstrip()`. */
  function TrimStart(s: string): string {
    if s != [] && IsSpace(s[0]) then TrimStart(s[1..]) else s
  }

  /** `str.rstrip()`. */
  function TrimEnd(s: string): string {
    if s != [] && IsSpace(s[|s| - 1]) then TrimEnd(s[..|s| - 1]) else s
  }

  /** `lstrip` drops exactly the leading white space. */
  lemma {:induction false} TrimStartSuffix(s: string)
    ensures var r := TrimStart(s);
            && |r| <= |s| && r == s[|s| - |r|..]
            && (r != [] ==> !IsSpace(r[0]))
            && (forall i :: 0 <= i < |s| - |r| ==> IsSpace(s[i]))
  {
    if s != [] && IsSpace(s[0]) {
      var t := s[1..];
      TrimStartSuffix(t);
      assert forall i :: 1 <= i < |s| ==> s[i] == t[i - 1];
    }
  }

  /** `rstrip` drops exactly the trailing white space. */
  lemma {:induction false} TrimEndPrefix(s: string)
    ensures var r := TrimEnd(s);
            && |r| <= |s| && r == s[..|r|]
            && (r != [] ==> !IsSpace(r[|r| - 1]))
            && (forall i :: |r| <= i < |s| ==> IsSpace(s[i]))
  {
    if s != [] && IsSpace(s[|s| - 1]) {
      var t := s[..|s| - 1];
      var r := TrimEnd(t);
      TrimEndPrefix(t);
      assert TrimEnd(s) == r;
      assert t[..|r|] == s[..|r|];
      forall i | |r| <= i < |s|
        ensures IsSpace(s[i])
      {
        if i < |s| - 1 {
          assert s[i] == t[i];
        }
      }
    }
  }

  /** `str.strip()`. */
  function Strip(s: string): string {
    TrimEnd(TrimStart(s))
  }

  /** The stripped text is the longest slice with no white space at either end; every cut character is white space. */
  lemma StripSlice(s: string)
    ensures var r := Strip(s);
            && (r != [] ==> !IsSpace(r[0]) && !IsSpace(r[|r| - 1]))
            && |TrimStart(s)| <= |s|
            && var k := |s| - |TrimStart(s)|;
            && k + |r| <= |s| && r == s[k..k + |r|]
            && (forall i :: 0 <= i < k ==> IsSpace(s[i]))
            && (forall i :: k + |r| <= i < |s| ==> IsSpace(s[i]))
  {
    var t := TrimStart(s);
    var r := TrimEnd(t);
    TrimStartSuffix(s);
    TrimEndPrefix(t);
    var k := |s| - |t|;
    assert Strip(s) == r;
    assert r == t[..|r|] && t == s[k..];
    assert r == s[k..k + |r|];
    if r != [] {
      assert r[0] == t[0];
    }
    forall i | k + |r| <= i < |s|
      ensures IsSpace(s[i])
    {
      assert s[i] == t[i - k];
    }
  }

  function LowerChar(c: char): char {
    if 'A' <= c <= 'Z' then (c as int + 32) as char else c
  }

  /** `str.lower()` on the ASCII letters; no other character lower-cases to 'y'. */
  function Lower(s: string): (r: string)
    ensures |r| == |s| && forall i :: 0 <= i < |s| ==> r[i] == LowerChar(s[i])
  {
    if s == [] then [] else [LowerChar(s[0])] + Lower(s[1..])
  }

  /** The answer to "add another repository?" that continues the loop. */
  predicate AddsAnother(answer: string) {
    Lower(answer) == "y"
  }

  /** Only "y" and "Y" continue: the answer is lower-cased but not stripped. */
  lemma AddsAnotherExactly(answer: string)
    ensures AddsAnother(answer) <==> answer == "y" || answer == "Y"
  {
    if AddsAnother(answer) {
      assert |answer| == 1 && LowerChar(answer[0]) == 'y';
    }
  }

  /** One configured repository from the three answers; an empty path defaults to `join('repos', name)`. */
  function EntryFromAnswers(name: string, url: string, localPath: string): ConfigEntry {
    var n := Strip(name);
    var p := Strip(localPath);
    map["name" := n, "url" := Strip(url), "local_path" := if p == "" then Join("repos", n) else p]
  }

  /**
   * The entry holds exactly the three keys, the stripped name and url, and the
   * stripped path or, when that is empty, `repos/<name>`; it is never rejected
   * by `backup_and_sync`.
   */
  lemma EntryFromAnswersFields(name: string, url: string, localPath: string)
    ensures var e := EntryFromAnswers(name, url, localPath);
            && e.Keys == {"name", "url", "local_path"}
            && e["name"] == Strip(name) && e["url"] == Strip(url)
            && (Strip(localPath) != "" ==> e["local_path"] == Strip(localPath))
            && (Strip(localPath) == "" ==> e["local_path"] == Join("repos", Strip(name)))
            && WellFormedEntry(e)
  {
    var p := Strip(localPath);
    var n := Strip(name);
    if p == "" && n == "" {
      assert "repos"[4] != '/';
      assert Join("repos", n) == "repos" + "/" + n;
    }
  }

  /**
   * The list `interactive_setup` saves, from the lines typed at its prompts:
   * four per repository (name, url, local path, "add another?"). Running out
   * of lines before a final "no" raises `EOFError` and nothing is saved.
   */
  function Setup(lines: seq<string>): Result<seq<ConfigEntry>>
    decreases |lines|
  {
    if |lines| < 4 then Err(EOFError)
    else
      var e := EntryFromAnswers(lines[0], lines[1], lines[2]);
      if !AddsAnother(lines[3]) then Ok([e])
      else match Setup(lines[4..])
        case Ok(rest) => Ok([e] + rest)
        case Err(x) => Err(x)
  }

  /** Unfolds setup at a round starting at line `next`. */
  lemma SetupStep(lines: seq<string>, next: nat)
    requires next + 4 <= |lines|
    ensures var e := EntryFromAnswers(lines[next], lines[next + 1], lines[next + 2]);
            Setup(lines[next..])
            == if !AddsAnother(lines[next + 3]) then Ok([e])
               else match Setup(lines[next + 4..])
                 case Ok(rest) => Ok([e] + rest)
                 case Err(x) => Err(x)
  {
    var rest := lines[next..];
    assert rest[4..] == lines[next + 4..];
    assert rest[0] == lines[next] && rest[1] == lines[next + 1] && rest[2] == lines[next + 2];
    assert rest[3] == lines[next + 3];
  }

  /** The entry built from the answers of round `k` (0-based). */
  function RoundEntry(lines: seq<string>, k: nat): ConfigEntry
    requires 4 * k + 2 < |lines|
  {
    EntryFromAnswers(lines[4 * k], lines[4 * k + 1], lines[4 * k + 2])
  }

  /** Whether round `k` answered "add another?" with yes. */
  predicate RoundContinues(lines: seq<string>, k: nat)
    requires 4 * k + 3 < |lines|
  {
    AddsAnother(lines[4 * k + 3])
  }

  /** Round `k` of the lines is round `k - 1` of the lines after the first round. */
  lemma RoundShift(lines: seq<string>, k: nat)
    requires 1 <= k && 4 * k + 3 < |lines|
    ensures RoundEntry(lines[4..], k - 1) == RoundEntry(lines, k)
    ensures RoundContinues(lines[4..], k - 1) == RoundContinues(lines, k)
  {
    var i := 4 * k;
    LineShift(lines, i);
    LineShift(lines, i + 1);
    LineShift(lines, i + 2);
    LineShift(lines, i + 3);
  }

  lemma LineShift(lines: seq<string>, i: nat)
    requires 4 <= i < |lines|
    ensures lines[4..][i - 4] == lines[i]
  {
  }

  /** The rounds after the first, read from the lines after the first four. */
  lemma RoundsCons(lines: seq<string>, first: ConfigEntry, rest: seq<ConfigEntry>)
    requires 4 <= |lines| && first == RoundEntry(lines, 0) && RoundContinues(lines, 0)
    requires 1 <= |rest| && 4 * |rest| <= |lines| - 4
    requires forall k :: 0 <= k < |rest| ==> rest[k] == RoundEntry(lines[4..], k)
    requires forall k :: 0 <= k < |rest| ==> (RoundContinues(lines[4..], k) <==> k < |rest| - 1)
    ensures var es := [first] + rest;
            && (forall k :: 0 <= k < |es| ==> es[k] == RoundEntry(lines, k))
            && (forall k :: 0 <= k < |es| ==> (RoundContinues(lines, k) <==> k < |es| - 1))
  {
    var es := [first] + rest;
    forall k | 0 <= k < |es|
      ensures es[k] == RoundEntry(lines, k)
      ensures RoundContinues(lines, k) <==> k < |es| - 1
    {
      if k > 0 {
        assert rest[k - 1] == RoundEntry(lines[4..], k - 1);
        assert RoundContinues(lines[4..], k - 1) <==> k - 1 < |rest| - 1;
        RoundShift(lines, k);
        assert es[k] == rest[k - 1];
      }
    }
  }

  /** The saved list: one entry per round up to and including the first round not answered "y". */
  lemma {:induction false} SetupSaved(lines: seq<string>, es: seq<ConfigEntry>)
    requires Setup(lines) == Ok(es)
    ensures 1 <= |es| && 4 * |es| <= |lines|
    ensures forall k :: 0 <= k < |es| ==> es[k] == RoundEntry(lines, k)
    ensures forall k :: 0 <= k < |es| ==> (RoundContinues(lines, k) <==> k < |es| - 1)
  {
    var first := EntryFromAnswers(lines[0], lines[1], lines[2]);
    if AddsAnother(lines[3]) {
      var tail := lines[4..];
      var rest := Setup(tail).value;
      assert Setup(tail) == Ok(rest);
      assert es == [first] + rest;
      SetupSaved(tail, rest);
      RoundsCons(lines, first, rest);
    } else {
      assert es == [first];
    }
  }

  /** Setup raises exactly when every complete round asked for another repository. */
  lemma {:induction false} SetupRaisesOnlyAtEnd(lines: seq<string>)
    ensures Setup(lines).Err? <==>
              forall k :: 0 <= k && 4 * k + 3 < |lines| ==> RoundContinues(lines, k)
    ensures Setup(lines).Err? ==> Setup(lines).error == EOFError
  {
    if |lines| >= 4 {
      var tail := lines[4..];
      SetupRaisesOnlyAtEnd(tail);
      if RoundContinues(lines, 0) {
        assert Setup(lines).Err? <==> Setup(tail).Err?;
        forall k | 1 <= k && 4 * k + 3 < |lines|
          ensures RoundContinues(tail, k - 1) == RoundContinues(lines, k)
        {
          RoundShift(lines, k);
        }
        if !Setup(lines).Err? {
          var j :| 0 <= j && 4 * j + 3 < |tail| && !RoundContinues(tail, j);
          assert !RoundContinues(lines, j + 1);
        }
      }
    }
  }

  /** Every saved entry can be processed by `backup_and_sync` without a `KeyError` or an empty path. */
  lemma SetupEntriesWellFormed(lines: seq<string>)
    requires Setup(lines).Ok?
    ensures forall e :: e in Setup(lines).value ==> WellFormedEntry(e)
  {
    SetupSaved(lines, Setup(lines).value);
  }

  /** One repository with an empty path answer and "n": the path defaults to `repos/<name>`. */
  lemma SetupOneRepository()
    ensures Setup(["test-repo", "https://github.com/test/repo", "", "n"])
            == Ok([map["name" := "test-repo", "url" := "https://github.com/test/repo",
                       "local_path" := "repos/test-repo"]])
  {
    var lines := ["test-repo", "https://github.com/test/repo", "", "n"];
    assert Strip("test-repo") == "test-repo";
    assert Strip("https://github.com/test/repo") == "https://github.com/test/repo";
    assert Join("repos", "test-repo") == "repos/test-repo";
    assert !AddsAnother("n");
  }
}
