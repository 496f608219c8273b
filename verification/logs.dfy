/** The log routes: a caller sees and reads only the files of a course whose names contain the
    subject of their session token. */
module Logs {
  import opened Wrappers
  import opened Strings
  import opened Sessions

  /** The directory `app/static/logs`: each course directory, mapping its file names to their text. */
  type LogTree = map<string, map<string, string>>

  /** A dot file, which `glob`'s `*` does not match. */
  predicate Hidden(name: string)
    ensures Hidden(name) <==> StartsWith(name, ".")
  {
    |name| > 0 && name[0] == '.'
  }

  /** A name the glob for `*<sub>*` in the course directory returns, `sub` taken literally. */
  predicate Matches(name: string, sub: string)
    ensures Matches(name, sub) ==> Contains(name, sub) && |sub| <= |name|
    ensures Matches(name, sub) <==> !StartsWith(name, ".") && exists i :: OccursAt(name, sub, i)
  {
    ContainsIff(name, sub);
    !Hidden(name) && Contains(name, sub)
  }

  /** `list_course_logs` for a caller whose token names `user.sub`: 404 when the course directory
      is absent, else exactly the base names of its files that the glob matches. */
  function ListCourseLogs(user: Claims, course: string, tree: LogTree): (r: Result<set<string>>)
    requires user.sub.Some?
    ensures course !in tree <==> r == Err(HttpError(NotFound, "Course logs not found"))
    ensures course in tree ==> r.Ok?
    ensures r.Ok? ==> forall name :: name in r.value <==> name in tree[course] && Matches(name, user.sub.value)
  {
    if course !in tree then Err(HttpError(NotFound, "Course logs not found"))
    else Ok(set name | name in tree[course] && Matches(name, user.sub.value))
  }

  /** The body of a successful log read. */
  datatype LogFile = LogFile(filename: string, content: string)

  /** `get_course_log`: the ownership check comes first, then existence; the file name is echoed. */
  function GetCourseLog(user: Claims, course: string, filename: string, tree: LogTree): (r: Result<LogFile>)
    requires user.sub.Some?
    ensures !Contains(filename, user.sub.value) ==> r == Err(HttpError(Forbidden, "Not allowed"))
    ensures Contains(filename, user.sub.value) && (course !in tree || filename !in tree[course]) ==>
              r == Err(HttpError(NotFound, "File not found"))
    ensures r.Ok? <==> Contains(filename, user.sub.value) && course in tree && filename in tree[course]
    ensures r.Ok? ==> r.value == LogFile(filename, tree[course][filename])
  {
    if !Contains(filename, user.sub.value) then Err(HttpError(Forbidden, "Not allowed"))
    else if course !in tree || filename !in tree[course] then Err(HttpError(NotFound, "File not found"))
    else Ok(LogFile(filename, tree[course][filename]))
  }

  /** The list route: `get_current_user` runs first, and its refusal is the response; only an
      accepted token reaches the listing, with its own subject. */
  function ListCourseLogsRequest(token: PresentedToken, now: int, course: string, tree: LogTree): (r: Result<set<string>>)
    ensures GetCurrentUser(token, now).Err? ==> r == Err(GetCurrentUser(token, now).error)
    ensures GetCurrentUser(token, now).Ok? ==> token.claims.sub.Some? && r == ListCourseLogs(token.claims, course, tree)
  {
    match GetCurrentUser(token, now)
    case Err(e) => Err(e)
    case Ok(user) => ListCourseLogs(user, course, tree)
  }

  /** The read route, guarded the same way. */
  function GetCourseLogRequest(token: PresentedToken, now: int, course: string, filename: string,
                               tree: LogTree): (r: Result<LogFile>)
    ensures GetCurrentUser(token, now).Err? ==> r == Err(GetCurrentUser(token, now).error)
    ensures GetCurrentUser(token, now).Ok? ==>
              token.claims.sub.Some? && r == GetCourseLog(token.claims, course, filename, tree)
  {
    match GetCurrentUser(token, now)
    case Err(e) => Err(e)
    case Ok(user) => GetCourseLog(user, course, filename, tree)
  }

  /** Every listed file can be read by the same caller. This rests on the glob being a literal
      substring match, which it is for a `sub` without `*`, `?` or `[`. */
  lemma ListedFilesAreReadable(user: Claims, course: string, tree: LogTree, name: string)
    requires user.sub.Some?
    requires ListCourseLogs(user, course, tree).Ok? && name in ListCourseLogs(user, course, tree).value
    ensures GetCourseLog(user, course, name, tree) == Ok(LogFile(name, tree[course][name]))
  {
  }

  /** The converse fails for dot files: a caller can read their own hidden file, which the
      listing leaves out. */
  lemma HiddenFileReadableNotListed()
    ensures var user := Claims(Some("alice"), None);
            var tree := map["hw1" := map[".alice.log" := "x"]];
            && GetCourseLog(user, "hw1", ".alice.log", tree).Ok?
            && ListCourseLogs(user, "hw1", tree) == Ok({})
  {
    var tree := map["hw1" := map[".alice.log" := "x"]];
    ContainsInfix(".", "alice", ".log");
    assert ".alice.log" == "." + "alice" + ".log";
    var listed := set name | name in tree["hw1"] && Matches(name, "alice");
    assert listed == {};
  }

  /** A course directory with one matching and one non-matching file lists the matching one. */
  lemma ListsOnlyMatching(dir: map<string, string>, course: string, sub: string, mine: string, other: string)
    requires dir.Keys == {mine, other} && Matches(mine, sub) && !Matches(other, sub)
    ensures ListCourseLogs(Claims(Some(sub), None), course, map[course := dir]) == Ok({mine})
  {
    var r := ListCourseLogs(Claims(Some(sub), None), course, map[course := dir]);
    assert r.value == {mine};
  }

  /** `alice`'s glob matches her homework file and not `bob`'s. */
  lemma ExampleNamesMatch()
    ensures Matches("hw1_alice.txt", "alice") && !Matches("hw1_bob.txt", "alice")
  {
    ContainsInfix("hw1_", "alice", ".txt");
    assert "hw1_alice.txt" == "hw1_" + "alice" + ".txt";
    NotContainsWithoutFirst("hw1_bob.txt", "alice");
  }

  /** A student sees their own file and not a classmate's. */
  lemma OwnFileOnly()
    ensures var tree := map["hw1" := map["hw1_alice.txt" := "a", "hw1_bob.txt" := "b"]];
            ListCourseLogs(Claims(Some("alice"), None), "hw1", tree) == Ok({"hw1_alice.txt"})
  {
    ExampleNamesMatch();
    var dir := map["hw1_alice.txt" := "a", "hw1_bob.txt" := "b"];
    assert dir.Keys == {"hw1_alice.txt", "hw1_bob.txt"};
    ListsOnlyMatching(dir, "hw1", "alice", "hw1_alice.txt", "hw1_bob.txt");
  }

  /** End to end: a token issued at `issuedAt` reads any existing file whose name contains its
      subject until it expires, and is refused with "Token expired" afterwards. */
  lemma IssuedTokenReadsOwnLog(sub: string, issuedAt: int, cfg: Config.Settings, now: int,
                               course: string, prefix: string, suffix: string, tree: LogTree)
    requires course in tree && prefix + sub + suffix in tree[course]
    ensures var token := PresentedToken(true, IssueClaims(sub, issuedAt, cfg));
            var r := GetCourseLogRequest(token, now, course, prefix + sub + suffix, tree);
            if now < issuedAt + cfg.accessTokenExpireSeconds
            then r == Ok(LogFile(prefix + sub + suffix, tree[course][prefix + sub + suffix]))
            else r == Err(HttpError(Unauthorized, "Token expired"))
  {
    ContainsInfix(prefix, sub, suffix);
  }
}
