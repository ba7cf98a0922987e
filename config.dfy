/** The configuration of the bot (src/config.rs): the update-frequency shorthand,
    the `<repo_url>=<hook_url>` environment pairs, and the monitored projects
    derived from their repository URLs. */
module Configuration {
  import opened Wrappers
  import opened Text
  import opened Urls

  // ---------------------------------------------------------------------------
  // Update frequency: `([[:digit:]]+) *([hmsd])`, searched anywhere in the string.
  // Durations are whole seconds.
  // ---------------------------------------------------------------------------

  const SecondsPerMinute: nat := 60
  const SecondsPerHour: nat := 3600
  const SecondsPerDay: nat := 86400

  /** `i64::MAX`: the largest digit run that `str::parse::<i64>` accepts. */
  const I64Max: nat := 0x7FFF_FFFF_FFFF_FFFF

  /** The largest whole number of seconds a `chrono::Duration` holds (`i64::MAX`
      milliseconds); `Duration::days` and friends panic above it. */
  const MaxDurationSeconds: nat := 9_223_372_036_854_775

  predicate IsUnit(c: char) { c == 'd' || c == 'h' || c == 'm' || c == 's' }

  /** Seconds in one `d`, `h`, `m` or `s`. */
  function UnitSeconds(u: char): (n: nat)
    requires IsUnit(u)
    ensures n >= 1
  {
    if u == 'd' then SecondsPerDay
    else if u == 'h' then SecondsPerHour
    else if u == 'm' then SecondsPerMinute
    else 1
  }

  /** The regex matches `s[i..k + 1]`: the digits `s[i..j]` (group 1), then spaces,
      then the unit letter `s[k]` (group 2). */
  predicate MatchAt(s: string, i: int, j: int, k: int)
  {
    && 0 <= i < j <= k < |s|
    && (forall x :: i <= x < j ==> IsDigit(s[x]))
    && (forall x :: j <= x < k ==> s[x] == ' ')
    && IsUnit(s[k])
  }

  /** Positions of a match: start of the digits, end of the digits, the unit letter. */
  datatype Span = Span(start: nat, digitsEnd: nat, unitAt: nat)

  /** End of the digit run starting at `i`. */
  function DigitsEnd(s: string, i: nat): (j: nat)
    requires i <= |s|
    ensures i <= j <= |s|
    ensures forall x :: i <= x < j ==> IsDigit(s[x])
    ensures j == |s| || !IsDigit(s[j])
    decreases |s| - i
  {
    if i < |s| && IsDigit(s[i]) then DigitsEnd(s, i + 1) else i
  }

  /** End of the run of spaces starting at `j`. */
  function SpacesEnd(s: string, j: nat): (k: nat)
    requires j <= |s|
    ensures j <= k <= |s|
    ensures forall x :: j <= x < k ==> s[x] == ' '
    ensures k == |s| || s[k] != ' '
    decreases |s| - j
  {
    if j < |s| && s[j] == ' ' then SpacesEnd(s, j + 1) else j
  }

  lemma DigitsEndUnique(s: string, i: nat, j: nat)
    requires i <= j <= |s|
    requires forall x :: i <= x < j ==> IsDigit(s[x])
    requires j == |s| || !IsDigit(s[j])
    ensures DigitsEnd(s, i) == j
  {
  }

  lemma SpacesEndUnique(s: string, j: nat, k: nat)
    requires j <= k <= |s|
    requires forall x :: j <= x < k ==> s[x] == ' '
    requires k == |s| || s[k] != ' '
    ensures SpacesEnd(s, j) == k
  {
  }

  /** A match starting at `i` is the only one there: its digits are the whole digit
      run from `i` and its spaces the whole run of spaces after them. */
  lemma MatchIsGreedy(s: string, i: int, j: int, k: int)
    requires MatchAt(s, i, j, k)
    ensures j == DigitsEnd(s, i) && k == SpacesEnd(s, j)
  {
    assert !IsDigit(s[j]) by { if j < k { assert s[j] == ' '; } }
    DigitsEndUnique(s, i, j);
    SpacesEndUnique(s, j, k);
  }

  /** The search, left to right from `p`: at each digit run, look past its spaces for
      a unit letter; otherwise go on after the run. */
  function Scan(s: string, p: nat): (r: Option<Span>)
    requires p <= |s|
    ensures r.Some? ==> p <= r.value.start && MatchAt(s, r.value.start, r.value.digitsEnd, r.value.unitAt)
    decreases |s| - p
  {
    if p == |s| then None
    else if !IsDigit(s[p]) then Scan(s, p + 1)
    else
      var j := DigitsEnd(s, p);
      var k := SpacesEnd(s, j);
      if k < |s| && IsUnit(s[k]) then Some(Span(p, j, k)) else Scan(s, j)
  }

  /** The scan from `p` finds a match no later than any match starting at or after `p`. */
  lemma {:induction false} ScanFindsEveryMatch(s: string, p: nat, i: int, j: int, k: int)
    requires p <= i && MatchAt(s, i, j, k)
    ensures Scan(s, p).Some? && Scan(s, p).value.start <= i
    decreases |s| - p
  {
    if !IsDigit(s[p]) {
      assert p != i;
      ScanFindsEveryMatch(s, p + 1, i, j, k);
    } else {
      var e := DigitsEnd(s, p);
      var f := SpacesEnd(s, e);
      if !(f < |s| && IsUnit(s[f])) {
        if i < e {
          DigitsEndUnique(s, i, e);
          MatchIsGreedy(s, i, j, k);
        }
        ScanFindsEveryMatch(s, e, i, j, k);
      }
    }
  }

  /** The scan is the regex search: it returns exactly the leftmost match. */
  lemma ScanIsLeftmostMatch(s: string, i: int, j: int, k: int)
    requires MatchAt(s, i, j, k)
    requires forall i', j', k' :: 0 <= i' < i ==> !MatchAt(s, i', j', k')
    ensures Scan(s, 0) == Some(Span(i, j, k))
  {
    ScanFindsEveryMatch(s, 0, i, j, k);
    var sp := Scan(s, 0).value;
    assert sp.start == i;
    MatchIsGreedy(s, i, j, k);
    MatchIsGreedy(s, sp.start, sp.digitsEnd, sp.unitAt);
  }

  /** The scan finds nothing exactly when the string holds no match anywhere. */
  lemma ScanNoneIffNoMatch(s: string)
    ensures Scan(s, 0).None? <==> forall i, j, k :: !MatchAt(s, i, j, k)
  {
    if exists i, j, k :: MatchAt(s, i, j, k) {
      var i, j, k :| MatchAt(s, i, j, k);
      ScanFindsEveryMatch(s, 0, i, j, k);
    }
  }

  /** Group 1 of a match: its digit run. */
  function Captured(s: string, sp: Span): (digits: string)
    requires MatchAt(s, sp.start, sp.digitsEnd, sp.unitAt)
    ensures AllDigits(digits) && |digits| >= 1
  {
    s[sp.start..sp.digitsEnd]
  }

  /** Why a shorthand was refused; `Expected` is the message serde reports beside
      the offending text. */
  datatype FrequencyError = NoShorthand(source: string) | NotANumber(digits: string)
  {
    function Expected(): string
    {
      match this
      case NoShorthand(_) => "numbers followed by a unit d/h/m/s"
      case NotANumber(_) => "numbers"
    }
  }

  /** The strings for which chrono builds the duration without panicking: the first
      match's digits do not fit in an i64 (an error is returned before chrono is
      reached), or the scaled duration is within chrono's range. */
  predicate WithinDurationRange(source: string)
  {
    match Scan(source, 0)
    case None => true
    case Some(sp) =>
      var n := DecimalValue(Captured(source, sp));
      n > I64Max || n * UnitSeconds(source[sp.unitAt]) <= MaxDurationSeconds
  }

  /** `Config::deserialize_update_frequency`: the duration in seconds named by the
      first match of the shorthand. */
  function ParseUpdateFrequency(source: string): (r: Result<int, FrequencyError>)
    requires WithinDurationRange(source)
    ensures r.Ok? ==> 0 <= r.value <= MaxDurationSeconds
  {
    match Scan(source, 0)
    case None => Err(NoShorthand(source))
    case Some(sp) =>
      var digits := Captured(source, sp);
      var n := DecimalValue(digits);
      if n > I64Max then Err(NotANumber(digits))
      else Ok(n * UnitSeconds(source[sp.unitAt]))
  }

  /** `Config::default_update_frequency`: two hours, the duration the shorthand
      `2h` denotes. */
  function DefaultUpdateFrequency(): (r: int)
    ensures WithinDurationRange("2h") && ParseUpdateFrequency("2h") == Ok(r)
  {
    assert Decimal(2) == "2";
    assert Shorthand("", 2, "", 'h', "") == "2h";
    ShorthandScales("", 2, "", 'h', "");
    2 * SecondsPerHour
  }

  /** The leftmost match decides the result, whatever surrounds it: its digits scaled
      by its unit, or an error when the digits do not fit in an i64. */
  lemma FirstMatchDecides(s: string, i: int, j: int, k: int)
    requires MatchAt(s, i, j, k)
    requires forall i', j', k' :: 0 <= i' < i ==> !MatchAt(s, i', j', k')
    ensures AllDigits(s[i..j])
    ensures WithinDurationRange(s) <==>
      DecimalValue(s[i..j]) > I64Max || DecimalValue(s[i..j]) * UnitSeconds(s[k]) <= MaxDurationSeconds
    ensures WithinDurationRange(s) ==>
      ParseUpdateFrequency(s) ==
        if DecimalValue(s[i..j]) > I64Max then Err(NotANumber(s[i..j]))
        else Ok(DecimalValue(s[i..j]) * UnitSeconds(s[k]))
  {
    ScanIsLeftmostMatch(s, i, j, k);
  }

  /** A string with no match anywhere is refused, and only such a string is refused
      for that reason. */
  lemma NoMatchIsRefused(s: string)
    ensures (forall i, j, k :: !MatchAt(s, i, j, k)) <==>
      (WithinDurationRange(s) && ParseUpdateFrequency(s) == Err(NoShorthand(s)))
  {
    ScanNoneIffNoMatch(s);
  }

  /** Text around a shorthand: `pre`, the number, `gap`, the unit, `post`. */
  function Shorthand(pre: string, n: nat, gap: string, u: char, post: string): string
  {
    pre + Decimal(n) + gap + [u] + post
  }

  /** Where the number in a shorthand sits and what the leftmost match is. */
  lemma ShorthandMatch(pre: string, n: nat, gap: string, u: char, post: string)
    requires forall x :: 0 <= x < |pre| ==> !IsDigit(pre[x])
    requires forall x :: 0 <= x < |gap| ==> gap[x] == ' '
    requires IsUnit(u)
    ensures var s := Shorthand(pre, n, gap, u, post);
      var i := |pre|;
      var j := |pre| + |Decimal(n)|;
      var k := j + |gap|;
      && MatchAt(s, i, j, k)
      && (forall i', j', k' :: 0 <= i' < i ==> !MatchAt(s, i', j', k'))
      && s[i..j] == Decimal(n) && s[k] == u
  {
    var s := Shorthand(pre, n, gap, u, post);
    var d := Decimal(n);
    var i, j := |pre|, |pre| + |d|;
    var k := j + |gap|;
    assert s == pre + d + gap + [u] + post;
    assert forall x :: 0 <= x < i ==> s[x] == pre[x];
    assert forall x :: i <= x < j ==> s[x] == d[x - i];
    assert forall x :: j <= x < k ==> s[x] == gap[x - j];
    assert s[k] == u;
    assert s[i..j] == d;
    forall i', j', k' | 0 <= i' < i ensures !MatchAt(s, i', j', k') {
      assert !IsDigit(s[i']);
    }
  }

  /** `"<n><u>"`, with any text free of digits before it and any text after it, and
      any spaces between number and unit, is n days, hours, minutes or seconds. */
  lemma ShorthandScales(pre: string, n: nat, gap: string, u: char, post: string)
    requires forall x :: 0 <= x < |pre| ==> !IsDigit(pre[x])
    requires forall x :: 0 <= x < |gap| ==> gap[x] == ' '
    requires IsUnit(u) && n * UnitSeconds(u) <= MaxDurationSeconds
    ensures WithinDurationRange(Shorthand(pre, n, gap, u, post))
    ensures ParseUpdateFrequency(Shorthand(pre, n, gap, u, post)) == Ok(n * UnitSeconds(u))
  {
    var s := Shorthand(pre, n, gap, u, post);
    ShorthandMatch(pre, n, gap, u, post);
    var j := |pre| + |Decimal(n)|;
    FirstMatchDecides(s, |pre|, j, j + |gap|);
    var digits := s[|pre|..j];
    assert digits == Decimal(n) && DecimalValue(digits) == n;
    assert n <= n * UnitSeconds(u) <= MaxDurationSeconds < I64Max;
    assert WithinDurationRange(s);
    assert ParseUpdateFrequency(s) == Ok(n * UnitSeconds(s[j + |gap|]));
  }

  /** A digit run beyond i64 is an error carrying the digits, never a wrapped value. */
  lemma OverflowIsRefused(pre: string, n: nat, gap: string, u: char, post: string)
    requires forall x :: 0 <= x < |pre| ==> !IsDigit(pre[x])
    requires forall x :: 0 <= x < |gap| ==> gap[x] == ' '
    requires IsUnit(u) && n > I64Max
    ensures WithinDurationRange(Shorthand(pre, n, gap, u, post))
    ensures ParseUpdateFrequency(Shorthand(pre, n, gap, u, post)) == Err(NotANumber(Decimal(n)))
  {
    var s := Shorthand(pre, n, gap, u, post);
    ShorthandMatch(pre, n, gap, u, post);
    var j := |pre| + |Decimal(n)|;
    FirstMatchDecides(s, |pre|, j, j + |gap|);
    var digits := s[|pre|..j];
    assert digits == Decimal(n) && DecimalValue(digits) == n;
    assert WithinDurationRange(s);
    assert ParseUpdateFrequency(s) == Err(NotANumber(digits));
  }

  /** The value in the configuration test: `15m` is fifteen minutes. */
  lemma FifteenMinutes()
    ensures WithinDurationRange("15m") && ParseUpdateFrequency("15m") == Ok(15 * SecondsPerMinute)
  {
    assert Decimal(15) == "15";
    assert Shorthand("", 15, "", 'm', "") == "15m";
    ShorthandScales("", 15, "", 'm', "");
  }

  // ---------------------------------------------------------------------------
  // `<repo_url>=<hook_url>` pairs: the regex `(.*)=(.*)`, where `.` is any
  // character but '\n'.
  // ---------------------------------------------------------------------------

  /** A repository and the Slack hook that receives its notifications. */
  datatype ProjectToHook = ProjectToHook(project: Url, hook: Url)

  datatype EnvPairError = NotAPair | InvalidRepoUrl | InvalidHookUrl
  {
    function Message(): string
    {
      match this
      case NotAPair => "invalid env variable, expected <repo_url>=<hook_url"
      case InvalidRepoUrl => "invalid repo url"
      case InvalidHookUrl => "invalid hook url"
    }
  }

  /** The two groups on a line without '\n': the greedy first group runs up to the
      last '=', the second group is the rest of the line. */
  function LineCaptures(line: string): (r: Option<(string, string)>)
    ensures r.None? <==> '=' !in line
    ensures r.Some? ==> line == r.value.0 + "=" + r.value.1 && '=' !in r.value.1
  {
    match LastIndexOf(line, '=')
    case None => None
    case Some(e) =>
      assert line == line[..e] + "=" + line[e + 1..];
      Some((line[..e], line[e + 1..]))
  }

  /** The index of the first line that holds `c`, if any. */
  function FirstLineWith(lines: seq<string>, c: char): (r: Option<nat>)
    ensures r.None? <==> forall i :: 0 <= i < |lines| ==> c !in lines[i]
    ensures r.Some? ==> (r.value < |lines| && c in lines[r.value] &&
      forall j :: 0 <= j < r.value ==> c !in lines[j])
    decreases |lines|
  {
    if lines == [] then None
    else if c in lines[0] then Some(0)
    else
      var tail := lines[1..];
      assert forall j :: 1 <= j < |lines| ==> lines[j] == tail[j - 1];
      match FirstLineWith(tail, c)
      case None => None
      case Some(i) => Some(i + 1)
  }

  /** The captures taken from the first line that holds a '='. */
  function FirstCaptures(lines: seq<string>): (r: Option<(string, string)>)
    ensures r.None? <==> forall i :: 0 <= i < |lines| ==> '=' !in lines[i]
    ensures r.Some? ==>
      exists i ::
        && 0 <= i < |lines|
        && r == LineCaptures(lines[i])
        && forall j :: 0 <= j < i ==> '=' !in lines[j]
  {
    match FirstLineWith(lines, '=')
    case None => None
    case Some(i) => LineCaptures(lines[i])
  }

  /** The search for `(.*)=(.*)` in `source`: as `.` never crosses a '\n', the leftmost
      match starts at the beginning of the first line holding a '='. There is a match
      exactly when the input holds a '='; it is the split of the first such line. */
  function PairCaptures(source: string): (r: Option<(string, string)>)
    ensures r.None? <==> '=' !in source
    ensures r.Some? ==> '\n' !in r.value.0 && '\n' !in r.value.1 && '=' !in r.value.1
    ensures r.Some? ==>
      exists i ::
        && 0 <= i < |Split(source, '\n')|
        && Split(source, '\n')[i] == r.value.0 + "=" + r.value.1
        && forall j :: 0 <= j < i ==> '=' !in Split(source, '\n')[j]
  {
    var lines := Split(source, '\n');
    if '=' in source then
      SplitPieceHolds(source, '\n', '=');
      var r := FirstCaptures(lines);
      var i :| 0 <= i < |lines| && r == LineCaptures(lines[i]) &&
        forall j :: 0 <= j < i ==> '=' !in lines[j];
      assert '\n' !in lines[i];
      assert forall c :: c in r.value.0 || c in r.value.1 ==> c in lines[i];
      r
    else
      SplitPiecesWithin(source, '\n', '=');
      FirstCaptures(lines)
  }

  /** `ProjectToHook::from_env_var`: split at the regex, then parse the repository
      half and the hook half as URLs, in that order. */
  function FromEnvVar(source: string, parse: UrlParser): (r: Result<ProjectToHook, EnvPairError>)
    ensures r == Err(NotAPair) <==> '=' !in source
    ensures r.Ok? ==> (PairCaptures(source).Some? &&
      parse(PairCaptures(source).value.0) == Some(r.value.project) &&
      parse(PairCaptures(source).value.1) == Some(r.value.hook))
    ensures r == Err(InvalidHookUrl) ==> parse(PairCaptures(source).value.0).Some?
  {
    match PairCaptures(source)
    case None => Err(NotAPair)
    case Some((repoPart, hookPart)) =>
      match parse(repoPart)
      case None => Err(InvalidRepoUrl)
      case Some(project) =>
        match parse(hookPart)
        case None => Err(InvalidHookUrl)
        case Some(hook) => Ok(ProjectToHook(project, hook))
  }

  /** Within one line the split is at the last '='. */
  lemma LineSplitsAtLastEquals(line: string, repoPart: string, hookPart: string)
    ensures LineCaptures(line) == Some((repoPart, hookPart)) <==>
      line == repoPart + "=" + hookPart && '=' !in hookPart
  {
    if line == repoPart + "=" + hookPart && '=' !in hookPart {
      var e := |repoPart|;
      assert line[e] == '=';
      assert line[e + 1..] == hookPart;
      assert line[..e] == repoPart;
    }
    if LastIndexOf(line, '=').Some? {
      var e := LastIndexOf(line, '=').value;
      assert line == line[..e] + "=" + line[e + 1..];
    }
  }

  /** On a single line the split is at the last '=': the repository part is all
      before it and the hook part, free of '=', all after it. */
  lemma SplitsAtLastEquals(source: string, repoPart: string, hookPart: string)
    requires '\n' !in source
    ensures PairCaptures(source) == Some((repoPart, hookPart)) <==>
      source == repoPart + "=" + hookPart && '=' !in hookPart
  {
    SplitNoSeparator(source, '\n');
    assert [source][1..] == [];
    assert FirstCaptures([source]) == LineCaptures(source);
    LineSplitsAtLastEquals(source, repoPart, hookPart);
  }

  /** A single-line pair `a=b` with no '=' in `b` gives both parsed halves, the
      repository URL checked first. */
  lemma FromEnvVarParsesHalves(repoPart: string, hookPart: string, parse: UrlParser)
    requires '\n' !in repoPart && '\n' !in hookPart && '=' !in hookPart
    ensures FromEnvVar(repoPart + "=" + hookPart, parse) ==
      if parse(repoPart).None? then Err(InvalidRepoUrl)
      else if parse(hookPart).None? then Err(InvalidHookUrl)
      else Ok(ProjectToHook(parse(repoPart).value, parse(hookPart).value))
  {
    var source := repoPart + "=" + hookPart;
    assert '\n' !in source by {
      assert forall c :: c in source ==> c in repoPart || c == '=' || c in hookPart;
    }
    SplitsAtLastEquals(source, repoPart, hookPart);
  }

  // ---------------------------------------------------------------------------
  // Projects: owner and repository name from the URL's path segments.
  // ---------------------------------------------------------------------------

  type RepoName = string

  /** A monitored repository: its URL (for display), its owner and its name. */
  datatype Project = Project(url: Url, owner: string, repo: RepoName)

  datatype ProjectErrorKind = MissingPath | MissingOwner | MissingProject

  /** An invalid project URL: which piece is missing, and the URL as written. */
  datatype ProjectError = ProjectError(kind: ProjectErrorKind, unexpected: string)
  {
    function Expected(): string
    {
      match kind
      case MissingPath => "a url https://github.com/<owner>/<project> (missing path)"
      case MissingOwner => "a url https://github.com/<owner>/<project> (missing owner)"
      case MissingProject => "a url https://github.com/<owner>/<project> (missing project)"
    }
  }

  /** The `Deserialize` implementation of `Project`, after the URL itself is parsed:
      the first path segment is the owner, the second the repository name. */
  function ParseProject(u: Url): (r: Result<Project, ProjectError>)
    ensures r.Ok? ==> r.value.url == u
    ensures r.Err? ==> r.error.unexpected == u.href
  {
    match PathSegments(u)
    case None => Err(ProjectError(MissingPath, u.href))
    case Some(segments) =>
      if |segments| == 0 then Err(ProjectError(MissingOwner, u.href))
      else if |segments| == 1 then Err(ProjectError(MissingProject, u.href))
      else Ok(Project(u, segments[0], segments[1]))
  }

  /** A path `/<owner>/<repo>`, possibly followed by further segments, names that
      owner and repository; either may be empty. */
  lemma ParseProjectOwnerRepo(u: Url, owner: string, repo: string, rest: string)
    requires '/' !in owner && '/' !in repo
    requires rest == [] || rest[0] == '/'
    requires u.path == "/" + owner + "/" + repo + rest
    ensures ParseProject(u) == Ok(Project(u, owner, repo))
  {
    assert u.path[1..] == owner + ['/'] + (repo + rest);
    SplitPrefix(owner, '/', repo + rest);
    if rest == [] {
      assert repo + rest == repo;
      SplitNoSeparator(repo, '/');
    } else {
      assert repo + rest == repo + ['/'] + rest[1..];
      SplitPrefix(repo, '/', rest[1..]);
    }
  }

  /** Conversely, a parsed project's owner and name are the first two segments of the
      path, in full. */
  lemma ProjectFromPath(u: Url)
    requires ParseProject(u).Ok?
    ensures var p := ParseProject(u).value;
      var head := "/" + p.owner + "/" + p.repo;
      '/' !in p.owner && '/' !in p.repo && (u.path == head || head + "/" <= u.path)
  {
    var segments := Split(u.path[1..], '/');
    JoinSplit(u.path[1..], '/');
    assert u.path == [u.path[0]] + u.path[1..];
    var tail := segments[1..];
    assert Join(segments, '/') == segments[0] + ['/'] + Join(tail, '/');
    if |tail| > 1 {
      assert tail[1..] == segments[2..];
      assert Join(tail, '/') == segments[1] + ['/'] + Join(segments[2..], '/');
    }
  }

  /** A URL whose path does not start with '/' is refused as missing its path, and no
      other URL is. */
  lemma MissingPathIff(u: Url)
    ensures ParseProject(u) == Err(ProjectError(MissingPath, u.href)) <==>
      !(|u.path| > 0 && u.path[0] == '/')
  {
  }

  /** A path that is a single segment is refused as missing its project, and no other
      path is. */
  lemma MissingProjectIff(u: Url)
    ensures ParseProject(u) == Err(ProjectError(MissingProject, u.href)) <==>
      |u.path| > 0 && u.path[0] == '/' && '/' !in u.path[1..]
  {
    if |u.path| > 0 && u.path[0] == '/' {
      if '/' in u.path[1..] {
        SplitSeparator(u.path[1..], '/');
      } else {
        SplitNoSeparator(u.path[1..], '/');
      }
    }
  }

  /** The "missing owner" error is never produced: a path with segments has at least one. */
  lemma NeverMissingOwner(u: Url)
    ensures ParseProject(u).Err? ==> ParseProject(u).error.kind != MissingOwner
  {
    if PathSegments(u).Some? {
      SegmentsNeverEmpty(u);
    }
  }

  /** Empty segments are not refused: `//` names an empty owner and an empty repository. */
  lemma EmptySegmentsAccepted(u: Url)
    requires u.path == "//"
    ensures ParseProject(u) == Ok(Project(u, "", ""))
  {
    ParseProjectOwnerRepo(u, "", "", "");
  }

  /** Each URL in order, stopping at the first that fails. */
  function ParseProjects(urls: seq<Url>): (r: Result<seq<Project>, ProjectError>)
    ensures r.Ok? <==> forall i :: 0 <= i < |urls| ==> ParseProject(urls[i]).Ok?
    ensures r.Ok? ==> |r.value| == |urls|
    ensures r.Ok? ==> forall i :: 0 <= i < |urls| ==> ParseProject(urls[i]) == Ok(r.value[i])
    decreases |urls|
  {
    if urls == [] then Ok([])
    else
      assert forall i :: 0 <= i < |urls| - 1 ==> urls[1..][i] == urls[i + 1];
      match ParseProject(urls[0])
      case Err(e) => Err(e)
      case Ok(p) =>
        match ParseProjects(urls[1..])
        case Err(e) => Err(e)
        case Ok(ps) => Ok([p] + ps)
  }

  /** The error reported for a list is that of its first invalid URL. */
  lemma {:induction false} ParseProjectsFirstError(urls: seq<Url>, i: nat)
    requires i < |urls| && ParseProject(urls[i]).Err?
    requires forall k :: 0 <= k < i ==> ParseProject(urls[k]).Ok?
    ensures ParseProjects(urls) == Err(ParseProject(urls[i]).error)
    decreases i
  {
    if i > 0 {
      assert forall k :: 0 <= k < i - 1 ==> urls[1..][k] == urls[k + 1];
      ParseProjectsFirstError(urls[1..], i - 1);
    }
  }

  // ---------------------------------------------------------------------------
  // The configuration document, once its fields are read.
  // ---------------------------------------------------------------------------

  /** The two fields as found in the document; `None` when the field is absent. */
  datatype RawConfig = RawConfig(projects: Option<seq<Url>>, updateFrequency: Option<string>)

  /** `Config`: the projects to monitor and how far back to look, in seconds. */
  datatype Config = Config(projects: seq<Project>, updateFrequency: int)

  datatype ConfigError = InvalidProject(project: ProjectError) | InvalidFrequency(frequency: FrequencyError)

  /** Builds `Config` from its fields, with the serde defaults: no projects, and two hours. */
  function BuildConfig(raw: RawConfig): (r: Result<Config, ConfigError>)
    requires raw.updateFrequency.Some? ==> WithinDurationRange(raw.updateFrequency.value)
    ensures r.Ok? && raw.projects.None? ==> r.value.projects == []
    ensures r.Ok? && raw.projects.Some? ==> ParseProjects(raw.projects.value) == Ok(r.value.projects)
    ensures r.Ok? && raw.updateFrequency.None? ==> r.value.updateFrequency == DefaultUpdateFrequency()
    ensures r.Ok? && raw.updateFrequency.Some? ==>
      ParseUpdateFrequency(raw.updateFrequency.value) == Ok(r.value.updateFrequency)
    ensures r.Ok? <==>
      && (raw.projects.Some? ==> ParseProjects(raw.projects.value).Ok?)
      && (raw.updateFrequency.Some? ==> ParseUpdateFrequency(raw.updateFrequency.value).Ok?)
    ensures raw.projects.Some? && ParseProjects(raw.projects.value).Err? ==>
      r == Err(InvalidProject(ParseProjects(raw.projects.value).error))
    ensures ((raw.projects.None? || ParseProjects(raw.projects.value).Ok?) && raw.updateFrequency.Some? &&
             ParseUpdateFrequency(raw.updateFrequency.value).Err?) ==>
      r == Err(InvalidFrequency(ParseUpdateFrequency(raw.updateFrequency.value).error))
  {
    var projects :=
      match raw.projects
      case None => Ok([])
      case Some(urls) => ParseProjects(urls);
    var frequency :=
      match raw.updateFrequency
      case None => Ok(DefaultUpdateFrequency())
      case Some(source) => ParseUpdateFrequency(source);
    if projects.Err? then Err(InvalidProject(projects.error))
    else if frequency.Err? then Err(InvalidFrequency(frequency.error))
    else Ok(Config(projects.value, frequency.value))
  }

  /** An empty document gives no projects and a two-hour frequency. */
  lemma EmptyConfigDefaults()
    ensures BuildConfig(RawConfig(None, None)) == Ok(Config([], 2 * SecondsPerHour))
  {
  }

  lemma ParseTwoProjects(u1: Url, u2: Url)
    requires ParseProject(u1).Ok? && ParseProject(u2).Ok?
    ensures ParseProjects([u1, u2]) == Ok([ParseProject(u1).value, ParseProject(u2).value])
  {
    var p1, p2 := ParseProject(u1).value, ParseProject(u2).value;
    assert [u1, u2][0] == u1 && [u1, u2][1..] == [u2];
    assert [u2][0] == u2 && [u2][1..] == [];
    assert ParseProjects([u2]) == Ok([p2] + []);
    assert [p2] + [] == [p2];
    assert [p1] + [p2] == [p1, p2];
  }

  /** The document of the configuration test: two GitHub projects, every 15 minutes. */
  lemma ConfigExample(u1: Url, u2: Url, frequency: string)
    requires u1.path == "/owner1/project1" && u2.path == "/owner2/project2"
    requires frequency == "15m"
    ensures WithinDurationRange(frequency)
    ensures BuildConfig(RawConfig(Some([u1, u2]), Some(frequency))) ==
      Ok(Config([Project(u1, "owner1", "project1"), Project(u2, "owner2", "project2")], 15 * SecondsPerMinute))
  {
    var projects := [Project(u1, "owner1", "project1"), Project(u2, "owner2", "project2")];
    assert ParseProjects([u1, u2]) == Ok(projects) by {
      assert u1.path == "/" + "owner1" + "/" + "project1" + "";
      assert u2.path == "/" + "owner2" + "/" + "project2" + "";
      ParseProjectOwnerRepo(u1, "owner1", "project1", "");
      ParseProjectOwnerRepo(u2, "owner2", "project2", "");
      ParseTwoProjects(u1, u2);
    }
    assert WithinDurationRange(frequency) && ParseUpdateFrequency(frequency) == Ok(15 * SecondsPerMinute) by {
      FifteenMinutes();
    }
    var r := BuildConfig(RawConfig(Some([u1, u2]), Some(frequency)));
    assert r.Ok?;
    assert r.value.projects == projects;
    assert r.value.updateFrequency == 15 * SecondsPerMinute;
  }
}
