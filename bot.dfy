/** The bot's run (src/main.rs): for each configured project, look up its Slack
    hook, fetch the issues updated within the last period, and post one message
    listing them. The clock, the GitHub client and the HTTP transport are oracles. */
module Bot {
  import opened Wrappers
  import opened Text
  import opened Urls
  import opened Configuration
  import opened Slack

  // ---------------------------------------------------------------------------
  // Issues and their dates.
  // ---------------------------------------------------------------------------

  type Month = m: int | 1 <= m <= 12 witness 1
  type Day = d: int | 1 <= d <= 31 witness 1
  type Hour = h: int | 0 <= h <= 23
  type Minute = m: int | 0 <= m <= 59

  /** A calendar date and time of day, to the minute. */
  datatype DateTime = DateTime(year: int, month: Month, day: Day, hour: Hour, minute: Minute)

  /** A two-digit zero-padded field (`%d`, `%m`, `%H`, `%M`). */
  function TwoDigits(n: nat): string
    requires n < 100
  {
    [DigitChar(n / 10), DigitChar(n % 10)]
  }

  /** A four-digit zero-padded year. */
  function FourDigits(n: nat): string
    requires n < 10000
  {
    TwoDigits(n / 100) + TwoDigits(n % 100)
  }

  /** The `%Y` field: four digits, zero padded, for years 0 to 9999; outside that
      range a sign, then at least four digits. */
  function FormatYear(y: int): (r: string)
    ensures 0 <= y <= 9999 ==> |r| == 4 && AllDigits(r) && DecimalValue(r) == y
    ensures y > 9999 ==> |r| >= 2 && r[0] == '+' && AllDigits(r[1..]) && DecimalValue(r[1..]) == y
    ensures y < 0 ==> |r| >= 5 && r[0] == '-' && AllDigits(r[1..]) && DecimalValue(r[1..]) == -y
  {
    if 0 <= y <= 9999 then
      FourDigitsValue(y);
      FourDigits(y)
    else if y > 9999 then "+" + Decimal(y)
    else "-" + ZeroPad(Decimal(-y), 4)
  }

  /** `format("%d/%m/%Y %H:%M")`. */
  function FormatDate(d: DateTime): string
  {
    TwoDigits(d.day) + "/" + TwoDigits(d.month) + "/" + FormatYear(d.year)
      + " " + TwoDigits(d.hour) + ":" + TwoDigits(d.minute)
  }

  /** A two-digit field reads back as the number it renders. */
  lemma TwoDigitsValue(n: nat)
    requires n < 100
    ensures |TwoDigits(n)| == 2 && AllDigits(TwoDigits(n)) && DecimalValue(TwoDigits(n)) == n
  {
    var t := TwoDigits(n);
    assert t[..1][..0] == [];
    assert DecimalValue(t[..1]) == n / 10;
  }

  /** A four-digit year reads back as the number it renders. */
  lemma FourDigitsValue(y: nat)
    requires y < 10000
    ensures |FourDigits(y)| == 4 && AllDigits(FourDigits(y)) && DecimalValue(FourDigits(y)) == y
  {
    var hi, lo := TwoDigits(y / 100), TwoDigits(y % 100);
    TwoDigitsValue(y / 100);
    TwoDigitsValue(y % 100);
    DecimalValueSnoc(hi, lo[0]);
    DecimalValueSnoc(hi + [lo[0]], lo[1]);
    assert hi + [lo[0]] + [lo[1]] == hi + lo;
    assert DigitValue(lo[0]) * 10 + DigitValue(lo[1]) == y % 100;
  }

  /** The rendered date is `dd/mm/YYYY HH:MM`: fixed positions, and each field reads
      back as the value it renders. */
  lemma DateLayout(d: DateTime)
    requires 0 <= d.year <= 9999
    ensures var r := FormatDate(d);
      && |r| == 16 && r[2] == '/' && r[5] == '/' && r[10] == ' ' && r[13] == ':'
      && AllDigits(r[0..2]) && DecimalValue(r[0..2]) == d.day
      && AllDigits(r[3..5]) && DecimalValue(r[3..5]) == d.month
      && AllDigits(r[6..10]) && DecimalValue(r[6..10]) == d.year
      && AllDigits(r[11..13]) && DecimalValue(r[11..13]) == d.hour
      && AllDigits(r[14..16]) && DecimalValue(r[14..16]) == d.minute
  {
    TwoDigitsValue(d.day);
    TwoDigitsValue(d.month);
    FourDigitsValue(d.year);
    TwoDigitsValue(d.hour);
    TwoDigitsValue(d.minute);
    FieldsAt(TwoDigits(d.day), TwoDigits(d.month), FourDigits(d.year), TwoDigits(d.hour), TwoDigits(d.minute));
  }

  /** Where the five fields of `dd/mm/YYYY HH:MM` sit. */
  lemma FieldsAt(dd: string, mm: string, yyyy: string, hh: string, mi: string)
    requires |dd| == 2 && |mm| == 2 && |yyyy| == 4 && |hh| == 2 && |mi| == 2
    ensures var r := dd + "/" + mm + "/" + yyyy + " " + hh + ":" + mi;
      && |r| == 16 && r[2] == '/' && r[5] == '/' && r[10] == ' ' && r[13] == ':'
      && r[0..2] == dd && r[3..5] == mm && r[6..10] == yyyy && r[11..13] == hh && r[14..16] == mi
  {
    var r := dd + "/" + mm + "/" + yyyy + " " + hh + ":" + mi;
    var a := dd + "/" + mm + "/";
    var b := yyyy + " " + hh + ":" + mi;
    assert r == a + b;
    assert a[0..2] == dd && a[3..5] == mm;
    assert b[0..4] == yyyy && b[5..7] == hh && b[8..10] == mi;
  }

  /** An issue as the GitHub client returns it: its URL, title, last update and the
      numeric id of its author. */
  datatype Issue = Issue(url: Url, title: string, updatedAt: DateTime, userId: nat)

  // ---------------------------------------------------------------------------
  // The world around one run.
  // ---------------------------------------------------------------------------

  /** `Secrets`: one Slack hook per repository name. */
  type Secrets = map<RepoName, Url>

  datatype FetchOutcome = Fetched(items: seq<Issue>) | FetchFailed

  /** The nondeterministic inputs of a run. */
  datatype Oracles = Oracles(
    clock: nat -> int,                                 // local time, in seconds, when the i-th project starts
    renderSince: int -> string,                        // the `Debug` rendering of a time
    fetchIssues: (string, RepoName, int) -> FetchOutcome, // issues of owner/repo updated since a time
    transport: Request -> HttpOutcome)                 // the HTTP POST to a Slack hook

  /** The calls the run makes to the outside world. */
  datatype Event = FetchIssues(owner: string, repo: RepoName, since: int) | PostMessage(request: Request)

  datatype PipelineError = MissingSecret | DownloadFailed | NotPosted(cause: SendError)
  {
    function Message(): string
    {
      match this
      case MissingSecret => "Missing secret"
      case DownloadFailed => "Couldn't download recent issues"
      case NotPosted(_) => "Failed to post udpdate on Slack"
    }
  }

  /** What one project's processing returns and which calls it made, in order. */
  datatype Report = Report(outcome: Result<(), PipelineError>, events: seq<Event>)

  // ---------------------------------------------------------------------------
  // The message for one project.
  // ---------------------------------------------------------------------------

  /** The first block: a link to the project, titled with the repository name. */
  function HeaderText(p: Project, sinceText: string): string
  {
    "Issues of repo " + LinkText(p.url, Some(p.repo)) + " updated since " + sinceText
  }

  /** The block for one issue. */
  function IssueLine(issue: Issue): string
  {
    "\n - " + LinkText(issue.url, Some(issue.title)) + " last updated on "
      + FormatDate(issue.updatedAt) + " by " + Decimal(issue.userId)
  }

  /** One block per issue, appended in the order of the issues. */
  function IssueBlocks(issues: seq<Issue>): seq<Block>
  {
    MarkdownLines(issues, IssueLine)
  }

  function MessageBlocks(p: Project, sinceText: string, issues: seq<Issue>): seq<Block>
  {
    [MarkdownBlock(HeaderText(p, sinceText))] + IssueBlocks(issues)
  }

  /** A message has 1 + n blocks: the header, then the issues in the order fetched,
      all verbatim markdown. */
  lemma MessageLayout(p: Project, sinceText: string, issues: seq<Issue>)
    ensures var m := MessageBlocks(p, sinceText, issues);
      && |m| == 1 + |issues|
      && m[0] == MarkdownBlock(HeaderText(p, sinceText))
      && forall k :: 0 <= k < |issues| ==> m[k + 1] == MarkdownBlock(IssueLine(issues[k]))
  {
    if issues != [] {
      MarkdownLinesAt(issues, IssueLine, 0);
    }
    forall k | 0 <= k < |issues|
      ensures MessageBlocks(p, sinceText, issues)[k + 1] == MarkdownBlock(IssueLine(issues[k]))
    {
      MarkdownLinesAt(issues, IssueLine, k);
    }
  }

  // ---------------------------------------------------------------------------
  // One project.
  // ---------------------------------------------------------------------------

  /** `per_project`, as a function of its inputs and the oracles. */
  function ProjectRun(secrets: Secrets, p: Project, frequency: int, now: int, io: Oracles): Report
  {
    if p.repo !in secrets then Report(Err(MissingSecret), [])
    else
      var since := now - frequency;
      var fetch := [FetchIssues(p.owner, p.repo, since)];
      match io.fetchIssues(p.owner, p.repo, since)
      case FetchFailed => Report(Err(DownloadFailed), fetch)
      case Fetched(issues) =>
        if issues == [] then Report(Ok(()), fetch)
        else
          var request := Request(secrets[p.repo], PayloadFor(MessageBlocks(p, io.renderSince(since), issues)));
          var sent := SendResult(io.transport(request));
          Report(if sent.Ok? then Ok(()) else Err(NotPosted(sent.error)), fetch + [PostMessage(request)])
  }

  /** The requests among the events. */
  function Posts(events: seq<Event>): seq<Request>
    decreases |events|
  {
    if events == [] then []
    else (if events[0].PostMessage? then [events[0].request] else []) + Posts(events[1..])
  }

  /** Without a hook for the repository name the project fails with "Missing secret"
      and nothing is fetched or posted. */
  lemma MissingSecretBeforeFetch(secrets: Secrets, p: Project, frequency: int, now: int, io: Oracles)
    requires p.repo !in secrets
    ensures ProjectRun(secrets, p, frequency, now, io) == Report(Err(MissingSecret), [])
  {
  }

  /** Every call a project makes starts with the one fetch, for the period ending now. */
  lemma FetchComesFirst(secrets: Secrets, p: Project, frequency: int, now: int, io: Oracles)
    ensures var r := ProjectRun(secrets, p, frequency, now, io);
      r.events != [] ==> p.repo in secrets && r.events[0] == FetchIssues(p.owner, p.repo, now - frequency)
  {
  }

  /** A message is posted exactly once when the fetch returned issues and never
      otherwise, and always to the hook stored under the repository name. */
  lemma PostedOnceIffIssues(secrets: Secrets, p: Project, frequency: int, now: int, io: Oracles)
    ensures var r := ProjectRun(secrets, p, frequency, now, io);
      var fetched := io.fetchIssues(p.owner, p.repo, now - frequency);
      && |Posts(r.events)| == (if p.repo in secrets && fetched.Fetched? && fetched.items != [] then 1 else 0)
      && forall q :: q in Posts(r.events) ==> p.repo in secrets && q.hook == secrets[p.repo]
  {
    var r := ProjectRun(secrets, p, frequency, now, io);
    var since := now - frequency;
    var fetch := FetchIssues(p.owner, p.repo, since);
    assert Posts([fetch]) == [] by { assert [fetch][1..] == []; }
    if |r.events| == 2 {
      assert r.events[1..] == [r.events[1]];
      assert [r.events[1]][1..] == [];
      assert Posts([r.events[1]]) == [r.events[1].request];
      assert Posts(r.events) == [r.events[1].request];
    }
  }

  /** The hook is chosen by repository name alone: projects that share a name post to
      the same hook whatever their owners. */
  lemma HookIgnoresOwner(secrets: Secrets, p: Project, q: Project, frequency: int, now: int, now': int, io: Oracles)
    requires p.repo == q.repo
    ensures forall a, b ::
      (a in Posts(ProjectRun(secrets, p, frequency, now, io).events) &&
       b in Posts(ProjectRun(secrets, q, frequency, now', io).events)) ==> a.hook == b.hook
  {
    PostedOnceIffIssues(secrets, p, frequency, now, io);
    PostedOnceIffIssues(secrets, q, frequency, now', io);
  }

  /** An empty issue list ends the project successfully and silently. */
  lemma NoIssuesNoMessage(secrets: Secrets, p: Project, frequency: int, now: int, io: Oracles)
    requires p.repo in secrets
    requires io.fetchIssues(p.owner, p.repo, now - frequency) == Fetched([])
    ensures ProjectRun(secrets, p, frequency, now, io) ==
      Report(Ok(()), [FetchIssues(p.owner, p.repo, now - frequency)])
  {
  }

  /** With issues, the one message carries the header and one line per issue, and a
      failed send becomes the project's error. */
  lemma IssuesPostedOnce(secrets: Secrets, p: Project, frequency: int, now: int, io: Oracles)
    requires p.repo in secrets
    requires io.fetchIssues(p.owner, p.repo, now - frequency).Fetched?
    requires io.fetchIssues(p.owner, p.repo, now - frequency).items != []
    ensures var since := now - frequency;
      var issues := io.fetchIssues(p.owner, p.repo, since).items;
      var text := HeaderText(p, io.renderSince(since)) + Flatten(IssueBlocks(issues));
      var request := Request(secrets[p.repo], PayloadFor(MessageBlocks(p, io.renderSince(since), issues)));
      var r := ProjectRun(secrets, p, frequency, now, io);
      && request.payload.blocks[0].elements[0].text == text
      && r.events == [FetchIssues(p.owner, p.repo, since), PostMessage(request)]
      && (r.outcome.Ok? <==> SendResult(io.transport(request)).Ok?)
      && (r.outcome.Err? ==> r.outcome.error == NotPosted(SendResult(io.transport(request)).error))
  {
    var since := now - frequency;
    var issues := io.fetchIssues(p.owner, p.repo, since).items;
    var header := MarkdownBlock(HeaderText(p, io.renderSince(since)));
    FlattenAppend([header], IssueBlocks(issues));
    assert [header][1..] == [];
  }

  lemma MessageBlocksSnoc(p: Project, sinceText: string, issues: seq<Issue>, i: nat)
    requires i < |issues|
    ensures MessageBlocks(p, sinceText, issues[..i + 1]) ==
      MessageBlocks(p, sinceText, issues[..i]) + [MarkdownBlock(IssueLine(issues[i]))]
  {
    MarkdownLinesSnoc(issues, IssueLine, i);
  }

  /** The message of `per_project`: the header, then one block per issue, appended
      in a loop over the issues. */
  method ComposeMessage(project: Project, sinceText: string, issues: seq<Issue>) returns (msg: SlackMessage)
    ensures fresh(msg) && msg.blocks == MessageBlocks(project, sinceText, issues)
  {
    msg := new SlackMessage();
    var link := SlackMessage.Link(project.url, Some(project.repo));
    msg.AppendMarkdown("Issues of repo " + link + " updated since " + sinceText);
    assert issues[..0] == [];
    var i := 0;
    while i < |issues|
      invariant 0 <= i <= |issues|
      invariant msg.blocks == MessageBlocks(project, sinceText, issues[..i])
    {
      var issue := issues[i];
      link := SlackMessage.Link(issue.url, Some(issue.title));
      msg.AppendMarkdown("\n - " + link + " last updated on " + FormatDate(issue.updatedAt)
        + " by " + Decimal(issue.userId));
      MessageBlocksSnoc(project, sinceText, issues, i);
      i := i + 1;
    }
    assert issues[..|issues|] == issues;
  }

  /** `per_project`: the message is filled block by block in a loop over the issues. */
  method PerProject(secrets: Secrets, project: Project, config: Config, now: int, io: Oracles)
    returns (outcome: Result<(), PipelineError>, events: seq<Event>)
    ensures Report(outcome, events) == ProjectRun(secrets, project, config.updateFrequency, now, io)
  {
    var since := now - config.updateFrequency;
    if project.repo !in secrets {
      return Err(MissingSecret), [];
    }
    var hook := secrets[project.repo];
    events := [FetchIssues(project.owner, project.repo, since)];
    var fetched := io.fetchIssues(project.owner, project.repo, since);
    if fetched.FetchFailed? {
      return Err(DownloadFailed), events;
    }
    var issues := fetched.items;
    if issues == [] {
      return Ok(()), events;
    }
    var sinceText := io.renderSince(since);
    var msg := ComposeMessage(project, sinceText, issues);
    var request, sent := msg.Send(hook, io.transport);
    assert request == Request(hook, PayloadFor(MessageBlocks(project, sinceText, issues)));
    assert sent == SendResult(io.transport(request));
    events := events + [PostMessage(request)];
    outcome := if sent.Ok? then Ok(()) else Err(NotPosted(sent.error));
    ghost var expected := ProjectRun(secrets, project, config.updateFrequency, now, io);
    assert expected.events == events;
    assert expected.outcome == outcome;
  }

  // ---------------------------------------------------------------------------
  // The run over all projects.
  // ---------------------------------------------------------------------------

  /** `Error handling project <owner>/<repo>: <error>`. */
  datatype Warning = Warning(owner: string, repo: RepoName, error: PipelineError)

  /** What a run leaves behind: the warnings logged and the calls made, in order. */
  datatype RunLog = RunLog(warnings: seq<Warning>, events: seq<Event>)

  function Combine(a: RunLog, b: RunLog): RunLog
  {
    RunLog(a.warnings + b.warnings, a.events + b.events)
  }

  /** The log of the i-th project alone: its calls, and a warning if it failed. */
  function ProjectLog(secrets: Secrets, config: Config, io: Oracles, i: nat): (r: RunLog)
    requires i < |config.projects|
  {
    var p := config.projects[i];
    var r := ProjectRun(secrets, p, config.updateFrequency, io.clock(i), io);
    RunLog(if r.outcome.Err? then [Warning(p.owner, p.repo, r.outcome.error)] else [], r.events)
  }

  /** The log of projects `lo` to `hi - 1`, processed in list order. */
  function RunRange(secrets: Secrets, config: Config, io: Oracles, lo: nat, hi: nat): (r: RunLog)
    requires lo <= hi <= |config.projects|
    decreases hi - lo
  {
    if lo == hi then RunLog([], [])
    else Combine(RunRange(secrets, config, io, lo, hi - 1), ProjectLog(secrets, config, io, hi - 1))
  }

  lemma CombineAssociative(a: RunLog, b: RunLog, c: RunLog)
    ensures Combine(Combine(a, b), c) == Combine(a, Combine(b, c))
  {
    assert (a.warnings + b.warnings) + c.warnings == a.warnings + (b.warnings + c.warnings);
    assert (a.events + b.events) + c.events == a.events + (b.events + c.events);
  }

  /** A run over a range is the run over its first part followed by the run over
      the rest: what happens to later projects does not depend on earlier ones. */
  lemma {:induction false} RunRangeSplit(secrets: Secrets, config: Config, io: Oracles, lo: nat, mid: nat, hi: nat)
    requires lo <= mid <= hi <= |config.projects|
    ensures RunRange(secrets, config, io, lo, hi) ==
      Combine(RunRange(secrets, config, io, lo, mid), RunRange(secrets, config, io, mid, hi))
    decreases hi - mid
  {
    var left := RunRange(secrets, config, io, lo, mid);
    if mid == hi {
      assert left.warnings + [] == left.warnings && left.events + [] == left.events;
    } else {
      RunRangeSplit(secrets, config, io, lo, mid, hi - 1);
      var middle := RunRange(secrets, config, io, mid, hi - 1);
      var last := ProjectLog(secrets, config, io, hi - 1);
      assert RunRange(secrets, config, io, lo, hi) == Combine(Combine(left, middle), last);
      assert RunRange(secrets, config, io, mid, hi) == Combine(middle, last);
      CombineAssociative(left, middle, last);
    }
  }

  /** A run logs at most one warning per project. */
  lemma {:induction false} AtMostOneWarningPerProject(secrets: Secrets, config: Config, io: Oracles, lo: nat, hi: nat)
    requires lo <= hi <= |config.projects|
    ensures |RunRange(secrets, config, io, lo, hi).warnings| <= hi - lo
    decreases hi - lo
  {
    if lo < hi {
      AtMostOneWarningPerProject(secrets, config, io, lo, hi - 1);
    }
  }

  /** Every project is attempted in list order: the whole run is the run before the
      i-th project, then the i-th project's own log, then the run after it, whether
      or not earlier projects failed. */
  lemma EveryProjectAttempted(secrets: Secrets, config: Config, io: Oracles, i: nat)
    requires i < |config.projects|
    ensures RunRange(secrets, config, io, 0, |config.projects|) ==
      Combine(Combine(RunRange(secrets, config, io, 0, i), ProjectLog(secrets, config, io, i)),
              RunRange(secrets, config, io, i + 1, |config.projects|))
  {
    var n := |config.projects|;
    RunRangeSplit(secrets, config, io, 0, i + 1, n);
    RunRangeSplit(secrets, config, io, 0, i, i + 1);
    var one := ProjectLog(secrets, config, io, i);
    assert RunRange(secrets, config, io, i, i + 1) == Combine(RunLog([], []), one);
    assert [] + one.warnings == one.warnings && [] + one.events == one.events;
  }

  /** The loop of `main`: each project in turn, a warning for each failure, and the
      run carries on with the next project. */
  method RunProjects(secrets: Secrets, config: Config, io: Oracles) returns (warnings: seq<Warning>, events: seq<Event>)
    ensures RunLog(warnings, events) == RunRange(secrets, config, io, 0, |config.projects|)
  {
    warnings, events := [], [];
    var i := 0;
    while i < |config.projects|
      invariant 0 <= i <= |config.projects|
      invariant RunLog(warnings, events) == RunRange(secrets, config, io, 0, i)
    {
      var project := config.projects[i];
      var outcome, projectEvents := PerProject(secrets, project, config, io.clock(i), io);
      if outcome.Err? {
        warnings := warnings + [Warning(project.owner, project.repo, outcome.error)];
      }
      events := events + projectEvents;
      i := i + 1;
    }
  }
}
