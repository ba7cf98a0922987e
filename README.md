# github-bot, modelled in Dafny

A model of the core of `github-bot`, a small Rust program that watches GitHub
repositories and posts a summary of their recently updated issues to Slack.

The model covers four parts:

- **Configuration** (`src/config.rs`):
  - the update-frequency shorthand (`15m`, `2h`, …), found by the regex search `([[:digit:]]+) *([hmsd])` and turned into seconds;
  - the `<repo_url>=<hook_url>` environment pair;
  - the owner and repository name taken from a project URL's path segments;
  - the defaults of the configuration document.
- **Slack messages** (`src/slack.rs`):
  - a message is a list of markdown blocks, appended one at a time;
  - `link` escapes `&`, `<` and `>` one character at a time;
  - `send` flattens the blocks into one text inside a fixed one-block, one-element payload, and treats a 2xx status as success.
- **The per-project pipeline** (`src/main.rs`, `per_project`):
  - look up the hook by repository name;
  - fetch the issues updated within the last period;
  - stop silently when there are none;
  - otherwise compose a header plus one line per issue and post it once.
- **The run** (`src/main.rs`, `main`): every project in list order, with a warning logged for each failure.

## Modules

| module | file | models |
|---|---|---|
| `Wrappers` | `wrappers.dfy` | `Option` and `Result` |
| `Text` | `text.dfy` | ASCII digits, decimal rendering and reading, zero padding, splitting on a character, last index of a character |
| `Urls` | `urls.dfy` | a parsed URL as its serialization and its path; `path_segments` |
| `Configuration` | `config.rs` → `config.dfy` | the frequency parser, the environment pair, project parsing, `Config` |
| `Slack` | `slack.rs` → `slack.dfy` | `SlackMessage` as a class over its block list; escaping; payload; status check |
| `Bot` | `main.rs` → `bot.dfy` | date rendering, the message layout, `per_project`, the run over all projects |

## How the world is modelled

- **Durations** are whole seconds (`int`).
  - `SecondsPerDay`, `SecondsPerHour` and `SecondsPerMinute` are the chrono multipliers.
  - An overlong digit run is refused when it exceeds `i64::MAX`.
  - chrono's own panic, above `i64::MAX` milliseconds, is the precondition `WithinDurationRange`.
- **The regex search** has two parts:
  - `Scan` is a left-to-right scan;
  - `MatchAt(s, i, j, k)` states declaratively what a match is.

  Lemmas prove that the scan returns exactly the leftmost match, and that a match at a given start is unique. Its digits are the whole digit run and its spaces the whole run of spaces.
- **`(.*)=(.*)`**: `.` does not match a newline, so the captures come from the first line that holds a `=`. That line is split at its last `=`, since the first group is greedy. `PairCaptures` models this for any input, and the lemmas state the newline-free case.
- **URLs**:
  - `Url::parse` is an oracle, `UrlParser = string -> Option<Url>`;
  - a `Url` keeps the serialization (`as_str`) and the path (`path`);
  - `path_segments` is `Some` exactly when the path starts with `/`, and then splits the rest on `/`.
- **I/O** is a value of type `Bot.Oracles`, which supplies:
  - the local time at which each project starts;
  - the `Debug` rendering of a time;
  - the GitHub issue fetch;
  - the HTTP POST.

  A project's observable behaviour is its outcome plus the calls it makes, in order (`FetchIssues`, `PostMessage`). A run's is the list of warnings plus all calls.
- **The binary's own structs.** `src/main.rs` does not use `src/config.rs`. It declares its own `Secrets` (one hook per repository name, `main.rs:27-31`) and its own `Project` and `Config`. The model uses:
  - `Bot.Secrets = map<RepoName, Url>` for its `Secrets`;
  - `Configuration.Project` for its `Project`;
  - `Configuration.Config` for its `Config`, taking projects and frequency as already-read values.

  The two binaries' structs differ in how they are read:
  - the `Project` of `src/main.rs:33-38` reads `url`, `owner` and `repo` as three plain fields of the document. It does no path-segment parsing, so `Configuration.ParseProject` and its errors are `src/config.rs` behaviour only;
  - the `Config` of `src/main.rs:40-45` has no defaults: both `projects` and `update_frequency` must be present. The defaults stated by `Configuration.BuildConfig` (no projects, two hours) are `src/config.rs` behaviour only.
- **The duplicated parser.** `src/main.rs:47-71` is a copy of the frequency parser in `src/config.rs:128-158` that differs only in formatting. It is modelled once, by `Configuration.ParseUpdateFrequency`.

Two points of the code as written are worth knowing:

- path segments may be empty: `//` gives an empty owner and an empty repository name;
- the frequency is found by a search anywhere in the string, not matched against the whole string: `every 2h please` is two hours.

## Model

| member | source | states |
|---|---|---|
| `Text.DecimalValueSnoc` | src/main.rs:103 | appending a digit multiplies a digit string's value by ten and adds the digit |
| `Text.Decimal` | src/main.rs:101-105 | the `Display` of the author id is a non-empty string of ASCII digits, without a leading zero unless it is `0`, that reads back as the id |
| `Text.ZeroPad` | src/main.rs:103 | zero padding keeps a digit string's value, and makes it at least the width long and exactly that long when shorter |
| `Text.LeadingZero` | src/main.rs:103 | a leading `0` keeps the string all digits and does not change its value |
| `Text.Split` | src/config.rs:85-96 | splitting a path on `/` always gives at least one piece; no piece contains the separator |
| `Text.JoinSplit` | src/config.rs:85-96 | joining the pieces with the separator gives back the original string |
| `Text.SplitNoSeparator` | src/config.rs:93-96 | a string without the separator is a single piece |
| `Text.SplitSeparator` | src/config.rs:93-96 | a string with the separator has at least two pieces |
| `Text.SplitPrefix` | src/config.rs:89-96 | a separator-free prefix followed by the separator is the first piece, and the rest splits on its own |
| `Text.JoinedPieceHolds` | src/config.rs:38-42 | a non-separator character of a joined string occurs in one of the pieces |
| `Text.SplitPieceHolds` | src/config.rs:38-42 | a non-separator character of a string occurs in one of its split pieces |
| `Text.SplitPiecesWithin` | src/config.rs:38-42 | a character absent from the string is absent from every piece |
| `Text.LastIndexOf` | src/config.rs:38-48 | `None` exactly when the character is absent; otherwise an index holding it with no later occurrence |
| `Urls.PathSegments` | src/config.rs:85-88 | `path_segments` is `Some` if and only if the path starts with `/` |
| `Urls.SegmentsNeverEmpty` | src/config.rs:89-92 | present path segments are never an empty sequence |
| `Configuration.UnitSeconds` | src/config.rs:150-155 | every unit letter scales by at least one second (d, h, m, s are 86400, 3600, 60, 1) |
| `Configuration.DigitsEnd` | src/config.rs:134 | `[[:digit:]]+` is greedy: the end of the digit run, with digits before it and none at it |
| `Configuration.SpacesEnd` | src/config.rs:134 | ` *` is greedy: the end of the run of spaces |
| `Configuration.DigitsEndUnique` | src/config.rs:134 | the end of a maximal digit run is unique |
| `Configuration.SpacesEndUnique` | src/config.rs:134 | the end of a maximal run of spaces is unique |
| `Configuration.MatchIsGreedy` | src/config.rs:134 | a match at a given start has the whole digit run and the whole run of spaces after it, so it is the only match there |
| `Configuration.Scan` | src/config.rs:134-135 | whatever the scan returns is a match of the regex, at or after its starting point |
| `Configuration.ScanFindsEveryMatch` | src/config.rs:134-135 | if a match exists at or after the starting point, the scan finds one no later than it |
| `Configuration.ScanIsLeftmostMatch` | src/config.rs:134-135 | the scan from 0 returns exactly the leftmost match, as the regex search does |
| `Configuration.ScanNoneIffNoMatch` | src/config.rs:135-140 | the scan finds nothing if and only if the string holds no match anywhere |
| `Configuration.Captured` | src/config.rs:141-143 | group 1 of a match is a non-empty run of digits |
| `Configuration.ParseUpdateFrequency` | src/config.rs:128-158 | a successful parse is a duration between 0 and chrono's maximum in seconds |
| `Configuration.FirstMatchDecides` | src/config.rs:134-157 | the leftmost match alone decides the result, whatever surrounds it: its digits times its unit, or `NotANumber` with the digits when they exceed `i64::MAX` |
| `Configuration.NoMatchIsRefused` | src/config.rs:135-140 | the result is the "numbers followed by a unit d/h/m/s" error carrying the input if and only if the input holds no match |
| `Configuration.ShorthandScales` | src/config.rs:150-155 | `<n><spaces><u>` after text without digits, and with any text after it, is n times the seconds of `u` |
| `Configuration.OverflowIsRefused` | src/config.rs:143-146 | a digit run beyond `i64::MAX` is the "numbers" error carrying the digits, not a wrapped value |
| `Configuration.FifteenMinutes` | src/config.rs:179-182 | `15m` is fifteen minutes |
| `Configuration.DefaultUpdateFrequency` | src/config.rs:160-162 | the default frequency is the duration the shorthand `2h` parses to, two hours |
| `Configuration.LineCaptures` | src/config.rs:38-42 | a line gives no captures exactly when it has no `=`; otherwise it is `a=b` with `b` free of `=`, the greedy first group |
| `Configuration.FirstLineWith` | src/config.rs:38-42 | the index of a line holding the character with none before it, or none exactly when no line holds it |
| `Configuration.FirstCaptures` | src/config.rs:38-42 | no captures exactly when no line has a `=`; otherwise the captures of a line with a `=` such that no earlier line has one |
| `Configuration.PairCaptures` | src/config.rs:38-42 | the regex `(.*)=(.*)` matches exactly when the input holds a `=`; the captures are newline-free, the second free of `=`, and joined by `=` they are the first line holding a `=` |
| `Configuration.FromEnvVar` | src/config.rs:37-50 | the "expected <repo_url>=<hook_url" error happens exactly when the input has no `=`; a result carries the parses of the two captures; "invalid hook url" only after the repository half parsed |
| `Configuration.LineSplitsAtLastEquals` | src/config.rs:38-46 | on one line the captures are `(a, b)` if and only if the line is `a=b` and `b` holds no `=` |
| `Configuration.SplitsAtLastEquals` | src/config.rs:38-46 | for a newline-free input the captures are `(a, b)` if and only if the input is `a=b` with no `=` in `b` |
| `Configuration.FromEnvVarParsesHalves` | src/config.rs:43-49 | `a=b` gives "invalid repo url" if `a` does not parse, else "invalid hook url" if `b` does not, else exactly the two parsed URLs |
| `Configuration.ParseProject` | src/config.rs:75-105 | a parsed project keeps the URL unchanged; every error carries the URL as written |
| `Configuration.ParseProjectOwnerRepo` | src/config.rs:89-103 | a path `/<owner>/<repo>` followed by nothing or by `/…` gives that owner and repository name, extra segments ignored |
| `Configuration.ProjectFromPath` | src/config.rs:89-98 | conversely, a parsed project's owner and name are slash-free and are the first two segments of the path |
| `Configuration.MissingPathIff` | src/config.rs:85-88 | the "missing path" error happens if and only if the path does not start with `/` |
| `Configuration.MissingProjectIff` | src/config.rs:93-96 | the "missing project" error happens if and only if the path is `/` followed by a single segment |
| `Configuration.NeverMissingOwner` | src/config.rs:89-92 | the "missing owner" error is never produced |
| `Configuration.EmptySegmentsAccepted` | src/config.rs:97-98 | empty segments are not refused: `//` gives an empty owner and an empty name |
| `Configuration.ParseProjects` | src/config.rs:111-112 | the list parses if and only if every URL parses; then it has one project per URL, each the parse of that URL |
| `Configuration.ParseProjectsFirstError` | src/config.rs:111-112 | a list is refused with the error of its first invalid URL |
| `Configuration.BuildConfig` | src/config.rs:107-122 | the document is accepted if and only if each present field parses; missing `projects` gives no projects and missing `update_frequency` two hours, present fields the parses of their values; a rejection names the projects error, else the frequency error |
| `Configuration.EmptyConfigDefaults` | src/config.rs:111-120 | an empty document gives no projects and a two-hour frequency |
| `Configuration.ParseTwoProjects` | src/config.rs:183-187 | two valid URLs parse to their two projects, in order |
| `Configuration.ConfigExample` | src/config.rs:174-188 | the document of the configuration test gives `owner1/project1`, `owner2/project2` and fifteen minutes |
| `Slack.MarkdownBlock` | src/slack.rs:26-31 | the block `append_markdown` pushes; `Slack.SlackMessage.AppendMarkdown` and `Slack.MarkdownLinesAt` state that it is the one added, with the markdown as its text |
| `Slack.MarkdownLinesAt` | src/main.rs:100-106 | the k-th block appended in the loop is the markdown block of the k-th item |
| `Slack.MarkdownLinesSnoc` | src/main.rs:100-106 | one more item appends one more block at the end |
| `Slack.Flatten` | src/slack.rs:53 | the text `send` posts; `Slack.FlattenAppend` states it is the block texts in order with no separator, and `Slack.SlackMessage.AppendMarkdown` that each append extends it by the markdown |
| `Slack.FlattenAppend` | src/slack.rs:53 | the text of two block lists together is the text of the first followed by that of the second |
| `Slack.Escape` | src/slack.rs:37-45 | the loop's escaping; its properties are the lemmas `Slack.UnescapeEscape`, `Slack.EscapeHasNoBrackets`, `Slack.EscapeKeepsPlainText` and `Slack.EscapeAppend` below |
| `Slack.UnescapeEscape` | src/slack.rs:38-45 | decoding `&amp;`, `&lt;` and `&gt;` left to right recovers the escaped text |
| `Slack.EscapeHasNoBrackets` | src/slack.rs:38-45 | escaped text contains no `<` and no `>` |
| `Slack.EscapeKeepsPlainText` | src/slack.rs:43 | text without `&`, `<` or `>` is copied unchanged |
| `Slack.EscapeTagged` | src/slack.rs:38-45 | `<x>&`, with `x` plain, becomes `&lt;x&gt;&amp;` |
| `Slack.EscapeExample` | src/slack.rs:38-45 | `<script>&` becomes `&lt;script&gt;&amp;` |
| `Slack.EscapeSingle` | src/slack.rs:39-44 | one character escapes to its own entity, or to itself |
| `Slack.EscapeAppend` | src/slack.rs:38-45 | escaping works character by character, preserving order: it distributes over concatenation |
| `Slack.LinkText` | src/slack.rs:33-47 | the link `link` returns; `Slack.LinkTextDecodes` states its form with text, and `Slack.SlackMessage.Link` that the loop computes it |
| `Slack.LinkTextDecodes` | src/slack.rs:36-47 | a link with text is `<url|…>` whose inner part holds no angle bracket and decodes back to the text as given |
| `Slack.PayloadFor` | src/slack.rs:53-82 | the payload is exactly one `context` block holding exactly one `mrkdwn` element whose text is all block texts in order, with no separator |
| `Slack.SendResult` | src/slack.rs:86-99 | success if and only if a response came with a 2xx status; no response is the posting error; another status is the error carrying status and body, or the body-read error |
| `Slack.SlackMessage.constructor` | src/slack.rs:10-13 | a default message has no blocks |
| `Slack.SlackMessage.AppendMarkdown` | src/slack.rs:25-32 | exactly one verbatim `mrkdwn` block without emoji is added at the end, earlier blocks unchanged, and the message text grows by the markdown |
| `Slack.SlackMessage.Link` | src/slack.rs:33-50 | the loop's result is `[url](url)` without text, and with text the url and the escaped text joined by a bar inside angle brackets |
| `Slack.SlackMessage.Send` | src/slack.rs:52-99 | the request posts the payload of the blocks to the hook; the outcome is the status rule applied to the transport's answer |
| `Bot.TwoDigitsValue` | src/main.rs:103 | a `%d`, `%m`, `%H` or `%M` field is two digits that read back as its value |
| `Bot.FourDigitsValue` | src/main.rs:103 | a `%Y` field of a year from 0 to 9999 is four digits that read back as the year |
| `Bot.FormatYear` | src/main.rs:103 | `%Y` is four digits reading back as the year for years 0 to 9999; otherwise `+` or `-` followed by digits reading back as the year's magnitude |
| `Bot.FormatDate` | src/main.rs:103 | `format("%d/%m/%Y %H:%M")` of the update time; its layout is the lemma `Bot.DateLayout` |
| `Bot.DateLayout` | src/main.rs:103 | the date is `dd/mm/YYYY HH:MM`, 16 characters with the separators in place, each field reading back as its value |
| `Bot.FieldsAt` | src/main.rs:103 | where the five fields sit in the rendered date |
| `Bot.HeaderText` | src/main.rs:96-99 | the header block's markdown; `Bot.MessageLayout` states it is the first block and `Slack.LinkTextDecodes` the form of its link |
| `Bot.IssueLine` | src/main.rs:101-105 | one issue's markdown; `Bot.MessageLayout` states it is the block after the header at the issue's position |
| `Bot.MessageLayout` | src/main.rs:95-106 | a message has 1 + n blocks: the header linking the project with its repository name, then one line per issue in the order fetched |
| `Bot.MessageBlocksSnoc` | src/main.rs:100-106 | each loop iteration appends the line of the next issue |
| `Bot.ComposeMessage` | src/main.rs:95-106 | the loop of `append_markdown` calls builds exactly the message of the layout above |
| `Bot.ProjectRun` | src/main.rs:76-111 | `per_project` as a function of its inputs and oracles; its properties are the lemmas `Bot.MissingSecretBeforeFetch` to `Bot.IssuesPostedOnce` below, and `Bot.PerProject` computes it |
| `Bot.MissingSecretBeforeFetch` | src/main.rs:80-81 | without a hook for the repository name the project fails with "Missing secret", having fetched and posted nothing |
| `Bot.FetchComesFirst` | src/main.rs:77-89 | the first call a project makes is the one issue fetch for its owner and name, since now minus the frequency |
| `Bot.PostedOnceIffIssues` | src/main.rs:91-109 | a message is posted exactly once if the fetch returned issues, and never otherwise, always to the hook stored under the repository name |
| `Bot.HookIgnoresOwner` | src/main.rs:80-81 | the hook is chosen by repository name alone: two projects with the same name post to the same hook, whatever their owners |
| `Bot.NoIssuesNoMessage` | src/main.rs:91-93 | an empty issue list ends the project successfully after the fetch, sending nothing |
| `Bot.IssuesPostedOnce` | src/main.rs:95-109 | with issues, the posted text is the header followed by every issue line, the calls are the fetch then the one post, and a failed send becomes the project's error |
| `Bot.PerProject` | src/main.rs:76-111 | the method's outcome and calls are those of the pipeline function that the lemmas above describe |
| `Bot.ProjectLog` | src/main.rs:134-137 | one project's log: its calls and a warning if it failed; `Bot.EveryProjectAttempted` places it in the run |
| `Bot.RunRange` | src/main.rs:133-138 | the loop over a range of projects; `Bot.RunRangeSplit`, `Bot.EveryProjectAttempted` and `Bot.AtMostOneWarningPerProject` state its properties, and `Bot.RunProjects` computes it |
| `Bot.AtMostOneWarningPerProject` | src/main.rs:133-138 | a run logs no more warnings than it has projects |
| `Bot.CombineAssociative` | src/main.rs:133-138 | logs concatenate associatively |
| `Bot.RunRangeSplit` | src/main.rs:133-138 | the run over a range is the run over its first part followed by the run over the rest |
| `Bot.EveryProjectAttempted` | src/main.rs:133-139 | every project is attempted in list order: the run is the runs before it, then its own log, then the runs after it, whether or not earlier ones failed |
| `Bot.RunProjects` | src/main.rs:133-139 | the loop over the projects logs one warning per failed project and carries on, producing the log of the whole run |

## Left out

- HTTP and GitHub I/O are oracles in `Bot.Oracles`: the `reqwest` POST and body read, and the `octocrab` fetch. Asynchrony is not modelled.
- `Url::parse` is an oracle (`UrlParser`). URL validity, normalization and percent-encoding belong to the url crate and are not reproduced.
- Serde decoding of the YAML and JSON documents is left out, because it belongs to foreign libraries. `BuildConfig` takes the fields as already read.
- Configuration.BuildConfig: when both fields are invalid the model reports the projects error. serde's own order of reporting is not modelled.
- chrono's panics on durations beyond `i64::MAX` milliseconds are excluded by the precondition `WithinDurationRange`, not modelled as a crash.
- `Local::now()`: the model's clock gives one time per project position in the list, and `now - update_frequency` (`src/main.rs:77`) is integer subtraction. In chrono that subtraction panics, ending the whole run, when the result falls outside chrono's date range (about 262,000 years). A frequency such as `100000000d` passes `Configuration.ParseUpdateFrequency` yet makes every project panic there. For such a configuration `Bot.RunProjects` and `Bot.EveryProjectAttempted` do not describe the program.
- The `{since:?}` rendering of a time is an oracle (`renderSince`), because it is chrono's `Debug` output.
- Bot.DateLayout: stated for years 0 to 9999 only. Other years render with a sign (`FormatYear`), but no layout is proved for them.
- Time zones are not modelled: an issue's update time is taken as the calendar fields chrono formats.
- Configuration.ParseUpdateFrequency: its unit-letter parse error (`src/config.rs:147-149`) and the `unreachable!()` arm (`src/config.rs:155`) cannot be reached, because a match always captures exactly one of `d`, `h`, `m`, `s`. Neither is modelled.
- Configuration.FromEnvVarParsesHalves: stated for any parser, so the test instance (`src/config.rs:193-196`) is covered by it rather than proved on the concrete strings.
- The "missing owner" branch (`src/config.rs:89-92`) is modelled, but it is dead code: `Configuration.NeverMissingOwner` proves it never produces its error.
- The `Secrets` struct of `src/config.rs:54-61` (`HashMap<Url, Vec<SlackHook>>`) is declared but used nowhere, so it is not modelled.
- Logging (`warn!`, `debug!`) is left out. A logged warning is a `Bot.Warning` value carrying the owner, the name and the error.
- Process start-up is left out: `env_logger`, `dotenv`, reading `GITHUB_BOT_SECRETS`, opening `config.yml` and the errors of these steps (`src/main.rs:113-131`). After the loop `main` returns `Ok`, so `Bot.RunProjects` has no error result.
- `tests/test_config.rs` parses a `config.yml` that is not part of this model.
