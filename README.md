# sumit changelog core, modelled in Dafny

`sumit` is a command-line tool that prints a Markdown changelog entry for one
release, built from the git history of a repository. The entry has a heading
`## [<version>] - <date>`. Below it comes one line per commit, reachable from HEAD
in log order: `- <first line of the message> [<short hash>]`. When the "origin"
remote can be turned into a web URL, the short hash links to
`<repo web URL>/commits/<full hash>`.

The model covers three parts of `cmd/root.go`:

- `RemoteUrl.ParseRemoteURL` normalises a remote URL. It accepts
  `https://host/ws/repo[.git]` and `git@host:ws/repo[.git]` and turns both into
  `https://host/ws/repo`. Anything else is an "invalid" or "unsupported" error,
  and the error carries the URL it was given.
- `Changelog.Assemble` is the loop that builds the `Release` value. It appends
  one `Change` per commit. `Changelog.ChangesOf` is the function that specifies it.
- `Changelog.Render` is the fixed release template, written out as string
  concatenation. `Changelog.Run` chains these three together. Its inputs are:
  - the version argument;
  - the date;
  - the origin URL, or `None` when there is no origin remote;
  - the commits of the log walk.

`GoStrings` models the Go `strings` functions the tool uses: `HasPrefix`,
`TrimPrefix`, `TrimSuffix`, and `Split` with a one-character separator. It also
models `HasSuffix`, because `TrimSuffix` is defined through it, and `Join` and
`Count` as reference partners for `Split`.

Modules:

- `Wrappers` holds `Option` and `Result`.
- `GoStrings` holds the string helpers.
- `RemoteUrl` holds `parseRemoteURL` and its error values.
- `Changelog` holds the entities, the assembly loop, the rendering and `Run`.

## Model

| member | source | states |
|---|---|---|
| GoStrings.HasPrefix | cmd/root.go:107 | The test at lines 107 and 116 holds exactly when the prefix is a sequence prefix of the string |
| GoStrings.TrimPrefix | cmd/root.go:108 | With the prefix present, reattaching the prefix gives back the input; otherwise the input is unchanged |
| GoStrings.TrimSuffix | cmd/root.go:115 | With the suffix present, reattaching the suffix gives back the input; otherwise the input is unchanged |
| GoStrings.TrimSuffixAppended | cmd/root.go:115 | Removing a suffix that was just appended restores the string, so only one `.git` is removed |
| GoStrings.Split | cmd/root.go:109 | There is one more piece than separators; no piece contains the separator; the first piece is a prefix of the input, followed by a separator or by the end |
| GoStrings.SplitJoin | cmd/root.go:120 | Joining the pieces with the separator gives back the input |
| GoStrings.SplitUnique | cmd/root.go:125 | Any non-empty list of separator-free pieces whose join is `s` equals `Split(s)` |
| GoStrings.SplitNoSep | cmd/root.go:92 | A string without the separator splits into itself alone |
| GoStrings.SplitAppend | cmd/root.go:120 | A separator-free head followed by the separator is the first piece; the rest splits independently |
| RemoteUrl.ParseRemoteURL | cmd/root.go:104-137 | A success always starts with `https://`; every error carries the given URL; the error is "unsupported" exactly when the URL has neither the `https://` nor the `git@` prefix |
| RemoteUrl.UrlError.Message | cmd/root.go:111-132 | The error text ends with the offending URL, and starts with "invalid " exactly for the invalid-structure errors of lines 111, 122 and 127, not the unsupported one of line 132 |
| RemoteUrl.HttpsRemote | cmd/root.go:107-115 | `https://host/ws/repo` followed by nothing or by `/...` gives `https://host/ws/repo` with one trailing `.git` removed |
| RemoteUrl.HttpsInvalid | cmd/root.go:109-111 | An `https://` URL fails exactly when fewer than two `/` follow the scheme, and its only possible error is "invalid" |
| RemoteUrl.HttpsHostOnly | cmd/root.go:110-111 | `https://host` without a further `/` is "invalid" |
| RemoteUrl.SshRemote | cmd/root.go:116-130 | `git@host:ws/repo` followed by an optional `/...` and an optional `:...` gives `https://host/ws/repo` with one trailing `.git` removed |
| RemoteUrl.SshInvalid | cmd/root.go:120-128 | A `git@` URL fails exactly when it has no `:`, or when the text between the first and second `:` has no `/`; its only possible error is "invalid" |
| RemoteUrl.SshNoWorkspace | cmd/root.go:125-128 | `git@host:repo` with no `/` in the path is "invalid" |
| RemoteUrl.SshSecondColon | cmd/root.go:120-128 | In `git@host:first:second` only `first` is the path, so without a `/` in `first` the URL is "invalid" whatever `second` holds |
| Changelog.Title | cmd/root.go:92 | The title is a prefix of the message and has no line break; if it is shorter than the message, a line break follows it |
| Changelog.TitleOfMessage | cmd/root.go:92 | The title of `first + "\n" + rest` is `first` when `first` has no line break |
| Changelog.MakeChange | cmd/root.go:87-94 | The sha is the first 7 characters of the full hash; the title is that of the message; the URL is `<remote>/commits/<hash>` when a remote was resolved, and otherwise "" |
| Changelog.LinkedIffRemote | cmd/root.go:89 | A change has a non-empty URL exactly when a remote was resolved |
| Changelog.ChangesOf | cmd/root.go:86-97 | The changes the walk accumulates, one `MakeChange` per commit in walk order; no contract of its own, `Changelog.Assemble` is proved to compute it |
| Changelog.Assemble | cmd/root.go:82-97 | The loop keeps the version and the date and yields one change per commit, in walk order, each equal to `MakeChange` of its commit |
| Changelog.Link | cmd/root.go:41 | The link starts with `[<sha>]`, and is exactly `[<sha>]` when the change has no URL |
| Changelog.Line | cmd/root.go:41 | One change line; no contract of its own, `Changelog.EntryLines` gives its text as `- <title> [<sha>]`, with the link when a remote was resolved |
| Changelog.Heading | cmd/root.go:39 | The heading line; no contract of its own, `Changelog.RenderLines` places it as the second line of the entry |
| Changelog.Render | cmd/root.go:38-42 | The template's output; no contract of its own, `Changelog.RenderLines` and `Changelog.EntryLines` state its lines |
| Changelog.RenderLines | cmd/root.go:38-42 | When no field contains a line break, the rendered text splits into: "", the heading, "", one line per change in order, and a final "" |
| Changelog.BreakEachJoin | cmd/root.go:40-42 | The range output plus the final newline equals the change lines joined by newlines, with an empty line before and after |
| Changelog.EntryLines | cmd/root.go:38-42 | When the version, the date, the remote URL and the hashes contain no line break, the rendered entry has `4 + n` lines for `n` commits. Line 1 is `## [version] - date`. Line `3 + i` is `- <title> [<sha>]` for commit `i`, linked to its commit URL when a remote was resolved |
| Changelog.Run | cmd/root.go:60-100 | With no origin, the entry has unlinked changes. When origin fails to parse, the parse error is returned. Otherwise the entry links every change under the parsed base URL |

## Left out

- Command-line handling is not modelled: cobra, the `--dir` flag and its `.` default, and the at-least-one-argument check. The version arrives as a parameter.
- `bail` and `os.Exit` are not modelled, nor the coloured error printing; a failure is returned as `Err` carrying the `UrlError` value. `UrlError.Message` gives the error's text.
- The go-git calls `PlainOpen`, `Remote`, `Head`, `Log` and `ForEach` are not modelled. Failures of `PlainOpen`, `Head` and `Log` go through `bail`. A failing `Remote` is `None`: links are switched off and nothing bails. A `ForEach` failure is ignored, so the changes collected before it are still rendered and the exit status is 0; `commits` then stands for the prefix walked before the failure. The commits reachable from HEAD, in walk order, are a parameter.
- A missing "origin" remote is modelled as `None`. The `URLs[0]` lookup on a configured remote is not modelled: an origin with no URL would panic in the source.
- `time.Now().Format("2006-01-02")` is not modelled; the date is a parameter.
- The `text/template` engine is not modelled. The one fixed template is written out as concatenation, and writing the result to standard output is not modelled: `Run` returns the text.
- The ignored errors of `ForEach` and `Execute` are not modelled. The commit callback always returns nil, and writing to stdout is outside the model.
- `hashStr[:7]` panics on a hash shorter than seven characters. The model requires every hash to have at least seven characters (`HashesLongEnough`) rather than modelling the panic. Git hashes are 40 hex characters.
- GoStrings.Split: modelled only for one-character separators, which is all the tool passes (`/`, `:` and a newline). The empty-separator case of Go's Split is never used.
- A message ending in `\r\n` keeps the `\r` in its title, as in the source. The model has no special treatment for it.
- Concrete remote URLs are covered by general lemmas over host, workspace and repo segments rather than literal strings: `https://onlyonepart` by `RemoteUrl.HttpsHostOnly`, `git@host:onlyrepo` by `RemoteUrl.SshNoWorkspace`, and `git@github.com:acme/widget.git` by `RemoteUrl.SshRemote`.
- Go strings are byte sequences, while the model's strings are sequences of characters. No behaviour is lost: every separator, prefix and suffix, and the sliced hash, is ASCII. A commit message that is not valid UTF-8 cannot be represented, however.
