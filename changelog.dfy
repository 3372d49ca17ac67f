/**
  The changelog entry that the command assembles from the commit log and
  renders through its fixed template (the `Run` closure of `rootCmd` in
  cmd/root.go).

  The repository access (opening it, the "origin" remote, HEAD, the log walk)
  and the clock stay outside: the origin URL, the commits in traversal order and
  the date come in as parameters.
 */
module Changelog {
  import opened Wrappers
  import opened GoStrings
  import opened RemoteUrl

  /** What the log walk yields of one commit: its full hash and its raw message. */
  datatype Commit = Commit(hash: string, message: string)

  /** One changelog line: the short hash, the first line of the message, a link or "". */
  datatype Change = Change(sha: string, title: string, url: string)

  /** The entry for one version. */
  datatype Release = Release(version: string, date: string, changes: seq<Change>)

  /** Length of the short hash, `hashStr[:7]`. */
  const ShortHashLength := 7

  /** `hashStr[:7]` panics on a shorter hash. */
  predicate HashesLongEnough(commits: seq<Commit>) {
    forall i :: 0 <= i < |commits| ==> |commits[i].hash| >= ShortHashLength
  }

  /**
    `strings.Split(message, "\n")[0]`: the message up to its first line break,
    the whole message when it has none.
   */
  function Title(message: string): (title: string)
    ensures title <= message
    ensures '\n' !in title
    ensures |title| < |message| ==> message[|title|] == '\n'
  {
    Split(message, '\n')[0]
  }

  /** A change carries a commit link exactly when a remote base URL was resolved. */
  lemma LinkedIffRemote(c: Commit, useURL: bool, remoteURL: string)
    requires |c.hash| >= ShortHashLength
    ensures MakeChange(c, useURL, remoteURL).url != "" <==> useURL
  {
    if useURL {
      var u := MakeChange(c, useURL, remoteURL).url;
      assert u[|remoteURL|] == '/';
    }
  }

  /** A message whose first line is `first` has `first` as its title, whatever follows the break. */
  lemma {:induction false} TitleOfMessage(first: string, rest: string)
    requires '\n' !in first
    ensures Title(first + "\n" + rest) == first
  {
    SplitAppend(first, '\n', rest);
  }

  /** The link of a commit under the remote's web base URL. */
  function CommitURL(remoteURL: string, hash: string): string {
    remoteURL + "/commits/" + hash
  }

  /** The Change built for one commit; `useURL` tells whether a remote was resolved. */
  function MakeChange(c: Commit, useURL: bool, remoteURL: string): (ch: Change)
    requires |c.hash| >= ShortHashLength
    ensures |ch.sha| == ShortHashLength && ch.sha <= c.hash
    ensures ch.title == Title(c.message)
    ensures useURL ==> ch.url == CommitURL(remoteURL, c.hash)
    ensures !useURL ==> ch.url == ""
  {
    Change(c.hash[..ShortHashLength], Title(c.message), if useURL then CommitURL(remoteURL, c.hash) else "")
  }

  /** The changes of a log, one per commit, in traversal order. */
  function ChangesOf(commits: seq<Commit>, useURL: bool, remoteURL: string): seq<Change>
    requires HashesLongEnough(commits)
  {
    seq(|commits|, i requires 0 <= i < |commits| => MakeChange(commits[i], useURL, remoteURL))
  }

  /**
    The assembly loop of the `Run` closure: the release starts with the version
    and the date and no changes, and each commit of the walk appends its Change.
   */
  method Assemble(version: string, date: string, commits: seq<Commit>, useURL: bool, remoteURL: string)
    returns (release: Release)
    requires HashesLongEnough(commits)
    ensures release.version == version && release.date == date
    ensures |release.changes| == |commits|
    ensures forall k :: 0 <= k < |commits| ==> release.changes[k] == MakeChange(commits[k], useURL, remoteURL)
    ensures release.changes == ChangesOf(commits, useURL, remoteURL)
  {
    release := Release(version, date, []);
    var i := 0;
    while i < |commits|
      invariant 0 <= i <= |commits|
      invariant release.version == version && release.date == date
      invariant |release.changes| == i
      invariant forall k :: 0 <= k < i ==> release.changes[k] == MakeChange(commits[k], useURL, remoteURL)
    {
      var c := commits[i];
      var changeURL := "";
      if useURL {
        changeURL := CommitURL(remoteURL, c.hash);
      }
      var change := Change(c.hash[..ShortHashLength], Title(c.message), changeURL);
      release := release.(changes := release.changes + [change]);
      i := i + 1;
    }
  }

  /** `{{ if .URL }}[{{ .SHA }}]({{ .URL }}){{ else }}[{{ .SHA }}]{{ end }}` */
  function Link(ch: Change): (link: string)
    ensures HasPrefix(link, "[" + ch.sha + "]")
    ensures link == "[" + ch.sha + "]" <==> ch.url == ""
  {
    if ch.url != "" then "[" + ch.sha + "](" + ch.url + ")" else "[" + ch.sha + "]"
  }

  /** The text of one change line, without its line break. */
  function Line(ch: Change): string {
    "- " + ch.title + " " + Link(ch)
  }

  /** The heading line of the entry, without its line breaks. */
  function Heading(r: Release): string {
    "## [" + r.version + "] - " + r.date
  }

  /** The change lines, one per change, in order. */
  function Lines(changes: seq<Change>): seq<string> {
    seq(|changes|, i requires 0 <= i < |changes| => Line(changes[i]))
  }

  /** Each line preceded by a line break, as `{{ range .Changes }}` emits them. */
  function BreakEach(lines: seq<string>): string {
    if lines == [] then "" else "\n" + lines[0] + BreakEach(lines[1..])
  }

  /** The fixed release template executed on a release (no escaping is applied). */
  function Render(r: Release): string {
    "\n" + (Heading(r) + "\n" + (BreakEach(Lines(r.changes)) + "\n"))
  }

  /** Nothing that goes into a line of the entry holds a line break. */
  predicate SingleLine(r: Release) {
    '\n' !in r.version && '\n' !in r.date &&
    forall i :: 0 <= i < |r.changes| ==>
      '\n' !in r.changes[i].title && '\n' !in r.changes[i].sha && '\n' !in r.changes[i].url
  }

  /**
    The range body followed by the template's final line break is the lines
    joined with line breaks, with an empty line before and after them.
   */
  lemma {:induction false} BreakEachJoin(lines: seq<string>)
    ensures BreakEach(lines) + "\n" == Join([""] + lines + [""], '\n')
  {
    var framed := [""] + lines + [""];
    if lines == [] {
      assert framed == [""] + [""];
      JoinCons("", [""], '\n');
    } else {
      var rest, line := lines[1..], lines[0];
      var after := Join(rest + [""], '\n');
      calc {
        BreakEach(lines) + "\n";
        "\n" + line + BreakEach(rest) + "\n";
        "\n" + line + (BreakEach(rest) + "\n");
        { BreakEachJoin(rest); }
        "\n" + line + Join([""] + rest + [""], '\n');
        { assert [""] + rest + [""] == [""] + (rest + [""]);
          JoinCons("", rest + [""], '\n'); }
        "\n" + line + ("" + "\n" + after);
        "\n" + (line + "\n" + after);
        { assert lines + [""] == [line] + (rest + [""]);
          JoinCons(line, rest + [""], '\n'); }
        "\n" + Join(lines + [""], '\n');
        { assert framed == [""] + (lines + [""]);
          JoinCons("", lines + [""], '\n'); }
        Join(framed, '\n');
      }
    }
  }

  /**
    The rendered entry, cut at its line breaks, is an empty line, the heading, an
    empty line, one line per change in order, and a final empty line.
   */
  lemma RenderLines(r: Release)
    requires SingleLine(r)
    ensures Split(Render(r), '\n') == ["", Heading(r), ""] + Lines(r.changes) + [""]
  {
    var lines := Lines(r.changes);
    var all := [""] + ([Heading(r)] + ([""] + lines + [""]));
    RenderJoin(r);
    Regroup("", Heading(r), "", lines, "");
    LinesSingle(r);
    assert '\n' !in Heading(r);
    FramedSingle(Heading(r), lines);
    SplitUnique(all, '\n', Render(r));
  }

  /** The rendered entry is the framed change lines, behind the heading and an empty line, joined by line breaks. */
  lemma RenderJoin(r: Release)
    ensures Render(r) == Join([""] + ([Heading(r)] + ([""] + Lines(r.changes) + [""])), '\n')
  {
    var framed := [""] + Lines(r.changes) + [""];
    BreakEachJoin(Lines(r.changes));
    JoinCons(Heading(r), framed, '\n');
    JoinCons("", [Heading(r)] + framed, '\n');
  }

  /** Regrouping three leading elements, a body and a trailing element. */
  lemma Regroup<T>(x: T, y: T, z: T, body: seq<T>, e: T)
    ensures [x] + ([y] + ([z] + body + [e])) == [x, y, z] + body + [e]
  {
  }

  /** Framing single-line lines by empty lines and a single-line heading keeps every piece single-line. */
  lemma FramedSingle(heading: string, lines: seq<string>)
    requires '\n' !in heading
    requires forall i :: 0 <= i < |lines| ==> '\n' !in lines[i]
    ensures var all := [""] + ([heading] + ([""] + lines + [""]));
            forall i :: 0 <= i < |all| ==> '\n' !in all[i]
  {
    Framed("", heading, "", lines, "");
    Regroup("", heading, "", lines, "");
  }

  /** No change line of a single-line release holds a line break. */
  lemma LinesSingle(r: Release)
    requires SingleLine(r)
    ensures forall i :: 0 <= i < |r.changes| ==> '\n' !in Lines(r.changes)[i]
  {
    forall i | 0 <= i < |r.changes| ensures '\n' !in Lines(r.changes)[i] {
      LineSingle(r.changes[i]);
    }
  }

  /** A change whose fields hold no line break renders to a single line. */
  lemma LineSingle(ch: Change)
    requires '\n' !in ch.title && '\n' !in ch.sha && '\n' !in ch.url
    ensures '\n' !in Line(ch)
  {
    assert Line(ch) == "- " + ch.title + " " + Link(ch);
  }

  /**
    The `Run` closure from the point where the repository is open: resolve the
    base URL of the origin remote when there is one (a URL that does not parse
    ends the run with that error), assemble the release and render it.
    `origin` is None when the repository has no "origin" remote.
   */
  method Run(version: string, date: string, origin: Option<string>, commits: seq<Commit>)
    returns (out: Result<string, UrlError>)
    requires HashesLongEnough(commits)
    ensures origin.None? ==> out == Ok(Render(Release(version, date, ChangesOf(commits, false, ""))))
    ensures origin.Some? && ParseRemoteURL(origin.value).Err? ==> out == Err(ParseRemoteURL(origin.value).error)
    ensures origin.Some? && ParseRemoteURL(origin.value).Ok? ==>
              out == Ok(Render(Release(version, date, ChangesOf(commits, true, ParseRemoteURL(origin.value).value))))
  {
    var useURL := false;
    var remoteURL := "";
    if origin.Some? {
      var parsed := ParseRemoteURL(origin.value);
      if parsed.Err? {
        return Err(parsed.error);
      }
      remoteURL := parsed.value;
      useURL := true;
    }
    var release := Assemble(version, date, commits, useURL, remoteURL);
    out := Ok(Render(release));
  }

  /**
    The line the template prints for a commit: `- <title> [<short hash>]`, with
    the short hash linked to the commit's page when a remote was resolved.
   */
  function CommitLineText(c: Commit, useURL: bool, remoteURL: string): string
    requires |c.hash| >= ShortHashLength
  {
    var sha := c.hash[..ShortHashLength];
    "- " + Title(c.message) + " " +
      (if useURL then "[" + sha + "](" + CommitURL(remoteURL, c.hash) + ")" else "[" + sha + "]")
  }

  /**
    Line `3 + i` of the rendered entry is change `i`: `- <title> [<short hash>]`,
    followed by the commit link when a remote was resolved.
   */
  lemma EntryLines(version: string, date: string, commits: seq<Commit>, useURL: bool, remoteURL: string)
    requires HashesLongEnough(commits)
    requires '\n' !in version && '\n' !in date && '\n' !in remoteURL
    requires forall i :: 0 <= i < |commits| ==> '\n' !in commits[i].hash
    ensures var lines := Split(Render(Release(version, date, ChangesOf(commits, useURL, remoteURL))), '\n');
            |lines| == |commits| + 4 &&
            lines[0] == "" && lines[1] == "## [" + version + "] - " + date && lines[2] == "" &&
            lines[|lines| - 1] == "" &&
            forall i :: 0 <= i < |commits| ==>
              lines[3 + i] == CommitLineText(commits[i], useURL, remoteURL)
  {
    var changes := ChangesOf(commits, useURL, remoteURL);
    var r := Release(version, date, changes);
    ChangesSingleLine(version, date, commits, useURL, remoteURL);
    RenderLines(r);
    var lines := ["", Heading(r), ""] + Lines(changes) + [""];
    Framed("", Heading(r), "", Lines(changes), "");
    forall i | 0 <= i < |commits|
      ensures lines[3 + i] == CommitLineText(commits[i], useURL, remoteURL)
    {
      EntryLineAt(Heading(r), commits, useURL, remoteURL, i);
    }
  }

  /** In the framed lines of an assembled log, line `3 + i` is the line of commit `i`. */
  lemma EntryLineAt(heading: string, commits: seq<Commit>, useURL: bool, remoteURL: string, i: nat)
    requires HashesLongEnough(commits)
    requires i < |commits|
    requires '\n' !in commits[i].hash && '\n' !in remoteURL
    ensures var body := Lines(ChangesOf(commits, useURL, remoteURL));
            (["", heading, ""] + body + [""])[3 + i] == CommitLineText(commits[i], useURL, remoteURL)
  {
    var changes := ChangesOf(commits, useURL, remoteURL);
    var body := Lines(changes);
    Framed("", heading, "", body, "");
    assert changes[i] == MakeChange(commits[i], useURL, remoteURL);
    assert body[i] == Line(changes[i]);
    CommitLine(commits[i], useURL, remoteURL);
  }

  /** Positions in three leading elements, a body and one trailing element. */
  lemma Framed<T>(x: T, y: T, z: T, body: seq<T>, e: T)
    ensures var s := [x, y, z] + body + [e];
            |s| == |body| + 4 && s[0] == x && s[1] == y && s[2] == z && s[|s| - 1] == e &&
            forall i :: 0 <= i < |body| ==> s[3 + i] == body[i]
  {
  }

  /** With no line break in the inputs, the assembled release is single-line. */
  lemma ChangesSingleLine(version: string, date: string, commits: seq<Commit>, useURL: bool, remoteURL: string)
    requires HashesLongEnough(commits)
    requires '\n' !in version && '\n' !in date && '\n' !in remoteURL
    requires forall i :: 0 <= i < |commits| ==> '\n' !in commits[i].hash
    ensures SingleLine(Release(version, date, ChangesOf(commits, useURL, remoteURL)))
  {
    var changes := ChangesOf(commits, useURL, remoteURL);
    forall i | 0 <= i < |changes|
      ensures '\n' !in changes[i].title && '\n' !in changes[i].sha && '\n' !in changes[i].url
    {
      CommitLine(commits[i], useURL, remoteURL);
    }
  }

  /** The line of one commit's change, and that it holds no line break. */
  lemma CommitLine(c: Commit, useURL: bool, remoteURL: string)
    requires |c.hash| >= ShortHashLength
    requires '\n' !in c.hash && '\n' !in remoteURL
    ensures var ch := MakeChange(c, useURL, remoteURL);
            '\n' !in ch.title && '\n' !in ch.sha && '\n' !in ch.url &&
            Line(ch) == CommitLineText(c, useURL, remoteURL)
  {
    var ch := MakeChange(c, useURL, remoteURL);
    assert ch.sha <= c.hash;
    if useURL {
      assert ch.url == remoteURL + "/commits/" + c.hash;
      assert ch.url != "" by { assert ch.url[|remoteURL|] == '/'; }
    }
  }
}
