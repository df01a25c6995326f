/**
 Repository URLs: `urllib.parse.urlsplit`, the three provider parsers that bring an input
 to a canonical URL, and the manifest's own normaliser of the same URL. A network location
 with a bracket is refused: no bracketed host is a supported one.
 */
module RepositoryUrls {
  import opened Basics
  import opened Strings

  datatype Url = Url(scheme: string, netloc: string, path: string, query: string, fragment: string)

  // ----- urlsplit -----

  function TrimControls(s: string): string { if s != "" && s[0] <= ' ' then TrimControls(s[1..]) else s }

  predicate Breaks(c: char) { c == '\t' || c == '\r' || c == '\n' }

  function Unbroken(s: string): string {
    if s == "" then "" else (if Breaks(s[0]) then "" else [s[0]]) + Unbroken(s[1..])
  }

  predicate Letter(c: char) { 'a' <= c <= 'z' || 'A' <= c <= 'Z' }

  predicate Digit(c: char) { '0' <= c <= '9' }

  predicate SchemeChar(c: char) { Letter(c) || Digit(c) || c == '+' || c == '-' || c == '.' }

  /** `str.lower`, exact for every character whose lower form is an ASCII letter, the Kelvin
      sign among them; the others never make up a supported host. */
  function LowerChar(c: char): char {
    if 'A' <= c <= 'Z' then (c as int + 32) as char else if c == '\U{212a}' then 'k' else c
  }

  function Lower(s: string): string { seq(|s|, i requires 0 <= i < |s| => LowerChar(s[i])) }

  /** Position of the first character of `s` in `marks`, or the length. */
  function FirstOf(s: string, marks: string): (i: nat)
    ensures i <= |s| && (i < |s| ==> s[i] in marks)
  {
    if s == "" || s[0] in marks then 0 else 1 + FirstOf(s[1..], marks)
  }

  function Before(s: string, c: char): string { s[..IndexOf(s, c)] }

  function After(s: string, c: char): string { if IndexOf(s, c) < |s| then s[IndexOf(s, c) + 1..] else "" }

  function AfterLast(s: string, c: char): string
    decreases |s|
  {
    if IndexOf(s, c) < |s| then AfterLast(s[IndexOf(s, c) + 1..], c) else s
  }

  function BeforeLast(s: string, c: char): string
    decreases |s|
  {
    var i := IndexOf(s, c);
    if i == |s| then "" else if c in s[i + 1..] then s[..i + 1] + BeforeLast(s[i + 1..], c) else s[..i]
  }

  /** Length of a leading scheme, zero if there is none. */
  function SchemeLength(s: string): (i: nat)
    ensures i == 0 || (i < |s| && s[i] == ':')
  {
    var i := IndexOf(s, ':');
    if 0 < i < |s| && Letter(s[0]) && forall c :: c in s[..i] ==> SchemeChar(c) then i else 0
  }

  /** What follows the scheme: network location, path, query and fragment. */
  function SplitRest(scheme: string, rest: string): Url {
    var k := if "//" <= rest then 2 + FirstOf(rest[2..], "/?#") else 0;
    var tail := rest[k..];
    Url(scheme, if k >= 2 then rest[2..k] else "",
        Before(Before(tail, '#'), '?'), After(Before(tail, '#'), '?'), After(tail, '#'))
  }

  function SplitClean(s: string): Url {
    var i := SchemeLength(s);
    if i == 0 then SplitRest("", s) else SplitRest(Lower(s[..i]), s[i + 1..])
  }

  function UrlSplit(text: string): Url { SplitClean(Unbroken(TrimControls(text))) }

  function HostOf(netloc: string): string { Lower(Before(AfterLast(netloc, '@'), ':')) }

  /** No user name, no password, and no port other than zero, which is as good as none. */
  predicate BareHost(netloc: string) {
    var userinfo, port := BeforeLast(netloc, '@'), After(AfterLast(netloc, '@'), ':');
    && '[' !in netloc && ']' !in netloc
    && Before(userinfo, ':') == "" && After(userinfo, ':') == ""
    && |port| <= 4300 && forall c :: c in port ==> c == '0'
  }

  /** What the parsers and the manifest all demand of a URL, for a set of hosts. */
  predicate Acceptable(url: Url, hosts: set<string>) {
    && url.scheme == "https" && HostOf(url.netloc) in hosts
    && BareHost(url.netloc) && url.query == "" && url.fragment == ""
  }

  // ----- the provider parsers -----

  datatype Provider = GitHub | GitLab | Bitbucket

  function Host(provider: Provider): string {
    match provider case GitHub => "github.com" case GitLab => "gitlab.com" case Bitbucket => "bitbucket.org"
  }

  predicate Part(s: string) {
    s != "" && forall c :: c in s ==> Letter(c) || Digit(c) || c == '_' || c == '.' || c == '-'
  }

  predicate EndsWith(s: string, suffix: string) { |suffix| <= |s| && s[|s| - |suffix|..] == suffix }

  /** `s.removesuffix(".git")`. */
  function DropGit(s: string): string { if EndsWith(s, ".git") then s[..|s| - 4] else s }

  function NonEmpty(segments: seq<string>): seq<string> {
    if segments == [] then []
    else (if segments[0] == "" then [] else [segments[0]]) + NonEmpty(segments[1..])
  }

  function LastDropped(parts: seq<string>): seq<string>
    requires parts != []
  {
    parts[..|parts| - 1] + [DropGit(parts[|parts| - 1])]
  }

  function HostsOf(provider: Provider): set<string> { {Host(provider), "www." + Host(provider)} }

  /** The names among path segments, outermost first. */
  function Chosen(provider: Provider, parts: seq<string>): Result<seq<string>> {
    if provider.GitLab? then
      if |parts| < 2 || exists p :: p in parts && !Part(DropGit(p)) then Err("must identify a namespace and name")
      else Ok(LastDropped(parts))
    else
      if |parts| != 2 then Err("must name an owner and a repository")
      else if !Part(parts[0]) || !Part(DropGit(parts[1])) then Err("unsupported characters")
      else Ok(LastDropped(parts))
  }

  function NamesIn(provider: Provider, url: Url): Result<seq<string>> {
    if !Acceptable(url, HostsOf(provider)) then Err("unsupported URL")
    else if provider.GitLab? && Contains(url.path, "/-/") then Err("must point to the repository root")
    else Chosen(provider, NonEmpty(Split(url.path, '/')))
  }

  function Names(provider: Provider, text: string): Result<seq<string>> {
    NamesIn(provider, UrlSplit(Strip(text)))
  }

  function HttpsUrl(host: string, path: string): string { "https" + [':'] + ("//" + host + path) }

  function Canonical(provider: Provider, names: seq<string>): string
    requires names != []
  {
    HttpsUrl(Host(provider), "/" + Join(names, '/'))
  }

  /** The normalised URL that a provider's parser returns. */
  function Parse(provider: Provider, text: string): Result<string> {
    match Names(provider, text)
    case Err(reason) => Err(reason)
    case Ok(names) => if names == [] then Err("no names") else Ok(Canonical(provider, names))
  }

  // ----- the manifest's normaliser -----

  function StripSlashes(s: string): string { if s != "" && s[|s| - 1] == '/' then StripSlashes(s[..|s| - 1]) else s }

  const HOSTS: set<string> := {
    "github.com", "www.github.com", "gitlab.com", "www.gitlab.com", "bitbucket.org", "www.bitbucket.org"
  }

  function Normalized(value: string): Result<string> {
    if "local://" <= value then Ok(value)
    else if !Acceptable(UrlSplit(value), HOSTS) then Err("repository URL is not supported")
    else Ok(DropGit(StripSlashes(value)))
  }

  // ----- canonical URLs are read back -----

  lemma {:induction false} UnbrokenKeeps(s: string)
    requires forall c :: c in s ==> !Breaks(c)
    ensures Unbroken(s) == s
  {
    if s != "" { UnbrokenKeeps(s[1..]); }
  }

  lemma {:induction false} FirstOfSkips(a: string, b: string, marks: string)
    requires (forall c :: c in a ==> c !in marks) && b != "" && b[0] in marks
    ensures FirstOf(a + b, marks) == |a|
  {
    if a == "" {
      assert a + b == b;
    } else {
      assert (a + b)[0] == a[0] && (a + b)[1..] == a[1..] + b;
      FirstOfSkips(a[1..], b, marks);
    }
  }

  lemma Absent(s: string, c: char)
    requires c !in s
    ensures IndexOf(s, c) == |s| && Before(s, c) == s && After(s, c) == "" && AfterLast(s, c) == s &&
      BeforeLast(s, c) == ""
  {
  }

  predicate HostText(host: string) {
    host != "" && forall c :: c in host ==> 'a' <= c <= 'z' || c == '.'
  }

  predicate PathText(path: string) {
    path != "" && path[0] == '/' && forall c :: c in path ==> !Breaks(c) && c != '?' && c != '#'
  }

  lemma RestPlain(scheme: string, host: string, path: string)
    requires HostText(host) && PathText(path)
    ensures SplitRest(scheme, "//" + host + path) == Url(scheme, host, path, "", "")
  {
    var rest := "//" + host + path;
    assert rest[2..] == host + path;
    FirstOfSkips(host, path, "/?#");
    assert rest[2..2 + |host|] == host && rest[2 + |host|..] == path;
    Absent(path, '#');
    Absent(path, '?');
  }

  predicate Lowercase(scheme: string) { scheme != "" && forall c :: c in scheme ==> 'a' <= c <= 'z' }

  lemma SchemeRead(scheme: string, rest: string)
    requires Lowercase(scheme)
    ensures SchemeLength(scheme + [':'] + rest) == |scheme|
  {
    var s := scheme + [':'] + rest;
    IndexOfFirst(scheme, ':', rest);
    assert s[0] == scheme[0] && scheme[0] in scheme;
    assert s[..|scheme|] == scheme;
  }

  lemma SchemePlain(scheme: string, rest: string)
    requires Lowercase(scheme) && forall c :: c in rest ==> !Breaks(c)
    ensures UrlSplit(scheme + [':'] + rest) == SplitRest(scheme, rest)
  {
    var s := scheme + [':'] + rest;
    assert s[0] == scheme[0] && scheme[0] in scheme;
    assert TrimControls(s) == s;
    UnbrokenKeeps(s);
    SchemeRead(scheme, rest);
    assert s[..|scheme|] == scheme && s[|scheme| + 1..] == rest;
    LowerKeeps(scheme);
  }

  lemma LowerKeeps(s: string)
    requires forall c :: c in s ==> 'a' <= c <= 'z' || c == '.'
    ensures Lower(s) == s
  {
    assert forall i :: 0 <= i < |s| ==> s[i] in s;
  }

  lemma PlainHost(host: string)
    requires HostText(host)
    ensures HostOf(host) == host && BareHost(host)
  {
    Absent(host, '@');
    Absent(host, ':');
    LowerKeeps(host);
  }

  lemma HostIsText(provider: Provider)
    ensures HostText(Host(provider)) && Host(provider) in HOSTS
  {
  }

  lemma {:induction false} JoinedChars(parts: seq<string>)
    requires parts != [] && forall p :: p in parts ==> Part(p)
    ensures PathText("/" + Join(parts, '/'))
    ensures Join(parts, '/') != "" && !IsSpace(Join(parts, '/')[|Join(parts, '/')| - 1])
  {
    var first := parts[0];
    assert first in parts && first[|first| - 1] in first;
    if |parts| > 1 {
      assert forall p :: p in parts[1..] ==> p in parts;
      JoinedChars(parts[1..]);
      var rest := "/" + Join(parts[1..], '/');
      assert Join(parts, '/') == parts[0] + rest;
      assert forall c :: c in Join(parts, '/') ==> c in parts[0] || c in rest;
    }
  }

  lemma {:induction false} NonEmptyKeeps(parts: seq<string>)
    requires forall p :: p in parts ==> p != ""
    ensures NonEmpty(parts) == parts
  {
    if parts != [] {
      assert parts[0] in parts && forall p :: p in parts[1..] ==> p in parts;
      NonEmptyKeeps(parts[1..]);
    }
  }

  lemma PathNames(parts: seq<string>)
    requires parts != [] && forall p :: p in parts ==> Part(p)
    ensures NonEmpty(Split("/" + Join(parts, '/'), '/')) == parts
  {
    var path := "/" + Join(parts, '/');
    SplitJoin(parts, '/');
    IndexOfFirst("", '/', Join(parts, '/'));
    assert path == "" + ['/'] + Join(parts, '/') && path[1..] == Join(parts, '/');
    assert Split(path, '/') == [""] + parts;
    assert ([""] + parts)[1..] == parts;
    NonEmptyKeeps(parts);
  }

  lemma StripKeeps(s: string)
    requires s != "" && !IsSpace(s[0]) && !IsSpace(s[|s| - 1])
    ensures Strip(s) == s
  {
  }

  lemma PlainUrl(scheme: string, host: string, path: string)
    requires Lowercase(scheme) && HostText(host) && PathText(path) && !IsSpace(path[|path| - 1])
    ensures var u := scheme + [':'] + ("//" + host + path);
      Strip(u) == u && UrlSplit(u) == Url(scheme, host, path, "", "")
  {
    var rest := "//" + host + path;
    var u := scheme + [':'] + rest;
    assert u[|u| - 1] == path[|path| - 1] && u[0] == scheme[0] && scheme[0] in scheme;
    StripKeeps(u);
    assert forall c :: c in rest ==> c == '/' || c in host || c in path;
    SchemePlain(scheme, rest);
    RestPlain(scheme, host, path);
  }

  lemma HttpsPlain(host: string, path: string)
    requires HostText(host) && PathText(path) && !IsSpace(path[|path| - 1])
    ensures var u := HttpsUrl(host, path); Strip(u) == u && UrlSplit(u) == Url("https", host, path, "", "")
  {
    PlainUrl("https", host, path);
  }

  /** A canonical URL splits into its host and its names. */
  lemma CanonicalSplits(provider: Provider, parts: seq<string>)
    requires parts != [] && forall p :: p in parts ==> Part(p)
    ensures var u := Canonical(provider, parts);
      Strip(u) == u && UrlSplit(u) == Url("https", Host(provider), "/" + Join(parts, '/'), "", "")
  {
    JoinedChars(parts);
    HostIsText(provider);
    HttpsPlain(Host(provider), "/" + Join(parts, '/'));
  }

  // ----- the GitLab rule against "/-/" -----

  lemma {:induction false} ContainsLater(a: string, b: string, part: string)
    requires Contains(b, part)
    ensures Contains(a + b, part)
  {
    if a == "" {
      assert a + b == b;
    } else {
      ContainsLater(a[1..], b, part);
      assert (a + b)[1..] == a[1..] + b;
    }
  }

  /** Skipping text without a slash does not skip a match that starts with one. */
  lemma {:induction false} ContainsSkips(a: string, b: string)
    requires '/' !in a
    ensures Contains(a + b, "/-/") ==> Contains(b, "/-/")
  {
    if a == "" {
      assert a + b == b;
    } else {
      assert (a + b)[0] == a[0] && (a + b)[1..] == a[1..] + b;
      ContainsSkips(a[1..], b);
    }
  }

  /** "-" is not a segment except possibly the last. */
  predicate DashOnlyLast(parts: seq<string>) { forall i :: 0 <= i < |parts| - 1 ==> parts[i] != "-" }

  lemma {:induction false} JoinedAvoidsDash(parts: seq<string>)
    requires parts != [] && DashOnlyLast(parts) && forall p :: p in parts ==> '/' !in p
    ensures !Contains("/" + Join(parts, '/'), "/-/")
    decreases |parts|
  {
    var first := parts[0];
    assert first in parts;
    if |parts| == 1 {
      OnlyOneSegment(first);
    } else {
      assert forall i :: 0 <= i < |parts| - 1 ==> parts[1..][i] == parts[i + 1];
      JoinedAvoidsDash(parts[1..]);
      var rest := "/" + Join(parts[1..], '/');
      assert "/" + Join(parts, '/') == "/" + (first + rest);
      OneMoreSegment(first, rest);
    }
  }

  lemma OnlyOneSegment(first: string)
    requires '/' !in first
    ensures !Contains("/" + first, "/-/")
  {
    var text := "/" + first;
    ContainsSkips(first, "");
    assert first + "" == first && text[1..] == first && forall k :: 1 <= k < |text| ==> text[k] in first;
    PrefixDash(text);
  }

  lemma OneMoreSegment(first: string, rest: string)
    requires '/' !in first && first != "-" && rest != "" && rest[0] == '/' && !Contains(rest, "/-/")
    ensures !Contains("/" + (first + rest), "/-/")
  {
    assert ("/" + (first + rest))[1..] == first + rest;
    ContainsSkips(first, rest);
    DashAtStart(first, rest);
  }

  lemma DashAtStart(first: string, rest: string)
    requires '/' !in first && first != "-" && rest != "" && rest[0] == '/'
    ensures !("/-/" <= "/" + (first + rest))
  {
    var text := "/" + (first + rest);
    PrefixDash(text);
    assert first == "" ==> text[1] == '/';
    assert |first| == 1 ==> text[1] == first[0] && first == [first[0]];
    assert |first| >= 2 ==> text[2] == first[1] && first[1] in first;
  }

  lemma PrefixDash(text: string)
    ensures "/-/" <= text <==> |text| >= 3 && text[0] == '/' && text[1] == '-' && text[2] == '/'
  {
  }

  lemma {:induction false} DashShows(text: string)
    requires !Contains("/" + text, "/-/")
    ensures DashOnlyLast(NonEmpty(Split(text, '/')))
    decreases |text|
  {
    var i := IndexOf(text, '/');
    if i < |text| {
      var first, rest := text[..i], text[i + 1..];
      assert "/" + text == ("/" + first) + ("/" + rest);
      if Contains("/" + rest, "/-/") { ContainsLater("/" + first, "/" + rest, "/-/"); }
      assert first == "-" ==> "/-/" <= "/" + text;
      DashShows(rest);
      assert ([first] + Split(rest, '/'))[1..] == Split(rest, '/');
    }
  }

  // ----- what the parsers return -----

  /** The names a parser can return. */
  predicate Shape(provider: Provider, names: seq<string>) {
    && |names| >= 2 && (provider.GitLab? || |names| == 2)
    && (forall p :: p in names ==> Part(p))
    && (provider.GitLab? ==> DashOnlyLast(names) && forall i :: 0 <= i < |names| - 1 ==> Part(DropGit(names[i])))
  }

  lemma DropGitPart(s: string)
    requires Part(DropGit(s))
    ensures Part(s)
  {
  }

  /** A path after a network location is empty or starts with a slash. */
  lemma PathStarts(scheme: string, rest: string)
    ensures var u := SplitRest(scheme, rest); u.netloc != "" ==> u.path == "" || u.path[0] == '/'
  {
  }

  lemma PathDashOnlyLast(path: string)
    requires path == "" || path[0] == '/'
    requires !Contains(path, "/-/")
    ensures DashOnlyLast(NonEmpty(Split(path, '/')))
  {
    if path == "" {
      assert NonEmpty(Split(path, '/')) == [];
    } else {
      assert path == "/" + path[1..];
      DashShows(path[1..]);
      assert IndexOf(path, '/') == 0;
      assert Split(path, '/') == [""] + Split(path[1..], '/');
      assert ([""] + Split(path[1..], '/'))[1..] == Split(path[1..], '/');
    }
  }

  lemma SplitCleanPath(s: string)
    ensures var u := SplitClean(s); u.netloc != "" ==> u.path == "" || u.path[0] == '/'
  {
    var i := SchemeLength(s);
    if i == 0 { PathStarts("", s); } else { PathStarts(Lower(s[..i]), s[i + 1..]); }
  }

  lemma SplitPath(text: string)
    ensures var u := UrlSplit(text); u.netloc != "" ==> u.path == "" || u.path[0] == '/'
  {
    SplitCleanPath(Unbroken(TrimControls(text)));
  }

  lemma HasNetloc(url: Url, hosts: set<string>)
    requires Acceptable(url, hosts) && "" !in hosts
    ensures url.netloc != ""
  {
    assert HostOf("") == "";
  }

  /** Dropping the last suffix keeps the rules on names. */
  lemma DroppedShape(provider: Provider, parts: seq<string>)
    requires |parts| >= 2 && (provider.GitLab? || |parts| == 2)
    requires (forall i :: 0 <= i < |parts| - 1 ==> Part(parts[i])) && Part(DropGit(parts[|parts| - 1]))
    requires provider.GitLab? ==> DashOnlyLast(parts) && forall i :: 0 <= i < |parts| - 1 ==> Part(DropGit(parts[i]))
    ensures Shape(provider, LastDropped(parts))
  {
  }

  lemma GitlabShape(path: string)
    requires path == "" || path[0] == '/'
    requires !Contains(path, "/-/")
    requires var parts := NonEmpty(Split(path, '/')); |parts| >= 2 && forall p :: p in parts ==> Part(DropGit(p))
    ensures Shape(GitLab, LastDropped(NonEmpty(Split(path, '/'))))
  {
    var parts := NonEmpty(Split(path, '/'));
    PathDashOnlyLast(path);
    forall i | 0 <= i < |parts| ensures Part(DropGit(parts[i])) && Part(parts[i]) {
      assert parts[i] in parts;
      DropGitPart(parts[i]);
    }
    DroppedShape(GitLab, parts);
  }

  lemma UrlShape(provider: Provider, url: Url)
    requires url.netloc != "" ==> url.path == "" || url.path[0] == '/'
    ensures var names := NamesIn(provider, url); names.Ok? ==> Shape(provider, names.value)
  {
    if NamesIn(provider, url).Ok? {
      HasNetloc(url, HostsOf(provider));
      if provider.GitLab? { GitlabShape(url.path); } else { OwnedShape(provider, NonEmpty(Split(url.path, '/'))); }
    }
  }

  lemma OwnedShape(provider: Provider, parts: seq<string>)
    requires !provider.GitLab? && Chosen(provider, parts).Ok?
    ensures Shape(provider, Chosen(provider, parts).value)
  {
    DroppedShape(provider, parts);
  }

  lemma NamesShape(provider: Provider, text: string)
    ensures Names(provider, text).Ok? ==> Shape(provider, Names(provider, text).value)
  {
    SplitPath(Strip(text));
    UrlShape(provider, UrlSplit(Strip(text)));
  }

  lemma JoinSnoc(parts: seq<string>, c: char)
    requires |parts| > 1
    ensures Join(parts, c) == Join(parts[..|parts| - 1], c) + [c] + parts[|parts| - 1]
  {
    var front := parts[..|parts| - 1];
    if |parts| == 2 {
      assert parts[1..] == [parts[1]] && front == [parts[0]];
    } else {
      JoinSnoc(parts[1..], c);
      assert parts[1..][..|parts| - 2] == front[1..];
    }
  }

  /** Dropping the suffix of a URL is dropping that of its last name. */
  lemma DropGitLast(a: string, last: string)
    requires '/' !in last
    ensures DropGit(a + "/" + last) == a + "/" + DropGit(last)
    ensures EndsWith(a + "/" + last, ".git") == EndsWith(last, ".git")
  {
    var u := a + "/" + last;
    if |last| >= 4 {
      assert u[|u| - 4..] == last[|last| - 4..];
      assert u[..|u| - 4] == a + "/" + last[..|last| - 4];
    }
    assert u[|u| - 1 - |last|] == '/';
    SuffixGit(u);
    SuffixGit(last);
  }

  lemma SuffixGit(s: string)
    ensures var n := |s|;
      EndsWith(s, ".git") <==> n >= 4 && s[n - 4] == '.' && s[n - 3] == 'g' && s[n - 2] == 'i' && s[n - 1] == 't'
  {
  }

  lemma CanonicalSnoc(provider: Provider, names: seq<string>)
    requires |names| > 1
    ensures Canonical(provider, names)
      == HttpsUrl(Host(provider), "/" + Join(names[..|names| - 1], '/')) + "/" + names[|names| - 1]
  {
    var n := |names| - 1;
    var host, front := Host(provider), Join(names[..n], '/');
    JoinSnoc(names, '/');
    assert "/" + (front + "/" + names[n]) == "/" + front + "/" + names[n];
    HttpsSnoc(host, "/" + front, "/" + names[n]);
    assert "/" + front + ("/" + names[n]) == "/" + Join(names, '/');
  }

  lemma HttpsSnoc(host: string, path: string, more: string)
    ensures HttpsUrl(host, path + more) == HttpsUrl(host, path) + more
  {
  }

  lemma CanonicalLast(provider: Provider, names: seq<string>)
    requires Shape(provider, names)
    ensures var last := names[|names| - 1];
      && DropGit(Canonical(provider, names)) == Canonical(provider, LastDropped(names))
      && EndsWith(Canonical(provider, names), ".git") == EndsWith(last, ".git")
  {
    var n := |names| - 1;
    assert names[n] in names;
    CanonicalSnoc(provider, names);
    CanonicalSnoc(provider, LastDropped(names));
    assert LastDropped(names)[..n] == names[..n];
    DropGitLast(HttpsUrl(Host(provider), "/" + Join(names[..n], '/')), names[n]);
  }

  lemma CanonicalAcceptable(provider: Provider, path: string)
    ensures Acceptable(Url("https", Host(provider), path, "", ""), HostsOf(provider))
    ensures Acceptable(Url("https", Host(provider), path, "", ""), HOSTS)
  {
    HostIsText(provider);
    PlainHost(Host(provider));
  }

  /** Parsing canonical names again drops one more suffix, or fails if nothing is left. */
  lemma NamesAgain(provider: Provider, names: seq<string>)
    requires Shape(provider, names)
    ensures var again := Names(provider, Canonical(provider, names));
      && (again.Ok? <==> names[|names| - 1] != ".git")
      && (again.Ok? ==> again.value == LastDropped(names))
  {
    CanonicalSplits(provider, names);
    CanonicalAcceptable(provider, "/" + Join(names, '/'));
    UrlNames(provider, names, UrlSplit(Canonical(provider, names)));
  }

  lemma UrlNames(provider: Provider, names: seq<string>, url: Url)
    requires Shape(provider, names) && Acceptable(url, HostsOf(provider)) && url.path == "/" + Join(names, '/')
    ensures var again := NamesIn(provider, url);
      && (again.Ok? <==> names[|names| - 1] != ".git")
      && (again.Ok? ==> again.value == LastDropped(names))
  {
    ShapePath(provider, names);
    ChosenAgain(provider, names);
    NamesOfPath(provider, url, names);
  }

  lemma ShapePath(provider: Provider, names: seq<string>)
    requires Shape(provider, names)
    ensures NonEmpty(Split("/" + Join(names, '/'), '/')) == names
    ensures provider.GitLab? ==> !Contains("/" + Join(names, '/'), "/-/")
  {
    PathNames(names);
    assert forall p :: p in names ==> Part(p) && '/' !in p;
    if provider.GitLab? { JoinedAvoidsDash(names); }
  }

  lemma NamesOfPath(provider: Provider, url: Url, parts: seq<string>)
    requires Acceptable(url, HostsOf(provider)) && NonEmpty(Split(url.path, '/')) == parts
    requires provider.GitLab? ==> !Contains(url.path, "/-/")
    ensures NamesIn(provider, url) == Chosen(provider, parts)
  {
  }

  lemma ChosenAgain(provider: Provider, names: seq<string>)
    requires Shape(provider, names)
    ensures var again := Chosen(provider, names);
      && (again.Ok? <==> names[|names| - 1] != ".git")
      && (again.Ok? ==> again.value == LastDropped(names))
  {
    if provider.GitLab? { GitlabAgain(names); } else { OwnedAgain(provider, names); }
  }

  lemma GitlabAgain(names: seq<string>)
    requires Shape(GitLab, names)
    ensures var again := Chosen(GitLab, names);
      (again.Ok? <==> names[|names| - 1] != ".git") && (again.Ok? ==> again.value == LastDropped(names))
  {
    LastPart(names[|names| - 1]);
    assert names[|names| - 1] in names;
    DropsAll(names);
  }

  lemma OwnedAgain(provider: Provider, names: seq<string>)
    requires Shape(provider, names) && !provider.GitLab?
    ensures var again := Chosen(provider, names);
      (again.Ok? <==> names[1] != ".git") && (again.Ok? ==> again.value == LastDropped(names))
  {
    LastPart(names[1]);
    assert names[1] in names && names[0] in names;
  }

  lemma DropsAll(names: seq<string>)
    requires Shape(GitLab, names)
    ensures (exists p :: p in names && !Part(DropGit(p))) <==> !Part(DropGit(names[|names| - 1]))
  {
  }

  lemma LastPart(s: string)
    requires Part(s)
    ensures Part(DropGit(s)) <==> s != ".git"
  {
  }

  /** Every parsed URL is canonical: the manifest accepts it and drops at most one suffix,
      parsing it again drops the same, and it is a fixed point of either normaliser
      exactly when it does not end in ".git". */
  lemma ParsedUrl(provider: Provider, text: string)
    requires Parse(provider, text).Ok?
    ensures var u := Parse(provider, text).value;
      && Normalized(u) == Ok(DropGit(u))
      && (Parse(provider, u).Ok? <==> !EndsWith(u, "/.git"))
      && (Parse(provider, u).Ok? ==> Parse(provider, u) == Ok(DropGit(u)))
      && (Parse(provider, u) == Ok(u) <==> !EndsWith(u, ".git"))
      && (Normalized(u) == Ok(u) <==> !EndsWith(u, ".git"))
  {
    var names := Names(provider, text).value;
    var u := Canonical(provider, names);
    NamesShape(provider, text);
    NamesAgain(provider, names);
    CanonicalLast(provider, names);
    CanonicalNormalized(provider, names);
    CanonicalEnd(provider, names);
    assert EndsWith(u, ".git") ==> |DropGit(u)| < |u|;
    SuffixGit(names[|names| - 1]);
  }

  /** Nothing but the suffix is dropped by the manifest: a parsed URL ends in no slash. */
  lemma CanonicalNormalized(provider: Provider, names: seq<string>)
    requires Shape(provider, names)
    ensures var u := Canonical(provider, names); Normalized(u) == Ok(DropGit(u))
  {
    CanonicalSplits(provider, names);
    CanonicalAcceptable(provider, "/" + Join(names, '/'));
    CanonicalEnds(provider, names);
    PlainNormalized(Canonical(provider, names));
  }

  lemma CanonicalEnds(provider: Provider, names: seq<string>)
    requires Shape(provider, names)
    ensures var u := Canonical(provider, names); u != "" && u[0] == 'h' && u[|u| - 1] != '/'
  {
    var u, last := Canonical(provider, names), names[|names| - 1];
    CanonicalSnoc(provider, names);
    assert last in names && last[|last| - 1] in last;
    assert u[|u| - 1] == last[|last| - 1];
  }

  lemma PlainNormalized(u: string)
    requires u != "" && u[0] == 'h' && u[|u| - 1] != '/' && Acceptable(UrlSplit(u), HOSTS)
    ensures Normalized(u) == Ok(DropGit(u))
  {
    assert StripSlashes(u) == u;
    assert "local://"[0] == 'l';
  }

  lemma CanonicalEnd(provider: Provider, names: seq<string>)
    requires Shape(provider, names)
    ensures EndsWith(Canonical(provider, names), "/.git") <==> names[|names| - 1] == ".git"
  {
    CanonicalSnoc(provider, names);
    assert names[|names| - 1] in names;
    EndSlashGit(HttpsUrl(Host(provider), "/" + Join(names[..|names| - 1], '/')), names[|names| - 1]);
  }

  lemma EndSlashGit(a: string, last: string)
    requires '/' !in last
    ensures EndsWith(a + "/" + last, "/.git") <==> last == ".git"
  {
    var u := a + "/" + last;
    SuffixSlashGit(u);
    assert u[|a|] == '/' && u[|a| + 1..] == last && forall c :: c in last ==> c != '/';
    if |last| == 4 {
      assert last == [last[0], last[1], last[2], last[3]];
      assert u[|u| - 4] == last[0] && u[|u| - 3] == last[1] && u[|u| - 2] == last[2] && u[|u| - 1] == last[3];
    } else if |last| > 4 {
      assert u[|u| - 5] == last[|last| - 5] && last[|last| - 5] in last;
    }
  }

  lemma SuffixSlashGit(s: string)
    ensures var n := |s|;
      EndsWith(s, "/.git") <==>
        n >= 5 && s[n - 5] == '/' && s[n - 4] == '.' && s[n - 3] == 'g' && s[n - 2] == 'i' && s[n - 1] == 't'
  {
  }

  lemma {:induction false} StripSlashesPrefix(s: string)
    ensures StripSlashes(s) <= s
  {
    if s != "" && s[|s| - 1] == '/' { StripSlashesPrefix(s[..|s| - 1]); }
  }

  /** The manifest's normaliser only shortens, so a value that two passes restore is a
      fixed point of one. */
  lemma NormalizedShortens(value: string)
    ensures Normalized(value).Ok? ==> Normalized(value).value <= value
    ensures Normalized(value).Ok? && Normalized(Normalized(value).value) == Ok(value) ==> Normalized(value) == Ok(value)
  {
    StripSlashesPrefix(value);
    if Normalized(value).Ok? {
      var once := Normalized(value).value;
      StripSlashesPrefix(once);
      assert |once| == |value| && once <= value ==> once == value;
    }
  }

  function OwnedUrl(owner: string, name: string): string { Canonical(GitHub, [owner, name]) }

  /** Neither normaliser is idempotent: for every owner and name, the first pass leaves a
      suffix that the second one drops. */
  lemma NotIdempotent(owner: string, name: string)
    requires Part(owner) && Part(name)
    ensures var more := name + ".git";
      var u, v, w := OwnedUrl(owner, more + ".git"), OwnedUrl(owner, more), OwnedUrl(owner, name);
      && Parse(GitHub, u) == Ok(v) && Parse(GitHub, v) == Ok(w)
      && Normalized(u) == Ok(v) && Normalized(v) == Ok(w)
      && |w| < |v| < |u|
  {
    OwnedParse(owner, name + ".git");
    OwnedParse(owner, name);
  }

  lemma OwnedParse(owner: string, name: string)
    requires Part(owner) && Part(name)
    ensures var u, v := OwnedUrl(owner, name + ".git"), OwnedUrl(owner, name);
      Parse(GitHub, u) == Ok(v) && Normalized(u) == Ok(v) && |v| < |u|
  {
    var names := [owner, name + ".git"];
    OwnedDropped(owner, name);
    NamesAgain(GitHub, names);
    CanonicalLast(GitHub, names);
    CanonicalNormalized(GitHub, names);
  }

  lemma OwnedDropped(owner: string, name: string)
    requires Part(owner) && Part(name)
    ensures var names := [owner, name + ".git"];
      Shape(GitHub, names) && names[1] != ".git" && LastDropped(names) == [owner, name]
  {
  }
  // ----- the manifest's normaliser twice, on every value -----

  /** Text that the normaliser cuts off: an optional suffix and then slashes. */
  predicate Tail(t: string) {
    || (forall c :: c in t ==> c == '/')
    || (|t| >= 4 && t[..4] == ".git" && forall c :: c in t[4..] ==> c == '/')
  }

  lemma {:induction false} StripSlashesTail(s: string)
    ensures StripSlashes(s) <= s && forall c :: c in s[|StripSlashes(s)|..] ==> c == '/'
    ensures StripSlashes(s) == "" || StripSlashes(s)[|StripSlashes(s)| - 1] != '/'
  {
    if s != "" && s[|s| - 1] == '/' {
      StripSlashesTail(s[..|s| - 1]);
      assert s[|StripSlashes(s)|..] == s[..|s| - 1][|StripSlashes(s)|..] + "/";
    }
  }

  /** What is cut off has neither a break nor a mark, and starts with no control. */
  lemma CutIsTail(value: string)
    ensures var y := DropGit(StripSlashes(value)); y <= value && Tail(value[|y|..])
  {
    var s := StripSlashes(value);
    var y := DropGit(s);
    StripSlashesTail(value);
    if y != s {
      assert value[|y|..] == ".git" + value[|s|..];
    }
  }

  predicate TailChar(c: char) { c == '/' || c == '.' || c == 'g' || c == 'i' || c == 't' }

  /** The suffix, if there is one, spelt out. */
  lemma TailSpelt(t: string)
    requires Tail(t)
    ensures (forall k :: 0 <= k < |t| ==> t[k] == '/')
      || (|t| >= 4 && t[0] == '.' && t[1] == 'g' && t[2] == 'i' && t[3] == 't'
          && forall k :: 4 <= k < |t| ==> t[k] == '/')
  {
    assert forall k :: 0 <= k < |t| ==> t[k] in t;
    if |t| >= 4 && t[..4] == ".git" {
      assert t[0] == t[..4][0] && t[1] == t[..4][1] && t[2] == t[..4][2] && t[3] == t[..4][3];
      assert forall k :: 4 <= k < |t| ==> t[k] == t[4..][k - 4] && t[k] in t[4..];
    }
  }

  lemma TailChars(t: string)
    requires Tail(t)
    ensures forall c :: c in t ==> TailChar(c)
    ensures t != "" ==> t[0] > ' '
  {
    TailSpelt(t);
  }

  lemma {:induction false} TrimAppends(y: string, t: string)
    requires t != "" ==> t[0] > ' '
    ensures TrimControls(y + t) == TrimControls(y) + t
  {
    if y == "" {
      assert y + t == t;
    } else {
      assert (y + t)[1..] == y[1..] + t;
      TrimAppends(y[1..], t);
    }
  }

  lemma {:induction false} UnbrokenAppends(y: string, t: string)
    requires forall c :: c in t ==> !Breaks(c)
    ensures Unbroken(y + t) == Unbroken(y) + t
  {
    if y == "" {
      assert y + t == t;
      UnbrokenKeeps(t);
    } else {
      assert (y + t)[1..] == y[1..] + t;
      UnbrokenAppends(y[1..], t);
    }
  }

  /** An accepted network location ends in a letter of a host, a colon or a zero. */
  lemma LocationEnds(netloc: string, hosts: set<string>)
    requires HostOf(netloc) in hosts && BareHost(netloc)
    requires forall h :: h in hosts ==> h != "" && h[|h| - 1] != 't'
    ensures netloc != "" && netloc[|netloc| - 1] != 't'
  {
    AfterLastEnds(netloc, '@');
    HostPortEnds(AfterLast(netloc, '@'), hosts);
  }

  lemma {:induction false} AfterLastEnds(s: string, c: char)
    ensures var r := AfterLast(s, c); |r| <= |s| && s[|s| - |r|..] == r
    decreases |s|
  {
    var i := IndexOf(s, c);
    if i < |s| {
      AfterLastEnds(s[i + 1..], c);
      var r := AfterLast(s, c);
      assert s[i + 1..][|s| - i - 1 - |r|..] == s[|s| - |r|..];
    }
  }

  lemma HostPortEnds(hostinfo: string, hosts: set<string>)
    requires Lower(Before(hostinfo, ':')) in hosts && forall c :: c in After(hostinfo, ':') ==> c == '0'
    requires forall h :: h in hosts ==> h != "" && h[|h| - 1] != 't'
    ensures hostinfo != "" && hostinfo[|hostinfo| - 1] != 't'
  {
    var host, i := Before(hostinfo, ':'), IndexOf(hostinfo, ':');
    assert |Lower(host)| == |host| && host != "";
    if i == |hostinfo| {
      assert Lower(host)[|host| - 1] == LowerChar(host[|host| - 1]);
    } else if i < |hostinfo| - 1 {
      assert hostinfo[|hostinfo| - 1] in After(hostinfo, ':');
    }
  }

  lemma HostsEnd()
    ensures forall h :: h in HOSTS ==> h != "" && h[|h| - 1] != 't'
  {
  }

  /** Cutting a tail off the part after the scheme cuts it off the path. */
  lemma RestCut(scheme: string, rest: string, t: string)
    requires Tail(t) && t != ""
    requires var u := SplitRest(scheme, rest + t);
      u.netloc != "" && u.netloc[|u.netloc| - 1] != 't' && u.query == "" && u.fragment == ""
    ensures var u, v := SplitRest(scheme, rest + t), SplitRest(scheme, rest);
      v.netloc == u.netloc && v.query == "" && v.fragment == ""
    ensures "//" <= rest
  {
    var all := rest + t;
    var u := SplitRest(scheme, all);
    assert "//" <= all;
    var n := FirstOf(all[2..], "/?#");
    assert u.netloc == all[2..2 + n] && |u.netloc| == n && u.netloc[n - 1] == all[n + 1];
    LocationSplit(rest, t, n);
    TailChars(t);
    MarksGone(rest[2 + n..], t);
  }

  /** Location and path of the whole, and of what is left. */
  lemma LocationSplit(rest: string, t: string, n: nat)
    requires Tail(t) && t != "" && "//" <= rest + t && n == FirstOf((rest + t)[2..], "/?#")
    requires n > 0 && (rest + t)[n + 1] != 't'
    ensures 2 + n <= |rest| && "//" <= rest && FirstOf(rest[2..], "/?#") == n
    ensures rest[2..2 + n] == (rest + t)[2..2 + n] && (rest + t)[2 + n..] == rest[2 + n..] + t
  {
    LocationStays(rest, t);
    assert (rest + t)[2..] == rest[2..] + t;
    FirstOfIs(rest[2..], t, n);
  }

  /** The whole network location comes before the tail. */
  lemma LocationStays(rest: string, t: string)
    requires Tail(t) && t != "" && "//" <= rest + t
    requires var n := FirstOf((rest + t)[2..], "/?#"); n > 0 && (rest + t)[n + 1] != 't'
    ensures var n := FirstOf((rest + t)[2..], "/?#"); 2 + n <= |rest|
  {
    var all := rest + t;
    var n := FirstOf(all[2..], "/?#");
    FirstOfBefore(all[2..], "/?#");
    assert all[2..][n - 1] == all[n + 1] && (n + 2 < |all| ==> all[2..][n] == all[n + 2]);
    assert n + 1 < |all|;
    TailFollows(t);
    assert forall q :: |rest| <= q < |all| ==> all[q] == t[q - |rest|];
    assert forall q :: |rest| <= q < |all| && all[q] != '/' && all[q] != 't' ==>
      q + 1 < |all| && (all[q + 1] == 'g' || all[q + 1] == 'i' || all[q + 1] == 't');
  }

  /** In a tail, what is neither a slash nor the end of the suffix is followed by more of it. */
  lemma TailFollows(t: string)
    requires Tail(t)
    ensures forall p :: 0 <= p < |t| && t[p] != '/' && t[p] != 't' ==>
      p + 1 < |t| && (t[p + 1] == 'g' || t[p + 1] == 'i' || t[p + 1] == 't')
  {
    TailSpelt(t);
  }

  lemma {:induction false} FirstOfBefore(s: string, marks: string)
    ensures forall k :: 0 <= k < FirstOf(s, marks) ==> s[k] !in marks
  {
    if s != "" && s[0] !in marks { FirstOfBefore(s[1..], marks); }
  }

  lemma {:induction false} FirstOfIs(s: string, t: string, n: nat)
    requires n == FirstOf(s + t, "/?#") && n <= |s|
    ensures FirstOf(s, "/?#") == n
    decreases |s|
  {
    if s == "" {
      assert s + t == t;
    } else {
      assert (s + t)[0] == s[0] && (s + t)[1..] == s[1..] + t;
      if s[0] !in "/?#" { FirstOfIs(s[1..], t, n - 1); }
    }
  }

  lemma MarksGone(tail: string, t: string)
    requires t != "" && forall c :: c in t ==> c != '?' && c != '#'
    requires After(tail + t, '#') == "" && After(Before(tail + t, '#'), '?') == ""
    ensures After(tail, '#') == "" && After(Before(tail, '#'), '?') == ""
  {
    NoMark(tail, t, '#');
    Absent(tail + t, '#');
    Absent(tail, '#');
    NoMark(tail, t, '?');
    Absent(tail, '?');
  }

  /** If nothing follows a mark, and something without it is appended, there is no mark. */
  lemma NoMark(tail: string, t: string, c: char)
    requires t != "" && c !in t && After(tail + t, c) == ""
    ensures c !in tail && c !in tail + t
  {
    var all := tail + t;
    var i := IndexOf(all, c);
    assert all[|all| - 1] == t[|t| - 1] && t[|t| - 1] in t;
    assert i == |all| && all[..i] == all;
    assert forall d :: d in tail ==> d in all;
  }

  lemma CleanCut(s: string, t: string)
    requires Tail(t) && t != "" && Acceptable(SplitClean(s + t), HOSTS)
    ensures Acceptable(SplitClean(s), HOSTS)
  {
    HasScheme(s + t);
    SchemeStays(s, t);
    var scheme, rest := CleanParts(s, t);
    AcceptableCut(scheme, rest, t, SplitClean(s + t), SplitClean(s));
  }

  lemma HasScheme(s: string)
    requires Acceptable(SplitClean(s), HOSTS)
    ensures SchemeLength(s) > 0
  {
  }

  lemma CleanParts(s: string, t: string) returns (scheme: string, rest: string)
    requires 0 < SchemeLength(s) < |s| && SchemeLength(s + t) == SchemeLength(s)
    ensures SplitClean(s + t) == SplitRest(scheme, rest + t) && SplitClean(s) == SplitRest(scheme, rest)
  {
    var i := SchemeLength(s);
    var before := s[..i];
    rest := s[i + 1..];
    scheme := Lower(before);
    CutAt(s, t, i);
    SplitCleanIs(s + t, i, before, rest + t);
    SplitCleanIs(s, i, before, rest);
  }

  lemma CutAt(s: string, t: string, i: nat)
    requires i < |s|
    ensures (s + t)[..i] == s[..i] && (s + t)[i + 1..] == s[i + 1..] + t
  {
  }

  lemma SplitCleanIs(s: string, i: nat, scheme: string, rest: string)
    requires 0 < i < |s| && SchemeLength(s) == i && scheme == s[..i] && rest == s[i + 1..]
    ensures SplitClean(s) == SplitRest(Lower(scheme), rest)
  {
  }

  lemma AcceptableCut(scheme: string, rest: string, t: string, u: Url, v: Url)
    requires Tail(t) && t != "" && Acceptable(u, HOSTS)
    requires u == SplitRest(scheme, rest + t) && v == SplitRest(scheme, rest)
    ensures Acceptable(v, HOSTS)
  {
    HostsEnd();
    LocationEnds(u.netloc, HOSTS);
    RestCut(scheme, rest, t);
  }

  /** The scheme and its colon come before the tail: it has no colon. */
  lemma SchemeStays(s: string, t: string)
    requires Tail(t) && SchemeLength(s + t) > 0
    ensures var i := SchemeLength(s + t); 0 < i < |s| && SchemeLength(s) == i
  {
    var all := s + t;
    var i := SchemeLength(all);
    TailChars(t);
    assert forall q :: |s| <= q < |all| ==> all[q] == t[q - |s|] && t[q - |s|] in t;
    assert i < |s|;
    assert all[..i] == s[..i] && s == s[..i] + [':'] + s[i + 1..];
    IndexOfFirst(s[..i], ':', s[i + 1..]);
    assert s[0] == all[0];
  }

  lemma CutAccepted(y: string, t: string)
    requires Tail(t) && t != "" && Acceptable(UrlSplit(y + t), HOSTS)
    ensures Acceptable(UrlSplit(y), HOSTS)
  {
    TailChars(t);
    TrimAppends(y, t);
    UnbrokenAppends(TrimControls(y), t);
    CleanCut(Unbroken(TrimControls(y)), t);
  }

  lemma AcceptedPrefix(value: string, y: string)
    requires y <= value && Tail(value[|y|..]) && Acceptable(UrlSplit(value), HOSTS)
    ensures Acceptable(UrlSplit(y), HOSTS)
  {
    var t := value[|y|..];
    assert value == y + t;
    if t == "" { assert y == value; } else { CutAccepted(y, t); }
  }

  lemma NormalizedAgain(value: string)
    requires Normalized(value).Ok? && !("local://" <= value)
    ensures Normalized(Normalized(value).value).Ok?
  {
    CutIsTail(value);
    AcceptedPrefix(value, Normalized(value).value);
  }

  /** On every value the manifest accepts, local ones aside, a second pass is accepted too,
      and changes nothing exactly when the first leaves neither the suffix nor a slash at
      the end. */
  lemma NormalizedTwice(value: string)
    requires Normalized(value).Ok? && !("local://" <= value)
    ensures var once := Normalized(value).value;
      && Normalized(once).Ok?
      && (Normalized(once) == Ok(once) <==> !EndsWith(once, ".git") && !EndsWith(once, "/"))
  {
    var once := Normalized(value).value;
    NormalizedAgain(value);
    NormalizedShortens(value);
    assert !("local://" <= once);
    StripSlashesTail(once);
    SecondPass(once);
  }

  lemma SecondPass(s: string)
    ensures DropGit(StripSlashes(s)) == s <==> !EndsWith(s, ".git") && !EndsWith(s, "/")
  {
    StripSlashesTail(s);
    assert EndsWith(s, "/") <==> s != "" && s[|s| - 1] == '/' by {
      if s != "" { assert s[|s| - 1..] == [s[|s| - 1]]; }
    }
    SuffixGit(s);
  }
}
