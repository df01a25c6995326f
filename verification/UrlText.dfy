/** What the URL parsers accept, said of the text itself. */
module UrlText {
  import opened Basics
  import opened Strings
  import opened RepositoryUrls

  // ----- cleaning -----

  lemma {:induction false} TrimControlsExactly(s: string)
    ensures var n := |s| - |TrimControls(s)|;
      && 0 <= n && TrimControls(s) == s[n..] && (forall i :: 0 <= i < n ==> s[i] <= ' ') && (n < |s| ==> s[n] > ' ')
  {
    if s != "" && s[0] <= ' ' { TrimControlsExactly(s[1..]); }
  }

  /** Tabs and line ends are dropped, character by character. */
  lemma {:induction false} UnbrokenConcat(a: string, b: string)
    ensures Unbroken(a + b) == Unbroken(a) + Unbroken(b)
  {
    if a == "" {
      assert a + b == b;
    } else {
      assert (a + b)[0] == a[0] && (a + b)[1..] == a[1..] + b;
      UnbrokenConcat(a[1..], b);
    }
  }

  lemma UnbrokenOne(c: char)
    ensures Unbroken([c]) == if c in "\t\r\n" then "" else [c]
  {
    assert Unbroken([c][1..]) == "";
  }

  // ----- urlsplit -----

  /** The text begins with a scheme and its colon. */
  ghost predicate Scheme(s: string, i: int) {
    0 < i < |s| && s[i] == ':' && Letter(s[0]) && forall c :: c in s[..i] ==> SchemeChar(c)
  }

  /** What follows a scheme is the network location behind "//", the path, the query behind "?"
      and the fragment behind "#", each as far as it goes. */
  ghost predicate Assembled(rest: string, u: Url, location: string, query: string, fragment: string) {
    && rest == location + (u.path + (query + fragment))
    && (if location == "" then u.netloc == "" && !("//" <= rest) else location == "//" + u.netloc)
    && (forall c :: c in u.netloc ==> c != '/' && c != '?' && c != '#')
    && (location != "" && u.path != "" ==> u.path[0] == '/')
    && (forall c :: c in u.path ==> c != '?' && c != '#')
    && (if query == "" then u.query == "" else query == "?" + u.query) && '#' !in u.query
    && (if fragment == "" then u.fragment == "" else fragment == "#" + u.fragment)
  }

  lemma {:induction false} FirstOfSkipped(s: string, marks: string)
    ensures forall c :: c in s[..FirstOf(s, marks)] ==> c !in marks
  {
    if s != "" && s[0] !in marks {
      FirstOfSkipped(s[1..], marks);
      var n := FirstOf(s[1..], marks);
      assert s[..n + 1] == [s[0]] + s[1..][..n];
    }
  }

  /** Cutting at a character, and what is cut off. */
  lemma CutAtChar(s: string, c: char)
    ensures var i := IndexOf(s, c);
      && s == Before(s, c) + s[i..] && c !in Before(s, c)
      && (if s[i..] == "" then After(s, c) == "" else s[i..] == [c] + After(s, c))
  {
  }

  lemma TailRead(tail: string) returns (query: string, fragment: string)
    ensures var body := Before(tail, '#');
      && tail == Before(body, '?') + (query + fragment)
      && (forall c :: c in Before(body, '?') ==> c != '?' && c != '#')
      && (if query == "" then After(body, '?') == "" else query == "?" + After(body, '?')) && '#' !in After(body, '?')
      && (if fragment == "" then After(tail, '#') == "" else fragment == "#" + After(tail, '#'))
  {
    var body := Before(tail, '#');
    CutAtChar(tail, '#');
    CutAtChar(body, '?');
    query, fragment := body[IndexOf(body, '?')..], tail[IndexOf(tail, '#')..];
    assert forall c :: c in Before(body, '?') || c in After(body, '?') ==> c in body;
  }

  /** The network location is what stands between "//" and the next mark. */
  lemma LocationRead(scheme: string, rest: string) returns (location: string)
    ensures var u := SplitRest(scheme, rest);
      && location <= rest
      && var tail := rest[|location|..];
      && u == Url(scheme, u.netloc, Before(Before(tail, '#'), '?'), After(Before(tail, '#'), '?'), After(tail, '#'))
      && (if location == "" then u.netloc == "" && !("//" <= rest) else location == "//" + u.netloc)
      && (forall c :: c in u.netloc ==> c != '/' && c != '?' && c != '#')
      && (location != "" && tail != "" ==> tail[0] == '/' || tail[0] == '?' || tail[0] == '#')
  {
    location := "";
    if "//" <= rest {
      var n := FirstOf(rest[2..], "/?#");
      FirstOfSkipped(rest[2..], "/?#");
      location := rest[..2 + n];
      assert rest[2..2 + n] == rest[2..][..n];
      assert 2 + n < |rest| ==> rest[2 + n] == rest[2..][n];
    } else {
      assert rest[0..] == rest;
    }
  }

  lemma PathStart(tail: string)
    requires tail != "" ==> tail[0] == '/' || tail[0] == '?' || tail[0] == '#'
    ensures var path := Before(Before(tail, '#'), '?'); path != "" ==> path[0] == '/'
  {
  }

  lemma SchemeIs(s: string)
    ensures var i := SchemeLength(s);
      if i == 0 then forall k :: !Scheme(s, k) else Scheme(s, i)
  {
    forall k | Scheme(s, k) ensures SchemeLength(s) == k {
      assert ':' !in s[..k];
      IndexOfFirst(s[..k], ':', s[k + 1..]);
      assert s == s[..k] + [':'] + s[k + 1..];
    }
  }

  lemma RestExactly(scheme: string, rest: string)
    ensures SplitRest(scheme, rest).scheme == scheme
    ensures exists location, query, fragment ::
      Assembled(rest, SplitRest(scheme, rest), location, query, fragment)
  {
    var location := LocationRead(scheme, rest);
    var tail := rest[|location|..];
    var query, fragment := TailRead(tail);
    if location != "" { PathStart(tail); }
    assert rest == location + tail;
    assert Assembled(rest, SplitRest(scheme, rest), location, query, fragment);
  }

  /** `urlsplit` takes a clean text apart, and nothing is lost: the scheme is lowered, if there
      is one, and the rest is put together as above. */
  lemma SplitExactly(s: string)
    ensures var u := SplitClean(s);
      exists n, location, query, fragment ::
        && 0 <= n <= |s| && Assembled(s[n..], u, location, query, fragment)
        && if n == 0 then u.scheme == "" && forall i :: !Scheme(s, i)
           else Scheme(s, n - 1) && u.scheme == Lower(s[..n - 1])
  {
    var i := SchemeLength(s);
    SchemeIs(s);
    var n := if i == 0 then 0 else i + 1;
    RestExactly(SplitClean(s).scheme, s[n..]);
    assert s[0..] == s;
    var location, query, fragment :| Assembled(s[n..], SplitClean(s), location, query, fragment);
  }

  // ----- hosts -----

  /** A host of the set, behind nothing but an empty user name, and before nothing but a port of
      zeros. */
  ghost predicate Located(netloc: string, hosts: set<string>, user: string, host: string, port: string) {
    && netloc == user + (host + port) && user in {"", "@", ":@"}
    && Lower(host) in hosts && (forall c :: c in host ==> c !in "@:[]")
    && (port != "" ==> port[0] == ':' && |port| <= 4301 && forall c :: c in port[1..] ==> c == '0')
  }

  lemma LastStep(s: string, c: char, i: nat)
    requires i == IndexOf(s, c) < |s|
    ensures AfterLast(s, c) == AfterLast(s[i + 1..], c)
    ensures BeforeLast(s, c) == if c in s[i + 1..] then s[..i + 1] + BeforeLast(s[i + 1..], c) else s[..i]
  {
  }

  lemma {:induction false} LastSplits(s: string, c: char)
    ensures c !in AfterLast(s, c)
    ensures c in s ==> s == BeforeLast(s, c) + ([c] + AfterLast(s, c))
    ensures c !in s ==> AfterLast(s, c) == s && BeforeLast(s, c) == ""
    decreases |s|
  {
    var i := IndexOf(s, c);
    if i < |s| {
      var rest := s[i + 1..];
      LastStep(s, c, i);
      LastSplits(rest, c);
      Rejoined(s, c, i, BeforeLast(rest, c), AfterLast(rest, c));
    } else {
      assert s[..i] == s;
      Absent(s, c);
    }
  }

  lemma Rejoined(s: string, c: char, i: nat, x: string, y: string)
    requires i < |s| && s[i] == c
    ensures s == s[..i] + ([c] + s[i + 1..])
    ensures s[i + 1..] == x + ([c] + y) ==> s == (s[..i + 1] + x) + ([c] + y)
  {
    assert s == s[..i + 1] + s[i + 1..];
  }

  /** The split at the last `c` is the only one with no `c` behind it. */
  lemma LastSplitIs(s: string, c: char, a: string, b: string)
    requires s == a + ([c] + b) && c !in b
    ensures AfterLast(s, c) == b && BeforeLast(s, c) == a
  {
    assert s[|a|] == c;
    LastSplits(s, c);
    SameCut(s, c, a, b, BeforeLast(s, c), AfterLast(s, c));
  }

  lemma SameCut(s: string, c: char, a: string, b: string, x: string, y: string)
    requires s == a + ([c] + b) == x + ([c] + y) && c !in b && c !in y
    ensures a == x && b == y
  {
    assert s[|a|] == c && s[|x|] == c;
    assert forall k :: |a| < k < |s| ==> s[k] == b[k - |a| - 1] && s[k] in b;
    assert forall k :: |x| < k < |s| ==> s[k] == y[k - |x| - 1] && s[k] in y;
    assert |x| == |a|;
    assert a == s[..|a|] && x == s[..|x|] && b == s[|a| + 1..] && y == s[|x| + 1..];
  }

  lemma UserIsEmpty(userinfo: string)
    ensures Before(userinfo, ':') == "" && After(userinfo, ':') == "" <==> userinfo in {"", ":"}
  {
    var i := IndexOf(userinfo, ':');
    assert i == 0 && i < |userinfo| ==> userinfo == [':'] + userinfo[1..];
    assert userinfo == ":" ==> userinfo[1..] == "" && i == 0;
  }

  /** The two tests on a network location accept exactly these. */
  lemma HostExactly(netloc: string, hosts: set<string>)
    requires forall h, c :: h in hosts && c in h ==> c !in "[]"
    ensures HostOf(netloc) in hosts && BareHost(netloc) <==>
      exists user, host, port :: Located(netloc, hosts, user, host, port)
  {
    if HostOf(netloc) in hosts && BareHost(netloc) {
      var user, host, port := LocatedParts(netloc, hosts);
    }
    forall user, host, port | Located(netloc, hosts, user, host, port)
      ensures HostOf(netloc) in hosts && BareHost(netloc)
    {
      LocatedAccepted(netloc, hosts, user, host, port);
    }
  }

  lemma LocatedParts(netloc: string, hosts: set<string>) returns (user: string, host: string, port: string)
    requires HostOf(netloc) in hosts && BareHost(netloc)
    ensures Located(netloc, hosts, user, host, port)
  {
    var last := AfterLast(netloc, '@');
    user := UserRead(netloc);
    CutAtChar(last, ':');
    host, port := Before(last, ':'), last[IndexOf(last, ':')..];
    assert forall c :: c in host ==> c in last && c in netloc;
  }

  lemma UserRead(netloc: string) returns (user: string)
    requires var userinfo := BeforeLast(netloc, '@'); Before(userinfo, ':') == "" && After(userinfo, ':') == ""
    ensures netloc == user + AfterLast(netloc, '@') && user in {"", "@", ":@"} && '@' !in AfterLast(netloc, '@')
  {
    var userinfo := BeforeLast(netloc, '@');
    LastSplits(netloc, '@');
    UserIsEmpty(userinfo);
    if '@' !in netloc { user := ""; } else if userinfo == "" { user := "@"; } else { user := ":@"; }
    assert ":" + (['@'] + AfterLast(netloc, '@')) == ":@" + AfterLast(netloc, '@');
  }

  lemma UserEmpty(netloc: string, user: string, last: string)
    requires netloc == user + last && user in {"", "@", ":@"} && '@' !in last
    ensures AfterLast(netloc, '@') == last
    ensures var userinfo := BeforeLast(netloc, '@'); Before(userinfo, ':') == "" && After(userinfo, ':') == ""
  {
    UserIsEmpty(BeforeLast(netloc, '@'));
    if user == "" {
      assert netloc == last;
      LastSplits(netloc, '@');
    } else if user == "@" {
      assert netloc == "" + (['@'] + last);
      LastSplitIs(netloc, '@', "", last);
    } else {
      assert netloc == ":" + (['@'] + last);
      LastSplitIs(netloc, '@', ":", last);
    }
  }

  lemma HostCut(last: string, host: string, port: string)
    requires last == host + port && ':' !in host && (port != "" ==> port[0] == ':')
    ensures Before(last, ':') == host && After(last, ':') == if port == "" then "" else port[1..]
  {
    if port == "" {
      assert last == host;
      Absent(host, ':');
    } else {
      assert last == host + [':'] + port[1..];
      IndexOfFirst(host, ':', port[1..]);
      assert last[..|host|] == host && last[|host| + 1..] == port[1..];
    }
  }

  lemma LocatedChars(user: string, host: string, port: string)
    requires user in {"", "@", ":@"} && (forall c :: c in host ==> c !in "@:[]")
    requires port != "" ==> port[0] == ':' && forall c :: c in port[1..] ==> c == '0'
    ensures '@' !in host + port && ':' !in host
    ensures '[' !in user + (host + port) && ']' !in user + (host + port)
  {
    assert port != "" ==> port == [':'] + port[1..];
    assert forall c :: c in port ==> c == ':' || c == '0';
    assert forall c :: c in user ==> c == ':' || c == '@';
  }

  lemma LocatedAccepted(netloc: string, hosts: set<string>, user: string, host: string, port: string)
    requires Located(netloc, hosts, user, host, port)
    ensures HostOf(netloc) in hosts && BareHost(netloc)
  {
    LocatedChars(user, host, port);
    UserEmpty(netloc, user, host + port);
    HostCut(host + port, host, port);
  }

  // ----- the parsers -----

  ghost predicate Addressed(url: Url, hosts: set<string>) {
    && url.scheme == "https" && url.query == "" && url.fragment == ""
    && exists user, host, port :: Located(url.netloc, hosts, user, host, port)
  }

  lemma AddressedExactly(url: Url, hosts: set<string>)
    requires forall h, c :: h in hosts && c in h ==> c !in "[]"
    ensures Acceptable(url, hosts) <==> Addressed(url, hosts)
  {
    HostExactly(url.netloc, hosts);
  }

  lemma {:induction false} NonEmptyConcat(a: seq<string>, b: seq<string>)
    ensures NonEmpty(a + b) == NonEmpty(a) + NonEmpty(b)
  {
    if a == [] {
      assert a + b == b;
    } else {
      assert (a + b)[0] == a[0] && (a + b)[1..] == a[1..] + b;
      NonEmptyConcat(a[1..], b);
    }
  }

  lemma NonEmptyOne(s: string)
    ensures NonEmpty([s]) == if s == "" then [] else [s]
  {
    assert NonEmpty([s][1..]) == [];
  }

  function Website(provider: Provider): string {
    match provider case GitHub => "github.com" case GitLab => "gitlab.com" case Bitbucket => "bitbucket.org"
  }

  /** Two segments name a repository, and for GitLab two or more; the last may end in ".git". */
  ghost predicate NamedBy(provider: Provider, parts: seq<string>) {
    && |parts| >= 2 && (|parts| == 2 || provider.GitLab?)
    && (provider.GitLab? ==> forall p :: p in parts ==> Part(DropGit(p)))
    && (!provider.GitLab? ==> Part(parts[0]) && Part(DropGit(parts[1])))
  }

  /** The segments with the suffix of the last gone. */
  function Undotted(parts: seq<string>): seq<string>
    requires parts != []
  {
    parts[..|parts| - 1] + [DropGit(parts[|parts| - 1])]
  }

  lemma ChosenExactly(provider: Provider, parts: seq<string>)
    ensures Chosen(provider, parts).Ok? <==> NamedBy(provider, parts)
    ensures NamedBy(provider, parts) ==> Chosen(provider, parts) == Ok(Undotted(parts))
  {
  }

  lemma CanonicalText(provider: Provider, names: seq<string>)
    requires names != []
    ensures Canonical(provider, names) == "https://" + (Website(provider) + ("/" + Join(names, '/')))
  {
    assert Host(provider) == Website(provider);
    var rest := Website(provider) + ("/" + Join(names, '/'));
    assert "https" + ([':'] + ("//" + rest)) == "https://" + rest;
    assert "//" + Website(provider) + ("/" + Join(names, '/')) == "//" + rest;
  }

  /** Which texts a provider's parser accepts, and what it makes of them: the site at the
      canonical or the "www" host, a path whose non-empty segments name a repository and, for
      GitLab, does not lead past its root. */
  lemma ParseExactly(provider: Provider, text: string)
    ensures var url := UrlSplit(Strip(text));
      var parts := NonEmpty(Split(url.path, '/'));
      && (Parse(provider, text).Ok? <==>
            && Addressed(url, {Website(provider), "www." + Website(provider)}) && NamedBy(provider, parts)
            && (provider.GitLab? ==> forall i :: 0 <= i <= |url.path| ==> !("/-/" <= url.path[i..])))
      && (Parse(provider, text).Ok? ==>
            Parse(provider, text).value == "https://" + (Website(provider) + ("/" + Join(Undotted(parts), '/'))))
  {
    var url := UrlSplit(Strip(text));
    var parts := NonEmpty(Split(url.path, '/'));
    SiteHosts(provider);
    AddressedExactly(url, HostsOf(provider));
    ChosenExactly(provider, parts);
    ContainsExactly(url.path, "/-/");
    if NamedBy(provider, parts) { CanonicalText(provider, Undotted(parts)); }
    ParseIs(provider, text, url, parts);
  }

  lemma SiteHosts(provider: Provider)
    ensures HostsOf(provider) == {Website(provider), "www." + Website(provider)}
    ensures forall h, c :: h in HostsOf(provider) && c in h ==> c !in "[]"
  {
  }

  lemma ParseIs(provider: Provider, text: string, url: Url, parts: seq<string>)
    requires url == UrlSplit(Strip(text)) && parts == NonEmpty(Split(url.path, '/'))
    ensures var chosen := Chosen(provider, parts);
      && (Parse(provider, text).Ok? <==>
            && Acceptable(url, HostsOf(provider)) && !(provider.GitLab? && Contains(url.path, "/-/"))
            && chosen.Ok? && chosen.value != [])
      && (Parse(provider, text).Ok? ==> Parse(provider, text).value == Canonical(provider, chosen.value))
  {
  }

  /** Which values the manifest's normaliser accepts, and what it makes of them. */
  lemma NormalizedExactly(value: string)
    ensures Normalized(value).Ok? <==>
      "local://" <= value || Addressed(UrlSplit(value), {
        "github.com", "www.github.com", "gitlab.com", "www.gitlab.com", "bitbucket.org", "www.bitbucket.org"})
    ensures Normalized(value).Ok? ==>
      Normalized(value).value == if "local://" <= value then value else DropGit(StripSlashes(value))
  {
    ManifestHosts();
    AddressedExactly(UrlSplit(value), HOSTS);
  }

  lemma ManifestHosts()
    ensures forall h, c :: h in HOSTS && c in h ==> c !in "[]"
  {
  }
}
