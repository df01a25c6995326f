/** What holds of every template after any run of imports, status changes and syncs. */
module TemplateRuns {
  import opened Basics
  import Strings
  import opened RepositoryUrls
  import opened TemplatePublishing
  import opened TemplateMedia
  import opened TemplateLifecycle

  datatype Action =
    | ImportUrl(id: int, url: string, adapter: Adapter, fetched: Result<Source>, a: Analysis, c: Choice)
    | ImportLocal(id: int, source: Source, a: Analysis, c: Choice)
    | SetStatus(ids: seq<int>, status: Status, at: int)
    | Sync(id: int, fetched: Result<Source>, a: Analysis, at: int)

  /** An operation that fails changes nothing. An upload is imported under an adapter name
      that is no provider's. */
  function After(env: Env, reg: Registry, act: Action): Registry {
    match act
    case ImportUrl(id, url, adapter, fetched, a, c) =>
      OrSame(ImportedByUrl(env, reg, id, url, adapter, fetched, a, c), reg)
    case ImportLocal(id, source, a, c) =>
      if source.adapter.Remote? then reg else OrSame(Imported(env, reg, id, source, a, c), reg)
    case SetStatus(ids, status, at) => OrSame(StatusSet(reg, ids, status, at), reg)
    case Sync(id, fetched, a, at) =>
      var done := Synced(env, reg, id, fetched, a, at);
      if done.Ok? then done.value.registry else reg
  }

  function OrSame(r: Result<Registry>, reg: Registry): Registry { if r.Ok? then r.value else reg }

  function Run(env: Env, reg: Registry, actions: seq<Action>): Registry {
    if actions == [] then reg else After(env, Run(env, reg, actions[..|actions| - 1]), actions[|actions| - 1])
  }

  function Empty(providers: map<string, bool>): Registry { Registry(map[], map[], providers) }

  // ----- publication -----

  ghost predicate InOrder(t: Template) {
    && Sound(t)
    && (t.status.Published? ==> Ready(t.repositoryUrl))
    && (t.publishedAt.Some? <==> t.status.Published?)
  }

  ghost predicate AllInOrder(reg: Registry) { forall id :: id in reg.templates ==> InOrder(reg.templates[id]) }

  lemma BuiltManifest(framework: string, url: string, branch: string, name: string, a: Analysis)
    ensures var m := BuildManifest(framework, url, branch, name, Some(a), V2);
      m.Ok? ==> Shaped(m.value) && m.value.branch == branch && m.value.framework == framework
                && 1 <= |url| <= 500 && Normalized(url) == Ok(m.value.repository)
  {
  }

  /** A manifest built from the URL of an import. */
  lemma BuiltSound(framework: string, url: string, branch: string, name: string, a: Analysis, adapter: Adapter)
    requires BuildManifest(framework, url, branch, name, Some(a), V2).Ok?
    requires adapter.Remote? ==> ParsedBy(adapter.provider, url)
    ensures SoundParts(url, adapter, branch, BuildManifest(framework, url, branch, name, Some(a), V2).value,
      Some(framework))
  {
    BuiltManifest(framework, url, branch, name, a);
    if adapter.Remote? {
      var text :| Parse(adapter.provider, text) == Ok(url);
      ParsedManifest(adapter.provider, text);
    }
  }

  /** A manifest built from what the parser makes of the stored URL. */
  lemma RebuiltSound(framework: string, url: string, again: string, branch: string, name: string, a: Analysis,
                     p: Provider)
    requires BuildManifest(framework, again, branch, name, Some(a), V2).Ok?
    requires ParsedBy(p, url) && Parse(p, url) == Ok(again) && 1 <= |url| <= 500
    ensures SoundParts(url, Remote(p), branch, BuildManifest(framework, again, branch, name, Some(a), V2).value,
      Some(framework))
  {
    BuiltManifest(framework, again, branch, name, a);
    var text :| Parse(p, text) == Ok(url);
    ParsedManifest(p, text);
  }

  lemma NewInOrder(source: Source, a: Analysis, c: Choice, m: Manifest, framework: string,
                   category: Option<string>, provider: Option<string>)
    requires SoundParts(source.repositoryUrl, source.adapter, source.defaultBranch, m, Some(framework))
    ensures InOrder(NewTemplate(source, a, c, m, framework, category, provider))
  {
  }

  lemma ImportInOrder(env: Env, reg: Registry, id: int, source: Source, a: Analysis, c: Choice)
    requires AllInOrder(reg)
    requires source.adapter.Remote? ==> ParsedBy(source.adapter.provider, source.repositoryUrl)
    ensures AllInOrder(OrSame(Imported(env, reg, id, source, a, c), reg))
  {
    var done := Imported(env, reg, id, source, a, c);
    if done.Ok? {
      var framework := ResolveFramework(env, a.frameworkSlug).value;
      var m := BuildManifest(framework, source.repositoryUrl, source.defaultBranch, a.title, Some(a), V2).value;
      BuiltSound(framework, source.repositoryUrl, source.defaultBranch, a.title, a, source.adapter);
      NewInOrder(source, a, c, m, framework, done.value.templates[id].category, done.value.templates[id].provider);
    }
  }

  lemma StatusRow(t: Template, status: Status, now: int)
    requires InOrder(t) && (status.Published? ==> Publishable(t))
    ensures InOrder(WithStatus(t, status, now))
  {
    PublishableExactly(t);
    SoundElsewhere(t, WithStatus(t, status, now));
  }

  /** Soundness is about the URL, the source, the branch, the manifest and the framework. */
  lemma SoundElsewhere(t: Template, t': Template)
    requires Sound(t) && t'.repositoryUrl == t.repositoryUrl && t'.adapter == t.adapter &&
      t'.defaultBranch == t.defaultBranch
    requires t'.manifest == t.manifest && t'.framework == t.framework
    ensures Sound(t')
  {
  }

  lemma StatusInOrder(env: Env, reg: Registry, ids: seq<int>, status: Status, now: int)
    requires AllInOrder(reg)
    ensures AllInOrder(OrSame(StatusSet(reg, ids, status, now), reg))
  {
    var done := StatusSet(reg, ids, status, now);
    if done.Ok? {
      var rows := Selected(reg.templates, ids);
      forall id | id in reg.templates ensures InOrder(done.value.templates[id]) {
        if id in rows { StatusRow(reg.templates[id], status, now); }
      }
    }
  }

  lemma RefreshedInOrder(t: Template, source: Source, a: Analysis, merged: seq<string>, m: Manifest,
                         framework: string, provider: Option<string>, now: int)
    requires InOrder(t) && SoundParts(t.repositoryUrl, t.adapter, source.defaultBranch, m, Some(framework))
    ensures InOrder(Refreshed(t, source, a, merged, m, framework, provider, now))
  {
  }

  lemma SyncInOrder(env: Env, reg: Registry, id: int, fetched: Result<Source>, a: Analysis, now: int)
    requires AllInOrder(reg) && id in reg.templates
    ensures var done := Synced(env, reg, id, fetched, a, now); done.Ok? ==> AllInOrder(done.value.registry)
  {
    var done := Synced(env, reg, id, fetched, a, now);
    if done.Ok? {
      var t := reg.templates[id];
      var source := Fetched(env, t.adapter, t.repositoryUrl, fetched).value;
      AppliedInOrder(env, reg, id, source, a, now);
    }
  }

  function ManifestOf(framework: string, source: Source, name: string, a: Analysis): Result<Manifest> {
    BuildManifest(framework, source.repositoryUrl, source.defaultBranch, name, Some(a), V2)
  }

  /** What a successful sync writes, piece by piece. */
  lemma AppliedPieces(env: Env, reg: Registry, id: int, source: Source, a: Analysis, now: int)
    requires id in reg.templates && Applied(env, reg, id, source, a, now).Ok?
    ensures var t, rows, framework := reg.templates[id], AssetsOf(reg, id), ResolveFramework(env, a.frameworkSlug);
      framework.Some? && ManifestOf(framework.value, source, t.name, a).Ok? && Distinct(a.screenshots)
      && var refreshed := Refreshed(t, source, a, Merged(rows, a.screenshots),
                                    ManifestOf(framework.value, source, t.name, a).value, framework.value,
                                    NextProvider(env, reg.providers, t.provider, source).0, now);
         Applied(env, reg, id, source, a, now).value == SyncOutcome(
           Registry(reg.templates[id := refreshed],
                    reg.assets[id := AssetsAfter(rows, AdapterName(source.adapter), a.screenshots)],
                    NextProvider(env, reg.providers, t.provider, source).1),
           Recorded(t, source, a, Merged(rows, a.screenshots)))
  {
  }

  lemma AppliedInOrder(env: Env, reg: Registry, id: int, source: Source, a: Analysis, now: int)
    requires AllInOrder(reg) && id in reg.templates
    requires var t := reg.templates[id];
      t.adapter.Remote? && Parse(t.adapter.provider, t.repositoryUrl) == Ok(source.repositoryUrl)
    requires Applied(env, reg, id, source, a, now).Ok?
    ensures AllInOrder(Applied(env, reg, id, source, a, now).value.registry)
  {
    var t, rows, framework := reg.templates[id], AssetsOf(reg, id), ResolveFramework(env, a.frameworkSlug);
    AppliedPieces(env, reg, id, source, a, now);
    RebuiltSound(framework.value, t.repositoryUrl, source.repositoryUrl, source.defaultBranch, t.name, a,
      t.adapter.provider);
    RefreshedInOrder(t, source, a, Merged(rows, a.screenshots), ManifestOf(framework.value, source, t.name, a).value,
                     framework.value, NextProvider(env, reg.providers, t.provider, source).0, now);
  }

  lemma ImportUrlInOrder(env: Env, reg: Registry, id: int, url: string, adapter: Adapter, fetched: Result<Source>,
                         a: Analysis, c: Choice)
    requires AllInOrder(reg)
    ensures AllInOrder(OrSame(ImportedByUrl(env, reg, id, url, adapter, fetched, a, c), reg))
  {
    var source := Fetched(env, adapter, Strings.Strip(url), fetched);
    if source.Ok? { ImportInOrder(env, reg, id, source.value, a, c); }
  }

  lemma ActionInOrder(env: Env, reg: Registry, act: Action)
    requires AllInOrder(reg)
    ensures AllInOrder(After(env, reg, act))
  {
    match act
    case ImportUrl(id, url, adapter, fetched, a, c) => ImportUrlInOrder(env, reg, id, url, adapter, fetched, a, c);
    case ImportLocal(id, source, a, c) => if source.adapter.Upload? { ImportInOrder(env, reg, id, source, a, c); }
    case SetStatus(ids, status, at) => StatusInOrder(env, reg, ids, status, at);
    case Sync(id, fetched, a, at) => if id in reg.templates { SyncInOrder(env, reg, id, fetched, a, at); }
  }

  lemma {:induction false} RunInOrder(env: Env, providers: map<string, bool>, actions: seq<Action>)
    ensures AllInOrder(Run(env, Empty(providers), actions))
  {
    if actions != [] {
      var front := actions[..|actions| - 1];
      RunInOrder(env, providers, front);
      ActionInOrder(env, Run(env, Empty(providers), front), actions[|actions| - 1]);
    }
  }

  /** After any run, a published template passes the whole validation, and the publication
      time is set exactly while a template is published. */
  lemma PublishedIsPublishable(env: Env, providers: map<string, bool>, actions: seq<Action>, id: int)
    requires id in Run(env, Empty(providers), actions).templates
    ensures var t := Run(env, Empty(providers), actions).templates[id];
      && (t.status.Published? ==> Publishable(t))
      && (t.publishedAt.Some? <==> t.status.Published?)
  {
    RunInOrder(env, providers, actions);
    PublishableExactly(Run(env, Empty(providers), actions).templates[id]);
  }

  /** After any run, what a template needs to be published is in its URL alone, which no
      operation changes: for a provider's template, that the normalised URL has no ".git"
      left; then the parser and the manifest both leave the URL as it is. */
  lemma PublishableForGood(env: Env, providers: map<string, bool>, actions: seq<Action>, id: int)
    requires id in Run(env, Empty(providers), actions).templates
    ensures var t := Run(env, Empty(providers), actions).templates[id];
      && (Publishable(t) <==> Ready(t.repositoryUrl))
      && (t.adapter.Remote? ==>
            && (Publishable(t) <==> !EndsWith(t.repositoryUrl, ".git"))
            && (Publishable(t) <==> Parse(t.adapter.provider, t.repositoryUrl) == Ok(t.repositoryUrl)))
  {
    var t := Run(env, Empty(providers), actions).templates[id];
    RunInOrder(env, providers, actions);
    PublishableExactly(t);
    if t.adapter.Remote? { ProviderPublishableExactly(t, t.adapter.provider); }
  }

  /** After any run, publishing a selection succeeds exactly when some selected template
      exists and the URL of every one of them is ready. */
  lemma PublishSucceedsExactly(env: Env, providers: map<string, bool>, actions: seq<Action>, ids: seq<int>, now: int)
    ensures var reg := Run(env, Empty(providers), actions); var rows := Selected(reg.templates, ids);
      StatusSet(reg, ids, Published, now).Ok? <==> rows != {} && forall id :: id in rows ==>
        Ready(reg.templates[id].repositoryUrl)
  {
    var reg := Run(env, Empty(providers), actions);
    RunInOrder(env, providers, actions);
    AllReady(reg, Selected(reg.templates, ids));
  }

  lemma AllReady(reg: Registry, rows: set<int>)
    requires AllInOrder(reg) && rows <= reg.templates.Keys
    ensures AllPublishable(reg.templates, rows) <==> forall id :: id in rows ==> Ready(reg.templates[id].repositoryUrl)
  {
    forall id | id in rows ensures Publishable(reg.templates[id]) <==> Ready(reg.templates[id].repositoryUrl) {
      assert InOrder(reg.templates[id]);
      PublishableExactly(reg.templates[id]);
    }
  }

  /** A change of status takes effect unless some URL that would be published is not ready. */
  ghost predicate TakesEffect(reg: Registry, after: Registry, ids: seq<int>, status: Status, now: int) {
    var refused := status.Published?
      && exists id :: id in ids && id in reg.templates && !Ready(reg.templates[id].repositoryUrl);
    var rows := (set id | id in ids && id in reg.templates);
    if refused then after == reg
    else after == reg.(templates := after.templates)
         && HaveStatus(reg.templates, after.templates, rows, status, now)
  }

  lemma StatusAfter(env: Env, reg: Registry, ids: seq<int>, status: Status, now: int)
    requires AllInOrder(reg)
    ensures TakesEffect(reg, After(env, reg, SetStatus(ids, status, now)), ids, status, now)
  {
    var rows := Selected(reg.templates, ids);
    assert rows == (set id | id in ids && id in reg.templates);
    AllReady(reg, rows);
    RestatedHave(reg.templates, rows, status, now);
    assert rows == {} ==> forall id :: id in ids ==> id !in reg.templates;
  }

  /** After any run, publishing a selection of ready templates leaves each of them PUBLISHED,
      disabling leaves each DISABLED, and in either case no other row changes. */
  lemma StatusTakesEffect(env: Env, providers: map<string, bool>, actions: seq<Action>, ids: seq<int>, status: Status,
                          now: int)
    ensures var reg := Run(env, Empty(providers), actions);
      TakesEffect(reg, Run(env, Empty(providers), actions + [SetStatus(ids, status, now)]), ids, status, now)
  {
    var act := SetStatus(ids, status, now);
    assert (actions + [act])[..|actions|] == actions && (actions + [act])[|actions|] == act;
    RunInOrder(env, providers, actions);
    StatusAfter(env, Run(env, Empty(providers), actions), ids, status, now);
  }

  // ----- what stays as it is -----

  /** What a template keeps through every later operation: identity, source and the fields
      that people curate. */
  ghost predicate SameIdentity(t: Template, t': Template) {
    && t'.name == t.name && t'.slug == t.slug && t'.repositoryUrl == t.repositoryUrl
    && t'.adapter == t.adapter && t'.externalId == t.externalId && t'.category == t.category
    && (Or(t.previewUrl, None).Some? ==> t'.previewUrl == t.previewUrl)
    && (Or(t.thumbnailUrl, None).Some? ==> t'.thumbnailUrl == t.thumbnailUrl)
    && (t.provider.Some? && t.provider.value != "community" ==> t'.provider == t.provider)
  }

  /** One operation: identity stays, and so does the time of a publication that lasts. */
  ghost predicate Carried(t: Template, t': Template) {
    SameIdentity(t, t') &&
      (t.status.Published? && t.publishedAt.Some? && t'.status.Published? ==> t'.publishedAt == t.publishedAt)
  }

  lemma RefreshCarries(env: Env, providers: map<string, bool>, t: Template, source: Source, a: Analysis,
                       merged: seq<string>, m: Manifest, framework: string, now: int)
    ensures Carried(t,
      Refreshed(t, source, a, merged, m, framework, NextProvider(env, providers, t.provider, source).0, now))
  {
  }

  ghost predicate AllCarried(reg: Registry, after: Registry) {
    forall id :: id in reg.templates ==> id in after.templates && Carried(reg.templates[id], after.templates[id])
  }

  lemma SyncCarries(env: Env, reg: Registry, id: int, source: Source, a: Analysis, now: int)
    requires id in reg.templates && Applied(env, reg, id, source, a, now).Ok?
    ensures AllCarried(reg, Applied(env, reg, id, source, a, now).value.registry)
  {
    var t, framework := reg.templates[id], ResolveFramework(env, a.frameworkSlug);
    AppliedPieces(env, reg, id, source, a, now);
    RefreshCarries(env, reg.providers, t, source, a, Merged(AssetsOf(reg, id), a.screenshots),
                   ManifestOf(framework.value, source, t.name, a).value, framework.value, now);
  }

  lemma NewCarries(env: Env, reg: Registry, id: int, source: Source, a: Analysis, c: Choice)
    ensures AllCarried(reg, OrSame(Imported(env, reg, id, source, a, c), reg))
  {
  }

  lemma RestatedCarries(reg: Registry, rows: set<int>, status: Status, now: int)
    ensures AllCarried(reg, reg.(templates := Restated(reg.templates, rows, status, now)))
  {
  }

  lemma SyncedCarries(env: Env, reg: Registry, id: int, fetched: Result<Source>, a: Analysis, now: int)
    ensures var done := Synced(env, reg, id, fetched, a, now); done.Ok? ==> AllCarried(reg, done.value.registry)
  {
    if Synced(env, reg, id, fetched, a, now).Ok? {
      var t := reg.templates[id];
      SyncCarries(env, reg, id, Fetched(env, t.adapter, t.repositoryUrl, fetched).value, a, now);
    }
  }

  lemma NewByUrlCarries(env: Env, reg: Registry, id: int, url: string, adapter: Adapter, fetched: Result<Source>,
                        a: Analysis, c: Choice)
    ensures AllCarried(reg, OrSame(ImportedByUrl(env, reg, id, url, adapter, fetched, a, c), reg))
  {
    var source := Fetched(env, adapter, Strings.Strip(url), fetched);
    if source.Ok? { NewCarries(env, reg, id, source.value, a, c); }
  }

  lemma ActionCarries(env: Env, reg: Registry, act: Action)
    ensures AllCarried(reg, After(env, reg, act))
  {
    match act
    case ImportUrl(id, url, adapter, fetched, a, c) => NewByUrlCarries(env, reg, id, url, adapter, fetched, a, c);
    case ImportLocal(id, source, a, c) => NewCarries(env, reg, id, source, a, c);
    case SetStatus(ids, status, at) => RestatedCarries(reg, Selected(reg.templates, ids), status, at);
    case Sync(id, fetched, a, at) => SyncedCarries(env, reg, id, fetched, a, at);
  }

  /** The tables before the first action and after each. */
  function States(env: Env, providers: map<string, bool>, actions: seq<Action>): (s: seq<Registry>)
    ensures |s| == |actions| + 1
  {
    seq(|actions| + 1, k requires 0 <= k <= |actions| => Run(env, Empty(providers), actions[..k]))
  }

  ghost predicate PublishedIn(reg: Registry, id: int) { id in reg.templates && reg.templates[id].status.Published? }

  /** Whatever is published has a publication time. */
  ghost predicate AllTimed(reg: Registry) {
    forall id :: id in reg.templates && reg.templates[id].status.Published? ==> reg.templates[id].publishedAt.Some?
  }

  lemma InOrderTimed(reg: Registry)
    requires AllInOrder(reg)
    ensures AllTimed(reg)
  {
    forall id | id in reg.templates && reg.templates[id].status.Published? ensures reg.templates[id].publishedAt.Some? {
      assert InOrder(reg.templates[id]);
    }
  }

  lemma {:induction false} IdentityAlong(s: seq<Registry>, n: nat, m: nat, id: int)
    requires n <= m < |s| && id in s[n].templates
    requires forall k :: 0 <= k < |s| ==> AllTimed(s[k])
    requires forall k :: 0 < k < |s| ==> AllCarried(s[k - 1], s[k])
    ensures id in s[m].templates && SameIdentity(s[n].templates[id], s[m].templates[id])
    ensures (forall k :: n <= k <= m ==> PublishedIn(s[k], id)) ==>
      s[m].templates[id].publishedAt == s[n].templates[id].publishedAt
    decreases m
  {
    if n < m {
      IdentityAlong(s, n, m - 1, id);
      assert AllCarried(s[m - 1], s[m]) && AllTimed(s[m - 1]);
      IdentityJoins(s[n].templates[id], s[m - 1].templates[id], s[m].templates[id]);
    }
  }

  /** No operation removes a template, renames it, changes its source or drops curated
      media; and its publication time is that of the status change that began the current
      publication, whatever is synced or published again meanwhile. */
  lemma IdentityForGood(env: Env, providers: map<string, bool>, actions: seq<Action>, n: nat, m: nat, id: int)
    requires n <= m <= |actions| && id in States(env, providers, actions)[n].templates
    ensures var s := States(env, providers, actions);
      && id in s[m].templates && SameIdentity(s[n].templates[id], s[m].templates[id])
      && ((forall k :: n <= k <= m ==> PublishedIn(s[k], id)) ==>
        s[m].templates[id].publishedAt == s[n].templates[id].publishedAt)
  {
    StatesTimed(env, providers, actions);
    StatesCarried(env, providers, actions);
    IdentityAlong(States(env, providers, actions), n, m, id);
  }

  lemma StatesTimed(env: Env, providers: map<string, bool>, actions: seq<Action>)
    ensures var s := States(env, providers, actions); forall k :: 0 <= k < |s| ==> AllTimed(s[k])
  {
    var s := States(env, providers, actions);
    forall k | 0 <= k < |s| ensures AllTimed(s[k]) {
      RunInOrder(env, providers, actions[..k]);
      InOrderTimed(s[k]);
    }
  }

  lemma StatesCarried(env: Env, providers: map<string, bool>, actions: seq<Action>)
    ensures var s := States(env, providers, actions); forall k :: 0 < k < |s| ==> AllCarried(s[k - 1], s[k])
  {
    var s := States(env, providers, actions);
    forall k | 0 < k < |s| ensures AllCarried(s[k - 1], s[k]) { StateStep(env, providers, actions, k); }
  }

  lemma StateStep(env: Env, providers: map<string, bool>, actions: seq<Action>, k: nat)
    requires 0 < k <= |actions|
    ensures AllCarried(Run(env, Empty(providers), actions[..k - 1]), Run(env, Empty(providers), actions[..k]))
  {
    assert actions[..k][..k - 1] == actions[..k - 1];
    ActionCarries(env, Run(env, Empty(providers), actions[..k - 1]), actions[k - 1]);
  }

  lemma IdentityJoins(a: Template, b: Template, c: Template)
    requires SameIdentity(a, b) && SameIdentity(b, c)
    ensures SameIdentity(a, c)
  {
  }

  // ----- a repository that is imported and never published -----

  /** A provider's template whose URL still ends in ".git" is at no later time published. */
  lemma NeverPublished(env: Env, providers: map<string, bool>, actions: seq<Action>, n: nat, m: nat, id: int)
    requires n <= m <= |actions| && id in States(env, providers, actions)[n].templates
    requires var t := States(env, providers, actions)[n].templates[id];
      t.adapter.Remote? && EndsWith(t.repositoryUrl, ".git")
    ensures var s := States(env, providers, actions);
      id in s[m].templates && !s[m].templates[id].status.Published?
  {
    IdentityForGood(env, providers, actions, n, m, id);
    PublishableForGood(env, providers, actions[..m], id);
    PublishedIsPublishable(env, providers, actions[..m], id);
  }

  const SOURCE := Source(Remote(GitHub), "1", "r", "", "main", None, None, None, 0, 0, None, "")
  const ANALYSIS := Analysis("r", "unknown", None, None, None, "general", "easy", "site", [], 0, [], "")
  const CHOICE := Choice(None, None, "r", None, 0)

  /** A URL from which the parser drops a suffix and leaves another. */
  ghost predicate Suffixed(url: string, u: string) {
    && Parse(GitHub, url) == Ok(u) && EndsWith(u, ".git")
    && Strings.Strip(url) == url && 1 <= |url| <= 500 && 1 <= |u| <= 500
  }

  lemma OwnedUrlText(owner: string, name: string)
    requires Part(owner) && Part(name) && |owner| + |name| <= 400
    ensures var u := OwnedUrl(owner, name); 1 <= |u| <= 480 && Strings.Strip(u) == u
  {
    CanonicalSplits(GitHub, [owner, name]);
    CanonicalSnoc(GitHub, [owner, name]);
    assert [owner, name][..1] == [owner];
  }

  lemma OwnedUrlEnds(owner: string, name: string)
    requires Part(owner) && Part(name) && EndsWith(name, ".git")
    ensures EndsWith(OwnedUrl(owner, name), ".git")
  {
    CanonicalSnoc(GitHub, [owner, name]);
    SuffixGit(name);
    SuffixGit(OwnedUrl(owner, name));
  }

  /** For every owner and name there is one. */
  lemma SuffixedUrls(owner: string, name: string)
    requires Part(owner) && Part(name) && EndsWith(name, ".git") && |owner| + |name| <= 300
    ensures Suffixed(OwnedUrl(owner, name + ".git"), OwnedUrl(owner, name))
  {
    OwnedDropped(owner, name);
    OwnedParse(owner, name);
    OwnedUrlText(owner, name);
    OwnedUrlText(owner, name + ".git");
    OwnedUrlEnds(owner, name);
  }

  function ImportOf(url: string): Action { ImportUrl(0, url, Remote(GitHub), Ok(SOURCE), ANALYSIS, CHOICE) }

  lemma SampleManifest(u: string)
    requires 1 <= |u| <= 500 && Normalized(u).Ok?
    ensures BuildManifest("unknown", u, "main", "r", Some(ANALYSIS), V2).Ok?
  {
  }

  lemma FetchedIs(env: Env, p: Provider, url: string, u: string, source: Source)
    requires p in env.adapters && Parse(p, url) == Ok(u)
    ensures Fetched(env, Remote(p), url, Ok(source)) == Ok(source.(adapter := Remote(p), repositoryUrl := u))
  {
  }

  lemma ImportUrlIs(env: Env, reg: Registry, act: Action, source: Source, done: Registry)
    requires act.ImportUrl? && Strings.Strip(act.url) == act.url && 1 <= |act.url| <= 500
    requires Fetched(env, act.adapter, act.url, act.fetched) == Ok(source)
    requires Imported(env, reg, act.id, source, act.a, act.c) == Ok(done)
    ensures After(env, reg, act) == done
  {
  }

  lemma RunOne(env: Env, reg: Registry, act: Action)
    ensures Run(env, reg, [act]) == After(env, reg, act)
  {
    assert [act][..0] == [];
  }

  lemma SuffixedImported(env: Env, providers: map<string, bool>, u: string)
    requires env.frameworks == map["unknown" := true]
    requires BuildManifest("unknown", u, "main", "r", Some(ANALYSIS), V2).Ok?
    ensures var done := Imported(env, Empty(providers), 0, SOURCE.(repositoryUrl := u), ANALYSIS, CHOICE);
      && done.Ok? && 0 in done.value.templates
      && done.value.templates[0].repositoryUrl == u && done.value.templates[0].adapter == Remote(GitHub)
  {
    var source := SOURCE.(repositoryUrl := u);
    assert ResolveFramework(env, "unknown") == Some("unknown");
    assert !Registered(Empty(providers), source) && Slugs(Empty(providers)) == {};
    assert ScreenshotsAtImport(source, ANALYSIS, None) == [];
  }

  /** Such an import succeeds. */
  lemma SuffixedIsImported(env: Env, providers: map<string, bool>, url: string, u: string)
    requires Suffixed(url, u) && GitHub in env.adapters && env.frameworks == map["unknown" := true]
    ensures var reg := After(env, Empty(providers), ImportOf(url));
      && 0 in reg.templates && reg.templates[0].repositoryUrl == u && reg.templates[0].adapter == Remote(GitHub)
  {
    var source := SOURCE.(repositoryUrl := u);
    FetchedIs(env, GitHub, url, u, SOURCE);
    ParsedUrl(GitHub, url);
    SampleManifest(u);
    SuffixedImported(env, providers, u);
    ImportUrlIs(env, Empty(providers), ImportOf(url), source,
                Imported(env, Empty(providers), 0, source, ANALYSIS, CHOICE).value);
  }

  /** It leaves a template that, whatever happens afterwards, is never published. */
  lemma ImportedNeverPublished(env: Env, providers: map<string, bool>, url: string, u: string, more: seq<Action>)
    requires Suffixed(url, u) && GitHub in env.adapters && env.frameworks == map["unknown" := true]
    ensures var reg := Run(env, Empty(providers), [ImportOf(url)] + more);
      0 in reg.templates && !reg.templates[0].status.Published?
  {
    SuffixedIsImported(env, providers, url, u);
    FirstState(env, providers, ImportOf(url), more);
    NeverPublished(env, providers, [ImportOf(url)] + more, 1, |more| + 1, 0);
  }

  lemma FirstState(env: Env, providers: map<string, bool>, first: Action, more: seq<Action>)
    ensures var s := States(env, providers, [first] + more);
      s[1] == After(env, Empty(providers), first) && s[|more| + 1] == Run(env, Empty(providers), [first] + more)
  {
    var actions := [first] + more;
    assert actions[..1] == [first] && actions[..|more| + 1] == actions;
    RunOne(env, Empty(providers), first);
  }

  // ----- unique keys -----

  /** No two templates share a URL, an external id or a slug. */
  ghost predicate AllUnique(reg: Registry) {
    forall i, j :: i in reg.templates && j in reg.templates && i != j ==> Apart(reg.templates[i], reg.templates[j])
  }

  predicate Apart(t: Template, u: Template) {
    t.repositoryUrl != u.repositoryUrl && t.externalId != u.externalId && t.slug != u.slug
  }

  lemma NewUnique(env: Env, reg: Registry, id: int, source: Source, a: Analysis, c: Choice)
    requires AllUnique(reg)
    ensures AllUnique(OrSame(Imported(env, reg, id, source, a, c), reg))
  {
  }

  lemma CarriedUnique(reg: Registry, after: Registry)
    requires AllUnique(reg) && AllCarried(reg, after) && after.templates.Keys == reg.templates.Keys
    ensures AllUnique(after)
  {
  }

  lemma ActionUnique(env: Env, reg: Registry, act: Action)
    requires AllUnique(reg)
    ensures AllUnique(After(env, reg, act))
  {
    match act
    case ImportUrl(id, url, adapter, fetched, a, c) =>
      var source := Fetched(env, adapter, Strings.Strip(url), fetched);
      if source.Ok? { NewUnique(env, reg, id, source.value, a, c); }
    case ImportLocal(id, source, a, c) => NewUnique(env, reg, id, source, a, c);
    case SetStatus(_, _, _) => ChangeUnique(env, reg, act);
    case Sync(_, _, _, _) => ChangeUnique(env, reg, act);
  }

  lemma SyncedRows(env: Env, reg: Registry, id: int, fetched: Result<Source>, a: Analysis, now: int)
    ensures var done := Synced(env, reg, id, fetched, a, now); done.Ok? ==>
      done.value.registry.templates.Keys == reg.templates.Keys
  {
  }

  lemma SameRows(env: Env, reg: Registry, act: Action)
    requires act.SetStatus? || act.Sync?
    ensures After(env, reg, act).templates.Keys == reg.templates.Keys
  {
    if act.Sync? { SyncedRows(env, reg, act.id, act.fetched, act.a, act.at); }
  }

  lemma ChangeUnique(env: Env, reg: Registry, act: Action)
    requires AllUnique(reg) && (act.SetStatus? || act.Sync?)
    ensures AllUnique(After(env, reg, act))
  {
    SameRows(env, reg, act);
    ActionCarries(env, reg, act);
    CarriedUnique(reg, After(env, reg, act));
  }

  /** After any run, URLs, external ids and slugs are unique: neither a sync nor a status
      change can create the clash that the import check excludes. */
  lemma {:induction false} UniqueForGood(env: Env, providers: map<string, bool>, actions: seq<Action>)
    ensures AllUnique(Run(env, Empty(providers), actions))
  {
    if actions != [] {
      var front := actions[..|actions| - 1];
      UniqueForGood(env, providers, front);
      ActionUnique(env, Run(env, Empty(providers), front), actions[|actions| - 1]);
    }
  }

  // ----- a sync and its change set -----

  function Difference(t: Template, t': Template): map<Field, Change> {
    map f | f in FIELDS && FactOf(t, f) != FactOf(t', f) :: Change(FactOf(t, f), FactOf(t', f))
  }

  lemma RecordedRow(t: Template, source: Source, a: Analysis, merged: seq<string>, m: Manifest, framework: string,
                    provider: Option<string>, now: int)
    ensures Recorded(t, source, a, merged)
      == Difference(t, Refreshed(t, source, a, merged, m, framework, provider, now))
  {
  }

  /** The recorded change set is the difference between the tracked fields before and
      after, no more and no less. */
  lemma RecordedIsDifference(env: Env, reg: Registry, id: int, source: Source, a: Analysis, now: int)
    requires id in reg.templates && Applied(env, reg, id, source, a, now).Ok?
    ensures var done := Applied(env, reg, id, source, a, now).value;
      done.changes == Difference(reg.templates[id], done.registry.templates[id])
  {
    var t, framework := reg.templates[id], ResolveFramework(env, a.frameworkSlug).value;
    AppliedPieces(env, reg, id, source, a, now);
    RecordedRow(t, source, a, Merged(AssetsOf(reg, id), a.screenshots),
      ManifestOf(framework, source, t.name, a).value, framework,
                NextProvider(env, reg.providers, t.provider, source).0, now);
  }

  /** Refreshing a row again from the same source changes its times only. */
  lemma RefreshedTwice(t: Template, source: Source, a: Analysis, merged: seq<string>, m: Manifest, framework: string,
                       provider: Option<string>, now: int, later: int)
    ensures var once := Refreshed(t, source, a, merged, m, framework, provider, now);
      var twice := Refreshed(once, source, a, merged, m, framework, provider, later);
      twice == once.(lastSyncedAt := later, lastAnalysisAt := later) && Recorded(once, source, a, merged) == map[]
  {
  }

  /** A provider that was just resolved is resolved to itself again. */
  lemma ProviderSettles(env: Env, providers: map<string, bool>, current: Option<string>, source: Source)
    ensures var (next, more) := NextProvider(env, providers, current, source);
      NextProvider(env, more, next, source) == (next, more)
  {
    assert "official" != "community" by { assert "official"[0] == 'o' && "community"[0] == 'c'; }
    var (next, more) := NextProvider(env, providers, current, source);
    if next == Some("community") {
      assert ActiveProvider(more, "official") == ActiveProvider(providers, "official");
      assert "community" in more ==> more["community" := more["community"]] == more;
    }
  }

  lemma AppliedTwice(env: Env, reg: Registry, id: int, source: Source, a: Analysis, now: int, later: int)
    requires id in reg.templates && Applied(env, reg, id, source, a, now).Ok?
    ensures var once := Applied(env, reg, id, source, a, now).value.registry;
      var twice := Applied(env, once, id, source, a, later);
      && twice.Ok? && twice.value.changes == map[]
      && twice.value.registry
        == once.(templates := once.templates[id := once.templates[id].(lastSyncedAt := later, lastAnalysisAt := later)])
  {
    var once := Applied(env, reg, id, source, a, now).value.registry;
    var t, framework := reg.templates[id], ResolveFramework(env, a.frameworkSlug).value;
    AppliedPieces(env, reg, id, source, a, now);
    MediaSettles(AssetsOf(reg, id), AdapterName(source.adapter), a.screenshots);
    ProviderSettles(env, reg.providers, t.provider, source);
    RefreshedTwice(t, source, a, Merged(AssetsOf(reg, id), a.screenshots),
      ManifestOf(framework, source, t.name, a).value, framework,
                   NextProvider(env, reg.providers, t.provider, source).0, now, later);
    assert Applied(env, once, id, source, a, later).Ok?;
    AppliedPieces(env, once, id, source, a, later);
  }

  /** A second sync of an unchanged source records nothing and changes nothing but the
      times of the last sync. */
  lemma SyncTwice(env: Env, reg: Registry, id: int, fetched: Result<Source>, a: Analysis, now: int, later: int)
    requires Synced(env, reg, id, fetched, a, now).Ok?
    ensures var once := Synced(env, reg, id, fetched, a, now).value.registry;
      var twice := Synced(env, once, id, fetched, a, later);
      && twice.Ok? && twice.value.changes == map[]
      && twice.value.registry
        == once.(templates := once.templates[id := once.templates[id].(lastSyncedAt := later, lastAnalysisAt := later)])
  {
    var t := reg.templates[id];
    var source := Fetched(env, t.adapter, t.repositoryUrl, fetched).value;
    AppliedPieces(env, reg, id, source, a, now);
    AppliedTwice(env, reg, id, source, a, now, later);
  }
}
