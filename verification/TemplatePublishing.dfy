/** A template, its manifest, and the predicate it must satisfy to be public. */
module TemplatePublishing {
  import opened Basics
  import opened RepositoryUrls

  /** Where a template comes from: a provider's adapter, or an upload. */
  datatype Adapter = Remote(provider: Provider) | Upload(name: string)

  function AdapterName(adapter: Adapter): string {
    match adapter
    case Upload(name) => name
    case Remote(GitHub) => "github"
    case Remote(GitLab) => "gitlab"
    case Remote(Bitbucket) => "bitbucket"
  }

  /** What a source reports about a repository. */
  datatype Source = Source(
    adapter: Adapter, externalId: string, name: string, repositoryUrl: string, defaultBranch: string,
    homepageUrl: Option<string>, licenseSpdx: Option<string>, primaryLanguage: Option<string>,
    starsCount: int, forksCount: int, sourceUpdatedAt: Option<int>, ownerLogin: string)

  /** What the analyser makes of it; `rest` is what no operation here looks at. */
  datatype Analysis = Analysis(
    title: string, frameworkSlug: string, frameworkVersion: Option<string>, language: Option<string>,
    packageManager: Option<string>, categorySlug: string, difficulty: string, useCase: string, tags: seq<string>,
    qualityScore: int, screenshots: seq<string>, rest: string)

  datatype Manifest = Manifest(
    schemaVersion: Version, name: Option<string>, framework: string, frameworkVersion: Option<string>,
    language: Option<string>, packageManager: Option<string>, repository: string, branch: string)

  /** Only the two known versions pass validation. */
  datatype Version = V1 | V2 | OtherVersion(text: string)

  datatype Status = Draft | Published | Disabled

  datatype Template = Template(
    name: string, slug: string, repositoryUrl: string, adapter: Adapter, externalId: string,
    defaultBranch: string, homepageUrl: Option<string>, previewUrl: Option<string>,
    thumbnailUrl: Option<string>, screenshots: seq<string>, licenseSpdx: Option<string>,
    primaryLanguage: Option<string>, frameworkVersion: Option<string>, packageManager: Option<string>,
    difficulty: string, useCase: string, topics: seq<string>, manifest: Manifest, analysis: Analysis,
    qualityScore: int, starsCount: int, forksCount: int, status: Status, publishedAt: Option<int>,
    lastSyncedAt: int, lastAnalysisAt: int, sourceUpdatedAt: Option<int>,
    category: Option<string>, provider: Option<string>, framework: Option<string>)

  // ----- manifests -----

  predicate AtMost(text: Option<string>, n: nat) { text.Some? ==> |text.value| <= n }

  /** The field constraints and the rule that version 2 has a name, repository apart. */
  predicate Shaped(m: Manifest) {
    && !m.schemaVersion.OtherVersion?
    && (m.name.Some? ==> 1 <= |m.name.value| <= 160)
    && 1 <= |m.framework| <= 120 && 1 <= |m.branch| <= 255
    && AtMost(m.frameworkVersion, 80) && AtMost(m.language, 100) && AtMost(m.packageManager, 40)
    && (m.schemaVersion.V2? ==> m.name.Some?)
  }

  function ValidateManifest(m: Manifest): Result<Manifest> {
    if !Shaped(m) || !(1 <= |m.repository| <= 500) then Err("manifest is invalid")
    else
      var repository := Normalized(m.repository);
      if repository.Err? then Err(repository.reason) else Ok(m.(repository := repository.value))
  }

  function BuildManifest(framework: string, repositoryUrl: string, branch: string, name: string, a: Option<Analysis>,
                         version: Version): Result<Manifest> {
    if version.V1? then
      ValidateManifest(Manifest(V1, None, framework, None, None, None, repositoryUrl, branch))
    else
      ValidateManifest(Manifest(V2,
        Some(if name != "" then name else if a.Some? then a.value.title else "Template"), framework,
        if a.Some? then a.value.frameworkVersion else None, if a.Some? then a.value.language else None,
        if a.Some? then a.value.packageManager else None, repositoryUrl, branch))
  }

  /** When a manifest of version 2 can be built, and what it says. */
  lemma BuiltExactly(framework: string, url: string, branch: string, name: string, a: Analysis)
    ensures var called := if name == "" then a.title else name;
      var built := BuildManifest(framework, url, branch, name, Some(a), V2);
      && (built.Ok? <==>
            && 1 <= |called| <= 160 && 1 <= |framework| <= 120 && 1 <= |branch| <= 255
            && AtMost(a.frameworkVersion, 80) && AtMost(a.language, 100) && AtMost(a.packageManager, 40)
            && 1 <= |url| <= 500 && Normalized(url).Ok?)
      && (built.Ok? ==>
            built.value == Manifest(V2, Some(called), framework, a.frameworkVersion, a.language, a.packageManager,
                                    Normalized(url).value, branch))
  {
  }

  /** Reading a stored manifest back: it is refused, or a fixed point, or changed in its
      repository alone, which only gets shorter. */
  lemma StoredManifestRead(m: Manifest)
    requires ValidateManifest(m).Ok?
    ensures var v := ValidateManifest(m).value;
      && Shaped(v) && v == m.(repository := v.repository) && v.repository <= m.repository
      && (ValidateManifest(v) == Ok(v) <==> Normalized(v.repository) == Ok(v.repository) && v.repository != "")
  {
    NormalizedShortens(m.repository);
  }

  // ----- publication -----

  predicate IsLocal(url: string) { "local://" <= url }

  /** `validate_template_for_publication`. */
  function ValidateForPublication(t: Template): Result<()> {
    if t.framework.None? then Err("needs a framework before publishing")
    else if IsLocal(t.repositoryUrl) then Err("needs a deployable HTTPS repository before publishing")
    else
      var m := ValidateManifest(t.manifest);
      if m.Err? then Err(m.reason)
      else if m.value.repository != t.repositoryUrl then Err("manifest repository does not match the template")
      else if m.value.branch != t.defaultBranch then Err("manifest branch does not match the template")
      else if m.value.framework != t.framework.value then Err("manifest framework does not match the template")
      else Ok(())
  }

  predicate Publishable(t: Template) { ValidateForPublication(t).Ok? }

  lemma ValidManifest(m: Manifest)
    ensures var valid := Shaped(m) && 1 <= |m.repository| <= 500 && Normalized(m.repository).Ok?;
      && (ValidateManifest(m).Ok? <==> valid)
      && (valid ==> ValidateManifest(m) == Ok(m.(repository := Normalized(m.repository).value)))
  {
  }

  /** What it takes, of any template. */
  lemma PublishableMeans(t: Template)
    ensures Publishable(t) <==>
      && t.framework == Some(t.manifest.framework) && t.manifest.branch == t.defaultBranch
      && Shaped(t.manifest) && 1 <= |t.manifest.repository| <= 500
      && Normalized(t.manifest.repository) == Ok(t.repositoryUrl) && !("local://" <= t.repositoryUrl)
  {
    ValidManifest(t.manifest);
    PublishableRead(t, ValidateManifest(t.manifest));
  }

  lemma PublishableRead(t: Template, read: Result<Manifest>)
    requires read == ValidateManifest(t.manifest)
    ensures Publishable(t) <==>
      && read.Ok? && !("local://" <= t.repositoryUrl) && read.value.repository == t.repositoryUrl
      && read.value.branch == t.defaultBranch && t.framework == Some(read.value.framework)
  {
  }

  /** A template whose manifest was built from its own fields, from its URL or, after a
      sync, from what its provider's parser makes of that URL. */
  ghost predicate Sound(t: Template) {
    SoundParts(t.repositoryUrl, t.adapter, t.defaultBranch, t.manifest, t.framework)
  }

  ghost predicate SoundParts(url: string, adapter: Adapter, branch: string, m: Manifest, framework: Option<string>) {
    && Shaped(m) && m.branch == branch && framework == Some(m.framework)
    && 1 <= |url| <= 500
    && match adapter
       case Upload(_) => Normalized(url) == Ok(m.repository)
       case Remote(p) =>
         ParsedBy(p, url) && (m.repository == DropGit(url) || m.repository == DropGit(DropGit(url)))
  }

  ghost predicate ParsedBy(p: Provider, url: string) { exists text :: Parse(p, text) == Ok(url) }

  predicate Ready(url: string) { !IsLocal(url) && Normalized(url) == Ok(url) }

  /** The exact condition for publication, in terms of the URL alone: it is not local and
      the manifest's normaliser leaves it as it is. */
  lemma PublishableExactly(t: Template)
    requires Sound(t)
    ensures Publishable(t) <==> Ready(t.repositoryUrl)
  {
    ManifestUrl(t);
    ManifestRead(t);
  }

  lemma ManifestRead(t: Template)
    requires Sound(t) && |t.manifest.repository| <= |t.repositoryUrl|
    ensures Publishable(t) <==> !IsLocal(t.repositoryUrl) && Normalized(t.manifest.repository) == Ok(t.repositoryUrl)
  {
  }

  /** A manifest URL is never longer than the template's; if it normalises to the
      template's, the two are equal and fixed. */
  lemma ManifestUrl(t: Template)
    requires Sound(t)
    ensures |t.manifest.repository| <= |t.repositoryUrl|
    ensures Normalized(t.manifest.repository) == Ok(t.repositoryUrl) <==>
      Normalized(t.repositoryUrl) == Ok(t.repositoryUrl)
  {
    var u, m := t.repositoryUrl, t.manifest.repository;
    NormalizedShortens(u);
    NormalizedShortens(m);
    match t.adapter
    case Upload(_) =>
    case Remote(p) => ProviderUrl(p, u, m);
  }

  lemma ProviderUrl(p: Provider, u: string, m: string)
    requires ParsedBy(p, u) && (m == DropGit(u) || m == DropGit(DropGit(u)))
    ensures |m| <= |u|
    ensures Normalized(m) == Ok(u) <==> Normalized(u) == Ok(u)
  {
    var text :| Parse(p, text) == Ok(u);
    ParsedUrl(p, text);
    NormalizedShortens(m);
    assert EndsWith(u, ".git") ==> |DropGit(u)| < |u|;
    assert |m| <= |DropGit(u)|;
  }

  /** A repository of a provider can be published exactly when its normalised URL does not
      still end in ".git"; if so, the parser leaves it as it is too. */
  lemma ProviderPublishableExactly(t: Template, p: Provider)
    requires Sound(t) && t.adapter == Remote(p)
    ensures Publishable(t) <==> !EndsWith(t.repositoryUrl, ".git")
    ensures Publishable(t) <==> Parse(p, t.repositoryUrl) == Ok(t.repositoryUrl)
  {
    var text :| Parse(p, text) == Ok(t.repositoryUrl);
    PublishableExactly(t);
    ParsedUrl(p, text);
    ParsedIsRemote(p, text);
  }

  lemma ParsedIsRemote(p: Provider, text: string)
    requires Parse(p, text).Ok?
    ensures !IsLocal(Parse(p, text).value)
  {
    NamesShape(p, text);
    CanonicalEnds(p, Names(p, text).value);
    assert "local://"[0] == 'l';
  }

  /** What the manifest makes of a parsed URL, and of what a second parse makes of it. */
  lemma ParsedManifest(p: Provider, text: string)
    requires Parse(p, text).Ok?
    ensures var u := Parse(p, text).value;
      Normalized(u) == Ok(DropGit(u)) &&
        (Parse(p, u).Ok? ==> Parse(p, u).value == DropGit(u) && Normalized(DropGit(u)) == Ok(DropGit(DropGit(u))))
  {
    ParsedUrl(p, text);
    var u := Parse(p, text).value;
    if Parse(p, u).Ok? { ParsedUrl(p, u); }
  }
}
