/**
 The template tables and the operations that change them: import, change of status and
 source sync, each one transaction. What must hold of every template after any run of
 them is stated here and proved.
 */
module TemplateLifecycle {
  import opened Basics
  import opened Strings
  import opened RepositoryUrls
  import opened TemplatePublishing
  import opened TemplateMedia
  import UniqueSlug

  /** Settings and seed rows. Frameworks, categories and providers map slugs to "is active". */
  datatype Env = Env(
    adapters: set<Provider>, frameworks: map<string, bool>, categories: map<string, bool>, autoCreateProviders: bool,
    fold: char -> string, slugify: string -> string)

  datatype Registry = Registry(templates: map<int, Template>, assets: map<int, seq<Asset>>,
                               providers: map<string, bool>)

  /** Python's `a or b` on optional strings. */
  function Or(a: Option<string>, b: Option<string>): Option<string> { if a.Some? && a.value != "" then a else b }

  predicate IsHttps(url: string) { "https://" <= url }

  function FirstHttps(urls: seq<string>): Option<string> {
    if urls == [] then None else if IsHttps(urls[0]) then Some(urls[0]) else FirstHttps(urls[1..])
  }

  // ----- links -----

  predicate Active(rows: map<string, bool>, slug: string) { slug in rows && rows[slug] }

  function ResolveFramework(env: Env, slug: string): Option<string> {
    if slug in env.frameworks && env.frameworks[slug] then Some(slug)
    else if slug != "unknown" && "unknown" in env.frameworks then Some("unknown") else None
  }

  function ActiveProvider(providers: map<string, bool>, slug: string): Option<string> {
    if slug in providers && providers[slug] then Some(slug) else None
  }

  /** The provider row for a repository's owner, created or re-activated if need be. */
  function ResolveProvider(env: Env, providers: map<string, bool>, source: Source)
    : (Option<string>, map<string, bool>)
  {
    var owner := Strip(source.ownerLogin);
    if owner == "" then (ActiveProvider(providers, "community"), providers)
    else if Casefold(env.fold, owner) in {"vibtools", "ygit"} && ActiveProvider(providers, "official").Some? then
      (Some("official"), providers)
    else
      var slug := Take(AdapterName(source.adapter) + "-" + Take(env.slugify(owner), 110), 140);
      (Some(slug), providers[slug := true])
  }

  /** What is found for a repository's owner: the official provider for the official owners, if
      it is active; a row of the adapter's name and the owner's slug, active from now on, for
      every other owner; and without an owner the catch-all one, if it is active. */
  lemma ProviderResolved(env: Env, providers: map<string, bool>, source: Source)
    ensures var (found, after) := ResolveProvider(env, providers, source);
      var owner := Strip(source.ownerLogin);
      var own := Take(AdapterName(source.adapter) + "-" + Take(env.slugify(owner), 110), 140);
      var official := Casefold(env.fold, owner) in {"vibtools", "ygit"} && Active(providers, "official");
      && (owner == "" ==>
            after == providers && found == if Active(providers, "community") then Some("community") else None)
      && (owner != "" && official ==> after == providers && found == Some("official"))
      && (owner != "" && !official ==> after == providers[own := true] && found == Some(own))
  {
  }

  /** A chosen row must exist, active or not. */
  function ResolveCategory(env: Env, chosen: Option<string>, inferred: string): Result<Option<string>> {
    if chosen.Some? then if chosen.value in env.categories then Ok(chosen) else Err("selected category does not exist")
    else if inferred in env.categories && env.categories[inferred] then Ok(Some(inferred))
    else if "general" in env.categories && env.categories["general"] then Ok(Some("general"))
    else Ok(None)
  }

  // ----- import -----

  /** What accompanies an import: the chosen rows, the unique slug, and the URL the
      screenshot service returns if it is asked. */
  datatype Choice = Choice(category: Option<string>, provider: Option<string>, slug: string,
                           generated: Option<string>, now: int)

  predicate Registered(reg: Registry, source: Source) {
    exists id :: id in reg.templates &&
      (reg.templates[id].repositoryUrl == source.repositoryUrl || reg.templates[id].externalId == source.externalId)
  }

  function Slugs(reg: Registry): set<string> { set id | id in reg.templates :: reg.templates[id].slug }

  function PreviewAtImport(source: Source): Option<string> {
    if source.homepageUrl.Some? && IsHttps(source.homepageUrl.value) then source.homepageUrl else None
  }

  function ThumbnailAtImport(source: Source, a: Analysis, generated: Option<string>): Option<string> {
    if a.screenshots != [] && IsHttps(a.screenshots[0]) then Some(a.screenshots[0])
    else if PreviewAtImport(source).Some? then Or(generated, None) else None
  }

  predicate UsesGenerated(source: Source, a: Analysis, generated: Option<string>) {
    ThumbnailAtImport(source, a, None).None? && ThumbnailAtImport(source, a, generated).Some?
  }

  function ScreenshotsAtImport(source: Source, a: Analysis, generated: Option<string>): seq<string> {
    var thumbnail := ThumbnailAtImport(source, a, generated);
    Take(if UsesGenerated(source, a, generated) && thumbnail.Some? && thumbnail.value !in a.screenshots
         then [thumbnail.value] + a.screenshots else a.screenshots, MAX_SCREENSHOTS)
  }

  function AssetsAtImport(source: Source, a: Analysis, generated: Option<string>): seq<Asset> {
    var urls, thumbnail := ScreenshotsAtImport(source, a, generated), ThumbnailAtImport(source, a, generated);
    seq(|urls|, k requires 0 <= k < |urls| =>
      if UsesGenerated(source, a, generated) && Some(urls[k]) == thumbnail
      then Asset(Thumbnail, urls[k], ScreenshotService, k)
      else Asset(Screenshot, urls[k], Discovered(AdapterName(source.adapter)), k))
  }

  function NewTemplate(source: Source, a: Analysis, c: Choice, manifest: Manifest, framework: string,
                       category: Option<string>, provider: Option<string>): Template {
    Template(a.title, c.slug, source.repositoryUrl, source.adapter, source.externalId, source.defaultBranch,
             source.homepageUrl, PreviewAtImport(source), ThumbnailAtImport(source, a, c.generated),
             ScreenshotsAtImport(source, a, c.generated), source.licenseSpdx, Or(a.language, source.primaryLanguage),
             a.frameworkVersion, a.packageManager, a.difficulty, a.useCase, a.tags, manifest, a, a.qualityScore,
             source.starsCount, source.forksCount, Draft, None, c.now, c.now, source.sourceUpdatedAt,
             category, provider, Some(framework))
  }

  /** `import_imported_repository`: one new draft, or an error and no change. */
  function Imported(env: Env, reg: Registry, id: int, source: Source, a: Analysis, c: Choice): Result<Registry> {
    if Registered(reg, source) then Err("already registered")
    else
      var category := ResolveCategory(env, c.category, a.categorySlug);
      var (provider, providers) :=
        if c.provider.Some? then (c.provider, reg.providers)
        else if env.autoCreateProviders then ResolveProvider(env, reg.providers, source)
        else (ActiveProvider(reg.providers, "community"), reg.providers);
      var framework := ResolveFramework(env, a.frameworkSlug);
      if category.Err? then Err(category.reason)
      else if c.provider.Some? && c.provider.value !in reg.providers then Err("selected provider does not exist")
      else if framework.None? then Err("the 'unknown' framework seed is missing")
      else
        var manifest :=
          BuildManifest(framework.value, source.repositoryUrl, source.defaultBranch, a.title, Some(a), V2);
        if manifest.Err? then Err(manifest.reason)
        else if id in reg.templates || c.slug in Slugs(reg) || !Distinct(ScreenshotsAtImport(source, a, c.generated))
        then Err("unique constraint")
        else Ok(Registry(
          reg.templates[id := NewTemplate(source, a, c, manifest.value, framework.value, category.value, provider)],
          reg.assets[id := AssetsAtImport(source, a, c.generated)], providers))
  }

  // ----- what an import leaves -----

  /** The framework a template is linked to: the inferred one if it is active. */
  function FrameworkFor(env: Env, a: Analysis): string {
    if Active(env.frameworks, a.frameworkSlug) then a.frameworkSlug else "unknown"
  }

  /** What an import and a sync take over from the source and its analysis. */
  ghost predicate TakenOver(t: Template, source: Source, a: Analysis, now: int) {
    && t.defaultBranch == source.defaultBranch && t.homepageUrl == source.homepageUrl
    && t.licenseSpdx == source.licenseSpdx && t.starsCount == source.starsCount && t.forksCount == source.forksCount
    && t.sourceUpdatedAt == source.sourceUpdatedAt
    && t.primaryLanguage == (if a.language.Some? && a.language.value != "" then a.language else source.primaryLanguage)
    && t.frameworkVersion == a.frameworkVersion && t.packageManager == a.packageManager
    && t.difficulty == a.difficulty && t.useCase == a.useCase && t.topics == a.tags
    && t.qualityScore == a.qualityScore && t.analysis == a
    && t.lastSyncedAt == now && t.lastAnalysisAt == now
  }

  /** The manifest is of version 2 and says what the template says. */
  ghost predicate Manifested(m: Manifest, name: string, framework: string, url: string, branch: string, a: Analysis) {
    && Normalized(url) == Ok(m.repository)
    && m == Manifest(V2, Some(name), framework, a.frameworkVersion, a.language, a.packageManager, m.repository, branch)
  }

  /** When an import with an unused slug and row id succeeds. */
  ghost predicate Importable(env: Env, reg: Registry, source: Source, a: Analysis, c: Choice) {
    && (forall id :: id in reg.templates ==>
          reg.templates[id].repositoryUrl != source.repositoryUrl && reg.templates[id].externalId != source.externalId)
    && (c.category.Some? ==> c.category.value in env.categories)
    && (c.provider.Some? ==> c.provider.value in reg.providers)
    && (Active(env.frameworks, a.frameworkSlug) || (a.frameworkSlug != "unknown" && "unknown" in env.frameworks))
    && BuildManifest(FrameworkFor(env, a), source.repositoryUrl, source.defaultBranch, a.title, Some(a), V2).Ok?
    && Distinct(ScreenshotsAtImport(source, a, c.generated))
  }

  /** The screenshots, the thumbnail and the assets: what the source lists, and first the
      screenshot of an https home page if the first listed one is not of https. */
  ghost predicate Illustrated(t: Template, assets: seq<Asset>, source: Source, a: Analysis, generated: Option<string>) {
    var listed := a.screenshots != [] && "https://" <= a.screenshots[0];
    var page := source.homepageUrl.Some? && "https://" <= source.homepageUrl.value;
    var shot := !listed && page && generated.Some? && generated.value != "";
    && t.previewUrl == (if page then source.homepageUrl else None)
    && t.thumbnailUrl == (if listed then Some(a.screenshots[0]) else if shot then generated else None)
    && t.screenshots == Take(if shot && generated.value !in a.screenshots then [generated.value] + a.screenshots
                             else a.screenshots, 20)
    && |assets| == |t.screenshots|
    && forall k :: 0 <= k < |assets| ==>
         if shot && t.screenshots[k] == generated.value
         then assets[k] == Asset(Thumbnail, t.screenshots[k], ScreenshotService, k)
         else assets[k] == Asset(Screenshot, t.screenshots[k], Discovered(AdapterName(source.adapter)), k)
  }

  /** The rows a draft is linked to: chosen ones, or those inferred from the source. */
  ghost predicate Linked(env: Env, reg: Registry, t: Template, providers: map<string, bool>, source: Source,
                         a: Analysis, c: Choice) {
    && t.framework == Some(FrameworkFor(env, a))
    && t.category == (if c.category.Some? then c.category
                      else if Active(env.categories, a.categorySlug) then Some(a.categorySlug)
                      else if Active(env.categories, "general") then Some("general") else None)
    && if c.provider.None? && env.autoCreateProviders
       then (t.provider, providers) == ResolveProvider(env, reg.providers, source)
       else (t.provider, providers) == (if c.provider.Some? then c.provider
                                        else if Active(reg.providers, "community") then Some("community")
                                        else None, reg.providers)
  }

  /** Nothing but the template `id` and its assets has changed, apart from the providers. */
  ghost predicate OnlyAt(reg: Registry, after: Registry, id: int) {
    && id in after.templates && id in after.assets
    && after.templates == reg.templates[id := after.templates[id]]
    && after.assets == reg.assets[id := after.assets[id]]
  }

  /** A draft of the source under the chosen slug. */
  ghost predicate Drafted(t: Template, source: Source, a: Analysis, c: Choice) {
    && t.name == a.title && t.slug == c.slug && t.repositoryUrl == source.repositoryUrl
    && t.adapter == source.adapter && t.externalId == source.externalId
    && t.status.Draft? && t.publishedAt.None?
    && TakenOver(t, source, a, c.now)
  }

  ghost predicate ImportedAs(env: Env, reg: Registry, after: Registry, id: int, source: Source, a: Analysis, c: Choice)
  {
    && id !in reg.templates && OnlyAt(reg, after, id)
    && var t := after.templates[id];
       && Drafted(t, source, a, c) && Linked(env, reg, t, after.providers, source, a, c)
       && Illustrated(t, after.assets[id], source, a, c.generated)
       && Manifested(t.manifest, a.title, FrameworkFor(env, a), source.repositoryUrl, source.defaultBranch, a)
  }

  lemma NewIllustrated(source: Source, a: Analysis, c: Choice, m: Manifest, framework: string,
                       category: Option<string>, provider: Option<string>)
    ensures var t := NewTemplate(source, a, c, m, framework, category, provider);
      Illustrated(t, AssetsAtImport(source, a, c.generated), source, a, c.generated)
  {
  }

  lemma NewDrafted(source: Source, a: Analysis, c: Choice, m: Manifest, framework: string,
                   category: Option<string>, provider: Option<string>)
    ensures Drafted(NewTemplate(source, a, c, m, framework, category, provider), source, a, c)
  {
  }

  lemma ImportedIff(env: Env, reg: Registry, id: int, source: Source, a: Analysis, c: Choice)
    requires id !in reg.templates && c.slug !in Slugs(reg)
    ensures Imported(env, reg, id, source, a, c).Ok? <==> Importable(env, reg, source, a, c)
  {
  }

  lemma ImportedLeaves(env: Env, reg: Registry, id: int, source: Source, a: Analysis, c: Choice)
    requires Imported(env, reg, id, source, a, c).Ok?
    ensures ImportedAs(env, reg, Imported(env, reg, id, source, a, c).value, id, source, a, c)
  {
    var t := Imported(env, reg, id, source, a, c).value.templates[id];
    BuiltExactly(FrameworkFor(env, a), source.repositoryUrl, source.defaultBranch, a.title, a);
    NewIllustrated(source, a, c, t.manifest, FrameworkFor(env, a), t.category, t.provider);
    NewDrafted(source, a, c, t.manifest, FrameworkFor(env, a), t.category, t.provider);
  }

  /** `import_repository`: the adapter normalises the URL before the source is fetched. */
  function ImportedByUrl(env: Env, reg: Registry, id: int, url: string, adapter: Adapter, fetched: Result<Source>,
                         a: Analysis, c: Choice): Result<Registry> {
    var stripped := Strip(url);
    if stripped == "" || |stripped| > 500 then Err("repository URL is required and must not exceed 500 characters")
    else
      var source := Fetched(env, adapter, stripped, fetched);
      if source.Err? then Err(source.reason) else Imported(env, reg, id, source.value, a, c)
  }

  /** An adapter's `import_repository`: `fetched` is what the provider's API returns. */
  function Fetched(env: Env, adapter: Adapter, url: string, fetched: Result<Source>): Result<Source> {
    if adapter.Upload? || adapter.provider !in env.adapters then Err("unsupported registry adapter")
    else
      var normalized := Parse(adapter.provider, url);
      if normalized.Err? then Err(normalized.reason)
      else if fetched.Err? then fetched
      else Ok(fetched.value.(adapter := adapter, repositoryUrl := normalized.value))
  }

  /** Whether an import succeeds does not depend on which unused slug it gets. */
  lemma AnyUnusedSlug(env: Env, reg: Registry, id: int, source: Source, a: Analysis, c: Choice, s: string, t: string)
    requires s !in Slugs(reg) && t !in Slugs(reg)
    ensures Imported(env, reg, id, source, a, c.(slug := s)).Ok? == Imported(env, reg, id, source, a, c.(slug := t)).Ok?
  {
  }

  // ----- status -----

  function WithStatus(t: Template, status: Status, now: int): Template {
    t.(status := status,
       publishedAt := if status.Published? then (if t.publishedAt.Some? then t.publishedAt else Some(now))
                      else if t.status.Published? then None else t.publishedAt)
  }

  /** The row has the status. Its publication time is the old one or else now when it is
      published, none when it leaves PUBLISHED, and as it was otherwise. Nothing else changed. */
  ghost predicate HasStatus(t: Template, t': Template, status: Status, now: int) {
    && t' == t.(status := status, publishedAt := t'.publishedAt)
    && (status.Published? && t.publishedAt.Some? ==> t'.publishedAt == t.publishedAt)
    && (status.Published? && t.publishedAt.None? ==> t'.publishedAt == Some(now))
    && (!status.Published? && t.status.Published? ==> t'.publishedAt.None?)
    && (!status.Published? && !t.status.Published? ==> t'.publishedAt == t.publishedAt)
  }

  /** Exactly the rows have the status. */
  ghost predicate HaveStatus(before: map<int, Template>, after: map<int, Template>, rows: set<int>, status: Status,
                             now: int) {
    && after.Keys == before.Keys
    && forall id :: id in before ==>
         if id in rows then HasStatus(before[id], after[id], status, now) else after[id] == before[id]
  }

  function Selected(templates: map<int, Template>, ids: seq<int>): (rows: set<int>)
    ensures rows <= templates.Keys
    ensures forall id :: id in rows <==> id in ids && id in templates
  {
    set id | id in ids && id in templates
  }

  function StatusSet(reg: Registry, ids: seq<int>, status: Status, now: int): Result<Registry> {
    var rows := Selected(reg.templates, ids);
    if rows == {} then Err("no templates were selected")
    else if status.Published? && !AllPublishable(reg.templates, rows) then Err("not ready for publication")
    else Ok(reg.(templates := Restated(reg.templates, rows, status, now)))
  }

  predicate AllPublishable(templates: map<int, Template>, rows: set<int>)
    requires rows <= templates.Keys
  {
    forall id :: id in rows ==> Publishable(templates[id])
  }

  function Restated(templates: map<int, Template>, rows: set<int>, status: Status, now: int): map<int, Template> {
    map id | id in templates :: if id in rows then WithStatus(templates[id], status, now) else templates[id]
  }

  // ----- sync -----

  datatype Field =
    | DefaultBranch | HomepageUrl | LicenseSpdx | FrameworkVersion | Language
    | QualityScore | StarsCount | ForksCount | ScreenshotCount

  datatype Fact = Text(text: Option<string>) | Number(n: int)

  datatype Change = Change(before: Fact, after: Fact)

  /** The tracked fields of a template. */
  function FactOf(t: Template, f: Field): Fact {
    match f
    case DefaultBranch => Text(Some(t.defaultBranch))
    case HomepageUrl => Text(t.homepageUrl)
    case LicenseSpdx => Text(t.licenseSpdx)
    case FrameworkVersion => Text(t.frameworkVersion)
    case Language => Text(t.primaryLanguage)
    case QualityScore => Number(t.qualityScore)
    case StarsCount => Number(t.starsCount)
    case ForksCount => Number(t.forksCount)
    case ScreenshotCount => Number(|t.screenshots|)
  }

  /** The same fields as a source reports them. */
  function NewFact(source: Source, a: Analysis, f: Field): Fact {
    match f
    case DefaultBranch => Text(Some(source.defaultBranch))
    case HomepageUrl => Text(source.homepageUrl)
    case LicenseSpdx => Text(source.licenseSpdx)
    case FrameworkVersion => Text(a.frameworkVersion)
    case Language => Text(Or(a.language, source.primaryLanguage))
    case QualityScore => Number(a.qualityScore)
    case StarsCount => Number(source.starsCount)
    case ForksCount => Number(source.forksCount)
    case ScreenshotCount => Number(|a.screenshots|)
  }

  const FIELDS: set<Field> := {
    DefaultBranch, HomepageUrl, LicenseSpdx, FrameworkVersion, Language,
    QualityScore, StarsCount, ForksCount, ScreenshotCount
  }

  /** `_changes`. */
  function Changes(t: Template, source: Source, a: Analysis): map<Field, Change> {
    map f | f in FIELDS && FactOf(t, f) != NewFact(source, a, f) :: Change(FactOf(t, f), NewFact(source, a, f))
  }

  /** The change set a sync records: the screenshot count is replaced by that of the merged
      list, and dropped if it is the same. */
  function Recorded(t: Template, source: Source, a: Analysis, merged: seq<string>): map<Field, Change> {
    var changes := Changes(t, source, a)[ScreenshotCount := Change(Number(|t.screenshots|), Number(|merged|))];
    if changes[ScreenshotCount].before == changes[ScreenshotCount].after then changes - {ScreenshotCount} else changes
  }

  function Refreshed(t: Template, source: Source, a: Analysis, merged: seq<string>, manifest: Manifest,
                     framework: string, provider: Option<string>, now: int): Template {
    t.(defaultBranch := source.defaultBranch, homepageUrl := source.homepageUrl,
       previewUrl := Or(t.previewUrl, source.homepageUrl), licenseSpdx := source.licenseSpdx,
       primaryLanguage := Or(a.language, source.primaryLanguage), frameworkVersion := a.frameworkVersion,
       packageManager := a.packageManager, difficulty := a.difficulty, useCase := a.useCase, topics := a.tags,
       analysis := a, qualityScore := a.qualityScore, starsCount := source.starsCount, forksCount := source.forksCount,
       screenshots := merged, thumbnailUrl := Or(t.thumbnailUrl, FirstHttps(merged)), framework := Some(framework),
       provider := provider, manifest := manifest, lastSyncedAt := now, lastAnalysisAt := now,
       sourceUpdatedAt := source.sourceUpdatedAt)
  }

  datatype SyncOutcome = SyncOutcome(registry: Registry, changes: map<Field, Change>)

  function AssetsOf(reg: Registry, id: int): seq<Asset> { if id in reg.assets then reg.assets[id] else [] }

  /** A sync looks for a provider only if there is none yet, or the catch-all one. */
  function NextProvider(env: Env, providers: map<string, bool>, current: Option<string>, source: Source)
    : (Option<string>, map<string, bool>)
  {
    if env.autoCreateProviders && (current.None? || current.value == "community")
    then ResolveProvider(env, providers, source)
    else (current, providers)
  }

  /** The transaction that applies a fetched source to a template. */
  function Applied(env: Env, reg: Registry, id: int, source: Source, a: Analysis, now: int): Result<SyncOutcome>
    requires id in reg.templates
  {
    var t := reg.templates[id];
    var framework := ResolveFramework(env, a.frameworkSlug);
    if framework.None? then Err("the 'unknown' framework seed is missing")
    else
      var merged := Merged(AssetsOf(reg, id), a.screenshots);
      var (provider, providers) := NextProvider(env, reg.providers, t.provider, source);
      var manifest := BuildManifest(framework.value, source.repositoryUrl, source.defaultBranch, t.name, Some(a), V2);
      if manifest.Err? then Err(manifest.reason)
      else if !Distinct(a.screenshots) then Err("unique constraint")
      else Ok(SyncOutcome(
        Registry(reg.templates[id := Refreshed(t, source, a, merged, manifest.value, framework.value, provider, now)],
                 reg.assets[id := AssetsAfter(AssetsOf(reg, id), AdapterName(source.adapter), a.screenshots)],
                 providers),
        Recorded(t, source, a, merged)))
  }

  // ----- what a sync leaves -----

  /** A sync changes what it takes over and the list of screenshots, and else only what was
      missing: the preview and the thumbnail. */
  ghost predicate Resynced(t: Template, t': Template, source: Source, a: Analysis, now: int) {
    && t'.name == t.name && t'.slug == t.slug && t'.repositoryUrl == t.repositoryUrl && t'.adapter == t.adapter
    && t'.externalId == t.externalId && t'.category == t.category
    && t'.status == t.status && t'.publishedAt == t.publishedAt
    && TakenOver(t', source, a, now)
    && t'.previewUrl == (if t.previewUrl.Some? && t.previewUrl.value != "" then t.previewUrl else source.homepageUrl)
    && if t.thumbnailUrl.Some? && t.thumbnailUrl.value != "" then t'.thumbnailUrl == t.thumbnailUrl
       else IsFirstHttps(t'.thumbnailUrl, t'.screenshots)
  }

  /** A provider is looked for if there was none yet, or the catch-all one. */
  ghost predicate Relinked(env: Env, reg: Registry, t: Template, t': Template, providers: map<string, bool>,
                           source: Source, a: Analysis) {
    && t'.framework == Some(FrameworkFor(env, a))
    && if env.autoCreateProviders && (t.provider.None? || t.provider.value == "community")
       then (t'.provider, providers) == ResolveProvider(env, reg.providers, source)
       else t'.provider == t.provider && providers == reg.providers
  }

  ghost predicate SyncedAs(env: Env, reg: Registry, after: Registry, id: int, source: Source, a: Analysis, now: int)
    requires id in reg.templates
  {
    && OnlyAt(reg, after, id)
    && var t, t', rows := reg.templates[id], after.templates[id], AssetsOf(reg, id);
       && Resynced(t, t', source, a, now) && Relinked(env, reg, t, t', after.providers, source, a)
       && t'.screenshots == Merged(rows, a.screenshots)
       && after.assets[id] == AssetsAfter(rows, AdapterName(source.adapter), a.screenshots)
       && Manifested(t'.manifest, if t.name == "" then a.title else t.name, FrameworkFor(env, a), source.repositoryUrl,
                     source.defaultBranch, a)
  }

  /** The first URL of https, if there is one. */
  ghost predicate IsFirstHttps(found: Option<string>, urls: seq<string>) {
    match found
    case None => forall k :: 0 <= k < |urls| ==> !("https://" <= urls[k])
    case Some(url) =>
      && "https://" <= url
      && exists k :: 0 <= k < |urls| && urls[k] == url && forall j :: 0 <= j < k ==> !("https://" <= urls[j])
  }

  lemma {:induction false} FirstHttpsIs(urls: seq<string>)
    ensures IsFirstHttps(FirstHttps(urls), urls)
  {
    if urls != [] && !IsHttps(urls[0]) {
      FirstHttpsIs(urls[1..]);
      if FirstHttps(urls).Some? {
        var k :| 0 <= k < |urls[1..]| && urls[1..][k] == FirstHttps(urls).value
          && forall j :: 0 <= j < k ==> !("https://" <= urls[1..][j]);
        assert urls[k + 1] == FirstHttps(urls).value;
        forall j | 0 <= j < k + 1 ensures !("https://" <= urls[j]) {
          if j > 0 { assert urls[j] == urls[1..][j - 1]; }
        }
      } else {
        forall k | 0 <= k < |urls| ensures !("https://" <= urls[k]) {
          if k > 0 { assert urls[k] == urls[1..][k - 1]; }
        }
      }
    }
  }

  /** When a sync succeeds, given what its source delivered. */
  ghost predicate Syncable(env: Env, t: Template, source: Source, a: Analysis) {
    && (Active(env.frameworks, a.frameworkSlug) || (a.frameworkSlug != "unknown" && "unknown" in env.frameworks))
    && BuildManifest(FrameworkFor(env, a), source.repositoryUrl, source.defaultBranch, t.name, Some(a), V2).Ok?
    && Distinct(a.screenshots)
  }

  lemma AppliedIff(env: Env, reg: Registry, id: int, source: Source, a: Analysis, now: int)
    requires id in reg.templates
    ensures Applied(env, reg, id, source, a, now).Ok? <==> Syncable(env, reg.templates[id], source, a)
  {
  }

  lemma AppliedLeaves(env: Env, reg: Registry, id: int, source: Source, a: Analysis, now: int)
    requires id in reg.templates && Applied(env, reg, id, source, a, now).Ok?
    ensures SyncedAs(env, reg, Applied(env, reg, id, source, a, now).value.registry, id, source, a, now)
  {
    var after := Applied(env, reg, id, source, a, now).value.registry;
    var t, t', framework := reg.templates[id], after.templates[id], FrameworkFor(env, a);
    var m := BuildManifest(framework, source.repositoryUrl, source.defaultBranch, t.name, Some(a), V2);
    var (provider, providers) := NextProvider(env, reg.providers, t.provider, source);
    assert t' == Refreshed(t, source, a, Merged(AssetsOf(reg, id), a.screenshots), m.value, framework, provider, now);
    BuiltExactly(framework, source.repositoryUrl, source.defaultBranch, t.name, a);
    RefreshedFields(t, source, a, Merged(AssetsOf(reg, id), a.screenshots), m.value, framework, provider, now);
  }

  lemma RefreshedFields(t: Template, source: Source, a: Analysis, merged: seq<string>, manifest: Manifest,
                        framework: string, provider: Option<string>, now: int)
    ensures Resynced(t, Refreshed(t, source, a, merged, manifest, framework, provider, now), source, a, now)
  {
    FirstHttpsIs(merged);
  }

  /** The change set has a tracked field exactly if it changed, with both its values. */
  ghost predicate Tracks(changes: map<Field, Change>, f: Field, before: Fact, after: Fact) {
    (f in changes <==> before != after) && (f in changes ==> changes[f] == Change(before, after))
  }

  ghost predicate TracksAll(changes: map<Field, Change>, t: Template, t': Template) {
    && Tracks(changes, DefaultBranch, Text(Some(t.defaultBranch)), Text(Some(t'.defaultBranch)))
    && Tracks(changes, HomepageUrl, Text(t.homepageUrl), Text(t'.homepageUrl))
    && Tracks(changes, LicenseSpdx, Text(t.licenseSpdx), Text(t'.licenseSpdx))
    && Tracks(changes, FrameworkVersion, Text(t.frameworkVersion), Text(t'.frameworkVersion))
    && Tracks(changes, Language, Text(t.primaryLanguage), Text(t'.primaryLanguage))
    && Tracks(changes, QualityScore, Number(t.qualityScore), Number(t'.qualityScore))
    && Tracks(changes, StarsCount, Number(t.starsCount), Number(t'.starsCount))
    && Tracks(changes, ForksCount, Number(t.forksCount), Number(t'.forksCount))
    && Tracks(changes, ScreenshotCount, Number(|t.screenshots|), Number(|t'.screenshots|))
  }

  lemma RecordedTracks(t: Template, source: Source, a: Analysis, merged: seq<string>, m: Manifest, framework: string,
                       provider: Option<string>, now: int)
    ensures TracksAll(Recorded(t, source, a, merged), t,
      Refreshed(t, source, a, merged, m, framework, provider, now))
  {
  }

  /** A fetch takes an adapter that exists and parses the URL. */
  lemma FetchedIff(env: Env, adapter: Adapter, url: string, fetched: Result<Source>)
    ensures Fetched(env, adapter, url, fetched).Ok? <==>
      adapter.Remote? && adapter.provider in env.adapters && Parse(adapter.provider, url).Ok? && fetched.Ok?
  {
  }

  /** It delivers what the provider answers, under the parsed URL. */
  lemma FetchedValue(env: Env, adapter: Adapter, url: string, fetched: Result<Source>)
    requires adapter.Remote? && adapter.provider in env.adapters && Parse(adapter.provider, url).Ok? && fetched.Ok?
    ensures Fetched(env, adapter, url, fetched)
      == Ok(fetched.value.(adapter := adapter, repositoryUrl := Parse(adapter.provider, url).value))
  {
  }

  /** `sync_one`: the template's own URL goes through its adapter again. */
  function Synced(env: Env, reg: Registry, id: int, fetched: Result<Source>, a: Analysis, now: int)
    : Result<SyncOutcome>
  {
    if id !in reg.templates then Err("template not found")
    else
      var source := Fetched(env, reg.templates[id].adapter, reg.templates[id].repositoryUrl, fetched);
      if source.Err? then Err(source.reason) else Applied(env, reg, id, source.value, a, now)
  }

  /** The source of a sync: the template's URL, parsed again. */
  function Refetched(t: Template, source: Source): Source
    requires t.adapter.Remote? && Parse(t.adapter.provider, t.repositoryUrl).Ok?
  {
    source.(adapter := t.adapter, repositoryUrl := Parse(t.adapter.provider, t.repositoryUrl).value)
  }

  ghost predicate Fetchable(env: Env, t: Template, fetched: Result<Source>) {
    && t.adapter.Remote? && t.adapter.provider in env.adapters && Parse(t.adapter.provider, t.repositoryUrl).Ok?
    && fetched.Ok?
  }

  lemma SyncedExactly(env: Env, reg: Registry, id: int, fetched: Result<Source>, a: Analysis, now: int)
    requires id in reg.templates
    ensures var t, done := reg.templates[id], Synced(env, reg, id, fetched, a, now);
      && (done.Ok? <==> Fetchable(env, t, fetched) && Syncable(env, t, Refetched(t, fetched.value), a))
      && (done.Ok? ==>
            && SyncedAs(env, reg, done.value.registry, id, Refetched(t, fetched.value), a, now)
            && TracksAll(done.value.changes, t, done.value.registry.templates[id]))
  {
    var t := reg.templates[id];
    FetchedIff(env, t.adapter, t.repositoryUrl, fetched);
    if Fetchable(env, t, fetched) {
      FetchedValue(env, t.adapter, t.repositoryUrl, fetched);
      var source := Refetched(t, fetched.value);
      AppliedIff(env, reg, id, source, a, now);
      if Applied(env, reg, id, source, a, now).Ok? {
        AppliedLeaves(env, reg, id, source, a, now);
        AppliedTracks(env, reg, id, source, a, now);
      }
    }
  }

  lemma AppliedTracks(env: Env, reg: Registry, id: int, source: Source, a: Analysis, now: int)
    requires id in reg.templates && Applied(env, reg, id, source, a, now).Ok?
    ensures var done, t := Applied(env, reg, id, source, a, now).value, reg.templates[id];
      TracksAll(done.changes, t, done.registry.templates[id])
  {
    var t, framework := reg.templates[id], FrameworkFor(env, a);
    var m := BuildManifest(framework, source.repositoryUrl, source.defaultBranch, t.name, Some(a), V2).value;
    RecordedTracks(t, source, a, Merged(AssetsOf(reg, id), a.screenshots), m, framework,
      NextProvider(env, reg.providers, t.provider, source).0, now);
  }

  /** The body of the status loop for one template. */
  method ChangeOne(template: Template, status: Status, now: int) returns (r: Result<Template>)
    ensures r.Ok? <==> (status.Published? ==> Publishable(template))
    ensures r.Ok? ==> r.value == WithStatus(template, status, now) && HasStatus(template, r.value, status, now)
  {
    var changed := template;
    if status.Published? {
      var checked := ValidateForPublication(template);
      if checked.Err? { return Err(checked.reason); }
      changed := changed.(publishedAt := if changed.publishedAt.Some? then changed.publishedAt else Some(now));
    } else if changed.status.Published? {
      changed := changed.(publishedAt := None);
    }
    return Ok(changed.(status := status));
  }

  /** The status loop, on the rows of one session. */
  method ChangeAll(templates: map<int, Template>, rows: set<int>, status: Status, now: int)
    returns (r: Result<map<int, Template>>)
    requires rows <= templates.Keys
    ensures r.Ok? <==> (status.Published? ==> AllPublishable(templates, rows))
    ensures r.Ok? ==> r.value == Restated(templates, rows, status, now)
    ensures r.Ok? ==> HaveStatus(templates, r.value, rows, status, now)
  {
    var session := templates;
    var left := rows;
    while left != {}
      invariant left <= rows && session == Restated(templates, rows - left, status, now)
      invariant status.Published? ==> AllPublishable(templates, rows - left)
      decreases |left|
    {
      HasElement(left);
      var id :| id in left;
      var changed := ChangeOne(session[id], status, now);
      if changed.Err? { return Err(changed.reason); }
      RestatedStep(templates, rows - left, id, status, now);
      assert rows - (left - {id}) == rows - left + {id};
      session, left := session[id := changed.value], left - {id};
    }
    assert rows - left == rows;
    RestatedHave(templates, rows, status, now);
    return Ok(session);
  }

  lemma RestatedHave(templates: map<int, Template>, rows: set<int>, status: Status, now: int)
    ensures HaveStatus(templates, Restated(templates, rows, status, now), rows, status, now)
  {
  }

  lemma HasElement(s: set<int>)
    requires s != {}
    ensures exists id :: id in s
  {
    assert (forall id :: id !in s) ==> s == {};
  }

  lemma RestatedStep(templates: map<int, Template>, rows: set<int>, id: int, status: Status, now: int)
    requires id in templates && id !in rows
    ensures Restated(templates, rows + {id}, status, now)
      == Restated(templates, rows, status, now)[id := WithStatus(templates[id], status, now)]
  {
  }

  /** The field updates of a sync, in the order they are made. */
  method RefreshRow(t: Template, rows: seq<Asset>, source: Source, a: Analysis, framework: string)
    returns (template: Template, changes: map<Field, Change>)
    ensures var merged := Merged(rows, a.screenshots);
      && template == Refreshed(t, source, a, merged, t.manifest, framework, t.provider, t.lastSyncedAt)
                     .(lastAnalysisAt := t.lastAnalysisAt, sourceUpdatedAt := t.sourceUpdatedAt)
      && changes == Recorded(t, source, a, merged)
  {
    changes := Changes(t, source, a);
    template := t.(
      defaultBranch := source.defaultBranch, homepageUrl := source.homepageUrl,
      previewUrl := Or(t.previewUrl, source.homepageUrl), licenseSpdx := source.licenseSpdx,
      primaryLanguage := Or(a.language, source.primaryLanguage), frameworkVersion := a.frameworkVersion,
      packageManager := a.packageManager, difficulty := a.difficulty, useCase := a.useCase, topics := a.tags,
      analysis := a, qualityScore := a.qualityScore, starsCount := source.starsCount, forksCount := source.forksCount);
    var combined := Merged(rows, a.screenshots);
    changes := changes[ScreenshotCount := Change(Number(|template.screenshots|), Number(|combined|))];
    if changes[ScreenshotCount].before == changes[ScreenshotCount].after { changes := changes - {ScreenshotCount}; }
    template := template.(
      screenshots := combined, thumbnailUrl := Or(template.thumbnailUrl, FirstHttps(combined)),
      framework := Some(framework));
  }

  /** The second transaction of a sync, on the rows of one session. */
  method Apply(env: Env, reg: Registry, id: int, source: Source, a: Analysis, now: int) returns (r: Result<SyncOutcome>)
    requires id in reg.templates
    ensures var done := Applied(env, reg, id, source, a, now); r.Ok? == done.Ok? && (r.Ok? ==> r == done)
  {
    var framework := ResolveFramework(env, a.frameworkSlug);
    if framework.None? { return Err("the 'unknown' framework seed is missing"); }
    var rows := AssetsOf(reg, id);
    var template, changes := RefreshRow(reg.templates[id], rows, source, a, framework.value);
    var providers := reg.providers;
    if env.autoCreateProviders && (template.provider.None? || template.provider.value == "community") {
      var (provider, more) := ResolveProvider(env, providers, source);
      template := template.(provider := provider);
      providers := more;
    }
    var manifest :=
      BuildManifest(framework.value, source.repositoryUrl, source.defaultBranch, template.name, Some(a), V2);
    if manifest.Err? { return Err(manifest.reason); }
    template := template.(
      manifest := manifest.value, lastSyncedAt := now, lastAnalysisAt := now,
      sourceUpdatedAt := source.sourceUpdatedAt);
    if !Distinct(a.screenshots) { return Err("unique constraint"); }
    return Ok(SyncOutcome(
      Registry(reg.templates[id := template],
        reg.assets[id := AssetsAfter(rows, AdapterName(source.adapter), a.screenshots)], providers), changes));
  }

  // ----- the services -----

  class TemplateServices {
    var templates: map<int, Template>
    var assets: map<int, seq<Asset>>
    var providers: map<string, bool>
    const env: Env

    ghost function State(): Registry
      reads this
    {
      Registry(templates, assets, providers)
    }

    constructor (env: Env, providers: map<string, bool>)
      ensures State() == Registry(map[], map[], providers) && this.env == env
    {
      this.env, this.templates, this.assets, this.providers := env, map[], map[], providers;
    }

    /** Imports what an adapter or an upload delivered. The slug is chosen here, so the
        unique column is never what refuses it. */
    method ImportImported(id: int, source: Source, a: Analysis, c: Choice) returns (r: Result<string>)
      requires id !in templates
      modifies this
      ensures r.Ok? ==>
        r.value !in Slugs(old(State())) &&
        Imported(env, old(State()), id, source, a, c.(slug := r.value)) == Ok(State())
      ensures r.Err? ==> State() == old(State())
      ensures r.Err? ==> forall slug :: slug !in Slugs(old(State())) ==>
        Imported(env, old(State()), id, source, a, c.(slug := slug)).Err?
      ensures r.Ok? <==> Importable(env, old(State()), source, a, c)
      ensures r.Ok? ==> ImportedAs(env, old(State()), State(), id, source, a, c.(slug := r.value))
      ensures r.Ok? ==>
        UniqueSlug.Fresh(env.slugify(if a.title != "" then a.title else source.name), Slugs(old(State())), r.value)
    {
      var reg := Registry(templates, assets, providers);
      var slug, probes := UniqueSlug.Choose(env.slugify(if a.title != "" then a.title else source.name), Slugs(reg));
      var done := Imported(env, reg, id, source, a, c.(slug := slug));
      ImportedIff(env, reg, id, source, a, c.(slug := slug));
      if done.Err? {
        forall other | other !in Slugs(reg) ensures Imported(env, reg, id, source, a, c.(slug := other)).Err? {
          AnyUnusedSlug(env, reg, id, source, a, c, slug, other);
        }
        return Err(done.reason);
      }
      ImportedLeaves(env, reg, id, source, a, c.(slug := slug));
      templates, assets, providers := done.value.templates, done.value.assets, done.value.providers;
      return Ok(slug);
    }

    /** The whole import of a repository: the URL is stripped, normalised by the adapter and
        fetched first, and whatever fails leaves the tables as they were. */
    method ImportRepository(id: int, url: string, adapter: Adapter, fetched: Result<Source>, a: Analysis, c: Choice)
      returns (r: Result<string>)
      requires id !in templates
      modifies this
      ensures r.Ok? ==>
        r.value !in Slugs(old(State())) &&
        ImportedByUrl(env, old(State()), id, url, adapter, fetched, a, c.(slug := r.value)) == Ok(State())
      ensures r.Err? ==> State() == old(State())
      ensures r.Err? ==> forall slug :: slug !in Slugs(old(State())) ==>
        ImportedByUrl(env, old(State()), id, url, adapter, fetched, a, c.(slug := slug)).Err?
      ensures r.Ok? <==>
        && 1 <= |Strip(url)| <= 500
        && adapter.Remote? && adapter.provider in env.adapters && Parse(adapter.provider, Strip(url)).Ok? && fetched.Ok?
        && var source := fetched.value.(adapter := adapter, repositoryUrl := Parse(adapter.provider, Strip(url)).value);
           Importable(env, old(State()), source, a, c)
      ensures r.Ok? ==>
        var source := fetched.value.(adapter := adapter, repositoryUrl := Parse(adapter.provider, Strip(url)).value);
        ImportedAs(env, old(State()), State(), id, source, a, c.(slug := r.value))
    {
      var stripped := Strip(url);
      if stripped == "" || |stripped| > 500 {
        return Err("repository URL is required and must not exceed 500 characters");
      }
      var source := Fetched(env, adapter, stripped, fetched);
      FetchedIff(env, adapter, stripped, fetched);
      if source.Err? { return Err(source.reason); }
      FetchedValue(env, adapter, stripped, fetched);
      r := ImportImported(id, source.value, a, c);
    }

    /** All selected templates get the status or nothing changes: it is refused if none is
        selected or, to publish, if one of them is not publishable. */
    method SetStatus(ids: seq<int>, status: Status, now: int) returns (r: Result<nat>)
      modifies this
      ensures r.Ok? <==>
        && (exists id :: id in ids && id in old(templates))
        && (status.Published? ==> forall id :: id in ids && id in old(templates) ==> Publishable(old(templates)[id]))
      ensures r.Ok? ==> var rows := (set id | id in ids && id in old(templates));
        HaveStatus(old(templates), templates, rows, status, now)
      ensures assets == old(assets) && providers == old(providers) && (r.Err? ==> templates == old(templates))
      ensures var done := StatusSet(old(State()), ids, status, now);
        && r.Ok? == done.Ok? && State() == (if done.Ok? then done.value else old(State()))
        && (r.Ok? ==> r.value == |Selected(old(templates), ids)|)
    {
      var rows := Selected(templates, ids);
      assert rows == (set id | id in ids && id in templates);
      assert (forall id :: id !in rows) ==> rows == {};
      if rows == {} { return Err("no templates were selected"); }
      var session := ChangeAll(templates, rows, status, now);
      if session.Err? { return Err(session.reason); }
      templates := session.value;
      return Ok(|rows|);
    }

    /** A sync commits the refreshed template, its assets and any new provider row together;
        it returns the change set it records, and a failure changes none of them. */
    method SyncOne(id: int, fetched: Result<Source>, a: Analysis, now: int) returns (r: Result<map<Field, Change>>)
      modifies this
      ensures var done := Synced(env, old(State()), id, fetched, a, now);
        && r.Ok? == done.Ok? && State() == (if done.Ok? then done.value.registry else old(State()))
        && (r.Ok? ==> r.value == done.value.changes)
      ensures r.Ok? <==>
        && id in old(templates) && Fetchable(env, old(templates)[id], fetched)
        && Syncable(env, old(templates)[id], Refetched(old(templates)[id], fetched.value), a)
      ensures r.Ok? ==>
        && SyncedAs(env, old(State()), State(), id, Refetched(old(templates)[id], fetched.value), a, now)
        && TracksAll(r.value, old(templates)[id], templates[id])
    {
      if id !in templates { return Err("template not found"); }
      SyncedExactly(env, State(), id, fetched, a, now);
      var got := Fetched(env, templates[id].adapter, templates[id].repositoryUrl, fetched);
      if got.Err? { return Err(got.reason); }
      var done := Apply(env, Registry(templates, assets, providers), id, got.value, a, now);
      if done.Err? { return Err(done.reason); }
      var reg := done.value.registry;
      templates, assets, providers := reg.templates, reg.assets, reg.providers;
      return Ok(done.value.changes);
    }
  }
}
