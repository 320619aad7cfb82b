/** The Playground blueprint the builder produces, the snapshot of the site
    it is produced from, and the specification of every part of the step
    list as functions of that snapshot. */
module Blueprints {
  import opened Php
  import opened Seqs

  const SCHEMA := "https://playground.wordpress.net/blueprint-schema.json"
  const LANDING_PAGE := "/wp-admin/"
  const KITCHEN_SINK := "kitchen-sink"
  /** The theme left out as a workaround for a Playground bug. */
  const SKIPPED_THEME := "twentytwentyfour"
  const THEME_RESOURCE := "wordpress.org/themes"
  const PLUGIN_RESOURCE := "wordpress.org/plugins"
  /** The REST namespace both public routes live in. */
  const REST_NAMESPACE := "blueprint-builder/v1"
  /** Options of at most this many entries go in one `setSiteOptions` step. */
  const CHUNK_SIZE := 10

  /** The `in_array` test for the plugins never installed, whatever the
      registry says: one that breaks the Playground, this plugin itself, and
      one more that breaks it. */
  predicate IsExcluded(slug: string)
  {
    slug == "akismet" || slug == "blueprint-builder" || slug == "plausible-analytics"
  }

  /** Options never copied into the blueprint. */
  const DENIED_OPTIONS: seq<string> := [
    "active_plugins", "auth_key", "auth_salt", "cron", "home",
    "https_detection_errors", "initial_db_version", "logged_in_key",
    "logged_in_salt", "mailserver_url", "mailserver_login", "mailserver_pass",
    "mailserver_port", "new_admin_email", "recently_activated", "recovery_keys",
    "rewrite_rules", "siteurl", "site_icon", "site_logo", "theme_switched"
  ]

  type OptionEntry = (string, Value)

  datatype PreferredVersions = PreferredVersions(php: string, wp: string)

  datatype Features = Features(networking: bool)

  /** One step of the blueprint, in the order the Playground runs them. */
  datatype Step =
    | Login(username: string, password: string)
    | InstallTheme(resource: string, slug: string, activate: bool)
    | InstallPlugin(resource: string, slug: string, activate: bool)
    | ImportFile(resource: string, url: string)
    | SetSiteOptions(options: seq<OptionEntry>)

  datatype Blueprint = Blueprint(
    schema: string,
    preferredVersions: PreferredVersions,
    features: Features,
    phpExtensionBundles: seq<string>,
    landingPage: string,
    steps: seq<Step>)

  /** What the builder reads from the running site. `registered` is the set
      of slugs for which the wordpress.org plugin API answers 200. */
  datatype Site = Site(
    phpVersion: string,
    wpVersion: string,
    template: string,
    activePlugins: seq<string>,
    registered: set<string>,
    allOptions: seq<OptionEntry>,
    key: string,
    siteUrl: string,
    contentDir: string)

  /** An entry of the plugin list `get_active_plugins` returns. */
  datatype PluginInfo = PluginInfo(slug: string, wordpressOrg: bool)

  /** The blueprint a fresh builder starts from. */
  function InitialBlueprint(): Blueprint
  {
    Blueprint(SCHEMA, PreferredVersions("", ""), Features(true), [KITCHEN_SINK], LANDING_PAGE, [])
  }

  /** PHP arrays hold each key once. */
  predicate DistinctKeys(entries: seq<OptionEntry>)
  {
    forall i, j :: 0 <= i < j < |entries| ==> entries[i].0 != entries[j].0
  }

  /** What the code takes for granted about the snapshot: both version
      strings have a second component, and the option table is a PHP array. */
  predicate ValidSite(site: Site)
  {
    '.' in site.phpVersion && '.' in site.wpVersion && DistinctKeys(site.allOptions)
  }

  // ---------------------------------------------------------------------
  // Preferred versions

  /** The first two `.`-separated components, joined again by `.`. */
  function MajorMinor(version: string): string
    requires '.' in version
  {
    var parts := Explode(version, '.');
    parts[0] + "." + parts[1]
  }

  /** The WordPress version to ask for: major.minor, or `nightly` when the
      minor component is not a number (a beta or release candidate). */
  function PreferredWp(version: string): string
    requires '.' in version
  {
    var parts := Explode(version, '.');
    if IsNumeric(parts[1]) then parts[0] + "." + parts[1] else "nightly"
  }

  function PreferredVersionsOf(site: Site): PreferredVersions
    requires '.' in site.phpVersion && '.' in site.wpVersion
  {
    PreferredVersions(MajorMinor(site.phpVersion), PreferredWp(site.wpVersion))
  }

  // ---------------------------------------------------------------------
  // Login, theme and import steps

  function LoginStep(): Step
  {
    Login("admin", "password")
  }

  /** The theme step: none for the skipped theme, otherwise one step that
      installs the active theme from wordpress.org and activates it. */
  function ThemeSteps(template: string): (r: seq<Step>)
    ensures |r| <= 1
    ensures r == [] <==> template == SKIPPED_THEME
    ensures forall k :: 0 <= k < |r| ==>
              r[k].InstallTheme? && r[k].resource == THEME_RESOURCE && r[k].slug == template && r[k].activate
  {
    if template == SKIPPED_THEME then [] else [InstallTheme(THEME_RESOURCE, template, true)]
  }

  /** `site_url($path)` for a path that does not start with `/`. */
  function SiteUrl(base: string, path: string): string
  {
    base + "/" + path
  }

  function WxrUrl(siteUrl: string, key: string): string
  {
    SiteUrl(siteUrl, "wp-json/blueprint-builder/v1/wxr-" + key + ".xml")
  }

  function ImportStep(siteUrl: string, key: string): Step
  {
    ImportFile("url", WxrUrl(siteUrl, key))
  }

  // ---------------------------------------------------------------------
  // Plugin steps

  /** The slug of a plugin: the base name of its main file, without the
      extension (`akismet/akismet.php` gives `akismet`). */
  function Slug(pluginFile: string): string
  {
    FileName(BaseName(pluginFile))
  }

  /** Every slug that is not excluded, in order, flagged with the
      registry's answer. */
  function Listed(slugs: seq<string>, registered: set<string>): seq<PluginInfo>
  {
    if slugs == [] then []
    else
      var slug := slugs[|slugs| - 1];
      Listed(slugs[..|slugs| - 1], registered)
        + (if IsExcluded(slug) then [] else [PluginInfo(slug, slug in registered)])
  }

  /** One more slug extends the list by at most that slug's entry. */
  lemma ListedSnoc(slugs: seq<string>, n: nat, registered: set<string>)
    requires n < |slugs|
    ensures Listed(slugs[..n + 1], registered)
            == Listed(slugs[..n], registered)
               + (if IsExcluded(slugs[n]) then [] else [PluginInfo(slugs[n], slugs[n] in registered)])
  {
    assert slugs[..n + 1][..n] == slugs[..n];
  }

  /** The list `get_active_plugins` builds from the active plugins' files. */
  function ActivePlugins(pluginFiles: seq<string>, registered: set<string>): seq<PluginInfo>
  {
    Listed(Map(pluginFiles, Slug), registered)
  }

  function PluginStep(slug: string): Step
  {
    InstallPlugin(PLUGIN_RESOURCE, slug, true)
  }

  /** One install step per plugin flagged as being on wordpress.org. */
  function PluginSteps(plugins: seq<PluginInfo>): seq<Step>
  {
    if plugins == [] then []
    else
      var last := plugins[|plugins| - 1];
      PluginSteps(plugins[..|plugins| - 1]) + (if last.wordpressOrg then [PluginStep(last.slug)] else [])
  }

  /** One more plugin adds at most its install step. */
  lemma PluginStepsSnoc(plugins: seq<PluginInfo>, n: nat)
    requires n < |plugins|
    ensures PluginSteps(plugins[..n + 1])
            == PluginSteps(plugins[..n]) + (if plugins[n].wordpressOrg then [PluginStep(plugins[n].slug)] else [])
  {
    assert plugins[..n + 1][..n] == plugins[..n];
  }

  // ---------------------------------------------------------------------
  // Option steps

  predicate IsTransientKey(key: string)
  {
    StartsWith(key, "_transient") || StartsWith(key, "_site_transient")
  }

  /** Whether an option survives all three filters. */
  predicate KeptOption(entry: OptionEntry)
  {
    entry.0 !in DENIED_OPTIONS && !IsTransientKey(entry.0) && !IsEmptyValue(entry.1)
  }

  /** `unset($options[$key])`: drop the entry under `key`. */
  function Unset(entries: seq<OptionEntry>, key: string): seq<OptionEntry>
  {
    Filter(entries, (e: OptionEntry) => e.0 != key)
  }

  /** The options without those whose key is in `keys`. */
  function WithoutKeys(entries: seq<OptionEntry>, keys: set<string>): seq<OptionEntry>
  {
    Filter(entries, (e: OptionEntry) => e.0 !in keys)
  }

  /** The test of the second filtering loop: neither transient nor empty. */
  predicate NotTransientNorEmpty(entry: OptionEntry)
  {
    !IsTransientKey(entry.0) && !IsEmptyValue(entry.1)
  }

  /** The elements of a list of keys, as a set. */
  function KeySet(keys: seq<string>): (r: set<string>)
    ensures forall k :: k in r <==> k in keys
  {
    if keys == [] then {}
    else
      assert keys == keys[..|keys| - 1] + [keys[|keys| - 1]];
      KeySet(keys[..|keys| - 1]) + {keys[|keys| - 1]}
  }

  function DeniedSet(): set<string>
  {
    KeySet(DENIED_OPTIONS)
  }

  /** The options the builder copies: denied keys dropped first, then
      transients and empty values. */
  function FilteredOptions(entries: seq<OptionEntry>): seq<OptionEntry>
  {
    Filter(WithoutKeys(entries, DeniedSet()), NotTransientNorEmpty)
  }

  /** Unsetting no key leaves the options as they are. */
  lemma WithoutNoKeys(entries: seq<OptionEntry>)
    ensures WithoutKeys(entries, {}) == entries
  {
    var keys: set<string> := {};
    FilterKeepsAll(entries, (e: OptionEntry) => e.0 !in keys);
  }

  /** One more `unset` extends the set of dropped keys by one. */
  lemma UnsetAfterWithoutKeys(entries: seq<OptionEntry>, keys: set<string>, key: string)
    ensures Unset(WithoutKeys(entries, keys), key) == WithoutKeys(entries, keys + {key})
  {
    FilterTwice(entries, (e: OptionEntry) => e.0 !in keys, (e: OptionEntry) => e.0 != key,
      (e: OptionEntry) => e.0 !in keys + {key});
  }

  /** One turn of the first filtering loop: unsetting the next key of the
      list drops one more key. */
  lemma UnsetNextKey(entries: seq<OptionEntry>, keys: seq<string>, d: nat)
    requires d < |keys|
    ensures Unset(WithoutKeys(entries, KeySet(keys[..d])), keys[d]) == WithoutKeys(entries, KeySet(keys[..d + 1]))
  {
    assert keys[..d + 1] == keys[..d] + [keys[d]];
    assert KeySet(keys[..d + 1]) == KeySet(keys[..d]) + {keys[d]};
    UnsetAfterWithoutKeys(entries, KeySet(keys[..d]), keys[d]);
  }

  /** In an array whose keys are distinct, unsetting the key of one entry
      removes that entry and nothing else. */
  lemma UnsetOne(before: seq<OptionEntry>, entry: OptionEntry, after: seq<OptionEntry>)
    requires forall k :: 0 <= k < |before| ==> before[k].0 != entry.0
    requires forall k :: 0 <= k < |after| ==> after[k].0 != entry.0
    ensures Unset(before + [entry] + after, entry.0) == before + after
  {
    var key := entry.0;
    var keep := (e: OptionEntry) => e.0 != key;
    FilterConcat(before + [entry], after, keep);
    FilterConcat(before, [entry], keep);
    FilterSingleton(entry, keep);
    FilterKeepsAll(before, keep);
    FilterKeepsAll(after, keep);
    assert Filter(before + [entry], keep) == before;
  }

  lemma WithoutKeysDistinct(entries: seq<OptionEntry>, keys: set<string>)
    requires DistinctKeys(entries)
    ensures DistinctKeys(WithoutKeys(entries, keys))
  {
    FilterKeepsKeysDistinct(entries, (e: OptionEntry) => e.0 !in keys);
  }

  /** One turn of the second filtering loop: when the entry at `n` is a
      transient or empty, unsetting its key from the partly filtered array
      removes exactly that entry. */
  lemma TransientLoopStep(snapshot: seq<OptionEntry>, n: nat)
    requires DistinctKeys(snapshot) && n < |snapshot|
    ensures var entry := snapshot[n];
            var current := Filter(snapshot[..n], NotTransientNorEmpty) + snapshot[n..];
            var next := Filter(snapshot[..n + 1], NotTransientNorEmpty) + snapshot[n + 1..];
            if NotTransientNorEmpty(entry) then current == next else Unset(current, entry.0) == next
  {
    var entry, kept, rest := snapshot[n], Filter(snapshot[..n], NotTransientNorEmpty), snapshot[n + 1..];
    FilterPrefixStep(snapshot, n, NotTransientNorEmpty);
    assert snapshot[n..] == [entry] + rest;
    if NotTransientNorEmpty(entry) {
      assert kept + ([entry] + rest) == (kept + [entry]) + rest;
    } else {
      EarlierKeysDiffer(snapshot, n);
      UnsetOne(kept, entry, rest);
      assert kept + ([entry] + rest) == kept + [entry] + rest;
    }
  }

  /** In an array with distinct keys, what the second loop kept of the
      first `n` entries holds no entry under the key of entry `n`. */
  lemma EarlierKeysDiffer(snapshot: seq<OptionEntry>, n: nat)
    requires DistinctKeys(snapshot) && n < |snapshot|
    ensures var kept := Filter(snapshot[..n], NotTransientNorEmpty);
            forall k :: 0 <= k < |kept| ==> kept[k].0 != snapshot[n].0
  {
    var kept := Filter(snapshot[..n], NotTransientNorEmpty);
    forall k | 0 <= k < |kept|
      ensures kept[k].0 != snapshot[n].0
    {
      FilterMembers(snapshot[..n], NotTransientNorEmpty, kept[k]);
      var j :| 0 <= j < n && snapshot[..n][j] == kept[k];
      assert snapshot[j] == kept[k];
    }
  }

  /** Dropping entries keeps the keys distinct. */
  lemma {:induction false} FilterKeepsKeysDistinct(entries: seq<OptionEntry>, keep: OptionEntry -> bool)
    requires DistinctKeys(entries)
    ensures DistinctKeys(Filter(entries, keep))
    decreases |entries|
  {
    if entries != [] {
      var init := entries[..|entries| - 1];
      var last := entries[|entries| - 1];
      FilterKeepsKeysDistinct(init, keep);
      var kept := Filter(init, keep);
      forall k | 0 <= k < |kept|
        ensures kept[k].0 != last.0
      {
        FilterMembers(init, keep, kept[k]);
        var j :| 0 <= j < |init| && init[j] == kept[k];
        assert entries[j] == kept[k];
      }
    }
  }

  /** A split of `s` into chunks of 1 to CHUNK_SIZE entries, all but the last
      of them full, that read back as `s`. */
  predicate IsChunking<T(==)>(chunks: seq<seq<T>>, s: seq<T>)
  {
    && Flatten(chunks) == s
    && (forall k :: 0 <= k < |chunks| ==> 1 <= |chunks[k]| <= CHUNK_SIZE)
    && (forall k :: 0 <= k < |chunks| - 1 ==> |chunks[k]| == CHUNK_SIZE)
  }

  /** The options split into chunks of CHUNK_SIZE. */
  function ChunksOf<T(==)>(s: seq<T>): (chunks: seq<seq<T>>)
    ensures IsChunking(chunks, s)
    decreases |s|
  {
    if s == [] then []
    else if |s| <= CHUNK_SIZE then [s]
    else
      var rest := ChunksOf(s[CHUNK_SIZE..]);
      var chunks := [s[..CHUNK_SIZE]] + rest;
      assert chunks[1..] == rest;
      assert s == s[..CHUNK_SIZE] + s[CHUNK_SIZE..];
      chunks
  }

  /** Chunks that are never empty hold at least one element each. */
  lemma {:induction false} FlattenLength<T>(chunks: seq<seq<T>>)
    requires forall k :: 0 <= k < |chunks| ==> |chunks[k]| >= 1
    ensures |Flatten(chunks)| >= |chunks|
    decreases |chunks|
  {
    if chunks != [] {
      FlattenLength(chunks[1..]);
    }
  }

  /** The first chunk of a chunking is the longest prefix allowed, and the
      remaining chunks chunk the rest. */
  lemma ChunkingHead<T>(chunks: seq<seq<T>>, s: seq<T>)
    requires IsChunking(chunks, s) && chunks != []
    ensures |chunks[0]| == if |s| < CHUNK_SIZE then |s| else CHUNK_SIZE
    ensures chunks[0] == s[..|chunks[0]|]
    ensures IsChunking(chunks[1..], s[|chunks[0]|..])
  {
    var rest := chunks[1..];
    assert s == chunks[0] + Flatten(rest);
    FlattenLength(rest);
    assert |rest| > 0 ==> |chunks[0]| == CHUNK_SIZE;
  }

  /** At most one chunking exists for a given sequence, so every loop that
      produces one produces `ChunksOf`. */
  lemma {:induction false} ChunkingUnique<T>(a: seq<seq<T>>, b: seq<seq<T>>, s: seq<T>)
    requires IsChunking(a, s) && IsChunking(b, s)
    ensures a == b
    decreases |a|
  {
    FlattenLength(a);
    FlattenLength(b);
    if a != [] && b != [] {
      ChunkingHead(a, s);
      ChunkingHead(b, s);
      ChunkingUnique(a[1..], b[1..], s[|a[0]|..]);
      assert a == [a[0]] + a[1..];
      assert b == [b[0]] + b[1..];
    }
  }

  function OptionStep(chunk: seq<OptionEntry>): Step
  {
    SetSiteOptions(chunk)
  }

  function OptionSteps(chunks: seq<seq<OptionEntry>>): seq<Step>
  {
    seq(|chunks|, k requires 0 <= k < |chunks| => OptionStep(chunks[k]))
  }

  lemma OptionStepsSnoc(chunks: seq<seq<OptionEntry>>, n: nat)
    requires n < |chunks|
    ensures OptionSteps(chunks[..n + 1]) == OptionSteps(chunks[..n]) + [OptionStep(chunks[n])]
  {
  }

  // ---------------------------------------------------------------------
  // The whole step list

  /** The steps one run of `generate` appends, in order. */
  function GeneratedSteps(site: Site): seq<Step>
  {
    [LoginStep()]
      + ThemeSteps(site.template)
      + PluginSteps(ActivePlugins(site.activePlugins, site.registered))
      + [ImportStep(site.siteUrl, site.key)]
      + OptionSteps(ChunksOf(FilteredOptions(site.allOptions)))
  }

  /** The blueprint `generate` leaves behind, starting from `b`. */
  function Generated(b: Blueprint, site: Site): (r: Blueprint)
    requires '.' in site.phpVersion && '.' in site.wpVersion
    ensures r.schema == b.schema && r.features == b.features
    ensures r.phpExtensionBundles == b.phpExtensionBundles && r.landingPage == b.landingPage
    ensures |r.steps| > |b.steps| && r.steps[..|b.steps|] == b.steps
  {
    b.(preferredVersions := PreferredVersionsOf(site), steps := b.steps + GeneratedSteps(site))
  }

  // ---------------------------------------------------------------------
  // Files

  /** Where `write` puts the blueprint: `trailingslashit(WP_CONTENT_DIR)`
      followed by the file name. */
  function WritePath(contentDir: string, key: string): string
  {
    TrailingSlashIt(contentDir) + "blueprint-" + key + ".json"
  }
}
