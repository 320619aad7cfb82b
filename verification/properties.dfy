/** What the generated blueprint promises, proved about the specification
    functions the builder's methods are verified against: the order of the
    steps, which plugins and options make it in, the version strings, and
    the size of the option steps. */
module BlueprintProperties {
  import opened Php
  import opened Seqs
  import opened Blueprints

  // ---------------------------------------------------------------------
  // Order of the steps

  /** The position of a kind of step in the pipeline: login, theme, plugins,
      content import, options. */
  function Rank(step: Step): (r: nat)
    ensures r <= 4
    ensures r == 0 <==> step.Login?
    ensures r == 3 <==> step.ImportFile?
  {
    match step
    case Login(_, _) => 0
    case InstallTheme(_, _, _) => 1
    case InstallPlugin(_, _, _) => 2
    case ImportFile(_, _) => 3
    case SetSiteOptions(_) => 4
  }

  predicate InPipelineOrder(steps: seq<Step>)
  {
    forall i, j :: 0 <= i < j < |steps| ==> Rank(steps[i]) <= Rank(steps[j])
  }

  predicate AllOfRank(steps: seq<Step>, r: nat)
  {
    forall k :: 0 <= k < |steps| ==> Rank(steps[k]) == r
  }

  /** How many steps of a kind a list holds. */
  function CountRank(steps: seq<Step>, r: nat): (n: nat)
    ensures n <= |steps|
  {
    if steps == [] then 0
    else CountRank(steps[..|steps| - 1], r) + (if Rank(steps[|steps| - 1]) == r then 1 else 0)
  }

  lemma {:induction false} CountRankConcat(a: seq<Step>, b: seq<Step>, r: nat)
    ensures CountRank(a + b, r) == CountRank(a, r) + CountRank(b, r)
    decreases |b|
  {
    if b == [] {
      assert a + b == a;
    } else {
      assert (a + b)[..|a + b| - 1] == a + b[..|b| - 1];
      CountRankConcat(a, b[..|b| - 1], r);
    }
  }

  lemma {:induction false} CountAllOfRank(steps: seq<Step>, rank: nat, r: nat)
    requires AllOfRank(steps, rank)
    ensures CountRank(steps, r) == if rank == r then |steps| else 0
    decreases |steps|
  {
    if steps != [] {
      CountAllOfRank(steps[..|steps| - 1], rank, r);
    }
  }

  lemma AppendInOrder(a: seq<Step>, b: seq<Step>, r: nat)
    requires InPipelineOrder(a) && InPipelineOrder(b)
    requires forall k :: 0 <= k < |a| ==> Rank(a[k]) <= r
    requires forall k :: 0 <= k < |b| ==> r <= Rank(b[k])
    ensures InPipelineOrder(a + b)
  {
    var s := a + b;
    forall i, j | 0 <= i < j < |s|
      ensures Rank(s[i]) <= Rank(s[j])
    {
      if j < |a| {
        assert s[i] == a[i] && s[j] == a[j];
      } else if i < |a| {
        assert s[i] == a[i] && s[j] == b[j - |a|];
      } else {
        assert s[i] == b[i - |a|] && s[j] == b[j - |a|];
      }
    }
  }

  lemma {:induction false} PluginStepsAreInstalls(plugins: seq<PluginInfo>)
    ensures AllOfRank(PluginSteps(plugins), 2)
    decreases |plugins|
  {
    if plugins != [] {
      PluginStepsAreInstalls(plugins[..|plugins| - 1]);
    }
  }

  /** The step list of one run, for any plugin list and any chunks of
      options: one login first, the theme step unless the theme is the
      skipped one, one step per plugin on wordpress.org, exactly one content
      import, one step per chunk, and no kind of step after a later kind. */
  lemma {:induction false} PipelineInOrder(template: string, plugins: seq<PluginInfo>, siteUrl: string, key: string,
                                           chunks: seq<seq<OptionEntry>>)
    ensures var steps := [LoginStep()] + ThemeSteps(template) + PluginSteps(plugins)
                         + [ImportStep(siteUrl, key)] + OptionSteps(chunks);
            && InPipelineOrder(steps)
            && steps[0] == LoginStep()
            && CountRank(steps, 0) == 1
            && CountRank(steps, 1) == (if template == SKIPPED_THEME then 0 else 1)
            && CountRank(steps, 2) == |PluginSteps(plugins)|
            && CountRank(steps, 3) == 1
            && CountRank(steps, 4) == |chunks|
  {
    var login := [LoginStep()];
    var theme := ThemeSteps(template);
    var installs := PluginSteps(plugins);
    var wxr := [ImportStep(siteUrl, key)];
    var options := OptionSteps(chunks);
    PluginStepsAreInstalls(plugins);
    assert AllOfRank(login, 0) && AllOfRank(theme, 1) && AllOfRank(wxr, 3) && AllOfRank(options, 4);

    AppendInOrder(login, theme, 0);
    AppendInOrder(login + theme, installs, 1);
    AppendInOrder(login + theme + installs, wxr, 2);
    AppendInOrder(login + theme + installs + wxr, options, 3);

    var steps := login + theme + installs + wxr + options;
    forall r: nat | r <= 4
      ensures CountRank(steps, r)
              == CountRank(login, r) + CountRank(theme, r) + CountRank(installs, r)
                 + CountRank(wxr, r) + CountRank(options, r)
    {
      CountRankConcat(login, theme, r);
      CountRankConcat(login + theme, installs, r);
      CountRankConcat(login + theme + installs, wxr, r);
      CountRankConcat(login + theme + installs + wxr, options, r);
    }
    forall r: nat | r <= 4
      ensures CountRank(login, r) == (if r == 0 then 1 else 0)
      ensures CountRank(theme, r) == (if r == 1 then |theme| else 0)
      ensures CountRank(installs, r) == (if r == 2 then |installs| else 0)
      ensures CountRank(wxr, r) == (if r == 3 then 1 else 0)
      ensures CountRank(options, r) == (if r == 4 then |options| else 0)
    {
      CountAllOfRank(login, 0, r);
      CountAllOfRank(theme, 1, r);
      CountAllOfRank(installs, 2, r);
      CountAllOfRank(wxr, 3, r);
      CountAllOfRank(options, 4, r);
    }
  }

  /** One run of `generate` appends its steps in pipeline order: exactly
      one login step, first; then the theme step unless the theme is the
      skipped one; then one step per plugin found on wordpress.org; then
      exactly one content import; then one step per chunk of options. */
  lemma GeneratedStepsInOrder(site: Site)
    ensures var steps := GeneratedSteps(site);
            && InPipelineOrder(steps)
            && steps[0] == LoginStep()
            && CountRank(steps, 0) == 1
            && CountRank(steps, 1) == (if site.template == SKIPPED_THEME then 0 else 1)
            && CountRank(steps, 2) == |PluginSteps(ActivePlugins(site.activePlugins, site.registered))|
            && CountRank(steps, 3) == 1
            && CountRank(steps, 4) == |ChunksOf(FilteredOptions(site.allOptions))|
  {
    PipelineInOrder(site.template, ActivePlugins(site.activePlugins, site.registered), site.siteUrl, site.key,
                    ChunksOf(FilteredOptions(site.allOptions)));
  }

  // ---------------------------------------------------------------------
  // Plugins

  lemma {:induction false} ListedConcat(a: seq<string>, b: seq<string>, registered: set<string>)
    ensures Listed(a + b, registered) == Listed(a, registered) + Listed(b, registered)
    decreases |b|
  {
    if b == [] {
      assert a + b == a;
    } else {
      assert (a + b)[..|a + b| - 1] == a + b[..|b| - 1];
      ListedConcat(a, b[..|b| - 1], registered);
    }
  }

  /** The plugin list keeps the order of the active plugins: the list for
      two runs of files is the two lists one after the other. */
  lemma ActivePluginsConcat(a: seq<string>, b: seq<string>, registered: set<string>)
    ensures ActivePlugins(a + b, registered) == ActivePlugins(a, registered) + ActivePlugins(b, registered)
  {
    MapConcat(a, b, Slug);
    assert Map(a + b, Slug) == Map(a, Slug) + Map(b, Slug);
    ListedConcat(Map(a, Slug), Map(b, Slug), registered);
  }

  lemma {:induction false} PluginStepsConcat(a: seq<PluginInfo>, b: seq<PluginInfo>)
    ensures PluginSteps(a + b) == PluginSteps(a) + PluginSteps(b)
    decreases |b|
  {
    if b == [] {
      assert a + b == a;
    } else {
      assert (a + b)[..|a + b| - 1] == a + b[..|b| - 1];
      PluginStepsConcat(a, b[..|b| - 1]);
    }
  }

  lemma {:induction false} ListedMembers(slugs: seq<string>, registered: set<string>, info: PluginInfo)
    ensures info in Listed(slugs, registered)
            <==> info.slug in slugs && !IsExcluded(info.slug) && info.wordpressOrg == (info.slug in registered)
    decreases |slugs|
  {
    if slugs != [] {
      ListedMembers(slugs[..|slugs| - 1], registered, info);
      assert slugs == slugs[..|slugs| - 1] + [slugs[|slugs| - 1]];
    }
  }

  /** An active plugin is listed exactly when its slug is not excluded, and
      it is flagged exactly when the registry knows the slug. */
  lemma ActivePluginsMembers(pluginFiles: seq<string>, registered: set<string>, info: PluginInfo)
    ensures info in ActivePlugins(pluginFiles, registered)
            <==> && (exists k :: 0 <= k < |pluginFiles| && Slug(pluginFiles[k]) == info.slug)
                 && !IsExcluded(info.slug)
                 && info.wordpressOrg == (info.slug in registered)
  {
    var slugs := Map(pluginFiles, Slug);
    ListedMembers(slugs, registered, info);
    MapMembers(pluginFiles, Slug, info.slug);
  }

  lemma {:induction false} PluginStepsMembers(plugins: seq<PluginInfo>, step: Step)
    ensures step in PluginSteps(plugins)
            <==> exists k :: 0 <= k < |plugins| && plugins[k].wordpressOrg && step == PluginStep(plugins[k].slug)
    decreases |plugins|
  {
    if plugins != [] {
      var init := plugins[..|plugins| - 1];
      PluginStepsMembers(init, step);
      if exists k :: 0 <= k < |plugins| && plugins[k].wordpressOrg && step == PluginStep(plugins[k].slug) {
        var k :| 0 <= k < |plugins| && plugins[k].wordpressOrg && step == PluginStep(plugins[k].slug);
        if k < |init| {
          assert init[k] == plugins[k];
        }
      }
    }
  }

  /** A plugin is installed by the blueprint exactly when it is active, its
      slug is not excluded, and the registry knows it. */
  lemma InstalledPlugins(pluginFiles: seq<string>, registered: set<string>, slug: string)
    ensures PluginStep(slug) in PluginSteps(ActivePlugins(pluginFiles, registered))
            <==> && (exists k :: 0 <= k < |pluginFiles| && Slug(pluginFiles[k]) == slug)
                 && !IsExcluded(slug)
                 && slug in registered
  {
    var plugins := ActivePlugins(pluginFiles, registered);
    PluginStepsMembers(plugins, PluginStep(slug));
    ActivePluginsMembers(pluginFiles, registered, PluginInfo(slug, true));
    if PluginStep(slug) in PluginSteps(plugins) {
      var k :| 0 <= k < |plugins| && plugins[k].wordpressOrg && PluginStep(slug) == PluginStep(plugins[k].slug);
      assert plugins[k] == PluginInfo(slug, true);
    }
    if PluginInfo(slug, true) in plugins {
      var k :| 0 <= k < |plugins| && plugins[k] == PluginInfo(slug, true);
      assert plugins[k].wordpressOrg && PluginStep(slug) == PluginStep(plugins[k].slug);
    }
  }

  lemma ListedStepsSafe(slugs: seq<string>, registered: set<string>)
    ensures forall step :: step in PluginSteps(Listed(slugs, registered)) ==>
              && step.InstallPlugin?
              && step == PluginStep(step.slug)
              && !IsExcluded(step.slug)
              && step.slug in registered
    ensures |PluginSteps(Listed(slugs, registered))| <= |slugs|
  {
    var plugins := Listed(slugs, registered);
    forall step | step in PluginSteps(plugins)
      ensures step.InstallPlugin? && step == PluginStep(step.slug) && !IsExcluded(step.slug) && step.slug in registered
    {
      PluginStepsMembers(plugins, step);
      var k :| 0 <= k < |plugins| && plugins[k].wordpressOrg && step == PluginStep(plugins[k].slug);
      assert plugins[k] in plugins;
      ListedMembers(slugs, registered, plugins[k]);
    }
    ListedLength(slugs, registered);
    PluginStepsLength(plugins);
  }

  /** Every plugin step installs an active, non-excluded, registered plugin,
      and there are never more of them than active plugins. */
  lemma PluginStepsAreSafe(pluginFiles: seq<string>, registered: set<string>)
    ensures forall step :: step in PluginSteps(ActivePlugins(pluginFiles, registered)) ==>
              && step.InstallPlugin?
              && step == PluginStep(step.slug)
              && !IsExcluded(step.slug)
              && step.slug in registered
    ensures |PluginSteps(ActivePlugins(pluginFiles, registered))| <= |pluginFiles|
  {
    ListedStepsSafe(Map(pluginFiles, Slug), registered);
  }

  lemma {:induction false} ListedLength(slugs: seq<string>, registered: set<string>)
    ensures |Listed(slugs, registered)| <= |slugs|
    decreases |slugs|
  {
    if slugs != [] {
      ListedLength(slugs[..|slugs| - 1], registered);
    }
  }

  lemma {:induction false} PluginStepsLength(plugins: seq<PluginInfo>)
    ensures |PluginSteps(plugins)| <= |plugins|
    decreases |plugins|
  {
    if plugins != [] {
      PluginStepsLength(plugins[..|plugins| - 1]);
    }
  }

  /** The slug is the main file's name without directory and extension. */
  lemma SlugOfPluginFile(dir: string, name: string, ext: string)
    requires '/' !in name && '/' !in ext && '.' !in ext
    ensures Slug(dir + "/" + name + "." + ext) == name
  {
    var path := dir + "/" + name + "." + ext;
    var base := name + "." + ext;
    assert path == dir + "/" + base;
    LastAfter(dir, '/', base);
    assert BaseName(path) == base;
    LastAfter(name, '.', ext);
  }

  /** A plugin file directly in the plugins directory, such as `hello.php`,
      has its name without the extension as its slug. */
  lemma SlugOfTopLevelFile(name: string, ext: string)
    requires '/' !in name && '/' !in ext && '.' !in ext
    ensures Slug(name + "." + ext) == name
  {
    var path := name + "." + ext;
    assert '/' !in path by {
      forall k | 0 <= k < |path| ensures path[k] != '/' {
        if k < |name| { assert path[k] == name[k]; }
        else if k > |name| { assert path[k] == ext[k - |name| - 1]; }
      }
    }
    LastIndexOfIsLast(path, '/');
    assert BaseName(path) == path;
    LastAfter(name, '.', ext);
  }

  /** In `prefix + [d] + rest` with no `d` in `rest`, the last `d` is the one
      after `prefix`. */
  lemma LastAfter(prefix: string, d: char, rest: string)
    requires d !in rest
    ensures LastIndexOf(prefix + [d] + rest, d) == |prefix|
    ensures (prefix + [d] + rest)[|prefix| + 1..] == rest
    ensures (prefix + [d] + rest)[..|prefix|] == prefix
  {
    var s := prefix + [d] + rest;
    var i := LastIndexOf(s, d);
    LastIndexOfIsLast(s, d);
    assert s[|prefix|] == d;
    assert s[|prefix| + 1..] == rest;
  }

  // ---------------------------------------------------------------------
  // Options

  /** The three filters of `add_option_steps` together keep exactly the
      options that pass `KeptOption`, in their original order. */
  lemma FilteredOptionsKept(entries: seq<OptionEntry>)
    ensures FilteredOptions(entries) == Filter(entries, KeptOption)
  {
    var keys := DeniedSet();
    FilterTwice(entries, (e: OptionEntry) => e.0 !in keys, NotTransientNorEmpty, KeptOption);
  }

  /** An option reaches the blueprint exactly when it is in the table, its
      key is not denied, not a transient, and its value is not empty. */
  lemma FilteredOptionsMembers(entries: seq<OptionEntry>, entry: OptionEntry)
    ensures entry in FilteredOptions(entries) <==> entry in entries && KeptOption(entry)
  {
    FilteredOptionsKept(entries);
    FilterMembers(entries, KeptOption, entry);
  }

  /** Filtering a table whose options all pass keeps it whole; filtering is
      idempotent. */
  lemma FilteredOptionsIdempotent(entries: seq<OptionEntry>)
    ensures FilteredOptions(FilteredOptions(entries)) == FilteredOptions(entries)
  {
    var kept := FilteredOptions(entries);
    FilteredOptionsKept(kept);
    forall k | 0 <= k < |kept|
      ensures KeptOption(kept[k])
    {
      FilteredOptionsMembers(entries, kept[k]);
    }
    FilterKeepsAll(kept, KeptOption);
  }

  /** Every option step carries 1 to CHUNK_SIZE options, each of them from
      the site's table and none of them denied, transient or empty. */
  lemma OptionStepsCarryKeptOptions(all: seq<OptionEntry>)
    ensures forall step :: step in OptionSteps(ChunksOf(FilteredOptions(all))) ==>
              && step.SetSiteOptions?
              && 1 <= |step.options| <= CHUNK_SIZE
              && forall e :: e in step.options ==> e in all && KeptOption(e)
  {
    var chunks := ChunksOf(FilteredOptions(all));
    var steps := OptionSteps(chunks);
    forall step | step in steps
      ensures step.SetSiteOptions? && 1 <= |step.options| <= CHUNK_SIZE
      ensures forall e :: e in step.options ==> e in all && KeptOption(e)
    {
      var k :| 0 <= k < |steps| && steps[k] == step;
      forall e | e in step.options
        ensures e in all && KeptOption(e)
      {
        FlattenMembers(chunks, k, e);
        FilteredOptionsMembers(all, e);
      }
    }
  }

  /** n options make ceil(n / CHUNK_SIZE) option steps. */
  lemma {:induction false} ChunkCount<T>(s: seq<T>)
    ensures |ChunksOf(s)| == (|s| + CHUNK_SIZE - 1) / CHUNK_SIZE
    ensures ChunksOf(s) == [] <==> s == []
    decreases |s|
  {
    if |s| > CHUNK_SIZE {
      ChunkCount(s[CHUNK_SIZE..]);
    }
  }

  // ---------------------------------------------------------------------
  // Versions

  /** `explode` splits at the first separator. */
  lemma ExplodeFirst(head: string, d: char, tail: string)
    requires d !in head
    ensures Explode(head + [d] + tail, d) == [head] + Explode(tail, d)
  {
    var s := head + [d] + tail;
    assert s[|head|] == d;
    assert s[..|head|] == head;
    IndexOfFirst(s, d, |head|);
    assert s[|head| + 1..] == tail;
  }

  /** What follows the first separator starts with the minor component. */
  lemma MinorFirst(minor: string, rest: string)
    requires '.' !in minor
    requires rest == [] || rest[0] == '.'
    ensures Explode(minor + rest, '.')[0] == minor
  {
    if rest == [] {
      assert minor + rest == minor;
    } else {
      assert minor + rest == minor + ['.'] + rest[1..];
      ExplodeFirst(minor, '.', rest[1..]);
    }
  }

  /** The first two components of a version, whatever follows them. */
  lemma VersionComponents(major: string, minor: string, rest: string)
    requires '.' !in major && '.' !in minor
    requires rest == [] || rest[0] == '.'
    ensures '.' in major + "." + minor + rest
    ensures var parts := Explode(major + "." + minor + rest, '.');
            |parts| >= 2 && parts[0] == major && parts[1] == minor
  {
    var v := major + "." + minor + rest;
    assert v == major + ['.'] + (minor + rest);
    ExplodeFirst(major, '.', minor + rest);
    MinorFirst(minor, rest);
  }

  /** The preferred PHP version is major.minor; the preferred WordPress
      version is major.minor when the minor component is a number and
      `nightly` otherwise. */
  lemma PreferredVersionsOfComponents(major: string, minor: string, rest: string)
    requires '.' !in major && '.' !in minor
    requires rest == [] || rest[0] == '.'
    ensures '.' in major + "." + minor + rest
    ensures MajorMinor(major + "." + minor + rest) == major + "." + minor
    ensures PreferredWp(major + "." + minor + rest) == (if IsNumeric(minor) then major + "." + minor else "nightly")
  {
    VersionComponents(major, minor, rest);
  }
}
