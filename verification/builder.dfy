/** The blueprint builder: a class whose `blueprint` field every `add_*`
    step appends to, and the loops of `get_active_plugins` and
    `add_option_steps`, each proved against its specification function. */
module Builder {
  import opened Php
  import opened Seqs
  import opened Blueprints
  import opened Files

  /** The loop of `get_active_plugins`: derive each slug, skip the excluded
      ones, and ask the registry about the rest. */
  method GetActivePlugins(pluginFiles: seq<string>, registered: set<string>) returns (plugins: seq<PluginInfo>)
    ensures plugins == ActivePlugins(pluginFiles, registered)
  {
    ghost var slugs := Map(pluginFiles, Slug);
    plugins := [];
    for n := 0 to |pluginFiles|
      invariant plugins == Listed(slugs[..n], registered)
    {
      ListedSnoc(slugs, n, registered);
      var slug := Slug(pluginFiles[n]);
      if IsExcluded(slug) {
        continue;
      }
      var wordpressOrg := slug in registered;
      plugins := plugins + [PluginInfo(slug, wordpressOrg)];
    }
    assert slugs[..|slugs|] == slugs;
  }

  /** The first loop of `add_option_steps`: unset every denied key. */
  method RemoveDeniedOptions(all: seq<OptionEntry>) returns (options: seq<OptionEntry>)
    ensures options == WithoutKeys(all, DeniedSet())
  {
    options := all;
    WithoutNoKeys(all);
    for d := 0 to |DENIED_OPTIONS|
      invariant options == WithoutKeys(all, KeySet(DENIED_OPTIONS[..d]))
    {
      UnsetNextKey(all, DENIED_OPTIONS, d);
      options := Unset(options, DENIED_OPTIONS[d]);
    }
    assert DENIED_OPTIONS[..|DENIED_OPTIONS|] == DENIED_OPTIONS;
  }

  /** The second loop of `add_option_steps`: walk a copy of the options and
      unset transients and empty values from the array itself. */
  method RemoveTransientsAndEmpty(snapshot: seq<OptionEntry>) returns (options: seq<OptionEntry>)
    requires DistinctKeys(snapshot)
    ensures options == Filter(snapshot, NotTransientNorEmpty)
  {
    options := snapshot;
    for n := 0 to |snapshot|
      invariant options == Filter(snapshot[..n], NotTransientNorEmpty) + snapshot[n..]
    {
      var (key, option) := snapshot[n];
      TransientLoopStep(snapshot, n);
      if IsTransientKey(key) {
        options := Unset(options, key);
        continue;
      }
      if IsEmptyValue(option) {
        options := Unset(options, key);
      }
    }
    assert snapshot[..|snapshot|] == snapshot;
  }

  /** The third loop of `add_option_steps`: counter `i` runs 1..10 within a
      chunk, counter `j` names the chunk being filled. */
  method ChunkOptions(options: seq<OptionEntry>) returns (chunks: seq<seq<OptionEntry>>)
    ensures IsChunking(chunks, options)
  {
    chunks := [];
    var i, j := 1, 1;
    for n := 0 to |options|
      invariant 1 <= i <= CHUNK_SIZE
      invariant Flatten(chunks) == options[..n]
      invariant forall k :: 0 <= k < |chunks| ==> 1 <= |chunks[k]| <= CHUNK_SIZE
      invariant forall k :: 0 <= k < |chunks| - 1 ==> |chunks[k]| == CHUNK_SIZE
      invariant i == 1 ==> j == |chunks| + 1 && (chunks != [] ==> |chunks[|chunks| - 1]| == CHUNK_SIZE)
      invariant i > 1 ==> j == |chunks| && |chunks[j - 1]| == i - 1
    {
      var entry := options[n];
      assert options[..n + 1] == options[..n] + [entry];
      if j > |chunks| {
        FlattenNewChunk(chunks, entry);
        chunks := chunks + [[entry]];
      } else {
        var init, last := chunks[..j - 1], chunks[j - 1];
        assert chunks == init + [last];
        FlattenGrowLast(init, last, entry);
        chunks := init + [last + [entry]];
      }
      i := i + 1;
      if i > CHUNK_SIZE {
        j := j + 1;
        i := 1;
      }
    }
    assert options[..|options|] == options;
  }

  /** The five groups of steps one run appends land after the old steps
      as one block. */
  lemma AppendAll<T>(s0: seq<T>, s1: seq<T>, s2: seq<T>, s3: seq<T>, s4: seq<T>, s5: seq<T>)
    ensures s0 + s1 + s2 + s3 + s4 + s5 == s0 + (s1 + s2 + s3 + s4 + s5)
  {
  }

  class Builder {
    var blueprint: Blueprint

    constructor ()
      ensures blueprint == InitialBlueprint()
    {
      blueprint := InitialBlueprint();
    }

    /** `generate`: fill in the preferred versions, append the steps in
        order, and write the result to the content directory. */
    method Generate(site: Site, fs: FileSystem) returns (r: Blueprint)
      requires ValidSite(site)
      modifies this, fs
      ensures blueprint == Generated(old(blueprint), site)
      ensures r == blueprint
      ensures fs.files == if fs.writable then old(fs.files)[CollapseSlashes(WritePath(site.contentDir, site.key)) := blueprint]
                          else old(fs.files)
    {
      ghost var steps0 := blueprint.steps;
      SetPreferredVersions(site.phpVersion, site.wpVersion);
      ghost var versioned := blueprint;

      ghost var login, theme := [LoginStep()], ThemeSteps(site.template);
      ghost var plugins := PluginSteps(ActivePlugins(site.activePlugins, site.registered));
      ghost var wxr := [ImportStep(site.siteUrl, site.key)];
      ghost var options := OptionSteps(ChunksOf(FilteredOptions(site.allOptions)));
      AddLoginStep();
      AddThemeInstallationsSteps(site.template);
      AddPluginsInstallationsSteps(site.activePlugins, site.registered);
      AddWxrStep(site.siteUrl, site.key);
      AddOptionSteps(site.allOptions);
      assert blueprint.steps == steps0 + login + theme + plugins + wxr + options;
      AppendAll(steps0, login, theme, plugins, wxr, options);
      assert blueprint == versioned.(steps := blueprint.steps);
      assert GeneratedSteps(site) == login + theme + plugins + wxr + options;

      Write(site.contentDir, site.key, fs);
      r := blueprint;
    }

    /** The first lines of `generate`: major.minor of both versions, and
        `nightly` for a WordPress version whose minor part is not a number. */
    method SetPreferredVersions(phpVersion: string, wpVersion: string)
      requires '.' in phpVersion && '.' in wpVersion
      modifies this
      ensures blueprint == old(blueprint).(preferredVersions := PreferredVersions(MajorMinor(phpVersion), PreferredWp(wpVersion)))
    {
      var php := Explode(phpVersion, '.');
      blueprint := blueprint.(preferredVersions := blueprint.preferredVersions.(php := php[0] + "." + php[1]));

      var wp := Explode(wpVersion, '.');
      blueprint := blueprint.(preferredVersions := blueprint.preferredVersions.(wp := wp[0] + "." + wp[1]));
      if !IsNumeric(wp[1]) {
        blueprint := blueprint.(preferredVersions := blueprint.preferredVersions.(wp := "nightly"));
      }
    }

    /** `write`: store the blueprint under the key's file name. */
    method Write(contentDir: string, key: string, fs: FileSystem)
      modifies fs
      ensures fs.files == if fs.writable then old(fs.files)[CollapseSlashes(WritePath(contentDir, key)) := blueprint]
                          else old(fs.files)
    {
      var _ := fs.PutContents(WritePath(contentDir, key), blueprint);
    }

    method AddLoginStep()
      modifies this
      ensures blueprint.steps == old(blueprint.steps) + [LoginStep()]
      ensures blueprint == old(blueprint).(steps := blueprint.steps)
    {
      blueprint := blueprint.(steps := blueprint.steps + [Login("admin", "password")]);
    }

    method AddWxrStep(siteUrl: string, key: string)
      modifies this
      ensures blueprint.steps == old(blueprint.steps) + [ImportStep(siteUrl, key)]
      ensures blueprint == old(blueprint).(steps := blueprint.steps)
    {
      var wxrUrl := SiteUrl(siteUrl, "wp-json/blueprint-builder/v1/wxr-" + key + ".xml");
      blueprint := blueprint.(steps := blueprint.steps + [ImportFile("url", wxrUrl)]);
    }

    method AddThemeInstallationsSteps(activeTheme: string)
      modifies this
      ensures blueprint.steps == old(blueprint.steps) + ThemeSteps(activeTheme)
      ensures blueprint == old(blueprint).(steps := blueprint.steps)
    {
      if activeTheme == SKIPPED_THEME {
        return;
      }
      blueprint := blueprint.(steps := blueprint.steps + [InstallTheme(THEME_RESOURCE, activeTheme, true)]);
    }

    method AddPluginsInstallationsSteps(pluginFiles: seq<string>, registered: set<string>)
      modifies this
      ensures blueprint.steps == old(blueprint.steps) + PluginSteps(ActivePlugins(pluginFiles, registered))
      ensures blueprint == old(blueprint).(steps := blueprint.steps)
    {
      var plugins := GetActivePlugins(pluginFiles, registered);
      AddInstallSteps(plugins);
    }

    /** The loop of `add_plugins_installations_steps`: one install step per
        plugin found on wordpress.org. */
    method AddInstallSteps(plugins: seq<PluginInfo>)
      modifies this
      ensures blueprint.steps == old(blueprint.steps) + PluginSteps(plugins)
      ensures blueprint == old(blueprint).(steps := blueprint.steps)
    {
      for n := 0 to |plugins|
        invariant blueprint.steps == old(blueprint.steps) + PluginSteps(plugins[..n])
        invariant blueprint == old(blueprint).(steps := blueprint.steps)
      {
        PluginStepsSnoc(plugins, n);
        if plugins[n].wordpressOrg {
          blueprint := blueprint.(steps := blueprint.steps + [InstallPlugin(PLUGIN_RESOURCE, plugins[n].slug, true)]);
        }
      }
      assert plugins[..|plugins|] == plugins;
    }

    method AddOptionSteps(allOptions: seq<OptionEntry>)
      requires DistinctKeys(allOptions)
      modifies this
      ensures blueprint.steps == old(blueprint.steps) + OptionSteps(ChunksOf(FilteredOptions(allOptions)))
      ensures blueprint == old(blueprint).(steps := blueprint.steps)
    {
      var options := RemoveDeniedOptions(allOptions);
      WithoutKeysDistinct(allOptions, DeniedSet());
      options := RemoveTransientsAndEmpty(options);
      var chunks := ChunkOptions(options);
      ChunkingUnique(chunks, ChunksOf(options), options);
      for c := 0 to |chunks|
        invariant blueprint.steps == old(blueprint.steps) + OptionSteps(chunks[..c])
        invariant blueprint == old(blueprint).(steps := blueprint.steps)
      {
        OptionStepsSnoc(chunks, c);
        blueprint := blueprint.(steps := blueprint.steps + [SetSiteOptions(chunks[c])]);
      }
      assert chunks[..|chunks|] == chunks;
    }
  }
}
