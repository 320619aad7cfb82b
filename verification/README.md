# Blueprint Builder, modelled in Dafny

Blueprint Builder is a WordPress plugin. It turns a running site into a
WordPress Playground *blueprint*: a JSON document listing the steps that
rebuild the site in the Playground. The steps are:
- log in;
- install the active theme;
- install the active plugins found on wordpress.org;
- import the site's content as WXR;
- copy the site's options.

The plugin writes the blueprint to `WP_CONTENT_DIR/blueprint-{key}.json`.
Two public REST routes serve it, both scoped by a random key that is stored
in the option table:
- `blueprint-builder/v1/json-{key}/` serves the blueprint and generates it
  on demand;
- `blueprint-builder/v1/wxr-{key}.xml` serves the WXR export.

This project models:
- the builder, including its step pipeline, its plugin and option filters
  and option chunking, and the file it writes;
- the key provisioning in the plugin's bootstrap;
- the endpoint's routes and its generate-on-demand callback;
- the class autoloader.

It also proves what the blueprint promises.

The modules are:

| file | module | what it holds |
|---|---|---|
| `php.dfy` | `Php` | The PHP built-ins the core relies on: `explode`/`implode`, `strpos(...) === 0`, an approximate `is_numeric`, `basename`, `pathinfo(..., PATHINFO_FILENAME)`, `strtolower`, `str_replace` with an empty replacement, `trailingslashit`. It also holds the `Value` type for option values. |
| `seqs.dfy` | `Seqs` | Order-preserving `Filter`, `Map` and `Flatten` over sequences, with their algebra. |
| `blueprints.dfy` | `Blueprints` | The blueprint record, the closed `Step` datatype and the `Site` snapshot (the live inputs `generate` reads). It specifies every part of the step list as functions of the snapshot, with the lemmas the builder's loops need. |
| `properties.dfy` | `BlueprintProperties` | What the blueprint promises: step order and counts, which plugins and which options make it in, slugs, chunk counts, preferred versions. |
| `files.dfy` | `Files` | The content directory as a class: a map from path to the blueprint stored there, and whether writing succeeds. |
| `options.dfy` | `Options` | The option table as a class, PHP truthiness of `get_option`, and the key's option name. |
| `builder.dfy` | `Builder` | The `Builder` class. Its `blueprint` field is updated in place by `generate` and every `add_*` method. Its loops (`get_active_plugins` and the four loops of `add_option_steps`) are methods proved against the specification functions. |
| `endpoint.dfy` | `Endpoint` | The `Endpoint` class: route strings, the file the callback reads, and the 200/404 decision. |
| `plugin.dfy` | `Plugin` | The `Plugin` class: conditional key provisioning and hook wiring. |
| `autoload.dfy` | `Autoload` | The autoloader's class-name-to-file mapping. |

The live WordPress lookups are fields of `Blueprints.Site`:
- `phpversion()`;
- `get_bloginfo('version')`;
- `get_template()`;
- the `active_plugins` option;
- `wp_load_alloptions()`, as an ordered list of distinct keys;
- the key option;
- `site_url()`;
- `WP_CONTENT_DIR`.

The wordpress.org plugin API appears as the set `registered` of slugs for
which it answers 200.

`Builder.Builder.Generate` is proved to leave
`Blueprints.Generated(old(blueprint), site)` in the field and to write it
under `WritePath`. The properties below are proved about `Generated` and
the functions it is made of.

## Model

| member | source | states |
|---|---|---|
| Builder.Builder.constructor | src/class-builder.php:20-32 | A new builder holds the initial blueprint: the schema URL, empty preferred versions, networking on, the `kitchen-sink` bundle, landing page `/wp-admin/`, and no steps. |
| Builder.Builder.Generate | src/class-builder.php:44-63 | The field becomes `Generated(old blueprint, site)`, the result is that blueprint, and the file system gains it under the write path when writing succeeds. Nothing else changes. |
| Blueprints.Generated | src/class-builder.php:44-63 | `generate` leaves the schema, features, extension bundles and landing page as they were. It appends at least one step and keeps every step that was there before, so the list is never reset. |
| Builder.Builder.SetPreferredVersions | src/class-builder.php:45-52 | Only `preferredVersions` changes. It becomes `MajorMinor` of the PHP version, and for WordPress `PreferredWp` (major.minor, or `nightly`). |
| BlueprintProperties.PreferredVersionsOfComponents | src/class-builder.php:45-52 | For a version `major.minor[.rest]`: the PHP preference is `major.minor`, and the WordPress preference is `major.minor` when the minor part is numeric and `nightly` otherwise. |
| BlueprintProperties.VersionComponents | src/class-builder.php:45 | `explode('.')` of `major.minor[.rest]` has at least two parts, and they are `major` and `minor`. |
| Php.Explode | src/class-builder.php:45 | `explode` gives at least one piece; exactly one piece iff the separator is absent; no piece contains the separator; imploding the pieces gives the input back. |
| Php.ExplodeImplode | src/class-builder.php:48 | Exploding an imploded list of separator-free pieces gives the list back. |
| Builder.Builder.Write | src/class-builder.php:70-78 | The file system gains the blueprint at the file `trailingslashit(content dir) + "blueprint-" + key + ".json"` resolves to, exactly when writing succeeds. |
| Files.FileSystem.PutContents | src/class-builder.php:77 | `put_contents` reports whether writing succeeded. On success only the file the path resolves to changes; on failure nothing changes. Every file stays stored under a resolved path. |
| Files.CollapseDoubleSlash | src/class-endpoint.php:75 | A `//` anywhere in a path resolves to the same file as `/`, as on a POSIX file system. |
| Files.CollapsedHasNoDoubleSlash | src/class-endpoint.php:75 | A resolved path holds no `//`: every run of `/` reads as one. |
| Files.CollapseNormal | src/class-endpoint.php:75 | A path without `//` resolves to itself, so distinct such paths name distinct files. |
| Files.CollapseIdempotent | src/class-endpoint.php:75 | Resolving a resolved path changes nothing, so a file stored under a resolved path is found again under that path. |
| Php.TrimTrailingSlashes | src/class-builder.php:77 | `rtrim($s, '/\')` returns a prefix of the input, everything it drops is `/` or `\`, and what it keeps does not end in either. |
| Php.TrailingSlashIt | src/class-builder.php:77 | `trailingslashit` returns the input up to its whole trailing run of `/` and `\` (a prefix not ending in either), then exactly one `/`. |
| Builder.Builder.AddLoginStep | src/class-builder.php:85-91 | Appends exactly the `login` step for `admin`/`password` and changes nothing else. |
| Builder.Builder.AddWxrStep | src/class-builder.php:98-108 | Appends exactly one `importFile` step whose URL is the site URL of the key's WXR route, and changes nothing else. |
| Builder.Builder.AddThemeInstallationsSteps | src/class-builder.php:115-136 | Appends `ThemeSteps(active theme)` and changes nothing else. |
| Blueprints.ThemeSteps | src/class-builder.php:115-136 | No theme step iff the theme is `twentytwentyfour`. Otherwise exactly one `installTheme` step from `wordpress.org/themes`, with the active theme's slug and `activate` true. |
| Builder.Builder.AddPluginsInstallationsSteps | src/class-builder.php:155-170 | Appends the install steps of `ActivePlugins(plugin files, registry)` and changes nothing else. |
| Builder.Builder.AddInstallSteps | src/class-builder.php:156-169 | The loop over the plugin list appends one install step per plugin flagged as on wordpress.org, in list order. |
| Builder.GetActivePlugins | src/class-builder.php:177-221 | The loop returns `ActivePlugins`: one entry per active plugin file whose slug is not excluded, in order, flagged by the registry. |
| BlueprintProperties.ActivePluginsMembers | src/class-builder.php:181-217 | An entry is in the list iff: (1) some active plugin file has that slug; (2) the slug is not `akismet`, `blueprint-builder` or `plausible-analytics`; (3) the flag equals the registry's answer for that slug. |
| BlueprintProperties.ActivePluginsConcat | src/class-builder.php:181-217 | The list keeps `active_plugins` order: the list for `a + b` is the list for `a` followed by the list for `b`. |
| BlueprintProperties.SlugOfPluginFile | src/class-builder.php:183 | The slug of `dir/name.ext` is `name`. |
| BlueprintProperties.SlugOfTopLevelFile | src/class-builder.php:183 | The slug of a plugin file with no directory, `name.ext` (such as `hello.php`), is `name`. |
| Php.BaseNameSuffix | src/class-builder.php:183 | `basename` returns the suffix after the last `/`. That suffix contains no `/`, and when it is not the whole path, a `/` comes right before it. |
| Php.FileNamePrefix | src/class-builder.php:183 | `PATHINFO_FILENAME` returns a prefix of the name: the whole name when it has no `.`, otherwise exactly the part before its last `.`, so the extension is removed. |
| BlueprintProperties.InstalledPlugins | src/class-builder.php:155-218 | The blueprint installs a slug iff it is the slug of an active plugin, it is not one of the three excluded slugs, and the registry knows it. |
| BlueprintProperties.PluginStepsAreSafe | src/class-builder.php:190-192 | Every plugin step is an `installPlugin` from `wordpress.org/plugins` with `activate` true, for a slug that is neither excluded nor unknown to the registry. There are never more plugin steps than active plugins. |
| BlueprintProperties.PluginStepsMembers | src/class-builder.php:156-169 | A step is among the plugin steps iff it installs the slug of a listed plugin flagged as on wordpress.org. |
| Builder.Builder.AddOptionSteps | src/class-builder.php:228-287 | Appends one `setSiteOptions` step per chunk of `ChunksOf(FilteredOptions(all options))`, in order, and changes nothing else. |
| Builder.RemoveDeniedOptions | src/class-builder.php:229-257 | After unsetting the 21 denied keys one by one, the options are the input without every entry under a denied key, in the original order. |
| Blueprints.UnsetNextKey | src/class-builder.php:255-257 | Unsetting the next denied key extends the set of dropped keys by that key. |
| Builder.RemoveTransientsAndEmpty | src/class-builder.php:259-268 | The loop, which walks a copy and unsets from the array, leaves exactly the entries that are neither transients nor empty, in order. |
| Blueprints.TransientLoopStep | src/class-builder.php:259-268 | One turn of that loop: an `unset` of the current key removes exactly the current entry. This holds because the keys are distinct. |
| Blueprints.UnsetOne | src/class-builder.php:261 | In an array with distinct keys, `unset` of one entry's key removes that entry and nothing else. |
| BlueprintProperties.FilteredOptionsKept | src/class-builder.php:229-268 | The three filters together keep exactly the options that pass `KeptOption`, in their original order. `KeptOption` means the key is not denied, the key is not a transient, and the value is not empty. |
| BlueprintProperties.FilteredOptionsMembers | src/class-builder.php:229-268 | An option reaches the blueprint iff it is in the table and passes `KeptOption`. In particular, `'0'`, `0`, `false` and `null` survive, because the emptiness test is strict. |
| BlueprintProperties.FilteredOptionsIdempotent | src/class-builder.php:229-268 | Filtering the filtered options changes nothing. |
| Builder.ChunkOptions | src/class-builder.php:270-279 | The counter loop produces a chunking: each chunk holds 1 to 10 entries, all chunks but the last hold 10, and joining the chunks in order gives back the filtered options. |
| Blueprints.ChunksOf | src/class-builder.php:270-279 | `ChunksOf(s)` is such a chunking of `s`. |
| Blueprints.ChunkingUnique | src/class-builder.php:270-279 | Two chunkings of the same sequence are equal, so the loop's chunks are `ChunksOf`. |
| BlueprintProperties.OptionStepsCarryKeptOptions | src/class-builder.php:228-287 | Every `setSiteOptions` step carries 1 to 10 options. Each is an entry of the site's table with a key that is neither denied nor a transient and a value that is not empty. |
| BlueprintProperties.ChunkCount | src/class-builder.php:270-286 | `n` options make `ceil(n / 10)` option steps, and none exactly when no option survives the filters. |
| BlueprintProperties.GeneratedStepsInOrder | src/class-builder.php:54-58 | The appended steps are in pipeline order (login, theme, plugins, import, options), with the `login` step first. It also pins each count: one login, one theme unless `twentytwentyfour`, one per wordpress.org plugin, one import, one per chunk. |
| BlueprintProperties.PipelineInOrder | src/class-builder.php:54-58 | The same order and counts for any plugin list and any chunks. |
| BlueprintProperties.Rank | src/class-builder.php:54-58 | A step's position in the pipeline is one of five. Position 0 is exactly the login step and position 3 exactly the content import. |
| Options.OptionStore.Update | src/class-plugin.php:19 | `update_option` changes the one named option and nothing else. |
| Plugin.Provisioned | src/class-plugin.php:15-21 | After bootstrap the key is set and truthy. A truthy stored key leaves the table unchanged. An absent or falsy key (`''`, `'0'`) becomes the fresh token. No other option changes, and no option but the key is added. |
| Plugin.ProvisioningIsIdempotent | src/class-plugin.php:15-21 | A second bootstrap, with any token, leaves the table the first one left. |
| Plugin.Plugin.constructor | src/class-plugin.php:15-21 | The option table becomes `Provisioned(old table, token)`. |
| Plugin.Plugin.RegisterHooks | src/class-plugin.php:28-37 | The endpoint is always created, with the stored key. A builder, in its initial state, is created iff the request is an admin one. |
| Endpoint.Endpoint.constructor | src/class-endpoint.php:25-27 | The endpoint's key is the stored key, or `''` when none is stored. |
| Endpoint.RoutesDetermineKey | src/class-endpoint.php:39-60 | The blueprint route and the WXR route each determine their key (equal routes iff equal keys), and a blueprint route is never a WXR route. |
| Endpoint.Endpoint.Routes | src/class-endpoint.php:39-60 | `register_routes` registers two routes, both in `blueprint-builder/v1`: the blueprint route first, then the WXR route. Their paths never coincide. |
| Endpoint.WxrStepUrlMatchesRoute | src/class-endpoint.php:51-59 | The URL in the `importFile` step is the site URL + `/wp-json/` + the plugin's namespace + the WXR route for the same key. |
| Endpoint.ImportUrlIsRegisteredRoute | src/class-endpoint.php:51-59 | For any endpoint, the `importFile` URL built with its key is the site URL + `/wp-json/` + the namespace and path of the second route it registers, whose callback is the WXR export. |
| Endpoint.WriteAndReadPathsAgree | src/class-endpoint.php:68 | The path the endpoint checks resolves to the file `Builder::write` writes. This holds for every content directory whose trailing separators, if any, are `/`. |
| Endpoint.JoinAfterTrim | src/class-builder.php:77 | Joining a file name to such a directory resolves alike whether `trailingslashit` trimmed its slashes first or not. |
| Endpoint.SlashEndedDirectory | src/class-endpoint.php:68 | A content directory without a trailing separator qualifies, and so does the same directory with one `/` appended. |
| Endpoint.Endpoint.GetBlueprintJson | src/class-endpoint.php:67-88 | `generate` runs only when the path does not resolve to a file. If it then resolves, the result is 200 with the file's contents and the two JSON/CORS headers; otherwise it is `json_blueprint_not_found` with 404. A missing file yields 200 with the freshly generated blueprint when three conditions hold: the file system is writable, the builder's key matches the endpoint's, and the content directory's trailing separators, if any, are `/`. Without a writable file system, a missing file yields 404. |
| Autoload.Load | src/autoload.php:9-23 | A name outside `BlueprintBuilder\` gives nothing. Otherwise the file is under `dir/src/class-`, and it is required iff it exists. |
| Autoload.LoadedIffFileExists | src/autoload.php:20-22 | For a class of the namespace, the file looked up is `ClassFile`, and it is loaded exactly when it exists. |
| Autoload.SimpleClassFile | src/autoload.php:16-18 | For a name without a namespace separator: the namespace is removed, the rest is lowered, and the file part holds no upper-case letter. |
| Php.RemoveAllAbsent | src/autoload.php:16 | `str_replace` of a string that cannot occur changes nothing. |
| Php.StrToLower | src/autoload.php:18 | `strtolower` keeps the length and lowers each ASCII upper-case letter, one character at a time. |
| Autoload.PluginClassesResolve | src/autoload.php:18 | `BlueprintBuilder\Builder`, `\Endpoint`, `\Plugin` and `\Admin` resolve to `src/class-builder.php`, `class-endpoint.php`, `class-plugin.php` and `class-admin.php`. |

## Left out

- The wordpress.org plugin API call (`wp_remote_post`, src/class-builder.php:194-212) is network I/O. It is the set `registered` of slugs answering 200; a failed request counts as "not on wordpress.org", as in the code.
- `get_plugin_data` is left out. It is called for every active plugin, before the exclusion test (src/class-builder.php:181-191), but no step uses what it returns. The model assumes the call succeeds; see the `Endpoint.Endpoint.GetBlueprintJson` line below for when it may not.
- JSON encoding is not modelled. This covers `wp_json_encode` with pretty printing in `write`, the JSON returned by `generate`, and `json_decode(file_get_contents(...))` in the endpoint. The file system stores the blueprint value itself, so a read gives back what was written.
- `WP_Filesystem` set-up is not modelled; writing either succeeds or leaves the files as they were (`FileSystem.writable`).
- `get_wxr` (src/class-endpoint.php:90-99) streams `export_wp` output and edits HTTP headers. It is out of scope; only its route is modelled.
- The `add_action`/`register_rest_route` hook machinery is not modelled. Routes are values (`Endpoint.Routes`); the methods, `_pretty_json` and the permission callback are not.
- The admin page (src/class-admin.php) and the bootstrap file are UI and wiring; they are not part of this model. `RegisterHooks` creates the builder only, without the admin page that drives it.
- The randomness of `wp_generate_password(12, false)` is not modelled. The token is a parameter, required to be 12 letters or digits.
- The plugin file `require_once` in the autoloader is the outcome `Required(file)`; loading code is not modelled.
- `Php.IsNumeric` approximates `is_numeric` as "non-empty and decimal digits only". PHP also accepts leading whitespace, a sign, a decimal point and an exponent, so a minor version such as `" 5"` differs.
- Builder.Builder.SetPreferredVersions requires both version strings to contain a `.`. The code reads `$parts[1]` unchecked; a version without one is outside the model.
- Php.BaseName does not strip a trailing `/` the way PHP's `basename` does. Plugin paths in `active_plugins` never end in one.
- `Blueprints.SiteUrl` models `site_url($path)` as the site URL, `/`, then the path. Scheme handling and filters are left out.
- Files.FileSystem resolves a path only by reading each run of `/` as one `/`. It does not model `.` and `..` segments, symbolic links, or case-insensitive file systems.
- Endpoint.WriteAndReadPathsAgree does not cover a content directory ending in `\`. There `trailingslashit` trims the backslash while the endpoint keeps it, and only a Windows file system reads `\/` as one separator; the model resolves paths the POSIX way.
- Endpoint.Endpoint.GetBlueprintJson: for a content directory ending in `\` it answers 404 after a successful write. On such a directory a Windows server finds the file and answers 200.
- Endpoint.Endpoint.GetBlueprintJson: when the file is missing, the model generates it and answers 200. That assumes `get_plugin_data` is defined. WordPress defines it in `wp-admin/includes/plugin.php`, which the plugin never loads itself, while it does load `wp-admin/includes/file.php` before `WP_Filesystem` (src/class-builder.php:75). A public REST request that reaches `generate` (src/class-endpoint.php:70-73) may therefore stop with a fatal error instead, answering neither 200 nor 404, unless other code has loaded that file. The model does not capture that failure.
- Endpoint.WxrStepUrlMatchesRoute speaks of the URL the builder writes, not of WordPress's own `rest_url()`. The `importFile` URL is built from `site_url()` and a fixed `wp-json/` prefix. WordPress serves routes from the home URL, under a filterable prefix, or under `?rest_route=` with plain permalinks. On a site where the home and site URLs differ, or with plain permalinks, that URL may not reach the route; the model does not say whether it does.
- The endpoint's key is read at construction, and the builder reads the key option again when it writes. `Endpoint.Endpoint.GetBlueprintJson` promises a 200 from generation only when the two agree (`site.key == key`).
- When no option survives the filters, `$options_chunks` is never assigned. PHP warns on the `foreach` over it and adds no step; the model gives zero steps.
- Option arrays keep only their values (`Php.Value.Arr`); array keys do not influence any filter.
- The option table read by `wp_load_alloptions` is required to have distinct keys, as every PHP array does.
