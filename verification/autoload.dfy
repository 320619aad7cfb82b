/** The class autoloader: a class in the plugin's namespace is looked up as
    `src/class-<name>.php` under the plugin directory, and loaded only when
    that file exists. */
module Autoload {
  import opened Php

  const PREFIX := "BlueprintBuilder\\"

  /** What one call of the autoloader does. */
  datatype Outcome =
    | NotOurs                 // another namespace: left to other autoloaders
    | Missing(file: string)   // ours, but no such file: nothing is loaded
    | Required(file: string)  // ours, and the file is loaded

  /** The file a class of the plugin's namespace lives in. The namespace is
      removed wherever it occurs in the name, not only at its head. */
  function ClassFile(className: string, pluginDir: string): string
  {
    pluginDir + "/src/class-" + StrToLower(RemoveAll(className, PREFIX)) + ".php"
  }

  /** The autoloader callback, with the set of files present on disk. */
  function Load(className: string, pluginDir: string, existing: set<string>): (r: Outcome)
    ensures r.NotOurs? <==> !StartsWith(className, PREFIX)
    ensures r.Required? ==> r.file in existing
    ensures r.Missing? ==> r.file !in existing
    ensures !r.NotOurs? ==> StartsWith(r.file, pluginDir + "/src/class-")
  {
    if !StartsWith(className, PREFIX) then NotOurs
    else
      var file := ClassFile(className, pluginDir);
      assert file[..|pluginDir + "/src/class-"|] == pluginDir + "/src/class-";
      if file in existing then Required(file) else Missing(file)
  }

  /** A class directly in the namespace is looked up under its own name in
      lower case, and the file name keeps no upper-case letter. */
  lemma SimpleClassFile(name: string, pluginDir: string)
    requires '\\' !in name
    ensures ClassFile(PREFIX + name, pluginDir) == pluginDir + "/src/class-" + StrToLower(name) + ".php"
    ensures forall k :: 0 <= k < |StrToLower(name)| ==> !IsUpper(StrToLower(name)[k])
  {
    var className := PREFIX + name;
    assert className[..|PREFIX|] == PREFIX;
    assert className[|PREFIX|..] == name;
    RemoveAllAbsent(name, PREFIX);
  }

  /** A simple class name whose lower-case form is `lower` resolves to
      `class-<lower>.php`. */
  lemma ResolvesTo(name: string, lower: string, pluginDir: string)
    requires '\\' !in name && |lower| == |name|
    requires forall k :: 0 <= k < |name| ==> lower[k] == LowerChar(name[k])
    ensures ClassFile(PREFIX + name, pluginDir) == pluginDir + "/src/class-" + lower + ".php"
  {
    SimpleClassFile(name, pluginDir);
    assert StrToLower(name) == lower;
  }

  /** The plugin's four classes resolve to the four files under `src/`. */
  lemma PluginClassesResolve(pluginDir: string)
    ensures ClassFile(PREFIX + "Builder", pluginDir) == pluginDir + "/src/class-" + "builder" + ".php"
    ensures ClassFile(PREFIX + "Endpoint", pluginDir) == pluginDir + "/src/class-" + "endpoint" + ".php"
    ensures ClassFile(PREFIX + "Plugin", pluginDir) == pluginDir + "/src/class-" + "plugin" + ".php"
    ensures ClassFile(PREFIX + "Admin", pluginDir) == pluginDir + "/src/class-" + "admin" + ".php"
  {
    ResolvesTo("Builder", "builder", pluginDir);
    ResolvesTo("Endpoint", "endpoint", pluginDir);
    ResolvesTo("Plugin", "plugin", pluginDir);
    ResolvesTo("Admin", "admin", pluginDir);
  }

  /** Loading is decided by the file alone: a class of the namespace is
      loaded exactly when its file exists. */
  lemma LoadedIffFileExists(className: string, pluginDir: string, existing: set<string>)
    requires StartsWith(className, PREFIX)
    ensures Load(className, pluginDir, existing).Required? <==> ClassFile(className, pluginDir) in existing
    ensures Load(className, pluginDir, existing).file == ClassFile(className, pluginDir)
  {
  }
}
