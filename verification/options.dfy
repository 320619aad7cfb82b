/** The WordPress option table as the plugin's bootstrap and endpoint see it:
    string values under option names. */
module Options {
  import opened Php

  /** The option that holds the key scoping every public path. */
  const KEY_OPTION := "blueprint_builder_key"

  /** PHP truthiness of what `get_option($name, false)` returns: a missing
      option is `false`, and `''` and `'0'` are falsy strings. */
  predicate Truthy(o: Option<string>)
  {
    o.Some? && o.value != "" && o.value != "0"
  }

  /** A value read from the table used in a string concatenation: `false`
      becomes the empty string. */
  function AsString(o: Option<string>): string
  {
    if o.Some? then o.value else ""
  }

  class OptionStore {
    var values: map<string, string>

    constructor (values: map<string, string>)
      ensures this.values == values
    {
      this.values := values;
    }

    /** `get_option($name, false)`. */
    function Get(name: string): Option<string>
      reads this
    {
      if name in values then Some(values[name]) else None
    }

    /** `update_option($name, $value)`. */
    method Update(name: string, value: string)
      modifies this
      ensures values == old(values)[name := value]
    {
      values := values[name := value];
    }
  }
}
