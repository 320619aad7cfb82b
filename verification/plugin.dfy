/** The plugin object: its constructor provisions the key once, and
    `register_hooks` wires the endpoint, and the builder only for admin
    requests. */
module Plugin {
  import opened Php
  import opened Options
  import opened Blueprints
  import opened Builder
  import opened Endpoint

  /** What `wp_generate_password(12, false)` returns: twelve letters and
      digits, no special characters. */
  predicate IsGeneratedToken(token: string)
  {
    |token| == 12 && forall k :: 0 <= k < |token| ==> IsAlphanumeric(token[k])
  }

  /** The option table after the constructor ran with `token` as the freshly
      generated password. */
  function Provisioned(values: map<string, string>, token: string): (r: map<string, string>)
    requires IsGeneratedToken(token)
    ensures KEY_OPTION in r && Truthy(Some(r[KEY_OPTION]))
    ensures Truthy(if KEY_OPTION in values then Some(values[KEY_OPTION]) else None) ==> r == values
    ensures !Truthy(if KEY_OPTION in values then Some(values[KEY_OPTION]) else None) ==> r[KEY_OPTION] == token
    ensures r.Keys == values.Keys + {KEY_OPTION}
    ensures forall name :: name in values && name != KEY_OPTION ==> r[name] == values[name]
  {
    var stored := if KEY_OPTION in values then Some(values[KEY_OPTION]) else None;
    if Truthy(stored) then values else values[KEY_OPTION := token]
  }

  /** A second bootstrap never replaces the key the first one left. */
  lemma ProvisioningIsIdempotent(values: map<string, string>, first: string, second: string)
    requires IsGeneratedToken(first) && IsGeneratedToken(second)
    ensures Provisioned(Provisioned(values, first), second) == Provisioned(values, first)
  {
  }

  class Plugin {

    /** `__construct`: generate and store a key unless a truthy one is
        stored already. */
    constructor (options: OptionStore, token: string)
      requires IsGeneratedToken(token)
      modifies options
      ensures options.values == Provisioned(old(options.values), token)
    {
      var key := options.Get(KEY_OPTION);
      if !Truthy(key) {
        key := Some(token);
        options.Update(KEY_OPTION, key.value);
      }
    }

    /** `register_hooks`: the endpoint always, the builder (with the admin
        page that drives it) only when the request is an admin one. */
    method RegisterHooks(options: OptionStore, isAdmin: bool) returns (endpoint: Endpoint, builder: Builder?)
      ensures fresh(endpoint) && endpoint.key == AsString(options.Get(KEY_OPTION))
      ensures builder != null <==> isAdmin
      ensures builder != null ==> fresh(builder) && builder.blueprint == InitialBlueprint()
    {
      endpoint := new Endpoint(options);
      builder := null;
      if isAdmin {
        builder := new Builder();
      }
    }
  }
}
