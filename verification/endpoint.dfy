/** The public REST endpoint: two routes scoped by the key, and the
    blueprint callback that generates the file on demand. */
module Endpoint {
  import opened Php
  import opened Blueprints
  import opened Files
  import opened Options
  import opened Builder

  const NOT_FOUND_CODE := "json_blueprint_not_found"

  datatype Callback = BlueprintJson | Wxr

  /** One `register_rest_route` call: namespace, route and callback. */
  datatype Route = Route(namespace: string, path: string, callback: Callback)

  /** What the blueprint callback hands back to the REST server. */
  datatype RestResult =
    | Response(data: Blueprint, status: int, headers: map<string, string>)
    | Error(code: string, message: string, errorStatus: int)

  const JSON_HEADERS: map<string, string> :=
    map["Content-Type" := "application/json", "Access-Control-Allow-Origin" := "*"]

  function NotFound(): RestResult
  {
    Error(NOT_FOUND_CODE, "Blueprint JSON file not found.", 404)
  }

  function JsonRoute(key: string): string
  {
    "/json-" + key + "/"
  }

  function WxrRoute(key: string): string
  {
    "/wxr-" + key + ".xml"
  }

  /** The URL of a route of a namespace as a site with pretty permalinks
      serves it when its home and site URLs agree: the site URL, the REST
      prefix `wp-json`, the namespace and the route. */
  function RestUrl(siteUrl: string, namespace: string, route: string): string
  {
    SiteUrl(siteUrl, "wp-json/" + namespace + route)
  }

  /** Where the callback looks for the blueprint: `WP_CONTENT_DIR`, then
      `/blueprint-{key}.json`. */
  function ReadPath(contentDir: string, key: string): string
  {
    contentDir + "/blueprint-" + key + ".json"
  }

  /** Whatever separators a directory name ends in are all `/` (none at
      all, as WordPress defines `WP_CONTENT_DIR`, qualifies). */
  predicate TrailingSlashesOnly(dir: string)
    decreases |dir|
  {
    if dir != [] && dir[|dir| - 1] == '/' then TrailingSlashesOnly(dir[..|dir| - 1])
    else dir == [] || dir[|dir| - 1] != '\\'
  }

  class Endpoint {
    /** The key read from the option table when the endpoint is built. */
    const key: string

    constructor (options: OptionStore)
      ensures key == AsString(options.Get(KEY_OPTION))
    {
      key := AsString(options.Get(KEY_OPTION));
    }

    /** `register_routes`: the blueprint route and the WXR route, both in
        the plugin's namespace, both scoped by the key, never the same. */
    function Routes(): (r: seq<Route>)
      ensures |r| == 2
      ensures forall k :: 0 <= k < |r| ==> r[k].namespace == REST_NAMESPACE
      ensures r[0].callback == BlueprintJson && r[1].callback == Wxr
      ensures r[0].path != r[1].path
    {
      RoutesDetermineKey(key, key);
      [Route(REST_NAMESPACE, JsonRoute(key), BlueprintJson),
       Route(REST_NAMESPACE, WxrRoute(key), Wxr)]
    }

    /** `get_blueprint_json`: generate the file if it is missing, then serve
        it, or report that it is still missing. */
    method GetBlueprintJson(site: Site, fs: FileSystem) returns (res: RestResult)
      requires ValidSite(site)
      modifies fs
      ensures var path := ReadPath(site.contentDir, key);
              && (old(fs.FileExists(path)) ==> fs.files == old(fs.files))
              && (!old(fs.FileExists(path)) ==>
                    fs.files == if fs.writable
                                then old(fs.files)[CollapseSlashes(WritePath(site.contentDir, site.key)) := Generated(InitialBlueprint(), site)]
                                else old(fs.files))
              && (fs.FileExists(path) ==> res == Response(fs.files[CollapseSlashes(path)], 200, JSON_HEADERS))
              && (!fs.FileExists(path) ==> res == NotFound())
      ensures var path := ReadPath(site.contentDir, key);
              !old(fs.FileExists(path)) && fs.writable && site.key == key && TrailingSlashesOnly(site.contentDir)
              ==> res == Response(Generated(InitialBlueprint(), site), 200, JSON_HEADERS)
      ensures var path := ReadPath(site.contentDir, key);
              !old(fs.FileExists(path)) && !fs.writable ==> res == NotFound()
    {
      var filePath := site.contentDir + "/blueprint-" + key + ".json";

      if !fs.FileExists(filePath) {
        var builder := new Builder();
        var _ := builder.Generate(site, fs);
        if site.key == key && TrailingSlashesOnly(site.contentDir) {
          WriteAndReadPathsAgree(site.contentDir, key);
        }
      }

      if fs.FileExists(filePath) {
        res := Response(fs.files[CollapseSlashes(filePath)], 200, JSON_HEADERS);
        return;
      }

      res := NotFound();
    }
  }

  /** Joining a file name to a directory whose trailing separators are
      `/` resolves alike whether those separators are trimmed first or not. */
  lemma {:induction false} JoinAfterTrim(dir: string, file: string)
    requires TrailingSlashesOnly(dir)
    ensures CollapseSlashes(TrimTrailingSlashes(dir) + "/" + file) == CollapseSlashes(dir + "/" + file)
    decreases |dir|
  {
    if dir != [] && dir[|dir| - 1] == '/' {
      var shorter := dir[..|dir| - 1];
      assert dir == shorter + "/";
      assert dir + "/" + file == shorter + "//" + file;
      CollapseDoubleSlash(shorter, file);
      JoinAfterTrim(shorter, file);
    }
  }

  /** The file the builder writes is the file the endpoint reads, for every
      content directory whose trailing separators, if any, are `/`. */
  lemma WriteAndReadPathsAgree(contentDir: string, key: string)
    requires TrailingSlashesOnly(contentDir)
    ensures CollapseSlashes(WritePath(contentDir, key)) == CollapseSlashes(ReadPath(contentDir, key))
  {
    var file := "blueprint-" + key + ".json";
    WritePathJoinsFile(contentDir, key);
    ReadPathJoinsFile(contentDir, key);
    JoinAfterTrim(contentDir, file);
  }

  /** The written path is the trimmed directory, `/` and the file name. */
  lemma WritePathJoinsFile(contentDir: string, key: string)
    ensures WritePath(contentDir, key) == TrimTrailingSlashes(contentDir) + "/" + ("blueprint-" + key + ".json")
  {
  }

  /** The read path is the directory, `/` and the file name. */
  lemma ReadPathJoinsFile(contentDir: string, key: string)
    ensures ReadPath(contentDir, key) == contentDir + "/" + ("blueprint-" + key + ".json")
  {
    assert "/blueprint-" == "/" + "blueprint-";
  }

  /** A content directory ending in one `/` qualifies, as does the same
      directory without it. */
  lemma SlashEndedDirectory(base: string)
    requires base == [] || (base[|base| - 1] != '/' && base[|base| - 1] != '\\')
    ensures TrailingSlashesOnly(base) && TrailingSlashesOnly(base + "/")
  {
    assert (base + "/")[..|base|] == base;
  }

  /** The URL of the `importFile` step is the site URL, `wp-json`, the
      plugin's namespace and the WXR route for the same key. */
  lemma WxrStepUrlMatchesRoute(siteUrl: string, key: string)
    ensures ImportStep(siteUrl, key).url == RestUrl(siteUrl, REST_NAMESPACE, WxrRoute(key))
  {
    assert "wp-json/" + REST_NAMESPACE + "/wxr-" == "wp-json/blueprint-builder/v1/wxr-";
  }

  /** The `importFile` step a builder writes with an endpoint's key points
      at the WXR route that endpoint registers. */
  lemma ImportUrlIsRegisteredRoute(endpoint: Endpoint, siteUrl: string)
    ensures var wxr := endpoint.Routes()[1];
            && wxr.callback == Wxr
            && ImportStep(siteUrl, endpoint.key).url == RestUrl(siteUrl, wxr.namespace, wxr.path)
  {
    WxrStepUrlMatchesRoute(siteUrl, endpoint.key);
  }

  /** Each route names its key: two keys give the same route only when they
      are the same key, and the blueprint route never equals a WXR route. */
  lemma RoutesDetermineKey(key: string, key': string)
    ensures JsonRoute(key) == JsonRoute(key') <==> key == key'
    ensures WxrRoute(key) == WxrRoute(key') <==> key == key'
    ensures JsonRoute(key) != WxrRoute(key')
  {
    var json, json' := JsonRoute(key), JsonRoute(key');
    assert json[6..|json| - 1] == key && json'[6..|json'| - 1] == key';
    var wxr, wxr' := WxrRoute(key), WxrRoute(key');
    assert wxr[5..|wxr| - 4] == key && wxr'[5..|wxr'| - 4] == key';
    assert json[1] == 'j' && wxr'[1] == 'w';
  }
}
