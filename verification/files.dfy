/** The part of the file system the plugin touches: files under the
    content directory, each holding one blueprint (what `json_decode` gives
    back for what the builder wrote). */
module Files {
  import opened Blueprints

  /** The path a POSIX file system resolves: every run of `/` reads as a
      single `/`, so `dir//file` and `dir/file` name one file. */
  function CollapseSlashes(path: string): (r: string)
    ensures |r| <= |path|
    ensures |path| > 0 ==> |r| > 0 && r[0] == path[0]
    decreases |path|
  {
    if |path| < 2 then path
    else if path[0] == '/' && path[1] == '/' then CollapseSlashes(path[1..])
    else [path[0]] + CollapseSlashes(path[1..])
  }

  /** No `/` directly follows another. */
  predicate NoDoubleSlash(s: string)
  {
    forall k :: 0 < k < |s| ==> !(s[k - 1] == '/' && s[k] == '/')
  }

  /** A collapsed path holds no `//`. */
  lemma {:induction false} CollapsedHasNoDoubleSlash(path: string)
    ensures NoDoubleSlash(CollapseSlashes(path))
    decreases |path|
  {
    if |path| >= 2 {
      var rest := CollapseSlashes(path[1..]);
      CollapsedHasNoDoubleSlash(path[1..]);
      if !(path[0] == '/' && path[1] == '/') {
        var r := [path[0]] + rest;
        assert rest[0] == path[1..][0] == path[1];
        forall k | 0 < k < |r|
          ensures !(r[k - 1] == '/' && r[k] == '/')
        {
          if k > 1 {
            assert r[k - 1] == rest[k - 2] && r[k] == rest[k - 1];
          }
        }
      }
    }
  }

  /** A path without `//` resolves to itself. */
  lemma {:induction false} CollapseNormal(p: string)
    requires NoDoubleSlash(p)
    ensures CollapseSlashes(p) == p
    decreases |p|
  {
    if |p| >= 2 {
      assert !(p[0] == '/' && p[1] == '/');
      var tail := p[1..];
      forall k | 0 < k < |tail|
        ensures !(tail[k - 1] == '/' && tail[k] == '/')
      {
        assert tail[k - 1] == p[k] && tail[k] == p[k + 1];
      }
      CollapseNormal(tail);
      assert [p[0]] + tail == p;
    }
  }

  /** Resolving a resolved path changes nothing, so a file stored under a
      resolved path is found again under that path. */
  lemma CollapseIdempotent(p: string)
    ensures CollapseSlashes(CollapseSlashes(p)) == CollapseSlashes(p)
  {
    CollapsedHasNoDoubleSlash(p);
    CollapseNormal(CollapseSlashes(p));
  }

  /** A doubled `/` anywhere in a path names the same file as a single one. */
  lemma {:induction false} CollapseDoubleSlash(before: string, after: string)
    ensures CollapseSlashes(before + "//" + after) == CollapseSlashes(before + "/" + after)
    decreases |before|
  {
    if before != [] {
      var x, y := before + "//" + after, before + "/" + after;
      assert x[1..] == before[1..] + "//" + after;
      assert y[1..] == before[1..] + "/" + after;
      CollapseDoubleSlash(before[1..], after);
    } else {
      assert before + "//" + after == "//" + after;
      assert ("//" + after)[1..] == "/" + after;
    }
  }

  class FileSystem {
    /** The stored files, under their collapsed paths. */
    var files: map<string, Blueprint>
    /** Whether `put_contents` succeeds on this installation. */
    const writable: bool

    /** Every file is stored under a resolved path. */
    predicate Valid()
      reads this
    {
      forall p :: p in files ==> CollapseSlashes(p) == p
    }

    constructor (files: map<string, Blueprint>, writable: bool)
      requires forall p :: p in files ==> CollapseSlashes(p) == p
      ensures this.files == files && this.writable == writable
      ensures Valid()
    {
      this.files := files;
      this.writable := writable;
    }

    /** `file_exists`: whether the path resolves to a stored file. */
    predicate FileExists(path: string)
      reads this
    {
      CollapseSlashes(path) in files
    }

    /** `$wp_filesystem->put_contents`: overwrite the file the path resolves
        to when writing is possible, report whether it was. */
    method PutContents(path: string, content: Blueprint) returns (ok: bool)
      modifies this
      ensures ok == writable
      ensures files == if writable then old(files)[CollapseSlashes(path) := content] else old(files)
      ensures old(Valid()) ==> Valid()
    {
      ok := writable;
      if writable {
        CollapseIdempotent(path);
        files := files[CollapseSlashes(path) := content];
      }
    }
  }
}
