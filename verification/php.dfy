/** The few PHP built-ins the plugin's core relies on, stated over Dafny
    strings. Only the behaviour the core reaches is modelled: byte strings
    are sequences of `char`, and case mapping is ASCII only (as PHP 8.2's
    `strtolower`, which no longer depends on the locale). */
module Php {

  datatype Option<T> = None | Some(value: T)

  /** A PHP value as it can appear in the option table. Arrays are kept as
      the list of their values; their keys play no part in the core. */
  datatype Value =
    | Str(s: string)
    | Int(i: int)
    | Bool(b: bool)
    | Null
    | Arr(items: seq<Value>)

  /** `$v === '' || $v === []`: strict comparison, so `'0'`, `0`, `false`
      and `null` are not "empty" here. */
  predicate IsEmptyValue(v: Value)
  {
    v == Str("") || v == Arr([])
  }

  /** `strpos($haystack, $needle) === 0` for a non-empty needle. */
  predicate StartsWith(haystack: string, needle: string)
  {
    |needle| <= |haystack| && haystack[..|needle|] == needle
  }

  predicate IsDigit(c: char)
  {
    '0' <= c <= '9'
  }

  /** `is_numeric`, approximated as "non-empty and only decimal digits". */
  predicate IsNumeric(s: string)
  {
    |s| > 0 && forall k :: 0 <= k < |s| ==> IsDigit(s[k])
  }

  /** Index of the first occurrence of `d` in `s`. */
  function IndexOf(s: string, d: char): (i: nat)
    requires d in s
    ensures i < |s| && s[i] == d && d !in s[..i]
  {
    if s[0] == d then 0 else 1 + IndexOf(s[1..], d)
  }

  /** An occurrence with none before it is the one `IndexOf` finds. */
  lemma {:induction false} IndexOfFirst(s: string, d: char, n: nat)
    requires n < |s| && s[n] == d && d !in s[..n]
    ensures IndexOf(s, d) == n
  {
    if n > 0 {
      assert s[0] == s[..n][0];
      assert s[1..][..n - 1] == s[..n][1..];
      IndexOfFirst(s[1..], d, n - 1);
    }
  }

  /** Index of the last occurrence of `d` among the first `n` characters
      of `s`, or -1 when there is none. */
  function LastIndexBelow(s: string, d: char, n: nat): (i: int)
    requires n <= |s|
    ensures -1 <= i < n
    ensures 0 <= i ==> s[i] == d
  {
    if n == 0 then -1
    else if s[n - 1] == d then n - 1
    else LastIndexBelow(s, d, n - 1)
  }

  /** Index of the last occurrence of `d` in `s`, or -1 when there is none. */
  function LastIndexOf(s: string, d: char): (i: int)
    ensures -1 <= i < |s|
    ensures 0 <= i ==> s[i] == d
  {
    LastIndexBelow(s, d, |s|)
  }

  lemma {:induction false} LastIndexBelowIsLast(s: string, d: char, n: nat)
    requires n <= |s|
    ensures forall k :: LastIndexBelow(s, d, n) < k < n ==> s[k] != d
  {
    if n > 0 && s[n - 1] != d {
      LastIndexBelowIsLast(s, d, n - 1);
    }
  }

  /** No occurrence of `d` follows the one `LastIndexOf` finds; in
      particular -1 means `d` does not occur at all. */
  lemma LastIndexOfIsLast(s: string, d: char)
    ensures forall k :: LastIndexOf(s, d) < k < |s| ==> s[k] != d
  {
    LastIndexBelowIsLast(s, d, |s|);
  }

  /** `implode($d, $parts)` for a non-empty list. */
  function Implode(parts: seq<string>, d: char): string
    requires |parts| >= 1
  {
    if |parts| == 1 then parts[0] else parts[0] + [d] + Implode(parts[1..], d)
  }

  /** `explode($d, $s)`: the pieces between the separators, in order. */
  function Explode(s: string, d: char): (parts: seq<string>)
    ensures |parts| >= 1
    ensures |parts| == 1 <==> d !in s
    ensures forall k :: 0 <= k < |parts| ==> d !in parts[k]
    ensures Implode(parts, d) == s
    decreases |s|
  {
    if d !in s then [s]
    else
      var i := IndexOf(s, d);
      var rest := Explode(s[i + 1..], d);
      var parts := [s[..i]] + rest;
      assert parts[1..] == rest;
      assert s == s[..i] + [d] + s[i + 1..];
      parts
  }

  /** Exploding an imploded list gives the list back, as long as no piece
      contains the separator. */
  lemma {:induction false} ExplodeImplode(parts: seq<string>, d: char)
    requires |parts| >= 1
    requires forall k :: 0 <= k < |parts| ==> d !in parts[k]
    ensures Explode(Implode(parts, d), d) == parts
    decreases |parts|
  {
    if |parts| > 1 {
      var s := Implode(parts, d);
      var tail := Implode(parts[1..], d);
      assert s == parts[0] + [d] + tail;
      assert d in s by { assert s[|parts[0]|] == d; }
      assert s[..|parts[0]|] == parts[0];
      IndexOfFirst(s, d, |parts[0]|);
      assert s[|parts[0]| + 1..] == tail;
      ExplodeImplode(parts[1..], d);
      assert parts == [parts[0]] + parts[1..];
    }
  }

  /** `basename($path)` for a path without a trailing separator: what
      follows the last `/`. */
  function BaseName(path: string): string
  {
    path[LastIndexOf(path, '/') + 1..]
  }

  /** The base name is a suffix of the path without `/`, preceded by `/`
      unless it is the whole path. */
  lemma BaseNameSuffix(path: string)
    ensures var b := BaseName(path);
            && '/' !in b
            && |b| <= |path| && path[|path| - |b|..] == b
            && (|b| < |path| ==> path[|path| - |b| - 1] == '/')
  {
    LastIndexOfIsLast(path, '/');
  }

  /** `pathinfo($name, PATHINFO_FILENAME)`: everything before the last `.`,
      or the whole name when it has none. */
  function FileName(name: string): string
  {
    var i := LastIndexOf(name, '.');
    if i < 0 then name else name[..i]
  }

  /** The file name is a prefix of the name: the whole name when it has no
      `.`, otherwise everything before its last `.`. */
  lemma FileNamePrefix(name: string)
    ensures var f := FileName(name);
            && StartsWith(name, f)
            && ('.' !in name ==> f == name)
            && ('.' in name ==> |f| < |name| && name[|f|] == '.' && '.' !in name[|f| + 1..])
  {
    LastIndexOfIsLast(name, '.');
  }

  predicate IsUpper(c: char)
  {
    'A' <= c <= 'Z'
  }

  predicate IsAlphanumeric(c: char)
  {
    IsDigit(c) || IsUpper(c) || 'a' <= c <= 'z'
  }

  function LowerChar(c: char): (l: char)
    ensures !IsUpper(l)
    ensures !IsUpper(c) ==> l == c
  {
    if IsUpper(c) then (c as int + 32) as char else c
  }

  /** `strtolower`: ASCII upper-case letters become lower-case, every other
      character is kept. */
  function StrToLower(s: string): (l: string)
    ensures |l| == |s|
    ensures forall k :: 0 <= k < |s| ==> l[k] == LowerChar(s[k])
  {
    seq(|s|, k requires 0 <= k < |s| => LowerChar(s[k]))
  }

  /** `str_replace($search, '', $s)`: one left-to-right pass that deletes
      every non-overlapping occurrence of `search`. */
  function RemoveAll(s: string, search: string): (r: string)
    requires |search| > 0
    ensures |r| <= |s|
    decreases |s|
  {
    if |s| < |search| then s
    else if s[..|search|] == search then RemoveAll(s[|search|..], search)
    else [s[0]] + RemoveAll(s[1..], search)
  }

  /** A string in which the last character of `search` never appears holds
      no occurrence of `search`, so deleting occurrences leaves it as it is. */
  lemma {:induction false} RemoveAllAbsent(s: string, search: string)
    requires |search| > 0
    requires search[|search| - 1] !in s
    ensures RemoveAll(s, search) == s
    decreases |s|
  {
    if |s| >= |search| {
      assert s[..|search|][|search| - 1] == s[|search| - 1];
      assert s[..|search|] != search;
      RemoveAllAbsent(s[1..], search);
      assert s == [s[0]] + s[1..];
    }
  }

  /** `rtrim($s, '/\\')`: drop the whole run of slashes and backslashes at
      the end, and nothing else. */
  function TrimTrailingSlashes(s: string): (r: string)
    ensures StartsWith(s, r)
    ensures forall k :: |r| <= k < |s| ==> s[k] == '/' || s[k] == '\\'
    ensures r == [] || (r[|r| - 1] != '/' && r[|r| - 1] != '\\')
  {
    if s != [] && (s[|s| - 1] == '/' || s[|s| - 1] == '\\') then
      TrimTrailingSlashes(s[..|s| - 1])
    else s
  }

  /** `trailingslashit($s)`: the input up to its trailing run of slashes
      and backslashes, then exactly one `/`. */
  function TrailingSlashIt(s: string): (r: string)
    ensures |r| > 0 && r[|r| - 1] == '/'
    ensures StartsWith(s, r[..|r| - 1])
    ensures forall k :: |r| - 1 <= k < |s| ==> s[k] == '/' || s[k] == '\\'
    ensures |r| == 1 || (r[|r| - 2] != '/' && r[|r| - 2] != '\\')
  {
    TrimTrailingSlashes(s) + "/"
  }
}
