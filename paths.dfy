/**
 * How the command completer shows a path candidate: the typed directory
 * prefix with its trailing slashes removed (or "/" if nothing is left),
 * joined to the file's base name, with a '/' after directories. The
 * filesystem itself (expansion of "~", globbing, the executable and
 * directory tests) is not part of this model; the directory test arrives as
 * a flag.
 */
module Paths {
  import opened Text

  /** `s.rstrip("/")`. */
  function StripSlashes(s: string): (r: string)
    ensures |r| <= |s| && r == s[..|r|]
    ensures r == [] || r[|r| - 1] != '/'
    ensures forall i :: |r| <= i < |s| ==> s[i] == '/'
  {
    if s == [] || s[|s| - 1] != '/' then s else StripSlashes(s[..|s| - 1])
  }

  /** `prefix.rstrip("/") or "/"`. */
  function DisplayPrefix(prefix: string): (r: string)
    ensures r != []
    ensures r == "/" || r[|r| - 1] != '/'
    ensures r != "/" ==> StartsWith(prefix, r)
  {
    var stripped := StripSlashes(prefix);
    if stripped == [] then "/" else stripped
  }

  /** `os.path.basename(f)`: what follows the last '/'. */
  function Basename(f: string): (r: string)
    ensures '/' !in r
    ensures |r| <= |f| && f[|f| - |r|..] == r
    ensures |r| < |f| ==> f[|f| - |r| - 1] == '/'
  {
    if f == [] || f[|f| - 1] == '/' then []
    else Basename(f[..|f| - 1]) + [f[|f| - 1]]
  }

  /**
   * `os.path.join(a, b)` for two parts: an absolute `b` replaces `a`;
   * otherwise `b` follows `a`, with one '/' added only when `a` is non-empty
   * and does not already end in one.
   */
  function Join(a: string, b: string): (r: string)
    ensures |b| <= |r| && r[|r| - |b|..] == b
    ensures |b| > 0 && b[0] == '/' ==> r == b
    ensures !(|b| > 0 && b[0] == '/') ==> |a| + |b| <= |r| <= |a| + |b| + 1 && r[..|a|] == a
    ensures !(|b| > 0 && b[0] == '/') && a != [] ==>
              r[|a| - 1] == '/' || (|a| < |r| && r[|a|] == '/')
  {
    if |b| > 0 && b[0] == '/' then b
    else if a == [] || a[|a| - 1] == '/' then a + b
    else a + "/" + b
  }

  /**
   * The display half of a path candidate for file `f` under the typed
   * directory `prefix`: one '/' between the prefix and the base name, and a
   * trailing '/' exactly when `f` is a directory.
   */
  function PathDisplay(prefix: string, f: string, isDir: bool): (r: string)
    ensures var p, b := DisplayPrefix(prefix), Basename(f);
            r == (if p == "/" then p else p + "/") + b + (if isDir then "/" else "")
  {
    ShownParts(prefix, f);
    ShownDisplay(DisplayPrefix(prefix), Basename(f), isDir);
    var display := Join(DisplayPrefix(prefix), Basename(f));
    if isDir then display + "/" else display
  }

  /** The shown prefix is non-empty and ends in '/' only when it is "/"; a base name has no '/'. */
  lemma ShownParts(prefix: string, f: string)
    ensures var p, b := DisplayPrefix(prefix), Basename(f);
            p != [] && (p == "/" || p[|p| - 1] != '/') && '/' !in b
  {
  }

  /** The shown text of a candidate from its shown prefix `p` and base name `b`. */
  lemma ShownDisplay(p: string, b: string, isDir: bool)
    requires p != [] && (p == "/" || p[|p| - 1] != '/') && '/' !in b
    ensures (if isDir then Join(p, b) + "/" else Join(p, b)) ==
            (if p == "/" then p else p + "/") + b + (if isDir then "/" else "")
  {
    JoinShown(p, b);
  }

  /** Joining a shown prefix and a base name puts exactly one '/' between them. */
  lemma JoinShown(p: string, b: string)
    requires p != [] && (p == "/" || p[|p| - 1] != '/') && '/' !in b
    ensures Join(p, b) == (if p == "/" then p else p + "/") + b
  {
    assert b == [] || b[0] in b;
  }
}
