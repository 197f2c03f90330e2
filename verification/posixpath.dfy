/** The two `os.path` functions the conversion step uses on a POSIX host:
    `splitext` (which splits off the extension of a name) and two-argument `join`. */
module PosixPath {
  import opened Wrappers
  import opened Text

  /** True when some character of `p` in the index range [lo, hi) is not a dot. */
  predicate HasNonDotIn(p: string, lo: int, hi: int)
    requires 0 <= lo && hi <= |p|
  {
    exists k :: lo <= k < hi && p[k] != '.'
  }

  /** `os.path.splitext(p)`: the extension starts at the last dot of the last path
      component, but only when some character before that dot in the component is
      not a dot (so `.pdf` and `..pdf` have no extension); otherwise it is empty. */
  function SplitExt(p: string): (parts: (string, string))
    ensures parts.0 + parts.1 == p
    ensures parts.1 != [] ==> parts.1[0] == '.' && '.' !in parts.1[1..] && '/' !in parts.1
  {
    var sepIndex := match LastIndexOf(p, '/') case None => -1 case Some(i) => i as int;
    match LastIndexOf(p, '.')
    case None => (p, [])
    case Some(dotIndex) =>
      if dotIndex > sepIndex && HasNonDotIn(p, sepIndex + 1, dotIndex) then
        assert p[dotIndex..] == [p[dotIndex]] + p[dotIndex + 1..];
        assert p == p[..dotIndex] + p[dotIndex..];
        assert '/' !in p[dotIndex..] by {
          if sepIndex >= 0 {
            assert p[dotIndex..] == p[sepIndex + 1..][dotIndex - sepIndex - 1..];
          }
        }
        (p[..dotIndex], p[dotIndex..])
      else (p, [])
  }

  /** A name `stem.ext` without path separators, whose stem has at least one
      character that is not a dot, splits into exactly `stem` and `.ext`. */
  lemma SplitExtOfName(stem: string, ext: string)
    requires '.' !in ext && '/' !in ext && '/' !in stem
    requires HasNonDotIn(stem, 0, |stem|)
    ensures SplitExt(stem + "." + ext) == (stem, "." + ext)
  {
    var p := stem + "." + ext;
    assert p == stem + ['.'] + ext;
    RSplitOnceOfJoined(stem, '.', ext);
    assert LastIndexOf(p, '.') == Some(|stem|);
    assert LastIndexOf(p, '/') == None by {
      NoSlashInName(stem, ext);
    }
    var k :| 0 <= k < |stem| && stem[k] != '.';
    assert p[k] == stem[k];
    assert HasNonDotIn(p, 0, |stem|);
    assert p[..|stem|] == stem && p[|stem|..] == "." + ext;
  }

  lemma NoSlashInName(stem: string, ext: string)
    requires '/' !in ext && '/' !in stem
    ensures '/' !in stem + "." + ext
  {
  }

  /** A name that is only dots up to its last dot (a "hidden" name such as `.pdf`)
      has no extension at all. */
  lemma SplitExtOfHiddenName(ext: string)
    requires '.' !in ext && '/' !in ext
    ensures SplitExt("." + ext) == ("." + ext, [])
  {
    var p := "." + ext;
    assert p == [] + ['.'] + ext;
    RSplitOnceOfJoined([], '.', ext);
    assert '/' !in p;
  }

  /** `os.path.join(a, b)`: `b` is always the tail of the result, and unless `b` is
      absolute the result starts with `a`, with a separator before `b` whenever `a`
      is not empty, and nothing else between them: a separator is added exactly when
      `a` is not empty and does not already end with one. */
  function Join(a: string, b: string): (r: string)
    ensures |b| <= |r| && r[|r| - |b|..] == b
    ensures b != [] && b[0] == '/' ==> r == b
    ensures (b == [] || b[0] != '/') ==> |a| <= |r| && r[..|a|] == a
    ensures (b == [] || b[0] != '/') && a != [] ==> |b| < |r| && r[|r| - |b| - 1] == '/'
    ensures (b == [] || b[0] != '/') ==>
              |r| == |a| + |b| + (if a != [] && a[|a| - 1] != '/' then 1 else 0)
  {
    if b != [] && b[0] == '/' then b
    else if a == [] || a[|a| - 1] == '/' then a + b
    else a + "/" + b
  }
}
