/** The three `os.path` operations the downloader relies on, as POSIX
    Python defines them on strings: `join`, `split` and `splitext`. */
module PosixPath {

  type Path = string

  /** `s.rfind(c)`: the last index holding `c`, or -1. */
  function LastIndexOf(s: string, c: char): (r: int)
    ensures -1 <= r < |s|
    ensures r >= 0 ==> s[r] == c
    ensures forall i :: r < i < |s| ==> s[i] != c
  {
    if s == [] then -1
    else if s[|s| - 1] == c then |s| - 1
    else LastIndexOf(s[..|s| - 1], c)
  }

  /** `os.path.join(a, b)`: an absolute `b` replaces `a`; otherwise a '/' is
      inserted unless `a` is empty or already ends with one. */
  function Join(a: Path, b: Path): (r: Path)
    ensures |b| > 0 && b[0] == '/' ==> r == b
    ensures !(|b| > 0 && b[0] == '/') && (a == [] || a[|a| - 1] == '/') ==> r == a + b
    ensures !(|b| > 0 && b[0] == '/') && a != [] && a[|a| - 1] != '/' ==> r == a + "/" + b
  {
    if |b| > 0 && b[0] == '/' then b
    else if a == [] || a[|a| - 1] == '/' then a + b
    else a + "/" + b
  }

  /** `os.path.join(a, *parts)`. */
  function JoinAll(a: Path, parts: seq<Path>): Path
    decreases |parts|
  {
    if parts == [] then a else JoinAll(Join(a, parts[0]), parts[1..])
  }

  predicate AllSlashes(s: string) {
    forall i :: 0 <= i < |s| ==> s[i] == '/'
  }

  /** `s.rstrip('/')`. */
  function RStripSlashes(s: string): (r: string)
    ensures |r| <= |s| && r == s[..|r|]
    ensures r == [] || r[|r| - 1] != '/'
    ensures forall i :: |r| <= i < |s| ==> s[i] == '/'
  {
    if s == [] || s[|s| - 1] != '/' then s else RStripSlashes(s[..|s| - 1])
  }

  /** `os.path.split(p)`: everything up to the last '/' (with trailing
      slashes removed unless it is nothing but slashes), and what follows. */
  function Split(p: Path): (r: (Path, Path))
    ensures '/' !in r.1
  {
    var i := LastIndexOf(p, '/') + 1;
    var head, tail := p[..i], p[i..];
    assert forall k :: 0 <= k < |tail| ==> tail[k] == p[i + k];
    if head != [] && !AllSlashes(head) then (RStripSlashes(head), tail) else (head, tail)
  }

  /** `os.path.splitext(p)`: the extension is the text from the last '.' of
      the last path component, unless that component is nothing but dots
      before it (a leading-dot name such as ".bashrc" has no extension). */
  function SplitExt(p: Path): (r: (Path, string))
  {
    var sep := LastIndexOf(p, '/');
    var dot := LastIndexOf(p, '.');
    if dot > sep && exists k :: sep + 1 <= k < dot && p[k] != '.' then (p[..dot], p[dot..])
    else (p, "")
  }

  /** What splitext promises: the two parts rebuild the path, and the
      extension is empty or one '.' followed by no '/' and no further '.'. */
  lemma SplitExtParts(p: Path)
    ensures SplitExt(p).0 + SplitExt(p).1 == p
    ensures var ext := SplitExt(p).1;
      ext == [] || (ext[0] == '.' && '/' !in ext && '.' !in ext[1..])
    ensures SplitExt(p).1 != [] ==> |SplitExt(p).0| > 0 && SplitExt(p).0[|SplitExt(p).0| - 1] != '/'
  {
    var sep := LastIndexOf(p, '/');
    var dot := LastIndexOf(p, '.');
    if dot > sep && exists k :: sep + 1 <= k < dot && p[k] != '.' {
      var ext := p[dot..];
      assert p[..dot] + ext == p;
      assert forall i :: 0 <= i < |ext| ==> ext[i] == p[dot + i];
      var k :| sep + 1 <= k < dot && p[k] != '.';
      assert p[dot - 1] != '/';
    }
  }

  /** A folder such as "favorited" or "chats/alice": relative, no trailing
      slash and no empty component. */
  ghost predicate SimpleRelative(f: Path) {
    && |f| > 0 && f[0] != '/' && f[|f| - 1] != '/'
    && forall i, j :: 0 <= i < j < |f| && j == i + 1 ==> !(f[i] == '/' && f[j] == '/')
  }

  lemma JoinAllPair(a: Path, x: Path, y: Path)
    ensures JoinAll(a, [x, y]) == Join(Join(a, x), y)
  {
    assert [x, y][1..] == [y];
    assert [y][1..] == [];
    calc {
      JoinAll(a, [x, y]);
      JoinAll(Join(a, x), [y]);
      JoinAll(Join(Join(a, x), y), []);
    }
  }

  lemma SplitOfSimple(f: Path)
    requires SimpleRelative(f)
    ensures var (h, t) := Split(f);
      && (LastIndexOf(f, '/') < 0 ==> h == "" && t == f)
      && (LastIndexOf(f, '/') >= 0 ==>
            && |h| >= 1 && |t| >= 1 && h[0] != '/' && h[|h| - 1] != '/'
            && f == h + "/" + t)
  {
    var j := LastIndexOf(f, '/');
    if j >= 0 {
      var head := f[..j + 1];
      assert j >= 1;
      assert f[j - 1] != '/' by {
        assert f[j] == '/';
      }
      assert !AllSlashes(head) by {
        assert head[0] == f[0];
      }
      assert RStripSlashes(head) == f[..j] by {
        assert head[..j] == f[..j];
        assert RStripSlashes(f[..j]) == f[..j];
      }
      assert f == f[..j] + "/" + f[j + 1..];
    }
  }

  /** `os.path.join(base, *os.path.split(folder))` is `base/folder` for a
      simple relative folder and a base without a trailing slash. */
  lemma JoinSplitFolder(base: Path, f: Path)
    requires |base| > 0 && base[|base| - 1] != '/'
    requires SimpleRelative(f)
    ensures JoinAll(base, [Split(f).0, Split(f).1]) == base + "/" + f
  {
    var h, t := Split(f).0, Split(f).1;
    SplitOfSimple(f);
    JoinAllPair(base, h, t);
    if LastIndexOf(f, '/') < 0 {
      JoinEmptyHead(base, f);
    } else {
      JoinAround(base, h, t);
    }
  }

  lemma JoinEmptyHead(base: Path, f: Path)
    requires |base| > 0 && base[|base| - 1] != '/'
    requires |f| > 0 && f[0] != '/'
    ensures Join(Join(base, ""), f) == base + "/" + f
  {
    assert Join(base, "") == base + "/";
  }

  lemma JoinAround(base: Path, h: Path, t: Path)
    requires |base| > 0 && base[|base| - 1] != '/'
    requires |h| >= 1 && |t| >= 1 && h[0] != '/' && h[|h| - 1] != '/'
    requires '/' !in t
    ensures Join(Join(base, h), t) == base + "/" + (h + "/" + t)
  {
    assert Join(base, h) == base + "/" + h;
    var a := base + "/" + h;
    assert a[|a| - 1] == h[|h| - 1];
    assert t[0] != '/';
    assert Join(a, t) == a + "/" + t;
  }
}
