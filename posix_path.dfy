/** The parts of Python's `posixpath` (`os.path` on Lambda's Linux) that the workers use. */
module PosixPath {
  import opened Text

  /** `str.rfind(c)`: the index of the last `c` in `s`, or -1. */
  function RFind(s: string, c: char): (i: int)
    ensures -1 <= i < |s|
    ensures i >= 0 ==> s[i] == c
    ensures forall j :: i < j < |s| ==> s[j] != c
  {
    if |s| == 0 then -1 else if s[|s| - 1] == c then |s| - 1 else RFind(s[..|s| - 1], c)
  }

  /** The last `c` of `a + b` is the last one of `b` when `b` has one, else the last one of `a`. */
  lemma {:induction false} RFindAppend(a: string, b: string, c: char)
    ensures RFind(a + b, c) == if c in b then |a| + RFind(b, c) else RFind(a, c)
    decreases |b|
  {
    if |b| > 0 {
      var ab := a + b;
      assert ab[|ab| - 1] == b[|b| - 1];
      if b[|b| - 1] != c {
        assert ab[..|ab| - 1] == a + b[..|b| - 1];
        RFindAppend(a, b[..|b| - 1], c);
        assert c in b <==> c in b[..|b| - 1] by {
          assert b == b[..|b| - 1] + [b[|b| - 1]];
        }
      }
    } else {
      assert a + b == a;
    }
  }

  /** `os.path.join(a, b)`: an absolute `b` replaces `a`; otherwise one '/' is put between them. */
  function Join(a: string, b: string): (p: string)
    ensures EndsWith(p, b)
  {
    if StartsWith(b, "/") then b
    else if a == "" || EndsWith(a, "/") then a + b
    else a + "/" + b
  }

  /** `os.path.basename(p)`: everything after the last '/'. */
  function Basename(p: string): (b: string)
    ensures EndsWith(p, b) && '/' !in b
    ensures |b| == |p| || p[|p| - |b| - 1] == '/'
  {
    p[RFind(p, '/') + 1..]
  }

  /** `basename(p)` is not empty: `p` is not empty and does not end in '/'. */
  predicate HasBasename(p: string) {
    p != "" && p[|p| - 1] != '/'
  }

  /** A path names a file, rather than a directory with a trailing '/', exactly when its basename is not empty. */
  lemma BasenameNonEmpty(p: string)
    ensures Basename(p) != "" <==> HasBasename(p)
  {
    if p != "" && p[|p| - 1] != '/' {
      assert RFind(p, '/') != |p| - 1;
    }
  }

  /** Trailing '/' characters removed (`str.rstrip('/')`). */
  function RStripSlashes(s: string): (t: string)
    ensures StartsWith(s, t)
    ensures t == "" || t[|t| - 1] != '/'
  {
    if |s| > 0 && s[|s| - 1] == '/' then RStripSlashes(s[..|s| - 1]) else s
  }

  /**
   * `os.path.dirname(p)`: everything up to the last '/', with trailing slashes removed
   * unless the head consists of slashes only.
   */
  function Dirname(p: string): string {
    var head := p[..RFind(p, '/') + 1];
    if exists k | 0 <= k < |head| :: head[k] != '/' then RStripSlashes(head) else head
  }

  /**
   * `os.path.splitext(p)`: the extension is the part from the last '.' of the last path
   * component, provided that component has a character other than '.' before that dot
   * (leading dots, as in ".bashrc", do not start an extension).
   */
  function SplitExt(p: string): (r: (string, string))
    ensures r.0 + r.1 == p
    ensures r.1 == "" || (r.1[0] == '.' && '/' !in r.1 && '.' !in r.1[1..])
  {
    var sep := RFind(p, '/');
    var dot := RFind(p, '.');
    if dot > sep && exists k | sep + 1 <= k < dot :: p[k] != '.' then
      assert p[..dot] + p[dot..] == p;
      (p[..dot], p[dot..])
    else (p, "")
  }

  /** A relative name joined to a directory without a trailing '/' gets exactly one '/' before it. */
  lemma JoinRelative(dir: string, name: string)
    requires dir != "" && dir[|dir| - 1] != '/' && name != "" && name[0] != '/'
    ensures Join(dir, name) == dir + "/" + name
  {
  }

  /** The last '/' of `dir/name` is the one before `name`, when `name` has none. */
  lemma RFindAfterSlash(dir: string, name: string)
    requires '/' !in name
    ensures RFind(dir + "/" + name, '/') == |dir|
  {
    RFindAppend(dir + "/", name, '/');
  }

  /** A path relative to a directory it names directly keeps that name as its basename. */
  lemma BasenameJoin(dir: string, name: string)
    requires '/' !in name
    ensures Basename(Join(dir, name)) == name
  {
    var p := Join(dir, name);
    if name != "" {
      assert name[0] != '/';
    }
    if dir == "" {
      assert p == name;
      RFindAppend("", name, '/');
      assert "" + name == name;
    } else if EndsWith(dir, "/") {
      assert p == dir + name;
      RFindAppend(dir, name, '/');
      assert dir[|dir| - 1] == '/';
    } else {
      assert p == (dir + "/") + name;
      RFindAppend(dir + "/", name, '/');
    }
  }

  /** A file written directly under a directory has that directory as its dirname. */
  lemma DirnameJoin(dir: string, name: string)
    requires dir != "" && dir[|dir| - 1] != '/' && '/' !in name
    ensures Dirname(Join(dir, name)) == dir
  {
    if name != "" {
      assert name[0] != '/';
    }
    assert !EndsWith(dir, "/");
    var p := Join(dir, name);
    assert p == (dir + "/") + name;
    RFindAppend(dir + "/", name, '/');
    var head := p[..RFind(p, '/') + 1];
    assert head == dir + "/";
    assert head[|dir| - 1] != '/';
    assert RStripSlashes(head) == RStripSlashes(dir);
  }

  /**
   * The extension of `stem + ext` is `ext` when `ext` is a dot followed by no dot and no
   * slash, and the last component of `stem` has a character other than '.'.
   */
  lemma SplitExtOfSuffix(stem: string, ext: string)
    requires |ext| > 0 && ext[0] == '.' && '.' !in ext[1..] && '/' !in ext
    requires exists k | RFind(stem, '/') < k < |stem| :: stem[k] != '.'
    ensures SplitExt(stem + ext) == (stem, ext)
  {
    var p := stem + ext;
    var k :| RFind(stem, '/') < k < |stem| && stem[k] != '.';
    RFindAppend(stem, ext, '/');
    RFindAppend(stem, ext, '.');
    LastDotOfExt(ext);
    assert p[k] == stem[k];
    SplitExtAt(p, RFind(stem, '/'), |stem|, k);
    assert p[..|stem|] == stem && p[|stem|..] == ext;
  }

  /** An extension's only dot is its first character. */
  lemma LastDotOfExt(ext: string)
    requires |ext| > 0 && ext[0] == '.' && '.' !in ext[1..]
    ensures '.' in ext && RFind(ext, '.') == 0
  {
    assert ext == [ext[0]] + ext[1..];
    RFindAppend([ext[0]], ext[1..], '.');
    assert [ext[0]][..0] == [];
  }

  /** A path whose last dot follows its last slash, with a non-dot between them, splits at that dot. */
  lemma SplitExtAt(p: string, sep: int, dot: int, k: int)
    requires RFind(p, '/') == sep && RFind(p, '.') == dot
    requires sep < k < dot && p[k] != '.'
    ensures SplitExt(p) == (p[..dot], p[dot..])
  {
  }
}
