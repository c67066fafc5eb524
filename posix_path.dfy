/**
 * The POSIX path operations the widgets use: `os.path.basename`, the root part of
 * `os.path.splitext` and two-component `os.path.join`.
 */
module PosixPath {

  /** `s.rfind(c)`: the last index of `c` in `s`, or -1. */
  function LastIndexOf(s: string, c: char): (i: int)
    ensures -1 <= i < |s|
    ensures i == -1 <==> c !in s
    ensures 0 <= i ==> s[i] == c && forall j :: i < j < |s| ==> s[j] != c
    decreases |s|
  {
    if s == [] then -1
    else if s[|s| - 1] == c then |s| - 1
    else LastIndexOf(s[..|s| - 1], c)
  }

  /**
   * `os.path.basename`: everything after the last `/`, that is the last component: a
   * `/`-free suffix of the path, right after a `/` when it is shorter than the path.
   */
  function Basename(p: string): (b: string)
    ensures '/' !in b
    ensures |b| <= |p| && p[|p| - |b|..] == b
    ensures |b| < |p| ==> p[|p| - |b| - 1] == '/'
  {
    var i := LastIndexOf(p, '/');
    assert forall k :: i + 1 <= k < |p| ==> p[k] != '/';
    p[i + 1..]
  }

  /** Some character before index `dot` of `name` is not a dot. */
  predicate NonDotBefore(name: string, dot: int)
    requires dot <= |name|
  {
    exists k :: 0 <= k < dot && name[k] != '.'
  }

  /** Every dot of `name` has only dots before it: `splitext` then finds no extension (`..mp3`, `.bashrc`). */
  predicate DotsOnlyLead(name: string) {
    forall i, k :: 0 <= k < i < |name| && name[i] == '.' ==> name[k] == '.'
  }

  /** A leading part of a text without `c` has no `c` either. */
  lemma PrefixLacks(t: string, n: int, c: char)
    requires 0 <= n <= |t| && c !in t
    ensures c !in t[..n]
  {
    forall k | 0 <= k < n ensures t[..n][k] != c {
      assert t[..n][k] == t[k];
    }
  }

  /**
   * The root that `os.path.splitext` gives for a name without `/`: the name cut at its
   * last dot, unless every character before that dot is a dot too (`.bashrc` has no
   * extension).
   */
  function SplitExtRoot(name: string): (root: string)
    ensures |root| <= |name| && name[..|root|] == root
    ensures root == name || (name[|root|] == '.' && '.' !in name[|root| + 1..])
    ensures root == name <==> DotsOnlyLead(name)
  {
    var dot := LastIndexOf(name, '.');
    if dot >= 0 && NonDotBefore(name, dot) then name[..dot] else name
  }

  /**
   * `os.path.splitext(os.path.basename(p))[0]`: the file name without its final
   * extension, a leading part of the base name and so free of `/`.
   */
  function Stem(p: string): (s: string)
    ensures |s| <= |Basename(p)| && Basename(p)[..|s|] == s
    ensures '/' !in s
  {
    var b := Basename(p);
    var s := SplitExtRoot(b);
    PrefixLacks(b, |s|, '/');
    s
  }

  /** A `/`-free name after a `/` is the base name, whatever directory comes before. */
  lemma BasenameAfterSlash(dir: string, name: string)
    requires '/' !in name
    ensures Basename(dir + "/" + name) == name
  {
    var p := dir + "/" + name;
    assert p[|dir|] == '/';
    forall j | |dir| < j < |p| ensures p[j] != '/' {
      assert p[j] == name[j - |dir| - 1];
    }
    LastIndexIsLast(p, '/', |dir|);
    assert p[|dir| + 1..] == name;
  }

  /** `base.ext` with no dot in `ext` and some non-dot in `base` splits into root `base`. */
  lemma SplitAtLastDot(base: string, ext: string)
    requires '.' !in ext
    requires exists k :: 0 <= k < |base| && base[k] != '.'
    ensures SplitExtRoot(base + "." + ext) == base
  {
    var name := base + "." + ext;
    assert name[|base|] == '.';
    forall j | |base| < j < |name| ensures name[j] != '.' {
      assert name[j] == ext[j - |base| - 1];
    }
    LastIndexIsLast(name, '.', |base|);
    var k :| 0 <= k < |base| && base[k] != '.';
    assert name[k] == base[k];
    assert NonDotBefore(name, |base|);
    assert name[..|base|] == base;
  }

  /** A file `base.ext` in any directory has stem `base`, when `base` is not all dots. */
  lemma StemDropsExtension(dir: string, base: string, ext: string)
    requires '/' !in base && '/' !in ext && '.' !in ext
    requires exists k :: 0 <= k < |base| && base[k] != '.'
    ensures Stem(dir + "/" + base + "." + ext) == base
  {
    var name := base + "." + ext;
    assert '/' !in name by {
      forall j | 0 <= j < |name| ensures name[j] != '/' {
        if j < |base| { assert name[j] == base[j]; }
        else if j > |base| { assert name[j] == ext[j - |base| - 1]; }
      }
    }
    assert dir + "/" + base + "." + ext == dir + "/" + name;
    BasenameAfterSlash(dir, name);
    SplitAtLastDot(base, ext);
  }

  /** A file whose dots all lead its name (`..mp3`, `.bashrc`) keeps its whole name as stem. */
  lemma StemKeepsLeadingDots(dir: string, name: string)
    requires '/' !in name && DotsOnlyLead(name)
    ensures Stem(dir + "/" + name) == name
  {
    BasenameAfterSlash(dir, name);
  }

  /** A name whose only dot is a leading one (`.bashrc`) keeps its whole name as stem. */
  lemma StemKeepsDotfile(dir: string, rest: string)
    requires '/' !in rest && '.' !in rest
    ensures Stem(dir + "/." + rest) == "." + rest
  {
    var name := "." + rest;
    assert '/' !in name by {
      forall j | 0 <= j < |name| ensures name[j] != '/' {
        if j > 0 { assert name[j] == rest[j - 1]; }
      }
    }
    assert dir + "/." + rest == dir + "/" + name;
    BasenameAfterSlash(dir, name);
    assert LastIndexOf(name, '.') == 0 by {
      forall j | 0 < j < |name| ensures name[j] != '.' {
        assert name[j] == rest[j - 1];
      }
      LastIndexIsLast(name, '.', 0);
    }
    assert !NonDotBefore(name, 0);
  }

  /** An occurrence of `c` with none after it is the one `LastIndexOf` finds. */
  lemma LastIndexIsLast(s: string, c: char, i: int)
    requires 0 <= i < |s| && s[i] == c
    requires forall j :: i < j < |s| ==> s[j] != c
    ensures LastIndexOf(s, c) == i
  {
  }

  /** `os.path.join(a, b)` for two components. */
  function Join(a: string, b: string): (p: string)
    ensures |b| > 0 && b[0] == '/' ==> p == b
    ensures !(|b| > 0 && b[0] == '/') ==> |p| >= |a| + |b| && p[..|a|] == a && p[|p| - |b|..] == b
    ensures !(|b| > 0 && b[0] == '/') && (a == [] || a[|a| - 1] == '/') ==> p == a + b
  {
    if |b| > 0 && b[0] == '/' then b
    else if a == [] || a[|a| - 1] == '/' then a + b
    else a + "/" + b
  }

  /** Joining a relative name onto a directory not ending in `/` inserts exactly one `/`. */
  lemma JoinInsertsSeparator(a: string, b: string)
    requires a != [] && a[|a| - 1] != '/' && !(|b| > 0 && b[0] == '/')
    ensures Join(a, b) == a + "/" + b
    ensures Basename(Join(a, b)) == b <== '/' !in b
  {
    if '/' !in b {
      BasenameAfterSlash(a, b);
    }
  }
}
