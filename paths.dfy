/** The `os.path` operations the two batch drivers use, for POSIX paths. */
module Paths {
  import opened Text

  /** `c.lower()` restricted to ASCII letters. */
  function LowerChar(c: char): char
  {
    if 'A' <= c <= 'Z' then (c as int + 32) as char else c
  }

  /** `s.lower()` restricted to ASCII letters. */
  function Lower(s: string): string
  {
    if s == [] then [] else [LowerChar(s[0])] + Lower(s[1..])
  }

  /** Some character of `p[from..to]` is not a dot. */
  predicate HasNonDot(p: string, from: nat, to: nat)
    requires from <= to <= |p|
    decreases |p| - from
  {
    from < to && (p[from] != '.' || HasNonDot(p, from + 1, to))
  }

  lemma {:induction false} HasNonDotAt(p: string, from: nat, to: nat, k: nat)
    requires from <= k < to <= |p| && p[k] != '.'
    ensures HasNonDot(p, from, to)
    decreases k - from
  {
    if from < k {
      HasNonDotAt(p, from + 1, to, k);
    }
  }

  lemma {:induction false} HasNonDotSame(p: string, q: string, from: nat, to: nat)
    requires from <= to <= |p| && to <= |q|
    requires p[from..to] == q[from..to]
    requires HasNonDot(p, from, to)
    ensures HasNonDot(q, from, to)
    decreases |p| - from
  {
    assert p[from] == p[from..to][0] == q[from..to][0] == q[from];
    if p[from] == '.' {
      assert p[from + 1..to] == p[from..to][1..] == q[from..to][1..] == q[from + 1..to];
      HasNonDotSame(p, q, from + 1, to);
    }
  }

  /**
   * `os.path.splitext(p)`: the extension starts at the last dot of the final
   * component, unless only dots precede that dot in the component (so
   * ".profile" and "..bvh" have no extension).
   */
  function SplitExt(p: string): (r: (string, string))
    ensures r.0 + r.1 == p
    ensures r.1 == [] || (r.1[0] == '.' && '.' !in r.1[1..] && '/' !in r.1)
  {
    var sep := LastIndexOf(p, '/');
    var dot := LastIndexOf(p, '.');
    if dot > sep && HasNonDot(p, sep + 1, dot) then
      assert forall k | dot < k < |p| :: p[k] == p[dot..][k - dot];
      (p[..dot], p[dot..])
    else
      (p, "")
  }

  /** A root whose final component is not all dots, followed by "." and a dot-free suffix, splits back into those two. */
  lemma {:induction false} SplitExtJoin(root: string, ext: string)
    requires '.' !in ext && '/' !in ext
    requires HasNonDot(root, LastIndexOf(root, '/') + 1, |root|)
    ensures SplitExt(root + "." + ext) == (root, "." + ext)
  {
    var p := root + "." + ext;
    DotIndex(root, ext);
    SlashIndex(root, ext);
    var sep := LastIndexOf(root, '/');
    NonDotKept(root, ext, sep + 1);
    assert p[..|root|] == root && p[|root|..] == "." + ext;
  }

  lemma DotIndex(root: string, ext: string)
    requires '.' !in ext
    ensures LastIndexOf(root + "." + ext, '.') == |root|
  {
    var dotted := root + ".";
    assert root + "." + ext == dotted + ext;
    LastIndexOfAppend(dotted, ext, '.');
    assert dotted[|dotted| - 1] == '.';
  }

  lemma SlashIndex(root: string, ext: string)
    requires '/' !in ext
    ensures LastIndexOf(root + "." + ext, '/') == LastIndexOf(root, '/')
  {
    var suffix := "." + ext;
    assert root + "." + ext == root + suffix;
    assert '/' !in suffix by {
      assert forall k | 0 <= k < |suffix| :: suffix[k] == '.' || suffix[k] in ext;
    }
    LastIndexOfAppend(root, suffix, '/');
  }

  lemma NonDotKept(root: string, ext: string, from: nat)
    requires from <= |root| && HasNonDot(root, from, |root|)
    ensures HasNonDot(root + "." + ext, from, |root|)
  {
    var p := root + "." + ext;
    assert p[from..|root|] == root[from..|root|];
    HasNonDotSame(root, p, from, |root|);
  }

  /** Lower-casing keeps the leading dot of an extension. */
  lemma LowerDot(ext: string)
    ensures Lower("." + ext) == "." + Lower(ext)
  {
    assert ("." + ext)[1..] == ext;
  }

  /** Extensions with their leading dot are equal exactly when they are equal without it. */
  lemma DotCancel(x: string, y: string)
    ensures "." + x == "." + y <==> x == y
  {
    if "." + x == "." + y {
      assert x == ("." + x)[1..] == ("." + y)[1..] == y;
    }
  }

  /** A path with no dot at all has no extension. */
  lemma NoDotNoExtension(p: string)
    requires '.' !in p
    ensures SplitExt(p) == (p, "")
  {
    assert LastIndexOf(p, '.') == -1;
  }
}
