/**
  The two `pathlib` operations the converter uses, `Path(p).stem` and
  `Path(p).with_suffix(s)`, on the text of a path: the name is what follows
  the last `/`, and its suffix starts at its last `.` unless that dot is the
  first or the last character of the name.
*/
module Paths {
  import opened Wrappers

  /** A path split at its last `/`: the directory part (empty, or ending in `/`) and the name. */
  function SplitName(p: string): (r: (string, string))
    ensures r.0 + r.1 == p
  {
    if p == [] then ([], [])
    else if p[|p| - 1] == '/' then (p, [])
    else
      var (dir, name) := SplitName(p[..|p| - 1]);
      (dir, name + [p[|p| - 1]])
  }

  /** The name holds no `/`, and the directory part is empty or ends with one. */
  lemma {:induction false} SplitNameShape(p: string)
    ensures var (dir, name) := SplitName(p);
      && (forall k :: 0 <= k < |name| ==> name[k] != '/')
      && (dir == [] || dir[|dir| - 1] == '/')
    decreases |p|
  {
    if p != [] && p[|p| - 1] != '/' {
      SplitNameShape(p[..|p| - 1]);
    }
  }

  /** `Path(p).name`. */
  function Name(p: string): string {
    SplitName(p).1
  }

  function Dir(p: string): string {
    SplitName(p).0
  }

  /** No character of `s` is `c`. */
  predicate Lacks(s: string, c: char) {
    forall k :: 0 <= k < |s| ==> s[k] != c
  }

  /** The index of the last `.` in `name`, if there is one. */
  function LastDot(name: string): (r: Option<nat>)
    ensures r.Some? ==> r.value < |name| && name[r.value] == '.'
    ensures r.Some? ==> forall k :: r.value < k < |name| ==> name[k] != '.'
    ensures r.None? ==> Lacks(name, '.')
  {
    if name == [] then None
    else if name[|name| - 1] == '.' then Some(|name| - 1)
    else LastDot(name[..|name| - 1])
  }

  /** The name without its suffix: everything before a last `.` that is neither first nor last. */
  function StemOf(name: string): (r: string)
    ensures |r| <= |name| && r == name[..|r|]
  {
    var dot := LastDot(name);
    if dot.Some? && 0 < dot.value < |name| - 1 then name[..dot.value] else name
  }

  /** `Path(p).stem`. */
  function PathStem(p: string): string {
    StemOf(Name(p))
  }

  /** `Path(p).with_suffix(suffix)`, read back as text: the directory is kept and the suffix replaced. */
  function WithSuffix(p: string, suffix: string): string {
    Dir(p) + StemOf(Name(p)) + suffix
  }

  /** A suffix such as `.key`: a dot, then at least one character, and no other dot or slash. */
  predicate PlainSuffix(suffix: string) {
    && |suffix| >= 2 && suffix[0] == '.'
    && (forall k :: 1 <= k < |suffix| ==> suffix[k] != '.')
    && Lacks(suffix, '/')
  }

  /**
    The stem is a leading part of the name, so it names no directory; only
    an empty name has an empty stem.
  */
  lemma PathStemOfName(p: string)
    ensures var s := PathStem(p);
      && Lacks(s, '/')
      && s == Name(p)[..|s|]
      && (s == [] <==> Name(p) == [])
  {
    var name := Name(p);
    var s := PathStem(p);
    SplitNameShape(p);
    assert forall k :: 0 <= k < |s| ==> s[k] == name[k];
  }

  /** A directory part followed by a slash-free name splits back into the same two parts. */
  lemma {:induction false} SplitNameOfJoin(dir: string, name: string)
    requires dir == [] || dir[|dir| - 1] == '/'
    requires Lacks(name, '/')
    ensures SplitName(dir + name) == (dir, name)
    decreases |name|
  {
    if name == [] {
      assert dir + name == dir;
      if dir != [] {
        assert SplitName(dir) == (dir, []);
      }
    } else {
      var p := dir + name;
      var last := name[|name| - 1];
      assert p[..|p| - 1] == dir + name[..|name| - 1];
      assert p[|p| - 1] == last;
      SplitNameOfJoin(dir, name[..|name| - 1]);
      assert name[..|name| - 1] + [last] == name;
    }
  }

  /** The stem of `stem + suffix` is `stem` again when the stem is not empty. */
  lemma StemOfSuffixed(stem: string, suffix: string)
    requires stem != [] && PlainSuffix(suffix)
    ensures StemOf(stem + suffix) == stem
  {
    var name := stem + suffix;
    var dot := LastDot(name);
    assert name[|stem|] == '.';
    forall j | |stem| < j < |name|
      ensures name[j] != '.'
    {
      assert name[j] == suffix[j - |stem|];
    }
    assert dot.value == |stem|;
  }

  /** A slash-free, non-empty stem followed by a plain suffix is a name of its own. */
  lemma SuffixedName(dir: string, stem: string, suffix: string)
    requires dir == [] || dir[|dir| - 1] == '/'
    requires stem != [] && Lacks(stem, '/') && PlainSuffix(suffix)
    ensures Name(dir + stem + suffix) == stem + suffix
    ensures Dir(dir + stem + suffix) == dir
  {
    var name := stem + suffix;
    forall k | 0 <= k < |name| ensures name[k] != '/' {
      if k < |stem| {
        assert name[k] == stem[k];
      } else {
        assert name[k] == suffix[k - |stem|];
      }
    }
    assert dir + stem + suffix == dir + name;
    SplitNameOfJoin(dir, name);
  }

  /**
    `with_suffix` keeps the directory, puts the suffix at the end, and
    doing it twice is doing it once (for a path with a name).
  */
  lemma WithSuffixIdempotent(p: string, suffix: string)
    requires Name(p) != [] && PlainSuffix(suffix)
    ensures var q := WithSuffix(p, suffix);
      && q[..|Dir(p)|] == Dir(p)
      && q[|q| - |suffix|..] == suffix
      && WithSuffix(q, suffix) == q
  {
    var dir, stem := Dir(p), PathStem(p);
    SplitNameShape(p);
    PathStemOfName(p);
    SuffixedName(dir, stem, suffix);
    StemOfSuffixed(stem, suffix);
  }
}
