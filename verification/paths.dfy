/**
  The path helpers the application relies on: POSIX `os.path.basename`, `os.path.join` and the
  `helpers.get_filename_without_extenstion` stem (basename first, then `os.path.splitext`).
*/
module Paths {

  const Sep := '/'

  /**
    `os.path.basename`: the text after the last separator. The result is a suffix of the path,
    holds no separator, and is either the whole path or preceded by a separator.
  */
  function Basename(p: string): (b: string)
    ensures |b| <= |p| && p[|p| - |b|..] == b
    ensures Sep !in b
    ensures |b| < |p| ==> p[|p| - |b| - 1] == Sep
  {
    p[RFind(p, Sep) + 1..]
  }

  /**
    POSIX `os.path.join(a, b)` for two components: an absolute `b` wins, otherwise a separator
    is inserted unless `a` is empty or already ends with one.
  */
  function Join(a: string, b: string): (r: string)
    ensures |b| > 0 && b[0] == Sep ==> r == b
    ensures !(|b| > 0 && b[0] == Sep) ==> |r| >= |a| + |b| && r[..|a|] == a && r[|r| - |b|..] == b
    ensures !(|b| > 0 && b[0] == Sep) && |a| > 0 && a[|a| - 1] != Sep ==> |r| == |a| + |b| + 1 && r[|a|] == Sep
    ensures !(|b| > 0 && b[0] == Sep) && (|a| == 0 || a[|a| - 1] == Sep) ==> |r| == |a| + |b|
  {
    if |b| > 0 && b[0] == Sep then b
    else if |a| == 0 || a[|a| - 1] == Sep then a + b
    else a + [Sep] + b
  }

  /** Joining a non-empty directory that lacks a trailing separator with a relative name puts one separator between them. */
  lemma JoinInserts(a: string, b: string)
    requires |a| > 0 && a[|a| - 1] != Sep
    requires |b| > 0 && b[0] != Sep
    ensures Join(a, b) == a + [Sep] + b
  {
  }

  /** The position of the last `c` in `s`, or -1 when there is none (Python's `str.rfind`). */
  function RFind(s: string, c: char): (k: int)
    ensures -1 <= k < |s|
    ensures k >= 0 ==> s[k] == c
    ensures forall j :: k < j < |s| ==> s[j] != c
  {
    if |s| == 0 then -1
    else if s[|s| - 1] == c then |s| - 1
    else RFind(s[..|s| - 1], c)
  }

  /** Some character before position `k` is not a dot. */
  predicate NonDotBefore(s: string, k: int)
    requires k <= |s|
  {
    exists j :: 0 <= j < k && s[j] != '.'
  }

  /**
    `os.path.splitext(name)[0]` for a name without separators: the last dot starts the extension,
    except when only dots precede it (so ".hidden" and "..." have no extension).
  */
  function SplitExtRoot(name: string): (root: string)
    ensures |root| <= |name| && name[..|root|] == root
    ensures '.' !in name ==> root == name
    ensures root != name ==>
      && name[|root|] == '.'
      && '.' !in name[|root| + 1..]
      && NonDotBefore(name, |root|)
    ensures root != name <==> exists j :: 0 <= j < |name| && name[j] == '.' && NonDotBefore(name, j)
    ensures RFind(name, '.') >= 0 && NonDotBefore(name, RFind(name, '.')) ==> root == name[..RFind(name, '.')]
  {
    var k := RFind(name, '.');
    if k >= 0 && NonDotBefore(name, k) then name[..k]
    else
      assert forall j :: 0 <= j < |name| && name[j] == '.' ==> !NonDotBefore(name, j) by {
        forall j | 0 <= j < |name| && name[j] == '.'
          ensures !NonDotBefore(name, j)
        {
          assert k >= j;
          assert forall i :: 0 <= i < j ==> name[i] == '.';
        }
      }
      name
  }

  /** `get_filename_without_extenstion(path)`: the basename with its last extension removed. */
  function Stem(path: string): (r: string)
    ensures Sep !in r
    ensures |r| <= |Basename(path)| && Basename(path)[..|r|] == r
  {
    SplitExtRoot(Basename(path))
  }

  /** A name without separators is its own basename. */
  lemma BasenameOfName(name: string)
    requires Sep !in name
    ensures Basename(name) == name
  {
    RFindAbsent(name, Sep);
  }

  /** The basename of `dir/name` is `name`, whatever the directory part. */
  lemma BasenameOfJoin(dir: string, name: string)
    requires Sep !in name
    ensures Basename(dir + [Sep] + name) == name
  {
    RFindSplit(dir, Sep, name);
  }

  /** Joining a directory and a plain name gives a path whose basename is that name. */
  lemma BasenameOfJoinedName(dir: string, name: string)
    requires Sep !in name
    ensures Basename(Join(dir, name)) == name
  {
    if |dir| == 0 {
      BasenameOfName(name);
    } else if dir[|dir| - 1] == Sep {
      assert dir + name == dir[..|dir| - 1] + [Sep] + name;
      BasenameOfJoin(dir[..|dir| - 1], name);
    } else {
      BasenameOfJoin(dir, name);
    }
  }

  /** Without any `c` in `s` there is no last one: a found position would hold `c`. */
  lemma RFindAbsent(s: string, c: char)
    requires c !in s
    ensures RFind(s, c) == -1
  {
  }

  /** In `s + [c] + t` with no `c` in `t`, the last `c` sits at `|s|`. */
  lemma {:induction false} RFindSplit(s: string, c: char, t: string)
    requires c !in t
    ensures RFind(s + [c] + t, c) == |s|
    decreases |t|
  {
    var w := s + [c] + t;
    if |t| > 0 {
      assert w[..|w| - 1] == s + [c] + t[..|t| - 1];
      assert w[|w| - 1] == t[|t| - 1];
      RFindSplit(s, c, t[..|t| - 1]);
    }
  }

  /**
    Only the last extension goes: in any directory, the stem of `root.ext` is `root`, even when
    `root` holds dots itself (`a.tar.gz` gives `a.tar`).
  */
  lemma StemDropsLastExtension(dir: string, root: string, ext: string)
    requires |root| > 0 && root[0] != '.'
    requires Sep !in root && Sep !in ext && '.' !in ext
    ensures Stem(Join(dir, root + ['.'] + ext)) == root
  {
    StemOfJoinedName(dir, root + ['.'] + ext);
    LastExtension(root, ext);
  }

  lemma LastExtension(root: string, ext: string)
    requires |root| > 0 && root[0] != '.' && '.' !in ext
    ensures SplitExtRoot(root + ['.'] + ext) == root
  {
    var name := root + ['.'] + ext;
    assert name[0] == root[0];
    assert name[..|root|] == root;
    RFindSplit(root, '.', ext);
  }

  /** A leading dot is not an extension: in any directory, the stem of `.hidden` is `.hidden`. */
  lemma StemKeepsHiddenName(dir: string, rest: string)
    requires Sep !in rest && '.' !in rest
    ensures Stem(Join(dir, ['.'] + rest)) == ['.'] + rest
  {
    StemOfJoinedName(dir, ['.'] + rest);
    LeadingDot(rest);
  }

  lemma LeadingDot(rest: string)
    requires '.' !in rest
    ensures SplitExtRoot(['.'] + rest) == ['.'] + rest
  {
    assert ['.'] + rest == [] + ['.'] + rest;
    RFindSplit([], '.', rest);
  }

  /** The stem of a joined plain name depends on the name alone. */
  lemma StemOfJoinedName(dir: string, name: string)
    requires Sep !in name
    ensures Stem(Join(dir, name)) == SplitExtRoot(name)
  {
    BasenameOfJoinedName(dir, name);
  }

  /** A basename without any dot is returned unchanged. */
  lemma StemWithoutDot(path: string)
    requires '.' !in Basename(path)
    ensures Stem(path) == Basename(path)
  {
  }
}
