/** The two ways the source takes a file name apart: `pathlib.Path(p).name` / `.suffix`
    (in the loader) and `os.path.splitext(p)[1]` (in the endpoint), both for POSIX paths. */
module Paths {

  /** `s.rfind(c)`: the last index holding `c`, or -1. */
  function RFind(s: string, c: char): (i: int)
    ensures -1 <= i < |s|
    ensures i >= 0 ==> s[i] == c
    ensures forall k :: i < k < |s| ==> s[k] != c
  {
    if s == [] then -1
    else if s[|s| - 1] == c then |s| - 1
    else RFind(s[..|s| - 1], c)
  }

  /** A file extension as both functions below return it: a dot, then at least one character,
      no further dot and no separator. */
  predicate IsExtension(e: string)
  {
    |e| >= 2 && e[0] == '.' && Lacks(e[1..], '.') && Lacks(e, '/')
  }

  /** No character of `s` is `c`. */
  predicate Lacks(s: string, c: char)
  {
    forall k :: 0 <= k < |s| ==> s[k] != c
  }

  /** `PurePosixPath(p).name`: the last component of `p`, where empty and "." components
      do not count (pathlib drops them when it parses the path). */
  function Name(p: string): (r: string)
    ensures Lacks(r, '/') && r != "."
    decreases |p|
  {
    var i := RFind(p, '/');
    var last := p[i + 1..];
    if last != "" && last != "." then
      last
    else if i < 0 then ""
    else Name(p[..i])
  }

  /** `PurePosixPath(p).suffix`: the name from its last dot on, when that dot is neither
      the first nor the last character of the name; otherwise "". */
  function Suffix(p: string): (r: string)
    ensures r == "" || IsExtension(r)
  {
    var name := Name(p);
    var i := RFind(name, '.');
    if 0 < i < |name| - 1 then
      ExtensionAt(name, i, -1);
      name[i..]
    else ""
  }

  /** Some character of `s` is not a dot. */
  predicate HasNonDot(s: string)
  {
    exists k :: 0 <= k < |s| && s[k] != '.'
  }

  /** `os.path.splitext(p)[1]`: from the last dot of the last component on, unless every
      character before that dot in the component is a dot (a leading-dot name has no extension). */
  function SplitExt(p: string): (r: string)
    ensures r == "" || (r[0] == '.' && Lacks(r[1..], '.') && Lacks(r, '/'))
  {
    var sep := RFind(p, '/');
    var dot := RFind(p, '.');
    if dot > sep && HasNonDot(p[sep + 1..dot]) then
      ExtensionAt(p, dot, sep);
      p[dot..]
    else ""
  }

  lemma ExtensionAt(p: string, dot: int, sep: int)
    requires -1 <= sep < dot < |p| && p[dot] == '.'
    requires forall k :: dot < k < |p| ==> p[k] != '.'
    requires forall k :: sep < k < |p| ==> p[k] != '/'
    ensures p[dot..][0] == '.' && Lacks(p[dot..][1..], '.') && Lacks(p[dot..], '/')
  {
    assert forall k :: 0 <= k < |p| - dot ==> p[dot..][k] == p[dot + k];
  }

  /** The text after the last separator of `p`. */
  function AfterLastSlash(p: string): (r: string)
    ensures Lacks(r, '/')
  {
    p[RFind(p, '/') + 1..]
  }

  /** RFind is determined by its contract. */
  lemma RFindAt(s: string, c: char, i: int)
    requires -1 <= i < |s|
    requires i >= 0 ==> s[i] == c
    requires forall k :: i < k < |s| ==> s[k] != c
    ensures RFind(s, c) == i
  {
  }

  /** The name of `base + ext`, when `base` does not end in a separator, is the last component
      of `base` with `ext` appended. */
  lemma AppendName(base: string, ext: string)
    requires base != "" && base[|base| - 1] != '/'
    requires ext != "" && Lacks(ext, '/')
    ensures Name(base + ext) == AfterLastSlash(base) + ext
  {
    var p := base + ext;
    var i := RFind(base, '/');
    LastSlashOfAppend(base, ext);
    var last := p[i + 1..];
    assert last == base[i + 1..] + ext;
    assert |last| >= 2;
  }

  /** A separator-free text appended to `base` leaves its last separator where it was. */
  lemma LastSlashOfAppend(base: string, ext: string)
    requires Lacks(ext, '/')
    ensures RFind(base + ext, '/') == RFind(base, '/')
  {
    var p := base + ext;
    var i := RFind(base, '/');
    forall k | i < k < |p| ensures p[k] != '/' {
      if k >= |base| { assert p[k] == ext[k - |base|]; } else { assert p[k] == base[k]; }
    }
    RFindAt(p, '/', i);
  }

  /** Appending an extension to a path that does not end in a separator makes it the path's suffix. */
  lemma AppendSuffix(base: string, ext: string)
    requires base != "" && base[|base| - 1] != '/'
    requires IsExtension(ext)
    ensures Suffix(base + ext) == ext
  {
    AppendName(base, ext);
    var seg := AfterLastSlash(base);
    var name := seg + ext;
    forall k | |seg| < k < |name| ensures name[k] != '.' {
      assert name[k] == ext[k - |seg|] == ext[1..][k - |seg| - 1];
    }
    RFindAt(name, '.', |seg|);
    assert name[|seg|..] == ext;
  }

  /** `os.path.splitext` of a separator-free name that does not consist of dots, followed by an extension. */
  lemma SplitExtOf(stem: string, ext: string)
    requires Lacks(stem, '/') && HasNonDot(stem)
    requires IsExtension(ext)
    ensures SplitExt(stem + ext) == ext
  {
    var p := stem + ext;
    forall k | 0 <= k < |p| ensures p[k] != '/' {
      if k < |stem| { assert p[k] == stem[k]; } else { assert p[k] == ext[k - |stem|]; }
    }
    RFindAt(p, '/', -1);
    forall k | |stem| < k < |p| ensures p[k] != '.' {
      assert p[k] == ext[1..][k - |stem| - 1];
    }
    RFindAt(p, '.', |stem|);
    assert p[..|stem|] == stem;
    var k :| 0 <= k < |stem| && stem[k] != '.';
    assert p[0..|stem|][k] != '.';
    assert p[|stem|..] == ext;
  }
}
