/** A lexical model of the parts of Python's `pathlib.PurePosixPath` that the
    manifest builder relies on: building a path from a string, joining two
    paths, `relative_to`, `parent`, `name`, `stem`, `suffix` and `as_posix`.
    Nothing here looks at a filesystem. */
module PosixPaths {
  import opened Wrappers

  /** The anchor of a POSIX path. pathlib keeps exactly two leading slashes
      as a distinct root, because POSIX leaves "//" implementation-defined;
      one slash, or three and more, is the ordinary root. */
  datatype Root = NoRoot | Slash | DoubleSlash

  /** A parsed path: its anchor and its components, in order. */
  datatype Path = Path(root: Root, parts: seq<string>)

  /** A component as pathlib stores it: never empty, never ".", no separator. */
  predicate IsPart(c: string) {
    c != "" && c != "." && '/' !in c
  }

  predicate Valid(p: Path) {
    forall k :: 0 <= k < |p.parts| ==> IsPart(p.parts[k])
  }

  /** The pieces of `s` between separators, like Python's `s.split('/')`. */
  function Split(s: string): (segs: seq<string>)
    ensures |segs| >= 1
    ensures forall k :: 0 <= k < |segs| ==> '/' !in segs[k]
  {
    if s == [] then [""]
    else
      var rest := Split(s[1..]);
      if s[0] == '/' then [""] + rest
      else [[s[0]] + rest[0]] + rest[1..]
  }

  /** Joining the pieces with "/" gives the text back, so splitting loses
      nothing; SplitJoinSlash is the other direction. */
  lemma {:induction false} JoinSplit(s: string)
    ensures JoinSlash(Split(s)) == s
    decreases |s|
  {
    if s != [] {
      var rest := Split(s[1..]);
      JoinSplit(s[1..]);
      var segs := Split(s);
      if s[0] == '/' {
        assert segs == [""] + rest;
        assert segs[1..] == rest;
        assert JoinSlash(segs) == "" + "/" + JoinSlash(rest);
        assert [s[0]] + s[1..] == s;
      } else {
        assert segs == [[s[0]] + rest[0]] + rest[1..];
        assert segs[1..] == rest[1..];
        if |rest| >= 2 {
          assert JoinSlash(rest) == rest[0] + "/" + JoinSlash(rest[1..]);
        }
        assert [s[0]] + s[1..] == s;
      }
    }
  }

  /** The pieces that survive parsing: empty ones (repeated separators) and
      "." are dropped. */
  function Components(segs: seq<string>): (ps: seq<string>)
    requires forall k :: 0 <= k < |segs| ==> '/' !in segs[k]
    ensures forall k :: 0 <= k < |ps| ==> IsPart(ps[k])
    ensures |ps| <= |segs|
  {
    if segs == [] then []
    else if segs[0] == "" || segs[0] == "." then Components(segs[1..])
    else [segs[0]] + Components(segs[1..])
  }

  function RootOf(s: string): Root {
    if |s| >= 2 && s[0] == '/' && s[1] == '/' && (|s| == 2 || s[2] != '/') then DoubleSlash
    else if |s| >= 1 && s[0] == '/' then Slash
    else NoRoot
  }

  /** `PurePosixPath(s)`. */
  function Parse(s: string): (p: Path)
    ensures Valid(p)
    ensures p.root == NoRoot <==> (s == [] || s[0] != '/')
  {
    Path(RootOf(s), Components(Split(s)))
  }

  function RootText(r: Root): string {
    match r
    case NoRoot => ""
    case Slash => "/"
    case DoubleSlash => "//"
  }

  /** Components joined with "/", like Python's `'/'.join(parts)`. */
  function JoinSlash(ps: seq<string>): string
  {
    if |ps| == 0 then ""
    else if |ps| == 1 then ps[0]
    else ps[0] + "/" + JoinSlash(ps[1..])
  }

  /** `p.as_posix()`: the anchor, then the components separated by "/";
      the empty relative path prints as ".". */
  function AsPosix(p: Path): string {
    if p.root == NoRoot && p.parts == [] then "."
    else RootText(p.root) + JoinSlash(p.parts)
  }

  /** `Path(a, b)`: an anchored right operand replaces the left one. */
  function Join(a: Path, b: Path): (r: Path)
    ensures Valid(a) && Valid(b) ==> Valid(r)
    ensures b.root == NoRoot ==> r.root == a.root && |r.parts| == |a.parts| + |b.parts|
    ensures b.root == NoRoot ==> r.parts[..|a.parts|] == a.parts && r.parts[|a.parts|..] == b.parts
    ensures b.root != NoRoot ==> r == b
  {
    if b.root != NoRoot then b else Path(a.root, a.parts + b.parts)
  }

  /** `p.parent`: the path without its last component; a path without
      components is its own parent. */
  function Parent(p: Path): (r: Path)
    ensures r.root == p.root
    ensures |p.parts| > 0 ==> r.parts + [p.parts[|p.parts| - 1]] == p.parts
    ensures |p.parts| == 0 ==> r == p
  {
    if |p.parts| == 0 then p else Path(p.root, p.parts[..|p.parts| - 1])
  }

  /** `p.name`: the last component, or "" when there is none. */
  function Name(p: Path): string {
    if |p.parts| == 0 then "" else p.parts[|p.parts| - 1]
  }

  /** `p.relative_to(base)`: the components of `p` after those of `base`,
      as a relative path; `None` where pathlib raises `ValueError`, that is
      when the anchors differ or `base` is not a leading part of `p`. */
  function RelativeTo(p: Path, base: Path): (r: Option<Path>)
    ensures r.Some? ==> r.value.root == NoRoot && Join(base, r.value) == p
  {
    var n := |base.parts|;
    if p.root == base.root && n <= |p.parts| && p.parts[..n] == base.parts then
      assert p.parts == base.parts + p.parts[n..];
      Some(Path(NoRoot, p.parts[n..]))
    else
      None
  }

  /** Python's `s.rfind(c)`: the last index holding `c`, or -1. */
  function LastIndexOf(s: string, c: char): (i: int)
    ensures -1 <= i < |s|
    ensures i >= 0 ==> s[i] == c && forall k :: i < k < |s| ==> s[k] != c
    ensures i == -1 ==> c !in s
  {
    if |s| == 0 then -1
    else if s[|s| - 1] == c then |s| - 1
    else
      assert s == s[..|s| - 1] + [s[|s| - 1]];
      LastIndexOf(s[..|s| - 1], c)
  }

  /** pathlib's rule for where a suffix starts: at the last ".", provided
      that dot is neither the first nor the last character of the name;
      otherwise there is no suffix and this is the length of the name. */
  function SuffixStart(name: string): (i: nat)
    ensures i <= |name|
  {
    var i := LastIndexOf(name, '.');
    if 0 < i < |name| - 1 then i else |name|
  }

  /** `PurePath.suffix` of a final component. */
  function Suffix(name: string): string {
    name[SuffixStart(name)..]
  }

  /** `PurePath.stem` of a final component. */
  function Stem(name: string): string {
    name[..SuffixStart(name)]
  }

  /** The last dot of a name lies after its first character exactly when
      there is a dot after the first character. */
  lemma LastDotAfterFirst(name: string)
    ensures |name| >= 1 ==> (LastIndexOf(name, '.') >= 1 <==> '.' in name[1..])
  {
    var j := LastIndexOf(name, '.');
    if j >= 1 {
      assert name[1..][j - 1] == '.';
    }
    if |name| >= 1 && '.' in name[1..] {
      var k :| 0 <= k < |name[1..]| && name[1..][k] == '.';
      assert name[k + 1] == '.';
    }
  }

  /** A name has a suffix unless it is empty, ends in a dot, or has no dot
      after its first character; the suffix is a dot followed by at least
      one character and no further dot, and it ends the name. */
  lemma SuffixRule(name: string)
    ensures Suffix(name) == "" <==> (|name| == 0 || name[|name| - 1] == '.' || '.' !in name[1..])
    ensures Suffix(name) != "" ==>
      var r := Suffix(name);
      2 <= |r| < |name| && r[0] == '.' && '.' !in r[1..]
    ensures Suffix(name) == name[|name| - |Suffix(name)|..]
  {
    var i := SuffixStart(name);
    var r := Suffix(name);
    LastDotAfterFirst(name);
    forall k | 0 <= k < |r| - 1
      ensures r[1..][k] != '.'
    {
      assert r[1..][k] == name[i + 1 + k];
    }
  }

  /** The stem is what precedes the suffix; it is the whole name exactly
      when there is no suffix, and it is never empty for a non-empty name. */
  lemma StemSuffix(name: string)
    ensures Stem(name) + Suffix(name) == name
    ensures Stem(name) == name <==> Suffix(name) == ""
    ensures name != "" ==> Stem(name) != ""
    ensures '/' !in name ==> '/' !in Stem(name)
  {
    var i := SuffixStart(name);
    assert name == name[..i] + name[i..];
  }

  /** Strings without a separator. */
  lemma {:induction false} SplitNoSlash(a: string)
    requires '/' !in a
    ensures Split(a) == [a]
    decreases |a|
  {
    if a != [] {
      SplitNoSlash(a[1..]);
      assert [a[0]] + a[1..] == a;
    }
  }

  /** A separator after a separator-free prefix ends the first piece. */
  lemma {:induction false} SplitAfter(a: string, t: string)
    requires '/' !in a
    ensures Split(a + "/" + t) == [a] + Split(t)
    decreases |a|
  {
    var s := a + "/" + t;
    if a == [] {
      assert s[1..] == t;
    } else {
      assert s[1..] == a[1..] + "/" + t;
      SplitAfter(a[1..], t);
      assert [a[0]] + a[1..] == a;
    }
  }

  /** Splitting undoes joining, for separator-free pieces. */
  lemma {:induction false} SplitJoinSlash(ps: seq<string>)
    requires |ps| >= 1
    requires forall k :: 0 <= k < |ps| ==> '/' !in ps[k]
    ensures Split(JoinSlash(ps)) == ps
    decreases |ps|
  {
    if |ps| == 1 {
      SplitNoSlash(ps[0]);
    } else {
      SplitAfter(ps[0], JoinSlash(ps[1..]));
      SplitJoinSlash(ps[1..]);
      assert [ps[0]] + ps[1..] == ps;
    }
  }

  lemma {:induction false} ComponentsOfParts(ps: seq<string>)
    requires forall k :: 0 <= k < |ps| ==> IsPart(ps[k])
    requires forall k :: 0 <= k < |ps| ==> '/' !in ps[k]
    ensures Components(ps) == ps
    decreases |ps|
  {
    if ps != [] {
      ComponentsOfParts(ps[1..]);
      assert [ps[0]] + ps[1..] == ps;
    }
  }

  /** The joined text of non-empty, separator-free pieces does not start with "/". */
  lemma JoinSlashHead(ps: seq<string>)
    requires |ps| >= 1 && IsPart(ps[0])
    ensures |JoinSlash(ps)| >= 1 && JoinSlash(ps)[0] == ps[0][0] && JoinSlash(ps)[0] != '/'
  {
  }

  /** Printing a path and parsing the text gives the path back: `as_posix`
      loses nothing, so an image string identifies its path. */
  lemma {:induction false} ParseAsPosix(p: Path)
    requires Valid(p)
    ensures Parse(AsPosix(p)) == p
  {
    var s := AsPosix(p);
    if p.root == NoRoot && p.parts == [] {
      assert s == ".";
      assert Split(s) == ["."] by { SplitNoSlash(s); }
    } else {
      var j := JoinSlash(p.parts);
      var segs := if p.parts == [] then [""] else p.parts;
      assert Split(j) == segs by {
        if p.parts == [] { SplitNoSlash(j); } else { SplitJoinSlash(p.parts); }
      }
      ComponentsOfParts(p.parts);
      assert Components(segs) == p.parts;
      if p.parts != [] {
        JoinSlashHead(p.parts);
      }
      match p.root
      case NoRoot =>
        assert s == j;
      case Slash =>
        assert s == "/" + j;
        assert s[1..] == j;
        assert Split(s) == [""] + segs;
      case DoubleSlash =>
        assert s == "/" + "/" + j;
        assert |s| == 2 || s[2] == j[0];
        assert RootOf(s) == DoubleSlash;
        assert s[1..] == "/" + j;
        assert s[1..][1..] == j;
        assert Split(s[1..]) == [""] + segs;
        assert Split(s) == [""] + ([""] + segs);
        assert Components(Split(s)) == p.parts;
    }
  }

  /** `relative_to` undoes joining a relative path onto the base. */
  lemma RelativeToJoin(base: Path, rel: Path)
    requires rel.root == NoRoot
    ensures RelativeTo(Join(base, rel), base) == Some(rel)
  {
    var p := Join(base, rel);
    assert p.parts[..|base.parts|] == base.parts;
    assert p.parts[|base.parts|..] == rel.parts;
  }

  /** Joining is associative: anchors are resolved the same way either way. */
  lemma JoinAssociative(a: Path, b: Path, c: Path)
    ensures Join(Join(a, b), c) == Join(a, Join(b, c))
  {
    if b.root == NoRoot && c.root == NoRoot {
      assert (a.parts + b.parts) + c.parts == a.parts + (b.parts + c.parts);
    }
  }

  /** A relative text of two components separated by one "/" parses to those
      two components. */
  lemma TwoComponents(a: string, b: string)
    requires IsPart(a) && IsPart(b)
    ensures Parse(a + "/" + b) == Path(NoRoot, [a, b])
  {
    var p := Path(NoRoot, [a, b]);
    assert [a, b][1..] == [b];
    assert JoinSlash([a, b]) == a + "/" + b;
    assert AsPosix(p) == "" + JoinSlash([a, b]);
    assert "" + (a + "/" + b) == a + "/" + b;
    ParseAsPosix(p);
  }

  /** A single component parses to itself; "." parses to the empty path. */
  lemma ParseComponent(c: string)
    requires '/' !in c
    ensures Parse(c) == (if c == "" || c == "." then Path(NoRoot, []) else Path(NoRoot, [c]))
  {
    SplitNoSlash(c);
  }

  /** The file names a `*.jpg` pattern matches have the suffix ".jpg", and
      their stem is the rest, unless the name is ".jpg" itself, whose leading
      dot does not start a suffix. */
  lemma JpgStem(name: string)
    requires |name| >= 4 && name[|name| - 4..] == ".jpg"
    ensures |name| > 4 ==> Suffix(name) == ".jpg" && Stem(name) == name[..|name| - 4]
    ensures |name| == 4 ==> Suffix(name) == "" && Stem(name) == name
  {
    var n := |name|;
    assert name[n - 4] == '.' && name[n - 3] == 'j' && name[n - 2] == 'p' && name[n - 1] == 'g';
    var i := LastIndexOf(name, '.');
    assert i == n - 4;
    StemSuffix(name);
  }

  /** Appending a component appends it after a separator. */
  lemma {:induction false} JoinSlashSnoc(ps: seq<string>, x: string)
    ensures JoinSlash(ps + [x]) == if ps == [] then x else JoinSlash(ps) + "/" + x
    decreases |ps|
  {
    if |ps| >= 2 {
      assert (ps + [x])[1..] == ps[1..] + [x];
      JoinSlashSnoc(ps[1..], x);
    } else if |ps| == 1 {
      assert ps + [x] == [ps[0], x];
    }
  }
}
