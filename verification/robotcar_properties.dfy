/** Properties of the RobotCar manifest builder that relate several calls,
    or a call to an independent description of its result. */
module ManifestProperties {
  import opened Wrappers
  import opened PosixPaths
  import opened Robotcar
  import Shuffling

  function Map<A, B>(f: A -> B, xs: seq<A>): (ys: seq<B>)
    ensures |ys| == |xs| && forall i :: 0 <= i < |xs| ==> ys[i] == f(xs[i])
  {
    seq(|xs|, i requires 0 <= i < |xs| => f(xs[i]))
  }

  /** Mapping over a concatenation maps each part. */
  lemma {:induction false} MapConcat<A(!new), B(!new)>(f: A -> B, xss: seq<seq<A>>)
    ensures Map(f, Concat(xss)) ==
      Concat(seq(|xss|, k requires 0 <= k < |xss| => Map(f, xss[k])))
    decreases |xss|
  {
    var parts := seq(|xss|, k requires 0 <= k < |xss| => Map(f, xss[k]));
    if |xss| > 0 {
      MapConcat(f, xss[1..]);
      assert parts[1..] == seq(|xss[1..]|, k requires 0 <= k < |xss[1..]| => Map(f, xss[1..][k]));
      assert Map(f, xss[0] + Concat(xss[1..])) == Map(f, xss[0]) + Map(f, Concat(xss[1..]));
    }
  }

  /** Where a listing lands in the concatenation: after all earlier
      listings, whole and in its own order, and before all later ones. */
  lemma {:induction false} ConcatSplit<T(!new)>(xss: seq<seq<T>>, k: nat)
    requires k < |xss|
    ensures Concat(xss) == Concat(xss[..k]) + xss[k] + Concat(xss[k + 1..])
    decreases k
  {
    if k > 0 {
      ConcatSplit(xss[1..], k - 1);
      assert xss[1..][..k - 1] == xss[1..k];
      assert xss[1..][k - 1] == xss[k];
      assert xss[1..][k..] == xss[k + 1..];
      assert xss[..k][1..] == xss[1..k];
    } else {
      assert xss[..0] == [];
      assert xss[1..] == xss[k + 1..];
    }
  }

  // ---------------------------------------------------------------------
  // Names

  /** A relative path as the glob yields one: no anchor, at least one component. */
  predicate FileBelow(rel: Path) {
    rel.root == NoRoot && |rel.parts| > 0
  }

  /** The name keeps every folder above the file, and in particular the
      sequence folder: naming a path below a sequence folder is naming the
      path below it and putting the sequence folder in front. */
  lemma NameKeepsFolders(s: Path, rel: Path)
    requires FileBelow(rel)
    ensures StripSuffix(Join(s, rel)) == Join(s, StripSuffix(rel))
  {
    var p := Join(s, rel);
    assert p.parts == s.parts + rel.parts;
    assert Parent(p) == Join(s, Parent(rel)) by {
      assert p.parts[..|p.parts| - 1] == s.parts + rel.parts[..|rel.parts| - 1];
    }
    assert Name(p) == Name(rel);
    JoinAssociative(s, Parent(rel), Parse(Stem(Name(rel))));
  }

  /** The name is the relative path with its final suffix removed and
      nothing else: the folders and the stem stay, joined by "/". The one
      exception is a stem of ".", which pathlib drops as a component. */
  lemma NameDropsFinalSuffix(rel: Path)
    requires Valid(rel) && FileBelow(rel)
    requires Stem(Name(rel)) != "."
    ensures StripSuffix(rel) == Path(NoRoot, Parent(rel).parts + [Stem(Name(rel))])
    ensures NameOf(rel) + Suffix(Name(rel)) == AsPosix(rel)
  {
    var last := Name(rel);
    var stem := Stem(last);
    var dirs := Parent(rel).parts;
    StripsToStem(rel);
    assert rel.parts == dirs + [last];
    PrintSnoc(dirs, stem, Suffix(last));
  }

  /** Removing the suffix replaces the last component by its stem. */
  lemma StripsToStem(rel: Path)
    requires Valid(rel) && FileBelow(rel)
    requires Stem(Name(rel)) != "."
    ensures StripSuffix(rel) == Path(NoRoot, Parent(rel).parts + [Stem(Name(rel))])
    ensures Stem(Name(rel)) + Suffix(Name(rel)) == Name(rel)
  {
    var last := Name(rel);
    var stem := Stem(last);
    assert IsPart(last) by { assert last == rel.parts[|rel.parts| - 1]; }
    StemSuffix(last);
    ParseComponent(stem);
  }

  /** Printing a relative path whose last component gained a suffix prints
      the suffix after the path. */
  lemma PrintSnoc(dirs: seq<string>, stem: string, suffix: string)
    requires stem != ""
    ensures AsPosix(Path(NoRoot, dirs + [stem])) + suffix == AsPosix(Path(NoRoot, dirs + [stem + suffix]))
  {
    JoinSlashSnoc(dirs, stem);
    JoinSlashSnoc(dirs, stem + suffix);
  }

  /** A file whose last component has no suffix keeps its whole path as its name. */
  lemma NameWithoutSuffix(rel: Path)
    requires Valid(rel) && rel.root == NoRoot
    requires Suffix(Name(rel)) == ""
    ensures NameOf(rel) == AsPosix(rel)
  {
    var last := Name(rel);
    var stem := Stem(last);
    StemSuffix(last);
    assert stem == last;
    if |rel.parts| > 0 {
      assert IsPart(last) by { assert last == rel.parts[|rel.parts| - 1]; }
      NameDropsFinalSuffix(rel);
      assert NameOf(rel) + "" == NameOf(rel);
    } else {
      var par := Parent(rel);
      assert par == rel;
      assert stem == "";
      ParseComponent(stem);
      assert Parse(stem) == Path(NoRoot, []);
      assert StripSuffix(rel) == Join(par, Parse(stem)) == rel;
    }
  }

  /** pathlib treats a stem of "." as the current folder, so a file named
      like "..jpg" is named after its folder. */
  lemma DotStemNamesFolder(rel: Path)
    requires FileBelow(rel)
    requires Stem(Name(rel)) == "."
    ensures StripSuffix(rel) == Parent(rel)
  {
    ParseComponent(".");
  }

  /** For the files the `*.jpg` pattern matches, the name is the relative
      path without ".jpg". */
  lemma JpgName(rel: Path)
    requires Valid(rel) && FileBelow(rel)
    requires var last := Name(rel);
      |last| > 4 && last[|last| - 4..] == ".jpg" && last[..|last| - 4] != "."
    ensures NameOf(rel) + ".jpg" == AsPosix(rel)
  {
    JpgStem(Name(rel));
    NameDropsFinalSuffix(rel);
  }

  /** The `*.jpg` pattern also matches a file named ".jpg". Its leading dot
      does not start a suffix, so that file keeps its whole path as its name. */
  lemma BareJpgName(rel: Path)
    requires Valid(rel) && rel.root == NoRoot
    requires Name(rel) == ".jpg"
    ensures NameOf(rel) == AsPosix(rel)
  {
    JpgStem(Name(rel));
    NameWithoutSuffix(rel);
  }

  // ---------------------------------------------------------------------
  // Selection

  /** Names that `Path(base_path, n)` places below the base folder: the
      ones that do not start with "/". */
  predicate AllRelative(names: seq<string>) {
    forall i :: 0 <= i < |names| ==> names[i] == "" || names[i][0] != '/'
  }

  /** With `image_names` set, there is exactly one entry per given name, in
      the given order, whatever `sequences` holds. */
  lemma ExplicitNamesInOrder(cfg: Config, dataPath: string, glob: Glob, draw: Shuffling.Draw)
    requires cfg.imageNames.Some? && !cfg.shuffle
    requires AllRelative(cfg.imageNames.value)
    ensures var names := cfg.imageNames.value;
      var base := BasePath(dataPath);
      var r := InitDataset(cfg, dataPath, glob, draw);
      r.Ok? && |r.value.image| == |names| && |r.value.name| == |names| &&
      forall i :: 0 <= i < |names| ==>
        r.value.image[i] == AsPosix(Join(base, Parse(names[i]))) &&
        r.value.name[i] == NameOf(Parse(names[i]))
  {
    var names := cfg.imageNames.value;
    var base := BasePath(dataPath);
    var paths := SelectPaths(cfg, base, glob).value;
    forall i | 0 <= i < |paths|
      ensures RelativeTo(paths[i], base) == Some(Parse(names[i]))
    {
      RelativeToJoin(base, Parse(names[i]));
    }
    assert FirstOutside(paths, base) == |paths|;
  }

  /** An empty `image_names` list is not an empty search: it bypasses the
      assertion and gives an empty manifest, unless shuffling is on, in
      which case rebuilding the lists from the first dict fails. */
  lemma EmptyNameList(cfg: Config, dataPath: string, glob: Glob, draw: Shuffling.Draw)
    requires cfg.imageNames == Some([])
    ensures InitDataset(cfg, dataPath, glob, draw) ==
      if cfg.shuffle then Err(EmptyShuffle) else Ok(Manifest([], []))
  {
    var base := BasePath(dataPath);
    assert SelectPaths(cfg, base, glob) == Ok([]);
  }

  /** The default options select nothing: no names and no sequences. */
  lemma DefaultConfigRejected(dataPath: string, glob: Glob, draw: Shuffling.Draw)
    ensures InitDataset(DefaultConfig, dataPath, glob, draw) == Err(EmptySearch)
  {
  }

  /** Sequence names below the base folder whose glob answers are files below them. */
  predicate RelativeListings(base: Path, sequences: seq<string>, glob: Glob) {
    AllRelative(sequences) &&
    forall k, j :: 0 <= k < |sequences| && 0 <= j < |glob(SearchDir(base, sequences[k]))| ==>
      FileBelow(Parse(glob(SearchDir(base, sequences[k]))[j]))
  }

  /** The image strings of one sequence's listing, in the walk's order. */
  function SequenceImages(base: Path, sequence: string, glob: Glob): seq<string> {
    var listing := Listing(SearchDir(base, sequence), glob);
    seq(|listing|, j requires 0 <= j < |listing| => AsPosix(listing[j]))
  }

  /** The name of file `rel` below sequence folder `sequence`: the sequence
      folder, then the file's path below it without its suffix. */
  function SequenceName(sequence: string, rel: string): string {
    AsPosix(Join(Parse(sequence), StripSuffix(Parse(rel))))
  }

  /** The names of one sequence's listing, in the walk's order. */
  function SequenceNames(base: Path, sequence: string, glob: Glob): seq<string> {
    var rels := glob(SearchDir(base, sequence));
    seq(|rels|, j requires 0 <= j < |rels| => SequenceName(sequence, rels[j]))
  }

  /** The name the loop gives a path, as a total function of the path. */
  function NameBelow(base: Path): Path -> string {
    p => match RelativeTo(p, base) case Some(rel) => NameOf(rel) case None => ""
  }

  /** The j-th file of a sequence's listing lies below the base folder and
      is named after the sequence folder and its path below it. */
  lemma ListingEntry(base: Path, s: Path, rel: Path)
    requires s.root == NoRoot && FileBelow(rel)
    ensures RelativeTo(Join(Join(base, s), rel), base) == Some(Join(s, rel))
    ensures NameBelow(base)(Join(Join(base, s), rel)) == AsPosix(Join(s, StripSuffix(rel)))
  {
    JoinAssociative(base, s, rel);
    RelativeToJoin(base, Join(s, rel));
    NameKeepsFolders(s, rel);
  }

  /** Every file a sequence's listing yields lies below the base folder,
      and is named after the sequence folder and its path below it. */
  lemma ListingNames(base: Path, sequence: string, glob: Glob)
    requires sequence == "" || sequence[0] != '/'
    requires forall j :: 0 <= j < |glob(SearchDir(base, sequence))| ==>
      FileBelow(Parse(glob(SearchDir(base, sequence))[j]))
    ensures forall p :: p in Listing(SearchDir(base, sequence), glob) ==> RelativeTo(p, base).Some?
    ensures Map(NameBelow(base), Listing(SearchDir(base, sequence), glob)) == SequenceNames(base, sequence, glob)
  {
    var s := Parse(sequence);
    var dir := SearchDir(base, sequence);
    var rels := glob(dir);
    var listing := Listing(dir, glob);
    var names := SequenceNames(base, sequence, glob);
    var mapped := Map(NameBelow(base), listing);
    forall j | 0 <= j < |listing|
      ensures RelativeTo(listing[j], base).Some?
      ensures mapped[j] == names[j]
    {
      ListingEntry(base, s, Parse(rels[j]));
    }
    forall p | p in listing
      ensures RelativeTo(p, base).Some?
    {
      var j :| 0 <= j < |listing| && listing[j] == p;
    }
  }

  /** When every path lies below the base folder, the loop maps each path
      to its image string and its name. */
  lemma CollectAll(paths: seq<Path>, base: Path)
    requires forall p :: p in paths ==> RelativeTo(p, base).Some?
    ensures Collect(paths, base) == Ok(Manifest(Map(AsPosix, paths), Map(NameBelow(base), paths)))
  {
    forall i | 0 <= i < |paths|
      ensures RelativeTo(paths[i], base).Some?
    {
      assert paths[i] in paths;
    }
    assert FirstOutside(paths, base) == |paths|;
    var m := Collect(paths, base).value;
    var images := Map(AsPosix, paths);
    var names := Map(NameBelow(base), paths);
    forall i | 0 <= i < |paths|
      ensures m.image[i] == images[i] && m.name[i] == names[i]
    {
      var rel := RelativeTo(paths[i], base).value;
      assert NameBelow(base)(paths[i]) == NameOf(rel);
    }
    assert m.image == images;
    assert m.name == names;
  }

  /** The number of files the search finds below the first k sequences. */
  function FilesBefore(base: Path, sequences: seq<string>, glob: Glob, k: nat): nat
    requires k <= |sequences|
  {
    if k == 0 then 0
    else FilesBefore(base, sequences, glob, k - 1) + |glob(SearchDir(base, sequences[k - 1]))|
  }

  /** The first k listings hold as many paths as the search finds below the
      first k sequences. */
  lemma {:induction false} ListingsBefore(base: Path, sequences: seq<string>, glob: Glob, k: nat)
    requires k <= |sequences|
    ensures |Concat(Listings(base, sequences, glob)[..k])| == FilesBefore(base, sequences, glob, k)
    decreases k
  {
    var ls := Listings(base, sequences, glob);
    if k > 0 {
      ListingsBefore(base, sequences, glob, k - 1);
      ConcatSplit(ls[..k], k - 1);
      assert ls[..k][..k - 1] == ls[..k - 1];
      assert ls[..k][k..] == [];
      assert ls[k - 1] == Listing(SearchDir(base, sequences[k - 1]), glob);
    }
  }

  /** The search order: without explicit names, the j-th file the search
      finds below sequence k is selected right after every file found below
      the sequences before it. */
  lemma SearchOrder(cfg: Config, base: Path, glob: Glob, k: nat, j: nat)
    requires Valid(base) && cfg.imageNames.None?
    requires k < |cfg.sequences|
    requires j < |glob(SearchDir(base, cfg.sequences[k]))|
    ensures var dir := SearchDir(base, cfg.sequences[k]);
      var r := SelectPaths(cfg, base, glob);
      var at := FilesBefore(base, cfg.sequences, glob, k) + j;
      r.Ok? && at < |r.value| && r.value[at] == Join(dir, Parse(glob(dir)[j]))
    ensures var r := SelectPaths(cfg, base, glob);
      r.Ok? && |r.value| == FilesBefore(base, cfg.sequences, glob, |cfg.sequences|)
  {
    var ls := Listings(base, cfg.sequences, glob);
    ListingsBefore(base, cfg.sequences, glob, k);
    ConcatSplit(ls, k);
    assert ls[k] == Listing(SearchDir(base, cfg.sequences[k]), glob);
    ListingsBefore(base, cfg.sequences, glob, |cfg.sequences|);
    assert ls[..|cfg.sequences|] == ls;
  }

  /** Without shuffling, the manifest is what the loop makes of the selected paths. */
  lemma UnshuffledIsCollected(cfg: Config, dataPath: string, glob: Glob, draw: Shuffling.Draw)
    requires !cfg.shuffle && (cfg.imageNames.Some? || |cfg.sequences| > 0)
    ensures var base := BasePath(dataPath);
      SelectPaths(cfg, base, glob).Ok? &&
      InitDataset(cfg, dataPath, glob, draw) == Collect(SelectPaths(cfg, base, glob).value, base)
  {
  }

  /** Every listed path lies below the base folder, and each listing's image
      strings and names are the sequence's. */
  lemma ListingsNamed(base: Path, seqs: seq<string>, glob: Glob)
    requires RelativeListings(base, seqs, glob)
    ensures var listings := Listings(base, seqs, glob);
      (forall p :: p in Concat(listings) ==> RelativeTo(p, base).Some?) &&
      seq(|listings|, k requires 0 <= k < |listings| => Map(AsPosix, listings[k])) ==
        seq(|seqs|, k requires 0 <= k < |seqs| => SequenceImages(base, seqs[k], glob)) &&
      seq(|listings|, k requires 0 <= k < |listings| => Map(NameBelow(base), listings[k])) ==
        seq(|seqs|, k requires 0 <= k < |seqs| => SequenceNames(base, seqs[k], glob))
  {
    var listings := Listings(base, seqs, glob);
    forall k | 0 <= k < |seqs|
      ensures forall p :: p in listings[k] ==> RelativeTo(p, base).Some?
      ensures Map(NameBelow(base), listings[k]) == SequenceNames(base, seqs[k], glob)
      ensures Map(AsPosix, listings[k]) == SequenceImages(base, seqs[k], glob)
    {
      ListingNames(base, seqs[k], glob);
    }
    forall p | p in Concat(listings)
      ensures RelativeTo(p, base).Some?
    {
      var k :| 0 <= k < |listings| && p in listings[k];
    }
  }

  /** Without shuffling and without explicit names, the manifest is the
      listings of the sequences one after the other, in the order the
      sequences are given, each listing in its own order; every name starts
      with its sequence folder. */
  lemma SequenceListingsConcatenated(cfg: Config, dataPath: string, glob: Glob, draw: Shuffling.Draw)
    requires cfg.imageNames.None? && |cfg.sequences| > 0 && !cfg.shuffle
    requires RelativeListings(BasePath(dataPath), cfg.sequences, glob)
    ensures var base := BasePath(dataPath);
      var seqs := cfg.sequences;
      var r := InitDataset(cfg, dataPath, glob, draw);
      r.Ok? &&
      r.value.image == Concat(seq(|seqs|, k requires 0 <= k < |seqs| => SequenceImages(base, seqs[k], glob))) &&
      r.value.name == Concat(seq(|seqs|, k requires 0 <= k < |seqs| => SequenceNames(base, seqs[k], glob)))
  {
    var base := BasePath(dataPath);
    var listings := Listings(base, cfg.sequences, glob);
    var paths := Concat(listings);
    UnshuffledIsCollected(cfg, dataPath, glob, draw);
    ListingsNamed(base, cfg.sequences, glob);
    CollectAll(paths, base);
    MapConcat(AsPosix, listings);
    MapConcat(NameBelow(base), listings);
  }

  // ---------------------------------------------------------------------
  // Shuffling

  /** Turning `shuffle` on changes nothing but the order: a failure of the
      same options without shuffling is the same failure, an empty manifest
      becomes `EmptyShuffle`, and otherwise the result holds the unshuffled
      pairs moved together by the fixed reordering for that many pairs. */
  lemma ShuffleOptionReorders(cfg: Config, dataPath: string, glob: Glob, draw: Shuffling.Draw)
    requires cfg.shuffle
    ensures var plain := InitDataset(cfg.(shuffle := false), dataPath, glob, draw);
      var r := InitDataset(cfg, dataPath, glob, draw);
      (plain.Err? ==> r == plain) &&
      (plain.Ok? && |plain.value.image| == 0 ==> r == Err(EmptyShuffle)) &&
      (plain.Ok? && |plain.value.image| > 0 ==>
        var n := |plain.value.image|;
        var order := Shuffling.Order(n, draw);
        r.Ok? && |r.value.image| == n && |r.value.name| == n &&
        forall i :: 0 <= i < n ==>
          0 <= order[i] < n &&
          r.value.image[i] == plain.value.image[order[i]] &&
          r.value.name[i] == plain.value.name[order[i]])
  {
    var cfg' := cfg.(shuffle := false);
    var base := BasePath(dataPath);
    var selected := SelectPaths(cfg, base, glob);
    assert SelectPaths(cfg', base, glob) == selected;
    var plain := InitDataset(cfg', dataPath, glob, draw);
    if selected.Ok? {
      var data := Collect(selected.value, base);
      assert plain == data;
      if data.Ok? {
        assert InitDataset(cfg, dataPath, glob, draw) == ShuffleManifest(data.value, draw);
        if |data.value.image| > 0 {
          ShuffleReorders(data.value, draw);
        }
      }
    }
  }

  /** Each position appears exactly once in the fixed reordering, so the
      shuffled manifest holds every pair of the unshuffled one exactly once. */
  lemma ShuffleIsPermutation(m: Manifest, draw: Shuffling.Draw)
    requires |m.image| == |m.name| > 0
    ensures var r := ShuffleManifest(m, draw);
      r.Ok? && multiset(Zip(r.value)) == multiset(Zip(m)) &&
      forall k :: 0 <= k < |m.image| ==> multiset(Shuffling.Order(|m.image|, draw))[k] == 1
  {
    Shuffling.OrderIsPermutation(|m.image|, draw);
  }
}
