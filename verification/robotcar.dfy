/** The image manifest of the RobotCar dataset loader (`Robotcar._init_dataset`):
    which image files are selected, the name each one is given, and the
    seeded shuffle that may reorder them. The result is the pair of parallel
    lists `data['image']` and `data['name']`. */
module Robotcar {
  import opened Wrappers
  import opened PosixPaths
  import Shuffling

  /** `dataset_folder`: where the images live below the data root. */
  const DatasetFolder: string := "robotcar/images"

  /** The options the loader reads. Only the first four shape the manifest;
      `resizeMax`, `grayscale` and `numParallelCalls` configure the decoding
      pipeline, which is not part of this model. */
  datatype Config = Config(
    sequences: seq<string>,
    imageNames: Option<seq<string>>,
    resizeMax: int,
    shuffle: bool,
    grayscale: bool,
    numParallelCalls: int)

  /** `default_config`. */
  const DefaultConfig: Config := Config([], None, 640, false, true, 10)

  /** The exceptions the builder can raise. */
  datatype Error =
    | EmptySearch                  // `assert len(search) > 0` fails
    | NotUnderBase(image: string)  // `relative_to` raises ValueError for this path
    | EmptyShuffle                 // `data_list[0]` raises IndexError

  /** `data`: the image paths and their names, as two parallel lists. */
  datatype Manifest = Manifest(image: seq<string>, name: seq<string>)

  /** One dict of `data_list`: an image and its name kept together. */
  datatype Entry = Entry(image: string, name: string)

  /** The filesystem's answer to the recursive glob for `*.jpg` below d: every
      entry below directory d whose name matches `*.jpg`, as a path relative
      to d, in the order the walk yields them. Which entries match is the
      filesystem's business and is not modelled. */
  type Glob = Path -> seq<string>

  /** `Path(DATA_PATH, dataset_folder)`. */
  function BasePath(dataPath: string): (base: Path)
    ensures Valid(base)
    ensures base == Path(Parse(dataPath).root, Parse(dataPath).parts + ["robotcar", "images"])
  {
    DatasetFolderParts();
    Join(Parse(dataPath), Parse(DatasetFolder))
  }

  /** The dataset folder is the two components "robotcar" and "images". */
  lemma DatasetFolderParts()
    ensures Parse(DatasetFolder) == Path(NoRoot, ["robotcar", "images"])
  {
    assert DatasetFolder == "robotcar" + "/" + "images";
    TwoComponents("robotcar", "images");
  }

  // ---------------------------------------------------------------------
  // Selecting the paths

  function Concat<T(!new)>(xss: seq<seq<T>>): (r: seq<T>)
    ensures forall x :: x in r <==> exists k :: 0 <= k < |xss| && x in xss[k]
  {
    if |xss| == 0 then []
    else
      var rest := Concat(xss[1..]);
      assert forall x :: x in rest <==> exists k :: 1 <= k < |xss| && x in xss[k] by {
        forall x | x in rest ensures exists k :: 1 <= k < |xss| && x in xss[k] {
          var k :| 0 <= k < |xss[1..]| && x in xss[1..][k];
          assert x in xss[k + 1];
        }
        forall x, k | 1 <= k < |xss| && x in xss[k] ensures x in rest {
          assert x in xss[1..][k - 1];
        }
      }
      xss[0] + rest
  }

  /** `Path(base_path, s)`: the folder searched for sequence `s`. */
  function SearchDir(base: Path, sequence: string): Path {
    Join(base, Parse(sequence))
  }

  /** `search`: the search folders, one per sequence, in order. */
  function SearchDirs(base: Path, sequences: seq<string>): (dirs: seq<Path>)
    ensures |dirs| == |sequences|
  {
    seq(|sequences|, k requires 0 <= k < |sequences| => SearchDir(base, sequences[k]))
  }

  /** The paths the recursive `*.jpg` glob of `dir` yields, in the walk's order. */
  function Listing(dir: Path, glob: Glob): (ps: seq<Path>)
    ensures |ps| == |glob(dir)|
    ensures Valid(dir) ==> forall p :: p in ps ==> Valid(p)
  {
    seq(|glob(dir)|, j requires 0 <= j < |glob(dir)| => Join(dir, Parse(glob(dir)[j])))
  }

  /** The listing of every search folder, in the order of `search`. */
  function Listings(base: Path, sequences: seq<string>, glob: Glob): (ls: seq<seq<Path>>)
    ensures |ls| == |sequences|
  {
    var search := SearchDirs(base, sequences);
    seq(|search|, k requires 0 <= k < |search| => Listing(search[k], glob))
  }

  /** The path selection of `_init_dataset`: the explicit names joined onto the base folder when
      `image_names` is given (even when it is empty); otherwise the listings
      of all sequence folders one after the other, after rejecting an empty
      sequence list. */
  function SelectPaths(cfg: Config, base: Path, glob: Glob): (r: Result<seq<Path>, Error>)
    requires Valid(base)
    ensures r.Err? <==> cfg.imageNames.None? && |cfg.sequences| == 0
    ensures r.Err? ==> r.error == EmptySearch
    ensures r.Ok? ==> forall p :: p in r.value ==> Valid(p)
    ensures r.Ok? && cfg.imageNames.Some? ==>
      |r.value| == |cfg.imageNames.value| &&
      forall i :: 0 <= i < |r.value| ==> r.value[i] == Join(base, Parse(cfg.imageNames.value[i]))
  {
    match cfg.imageNames
    case Some(names) =>
      Ok(seq(|names|, i requires 0 <= i < |names| => Join(base, Parse(names[i]))))
    case None =>
      var search := SearchDirs(base, cfg.sequences);
      if |search| == 0 then Err(EmptySearch)
      else Ok(Concat(Listings(base, cfg.sequences, glob)))
  }

  // ---------------------------------------------------------------------
  // Naming

  /** `Path(rel.parent, rel.stem)`: the path with the suffix of its last
      component removed. */
  function StripSuffix(rel: Path): Path
  {
    Join(Parent(rel), Parse(Stem(Name(rel))))
  }

  /** The manifest name of a path relative to the base folder. */
  function NameOf(rel: Path): string
  {
    AsPosix(StripSuffix(rel))
  }

  // ---------------------------------------------------------------------
  // Building the two lists

  /** What ties an image to its name: the name is the one derived from the
      path the image string denotes, taken relative to the base folder. */
  predicate Paired(base: Path, image: string, name: string) {
    var rel := RelativeTo(Parse(image), base);
    rel.Some? && name == NameOf(rel.value)
  }

  /** Both lists have the same length and every index holds a pair. */
  predicate WellPaired(base: Path, m: Manifest) {
    |m.image| == |m.name| &&
    forall i :: 0 <= i < |m.image| ==> Paired(base, m.image[i], m.name[i])
  }

  /** The index of the first path that is not below `base`, or the number
      of paths when all of them are. */
  function FirstOutside(paths: seq<Path>, base: Path): (k: nat)
    ensures k <= |paths|
    ensures forall i :: 0 <= i < k ==> RelativeTo(paths[i], base).Some?
    ensures k < |paths| ==> RelativeTo(paths[k], base).None?
  {
    if |paths| == 0 then 0
    else if RelativeTo(paths[0], base).None? then 0
    else 1 + FirstOutside(paths[1..], base)
  }

  /** What one round of the loop writes for path `p`: its printed form as
      the image, and the name of its path relative to `base`. */
  predicate LoopWrites(base: Path, p: Path, image: string, name: string) {
    image == AsPosix(p) && RelativeTo(p, base).Some? && name == NameOf(RelativeTo(p, base).value)
  }

  /** The loop of `_init_dataset` over `paths`: one image string and one name per path, in order. The
      loop raises `ValueError` at the first path that is not below the base
      folder, and then nothing is returned. */
  function Collect(paths: seq<Path>, base: Path): (r: Result<Manifest, Error>)
    ensures r.Err? <==> FirstOutside(paths, base) < |paths|
    ensures r.Err? ==> r.error == NotUnderBase(AsPosix(paths[FirstOutside(paths, base)]))
    ensures r.Ok? ==> |r.value.image| == |paths| && |r.value.name| == |paths|
    ensures r.Ok? ==> forall i :: 0 <= i < |paths| ==>
      LoopWrites(base, paths[i], r.value.image[i], r.value.name[i])
    decreases |paths|
  {
    if |paths| == 0 then Ok(Manifest([], []))
    else
      match RelativeTo(paths[0], base)
      case None => Err(NotUnderBase(AsPosix(paths[0])))
      case Some(rel) =>
        var rest := Collect(paths[1..], base);
        var k := FirstOutside(paths[1..], base);
        assert FirstOutside(paths, base) == 1 + k;
        if rest.Err? then
          assert paths[1 + k] == paths[1..][k];
          Err(rest.error)
        else
          var m := rest.value;
          var image := [AsPosix(paths[0])] + m.image;
          var name := [NameOf(rel)] + m.name;
          ConsRows(paths, m.image, m.name, (p, i, n) => LoopWrites(base, p, i, n), image[0], name[0]);
          Ok(Manifest(image, name))
  }

  /** One round of the loop: a row for the first item in front of rows for
      the remaining ones gives a row for every item. */
  lemma ConsRows<X, Y, Z>(xs: seq<X>, ys: seq<Y>, zs: seq<Z>, row: (X, Y, Z) -> bool, y: Y, z: Z)
    requires |xs| > 0 && |ys| == |xs| - 1 && |zs| == |xs| - 1
    requires row(xs[0], y, z)
    requires forall i :: 0 <= i < |ys| ==> row(xs[1..][i], ys[i], zs[i])
    ensures forall i :: 0 <= i < |xs| ==> row(xs[i], ([y] + ys)[i], ([z] + zs)[i])
  {
    forall i | 1 <= i < |xs|
      ensures row(xs[i], ([y] + ys)[i], ([z] + zs)[i])
    {
      assert xs[i] == xs[1..][i - 1];
    }
  }

  // ---------------------------------------------------------------------
  // Shuffling

  /** `zip(*data.values())`, which stops at the shorter list. */
  function Zip(m: Manifest): (es: seq<Entry>)
    ensures |es| == if |m.image| <= |m.name| then |m.image| else |m.name|
    ensures forall i :: 0 <= i < |es| ==> es[i] == Entry(m.image[i], m.name[i])
  {
    var n := if |m.image| <= |m.name| then |m.image| else |m.name|;
    seq(n, i requires 0 <= i < n => Entry(m.image[i], m.name[i]))
  }

  /** The dict comprehension that rebuilds `data` from the shuffled dicts. */
  function Unzip(es: seq<Entry>): (m: Manifest)
    ensures |m.image| == |es| && |m.name| == |es|
    ensures Zip(m) == es
  {
    Manifest(seq(|es|, i requires 0 <= i < |es| => es[i].image),
             seq(|es|, i requires 0 <= i < |es| => es[i].name))
  }

  /** The `shuffle` branch of `_init_dataset`: shuffle the (image, name) pairs as units with the
      generator seeded with 0, then split them into two lists again. The
      rebuilding step reads the keys of the first dict, so an empty
      manifest raises `IndexError`. */
  function ShuffleManifest(m: Manifest, draw: Shuffling.Draw): (r: Result<Manifest, Error>)
    ensures r.Err? <==> |m.image| == 0 || |m.name| == 0
    ensures r.Err? ==> r.error == EmptyShuffle
    ensures r.Ok? ==> |r.value.image| == |r.value.name| == |Zip(m)|
    ensures r.Ok? ==> multiset(Zip(r.value)) == multiset(Zip(m))
  {
    var entries := Zip(m);
    if |entries| == 0 then Err(EmptyShuffle)
    else Ok(Unzip(Shuffling.Shuffle(entries, draw)))
  }

  /** Shuffling moves whole pairs: position i of the result holds the image
      and the name that stood together at position `Order(n)[i]` of the
      input, and that reordering depends only on the number of pairs, so
      every manifest of the same length is rearranged the same way. */
  lemma ShuffleReorders(m: Manifest, draw: Shuffling.Draw)
    requires |m.image| > 0 && |m.name| > 0
    ensures ShuffleManifest(m, draw).Ok?
    ensures var n := |Zip(m)|;
      var order := Shuffling.Order(n, draw);
      var r := ShuffleManifest(m, draw).value;
      Shuffling.Positions(order, n) && |order| == n &&
      forall i :: 0 <= i < n ==>
        r.image[i] == m.image[order[i]] && r.name[i] == m.name[order[i]]
  {
    var entries := Zip(m);
    var n := |entries|;
    Shuffling.ShuffleIsOrder(entries, draw);
    var shuffled := Shuffling.Shuffle(entries, draw);
    var order := Shuffling.Order(n, draw);
    var r := ShuffleManifest(m, draw).value;
    assert r == Unzip(shuffled);
    forall i | 0 <= i < n
      ensures r.image[i] == m.image[order[i]] && r.name[i] == m.name[order[i]]
    {
      assert shuffled[i] == entries[order[i]];
    }
  }

  /** Every pair the loop over `paths` produces is a pair: the image
      string denotes the path, and the name was derived from that path. */
  lemma CollectIsPaired(paths: seq<Path>, base: Path)
    requires forall p :: p in paths ==> Valid(p)
    requires Collect(paths, base).Ok?
    ensures WellPaired(base, Collect(paths, base).value)
  {
    var m := Collect(paths, base).value;
    forall i | 0 <= i < |paths|
      ensures Paired(base, m.image[i], m.name[i])
    {
      assert paths[i] in paths;
      ParseAsPosix(paths[i]);
    }
  }

  /** The shuffle never separates an image from its name. */
  lemma ShuffleKeepsPairs(base: Path, m: Manifest, draw: Shuffling.Draw)
    requires |m.image| > 0 && |m.name| > 0
    ensures ShuffleManifest(m, draw).Ok?
    ensures WellPaired(base, m) ==> WellPaired(base, ShuffleManifest(m, draw).value)
  {
    ShuffleReorders(m, draw);
  }

  // ---------------------------------------------------------------------
  // The builder

  /** `Robotcar._init_dataset`, with the data root, the
      filesystem's glob answers and the seeded generator's draws as
      parameters. */
  function InitDataset(cfg: Config, dataPath: string, glob: Glob, draw: Shuffling.Draw)
    : (r: Result<Manifest, Error>)
    ensures cfg.imageNames.None? && |cfg.sequences| == 0 ==> r == Err(EmptySearch)
    ensures r == Err(EmptySearch) ==> cfg.imageNames.None? && |cfg.sequences| == 0
    ensures r.Ok? ==> WellPaired(BasePath(dataPath), r.value)
    ensures r.Ok? && cfg.imageNames.Some? ==> |r.value.image| == |cfg.imageNames.value|
    ensures r.Ok? && cfg.shuffle ==> |r.value.image| > 0
    ensures r == Err(EmptyShuffle) ==> cfg.shuffle
  {
    var base := BasePath(dataPath);
    var paths :- SelectPaths(cfg, base, glob);
    var data :- Collect(paths, base);
    CollectIsPaired(paths, base);
    if cfg.shuffle then
      var shuffled := ShuffleManifest(data, draw);
      if shuffled.Ok? then ShuffleKeepsPairs(base, data, draw); shuffled else shuffled
    else Ok(data)
  }
}
