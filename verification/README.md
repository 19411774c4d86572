# RobotCar image manifest

A Dafny model of how hfnet's RobotCar dataset loader (`Robotcar._init_dataset`
in `hfnet/datasets/robotcar.py`) builds its manifest. The manifest is a pair
of parallel lists:

- `image`: the path of every selected image, printed with `as_posix`. The
  search finds every entry whose name matches `*.jpg`, but an explicit name
  may have any suffix.
  The path is absolute when the data root is;
- `name`: a name for each image, which is the image's path relative to the
  dataset folder `<DATA_PATH>/robotcar/images`, with the final suffix
  removed.

Images are selected in one of two ways:

- `image_names` is given: one path per given name, in order.
- `image_names` is absent: every entry whose name matches `*.jpg` below
  each folder listed in `sequences`, sequence by sequence. An empty `sequences` list fails the
  loader's assertion.

With `shuffle` set, the (image, name) pairs are shuffled together by Python's
`random.Random(0)`.

The files:

- `wrappers.dfy` (`Wrappers`): `Option` and a `Result` that works with `:-`.
- `paths.dfy` (`PosixPaths`): a lexical model of the parts of
  `pathlib.PurePosixPath` the loader uses. These are parsing a string,
  joining, `relative_to`, `parent`, `name`, `stem`, `suffix` and `as_posix`,
  including pathlib's rules:
  - exactly two leading slashes are a root of their own;
  - empty and "." components are dropped;
  - an anchored right operand replaces the left one;
  - a suffix starts at the last dot, unless that dot is the first or the last
    character.
- `shuffle.dfy` (`Shuffling`): the Fisher–Yates loop of `random.shuffle`,
  with the generator's draws as a parameter. Its main lemmas:
  - the reordering depends only on the length of the input;
  - the reordering is a permutation.
- `robotcar.dfy` (`Robotcar`): the configuration, the three ways the builder
  fails, and the builder itself, stage by stage:
  - path selection;
  - the image/name loop;
  - the paired shuffle.
- `robotcar_properties.dfy` (`ManifestProperties`): properties that relate
  the builder to independent descriptions of its result:
  - explicit names are kept one for one, in order;
  - sequence listings are concatenated;
  - how names are formed;
  - turning shuffling on only reorders pairs.
- `robotcar_example.dfy` (`ManifestExample`): a worked naming example.

The builder is modelled as the function `Robotcar.InitDataset(cfg, dataPath,
glob, draw)`. Everything the Python code takes from outside is a parameter:

- `dataPath` stands for `DATA_PATH`.
- `glob` is the filesystem's answer to the recursive `**/*.jpg` search. For
  each directory it gives the relative paths of the entries whose names match
  `*.jpg`, in the walk's order.
- `draw` is the value the seeded generator supplies at each swap step.
  Because the seed is the constant 0, these draws are a fixed function of
  the list length and the step, so the shuffle is deterministic.

Failures are `Err` values:

- `EmptySearch`: the `assert len(search) > 0` fails.
- `NotUnderBase`: `relative_to` raises `ValueError`. This happens for an
  absolute entry in `image_names` or `sequences` that lies outside the base
  folder, because an absolute entry replaces the base folder when joined.
- `EmptyShuffle`: rebuilding the lists after a shuffle reads `data_list[0]`
  and raises `IndexError` when nothing was selected.

Three points of the code are easy to misread, and the model follows the code
as written:

- `image_names` is only checked with `is not None`. An empty name list
  therefore skips the sequence search and gives an empty manifest, or an
  `IndexError` when shuffling. It is not rejected.
- An empty `sequences` list is caught by a bare `assert`, which becomes
  `EmptySearch` here. There is no dedicated configuration error. The model
  assumes assertions are enabled (see "Left out").
- Names are taken relative to the dataset folder, not to the sequence
  folder. A file `seqA/img1.jpg` is therefore named `seqA/img1`, not `img1`.
  `ManifestExample.SequenceFolderExample` works this case through.

## Model

| member | source | states |
|---|---|---|
| Robotcar.InitDataset | hfnet/datasets/robotcar.py:20-41 | An `EmptySearch` failure occurs exactly when there are no explicit names and no sequences. A successful manifest pairs every image with the name derived from that image's own path. Explicit names give one entry per name. A shuffled success is never empty. `EmptyShuffle` only happens with shuffling on. |
| Robotcar.BasePath | hfnet/datasets/robotcar.py:18-23 | The base folder is the parsed data root with the two components `robotcar` and `images` appended, and it is a well-formed path. |
| Robotcar.DatasetFolderParts | hfnet/datasets/robotcar.py:18 | The text `robotcar/images` parses to the relative path with the components `robotcar` and `images`. |
| Robotcar.SelectPaths | hfnet/datasets/robotcar.py:25-30 | Selection fails, with `EmptySearch`, if and only if `image_names` is None and `sequences` is empty. Explicit names become one path each, in order, joined onto the base folder. |
| Robotcar.Collect | hfnet/datasets/robotcar.py:32-36 | If any path is outside the base folder, the loop fails at the first such path and reports it. Otherwise it gives one image string and one name per path, in order: the image is the path printed, and the name comes from the path relative to the base folder. |
| Robotcar.StripSuffix | hfnet/datasets/robotcar.py:36 | `Path(rel.parent, rel.stem)`. Its meaning is given by ManifestProperties.NameDropsFinalSuffix (only the final suffix goes), ManifestProperties.NameKeepsFolders (the folders stay) and ManifestProperties.DotStemNamesFolder (a "." stem is dropped). |
| Robotcar.NameOf | hfnet/datasets/robotcar.py:36 | The name of a relative path: the path with its final suffix removed, printed with `as_posix`. ManifestProperties.NameDropsFinalSuffix proves that putting the suffix back gives the printed path, and ManifestProperties.NameWithoutSuffix that a path without a suffix is its own name. |
| Robotcar.CollectIsPaired | hfnet/datasets/robotcar.py:33-36 | Every (image, name) pair the loop makes is consistent: the image string parses back to its path, and the name is the one derived from that path. |
| Robotcar.Zip | hfnet/datasets/robotcar.py:38 | Zipping the two lists gives one dict per index, up to the shorter list. |
| Robotcar.Unzip | hfnet/datasets/robotcar.py:40 | Rebuilding the lists from the dicts gives two equally long lists that zip back to exactly those dicts. |
| Robotcar.ShuffleManifest | hfnet/datasets/robotcar.py:37-40 | Shuffling fails with `EmptyShuffle` exactly when there is nothing to shuffle. Otherwise it keeps the length and the multiset of (image, name) pairs. |
| Robotcar.ShuffleReorders | hfnet/datasets/robotcar.py:37-40 | Position i of the shuffled manifest holds the image and the name that stood together at position `Order(n)[i]` before, and `Order` depends only on the number of pairs. |
| Robotcar.ShuffleKeepsPairs | hfnet/datasets/robotcar.py:37-40 | Shuffling a non-empty manifest succeeds, and if the manifest was consistently paired it stays consistently paired. |
| Robotcar.Concat | hfnet/datasets/robotcar.py:30 | The flattening `[p for s in search for p in ...]`: an item is in the result exactly when it is in one of the listings. ManifestProperties.ConcatSplit places each listing whole and in order. |
| Robotcar.SearchDir | hfnet/datasets/robotcar.py:28 | `Path(base_path, s)` for one sequence. ManifestProperties.ListingEntry and ManifestProperties.SearchOrder state what is found below it. |
| Robotcar.SearchDirs | hfnet/datasets/robotcar.py:28-29 | `search` has one folder per sequence, so the assertion `len(search) > 0` fails exactly when `sequences` is empty. |
| Robotcar.Listing | hfnet/datasets/robotcar.py:30 | The glob of one search folder gives one path per match, each well formed when the folder is. That they keep the walk's order is proved by ManifestProperties.SearchOrder. |
| Robotcar.Listings | hfnet/datasets/robotcar.py:28-30 | One listing per sequence. That the listings follow the order of `sequences` is proved by ManifestProperties.SearchOrder. |
| Robotcar.FirstOutside | hfnet/datasets/robotcar.py:33-35 | Gives the index of the first path `relative_to` rejects: every earlier path is below the base folder and that one is not. If there is none, it gives the number of paths. |
| ManifestProperties.ExplicitNamesInOrder | hfnet/datasets/robotcar.py:25-26 | With `image_names` set, the manifest has exactly one entry per name, in the given order. The image is the name joined onto the base folder and the name is the given name without its suffix, whatever `sequences` holds. |
| ManifestProperties.EmptyNameList | hfnet/datasets/robotcar.py:25-26 | An empty `image_names` list bypasses the empty-search assertion. It gives an empty manifest, or `EmptyShuffle` when shuffling is on. |
| ManifestProperties.DefaultConfigRejected | hfnet/datasets/robotcar.py:10-17 | The default options, with no names and no sequences, fail with `EmptySearch`. |
| ManifestProperties.SearchOrder | hfnet/datasets/robotcar.py:28-30 | Without explicit names, the j-th entry the search finds below sequence k is selected at position (number of entries found below the sequences before k) + j: sequences in the given order, each folder's files in the walk's order. The selection holds exactly as many paths as entries found below all the sequences, and no others. |
| ManifestProperties.SequenceListingsConcatenated | hfnet/datasets/robotcar.py:28-36 | Without names and without shuffling, the image list is the concatenation of each sequence's image list. The name list is the concatenation of each sequence's names, and each name is that sequence's folder followed by the file's path below it, without the suffix. |
| ManifestProperties.ListingNames | hfnet/datasets/robotcar.py:30-36 | For a sequence that does not start with "/" and glob answers that are non-empty relative file paths: every file found below the sequence folder lies below the base folder, and its name is the sequence folder followed by the file's own relative path, without the suffix. |
| ManifestProperties.ListingEntry | hfnet/datasets/robotcar.py:35-36 | For a relative sequence path and a non-empty relative file path: the file below the sequence folder is, relative to the base folder, the sequence path followed by the file path, and its name is that path without the final suffix. |
| ManifestProperties.ListingsNamed | hfnet/datasets/robotcar.py:30-36 | For sequences that do not start with "/" and glob answers that are non-empty relative file paths: every path found in any listing lies below the base folder, and each listing maps onto its sequence's images and names. |
| ManifestProperties.CollectAll | hfnet/datasets/robotcar.py:32-36 | When every path lies below the base folder, the loop succeeds. It maps every path to its printed form and to its name. |
| ManifestProperties.MapConcat | hfnet/datasets/robotcar.py:30-36 | Applying the loop to the concatenated listings gives the same result as applying it to each listing and concatenating. |
| ManifestProperties.ConcatSplit | hfnet/datasets/robotcar.py:30 | In the flattened listing, each sequence's listing appears whole, in its own order, after all earlier ones and before all later ones. |
| ManifestProperties.NameKeepsFolders | hfnet/datasets/robotcar.py:35-36 | The name keeps every folder above the file. Naming a path below a sequence folder is the same as naming the path below it and putting the sequence folder in front. |
| ManifestProperties.NameDropsFinalSuffix | hfnet/datasets/robotcar.py:36 | The name is the relative path with the final suffix of its last component removed and nothing else. Putting the suffix back gives the relative path, provided the stem is not ".". |
| ManifestProperties.NameWithoutSuffix | hfnet/datasets/robotcar.py:36 | A last component without a suffix leaves the whole relative path as the name. |
| ManifestProperties.DotStemNamesFolder | hfnet/datasets/robotcar.py:36 | A file whose stem is "." (such as `..jpg`) is named after its folder, because pathlib drops "." components. |
| ManifestProperties.JpgName | hfnet/datasets/robotcar.py:30-36 | For a file whose last component is longer than ".jpg", ends in ".jpg" and does not have the stem ".", the name followed by ".jpg" is the relative path. The other names the `*.jpg` pattern matches are covered by ManifestProperties.BareJpgName (".jpg") and ManifestProperties.DotStemNamesFolder ("..jpg"). |
| ManifestProperties.BareJpgName | hfnet/datasets/robotcar.py:30-36 | A file named ".jpg", which the `*.jpg` pattern also matches, has no suffix, so its name is its whole relative path (`seqA/.jpg` stays `seqA/.jpg`). |
| ManifestProperties.ShuffleOptionReorders | hfnet/datasets/robotcar.py:37-40 | Turning `shuffle` on for the same options changes only the order. A failure stays the same failure. An empty manifest becomes `EmptyShuffle`. Otherwise the result holds the unshuffled pairs, moved together by the fixed reordering for that many pairs. |
| ManifestProperties.ShuffleIsPermutation | hfnet/datasets/robotcar.py:39 | The fixed order contains each position exactly once, and the shuffled manifest holds the same pairs as the unshuffled one. |
| ManifestExample.SequenceFolderExample | hfnet/datasets/robotcar.py:35-36 | Files `img1.jpg` and `sub/img2.jpg` below sequence `seqA` are named `seqA/img1` and `seqA/sub/img2`. |
| PosixPaths.Parse | hfnet/datasets/robotcar.py:23-28 | Building a path from a string gives a well-formed path. That path is anchored if and only if the string starts with "/". |
| PosixPaths.Join | hfnet/datasets/robotcar.py:23-28 | Joining appends the right operand's components to the left one's and keeps the left anchor. An anchored right operand replaces the left one. |
| PosixPaths.Parent | hfnet/datasets/robotcar.py:36 | The parent is the path without its last component, with the same anchor. A path without components is its own parent. |
| PosixPaths.RelativeTo | hfnet/datasets/robotcar.py:35 | `relative_to` gives a relative path that joins back onto the base to give the original path. |
| PosixPaths.RelativeToJoin | hfnet/datasets/robotcar.py:26-35 | `relative_to` undoes joining a relative path onto the base folder. |
| PosixPaths.JoinAssociative | hfnet/datasets/robotcar.py:28-35 | Joining is associative, so a file below a sequence folder below the base folder is the base joined with (sequence joined with file). |
| PosixPaths.ParseAsPosix | hfnet/datasets/robotcar.py:34-36 | Printing a well-formed path with `as_posix` and parsing the text gives the same path back, so an image string identifies its path. |
| PosixPaths.AsPosix | hfnet/datasets/robotcar.py:34-36 | `as_posix`: the anchor, then the components joined by "/", and "." for the empty relative path. PosixPaths.ParseAsPosix proves it loses nothing, and PosixPaths.JoinSlashSnoc how a further component prints. |
| PosixPaths.Suffix | hfnet/datasets/robotcar.py:36 | `PurePath.suffix` of a last component. PosixPaths.SuffixRule characterises when there is one and what it looks like. |
| PosixPaths.Stem | hfnet/datasets/robotcar.py:36 | `PurePath.stem` of a last component: `Stem(Name(rel))` is `rel.stem`, where PosixPaths.Name is `PurePath.name`, the last component or "". PosixPaths.StemSuffix proves that stem and suffix make up the name and that the stem is never empty for a non-empty name. |
| PosixPaths.TwoComponents | hfnet/datasets/robotcar.py:18 | Two components joined by one "/" parse back to exactly those two components. |
| PosixPaths.JoinSplit | hfnet/datasets/robotcar.py:28 | Joining the pieces of `s.split('/')` with "/" gives `s` back, so splitting keeps all the text; with PosixPaths.SplitJoinSlash the round trip holds both ways. |
| PosixPaths.ParseComponent | hfnet/datasets/robotcar.py:36 | A component without "/" parses to itself, except "" and ".", which parse to the empty path. |
| PosixPaths.LastIndexOf | hfnet/datasets/robotcar.py:36 | Gives the last index holding the character, or -1 when the character is absent (Python's `rfind`, used by `stem` and `suffix`). |
| PosixPaths.SuffixRule | hfnet/datasets/robotcar.py:36 | A name has a suffix unless it is empty, ends in a dot, or has no dot after its first character. A suffix is a dot followed by at least one character and no further dot, and it ends the name. |
| PosixPaths.StemSuffix | hfnet/datasets/robotcar.py:36 | The stem followed by the suffix is the name. The stem is the whole name exactly when there is no suffix, and it is never empty for a non-empty name. |
| PosixPaths.JpgStem | hfnet/datasets/robotcar.py:30-36 | A name longer than ".jpg" that ends in ".jpg" has suffix ".jpg", and its stem is the rest. The name ".jpg" itself has no suffix. |
| PosixPaths.JoinSlashSnoc | hfnet/datasets/robotcar.py:34-36 | Printing a path with one more component appends "/" and that component. |
| Shuffling.Shuffle | hfnet/datasets/robotcar.py:39 | Shuffling keeps the length and the multiset of the items. |
| Shuffling.ShuffleIsOrder | hfnet/datasets/robotcar.py:39 | Shuffling any sequence of n items is picking its items in the fixed order `Order(n)`, which is independent of the items. |
| Shuffling.OrderIsPermutation | hfnet/datasets/robotcar.py:39 | The fixed order for n items lists every position 0..n-1 exactly once. |

## Left out

- `_get_data` and its helpers `_read_image`, `_resize_max` and `_preprocess` (robotcar.py:43-75): TensorFlow image decoding, resizing and grayscale conversion. These are floating-point graph operations outside the manifest.
- The `map_parallel` patch on `tf.data.Dataset` (lines 21-22): it only configures TensorFlow's parallelism. `numParallelCalls`, `resizeMax` and `grayscale` are kept in `Config` but affect nothing modelled.
- The filesystem walk of `glob('**/*.jpg')`: its result is the `glob` parameter. Which entries match, and the order the walk yields them, are not modelled. In pathlib the pattern selects every entry whose name matches `*.jpg`: a directory named `x.jpg` is selected too, matching is case-sensitive so `X.JPG` is not selected, and dot-files such as `.jpg` match. The model takes whatever entries the parameter lists.
- The Mersenne Twister behind `random.Random(0)`: its draws are the `draw` parameter. The model proves the shuffle is a fixed permutation that depends only on the length, not which permutation seed 0 gives.
- `DATA_PATH` from `hfnet.settings` and the `BaseDataset` scaffolding around `_init_dataset` are not part of this model. The data root is the `dataPath` parameter.
- pathlib is modelled lexically for POSIX paths: no Windows drives, no case folding, no `..` resolution, no symbolic links.
- ManifestProperties.ExplicitNamesInOrder: stated only for names that do not start with "/" and with shuffling off. An absolute name replaces the base folder; `Collect` reports it as `NotUnderBase` unless it lies below the base folder. The shuffled case is covered by ManifestProperties.ShuffleOptionReorders.
- ManifestProperties.SequenceListingsConcatenated: stated only for sequences that do not start with "/" and for glob answers that are relative file paths, which is what a recursive search below a folder yields.
- ManifestProperties.ListingNames: stated only for a sequence that does not start with "/" and glob answers that are non-empty relative file paths. An absolute sequence replaces the base folder in `Path(base_path, s)`: outside the base, `relative_to` raises `ValueError` (`NotUnderBase`); inside it, the names are relative to the base folder and do not begin with the sequence text.
- ManifestProperties.ListingEntry: stated only for a relative sequence path and a non-empty relative file path, for the same reason as ManifestProperties.ListingNames.
- ManifestProperties.ListingsNamed: stated only for sequences and glob answers as in ManifestProperties.ListingNames, for the same reason.
- ManifestProperties.JpgName: stated only for last components longer than ".jpg" whose stem is not ".". The names ".jpg" and "..jpg", which the pattern also matches, are ManifestProperties.BareJpgName and ManifestProperties.DotStemNamesFolder.
- Running Python with assertions disabled (`python -O`): line 29 is then removed, and an empty `sequences` list gives an empty manifest, or `IndexError` when shuffling, instead of `EmptySearch`. The model assumes assertions are enabled.
- ManifestProperties.NameDropsFinalSuffix: excludes a stem of ".", which pathlib drops as a component. That case is ManifestProperties.DotStemNamesFolder.
