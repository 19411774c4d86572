/** A worked example of the naming rule: files "img1.jpg" and "sub/img2.jpg"
    listed below the sequence folder "seqA". */
module ManifestExample {
  import opened PosixPaths
  import opened Robotcar
  import opened ManifestProperties

  /** The names keep the sequence folder and any sub-folder, and lose only
      ".jpg": "seqA/img1" and "seqA/sub/img2", not "img1" and "sub/img2". */
  lemma SequenceFolderExample()
    ensures NameOf(Join(Path(NoRoot, ["seqA"]), Path(NoRoot, ["img1.jpg"]))) == "seqA/img1"
    ensures NameOf(Join(Path(NoRoot, ["seqA"]), Path(NoRoot, ["sub", "img2.jpg"]))) == "seqA/sub/img2"
  {
    FirstExample();
    SecondExample();
  }

  lemma FirstExample()
    ensures NameOf(Join(Path(NoRoot, ["seqA"]), Path(NoRoot, ["img1.jpg"]))) == "seqA/img1"
  {
    var folder, file := Path(NoRoot, ["seqA"]), Path(NoRoot, ["img1.jpg"]);
    assert Join(folder, file) == Path(NoRoot, ["seqA", "img1.jpg"]);
    assert Name(file) == "img1.jpg";
    assert AsPosix(Path(NoRoot, ["seqA", "img1.jpg"])) == "seqA/img1" + ".jpg";
    JpgExample(folder, file, "seqA/img1");
  }

  lemma SecondExample()
    ensures NameOf(Join(Path(NoRoot, ["seqA"]), Path(NoRoot, ["sub", "img2.jpg"]))) == "seqA/sub/img2"
  {
    var folder, file := Path(NoRoot, ["seqA"]), Path(NoRoot, ["sub", "img2.jpg"]);
    assert Join(folder, file) == Path(NoRoot, ["seqA", "sub", "img2.jpg"]);
    assert Name(file) == "img2.jpg";
    assert AsPosix(Path(NoRoot, ["seqA", "sub", "img2.jpg"])) == "seqA/sub/img2" + ".jpg";
    JpgExample(folder, file, "seqA/sub/img2");
  }

  lemma JpgExample(folder: Path, file: Path, name: string)
    requires Valid(folder) && Valid(file) && FileBelow(folder) && FileBelow(file)
    requires var last := Name(file);
      |last| > 4 && last[|last| - 4..] == ".jpg" && last[..|last| - 4] != "."
    requires AsPosix(Join(folder, file)) == name + ".jpg"
    ensures NameOf(Join(folder, file)) == name
  {
    var rel := Join(folder, file);
    assert Name(rel) == Name(file);
    JpgName(rel);
    var n := NameOf(rel);
    assert n + ".jpg" == name + ".jpg";
    assert n == (n + ".jpg")[..|n|];
    assert name == (name + ".jpg")[..|name|];
  }
}
