/**
 * `qwen200.py`: for one seed folder of the 200-image test sets, gathers the images of the
 * three flower sub-folders and asks the vision-language model whether each is too blurry
 * to identify. The seed typed at the prompt is the parameter `seed`; the folders that exist
 * are `existing`; `listDir(folder)` is that folder's listing; the model call is `ask`.
 */
module Qwen200 {
  import opened Sequences
  import opened Strings
  import opened Outcomes
  import opened Paths
  import opened Replies

  const BaseFolder: string := "D:\\iNaturalist\\test_images_200"
  const Flowers: seq<string> := ["Bellis_perennis", "Leucanthemum_vulgare", "Matricaria_chamomilla"]
  const Prompt: string := "Is the image too blurry or low quality to allow identification? Answer only Yes or No."
  const Header: seq<string> := ["image_name", "human_presence"]

  /** The suffixes a flower folder's listing is filtered on (`.png` appears twice); case-sensitive. */
  const Extensions: seq<string> := [".jpg", ".png", ".JPG", ".png", ".PNG", ".jpeg"]

  predicate IsImageName(name: string) {
    EndsWithAny(name, Extensions)
  }

  /** The folder of a seed: `seed_{seed}` under the base folder. */
  function SeedFolder(seed: int): string {
    JoinPath(BaseFolder, "seed_" + IntToString(seed))
  }

  /** The output file of a seed. */
  function OutputCsv(seed: int): string {
    "blurry_results_qwen_seed_" + IntToString(seed) + ".csv"
  }

  /** Each seed reads its own folder and writes its own file: different seeds never share either. */
  lemma SeedNamesInjective(a: int, b: int)
    ensures SeedFolder(a) == SeedFolder(b) <==> a == b
    ensures OutputCsv(a) == OutputCsv(b) <==> a == b
  {
    IntToStringInjective(a, b);
    var sa, sb := IntToString(a), IntToString(b);
    assert SeedFolder(a) == BaseFolder + "\\" + ("seed_" + sa);
    assert SeedFolder(b) == BaseFolder + "\\" + ("seed_" + sb);
    var k := |BaseFolder| + 6;
    if SeedFolder(a) == SeedFolder(b) {
      assert sa == SeedFolder(a)[k..] == SeedFolder(b)[k..] == sb;
    }
    if OutputCsv(a) == OutputCsv(b) {
      var front := |"blurry_results_qwen_seed_"|;
      assert |sa| == |sb|;
      assert sa == OutputCsv(a)[front..front + |sa|];
      assert sb == OutputCsv(b)[front..front + |sb|];
    }
  }

  lemma ExampleSeed42()
    ensures SeedFolder(42) == "D:\\iNaturalist\\test_images_200\\seed_42"
    ensures OutputCsv(42) == "blurry_results_qwen_seed_42.csv"
  {
    assert IntToString(42) == "42" by {
      assert NatToString(42) == NatToString(4) + [DigitChar(2)];
    }
    var name := "seed_42";
    assert !IsAbsolute(name) && !IsRooted(name);
    assert JoinPath(BaseFolder, name) == BaseFolder + "\\" + name;
  }

  /** The image paths of one flower folder: each kept name of its listing, joined to the folder. */
  function FolderImages(flowerFolder: string, listing: seq<string>): seq<string> {
    JoinEach(flowerFolder, Filter(listing, IsImageName))
  }

  /** The images of the given flowers' folders under `imageFolder`, folder after folder; a missing folder adds none. */
  function ImagePaths(imageFolder: string, existing: set<string>, listDir: string -> seq<string>,
                      flowers: seq<string>): seq<string>
  {
    if flowers == [] then []
    else
      var flowerFolder := JoinPath(imageFolder, flowers[|flowers| - 1]);
      ImagePaths(imageFolder, existing, listDir, flowers[..|flowers| - 1])
        + (if flowerFolder in existing then FolderImages(flowerFolder, listDir(flowerFolder)) else [])
  }

  /** Every image of every existing flower folder is gathered. */
  lemma {:induction false} ImagePathsComplete(imageFolder: string, existing: set<string>,
                                              listDir: string -> seq<string>, flowers: seq<string>, i: int, name: string)
    requires 0 <= i < |flowers|
    requires JoinPath(imageFolder, flowers[i]) in existing
    requires name in listDir(JoinPath(imageFolder, flowers[i])) && IsImageName(name)
    ensures JoinPath(JoinPath(imageFolder, flowers[i]), name) in ImagePaths(imageFolder, existing, listDir, flowers)
    decreases |flowers|
  {
    var n := |flowers|;
    var folder := JoinPath(imageFolder, flowers[i]);
    var target := JoinPath(folder, name);
    var init := flowers[..n - 1];
    var last := JoinPath(imageFolder, flowers[n - 1]);
    var front := ImagePaths(imageFolder, existing, listDir, init);
    var back := if last in existing then FolderImages(last, listDir(last)) else [];
    assert ImagePaths(imageFolder, existing, listDir, flowers) == front + back;
    if i < n - 1 {
      assert init[i] == flowers[i];
      ImagePathsComplete(imageFolder, existing, listDir, init, i, name);
      assert target in front;
    } else {
      var names := Filter(listDir(folder), IsImageName);
      var k :| 0 <= k < |names| && names[k] == name;
      assert i == n - 1;
      assert folder == last;
      assert back == FolderImages(folder, listDir(folder));
      assert back[k] == target;
    }
  }

  /** Every gathered path is a kept name of an existing flower folder's listing, joined to that folder. */
  lemma {:induction false} ImagePathsSound(imageFolder: string, existing: set<string>,
                                           listDir: string -> seq<string>, flowers: seq<string>, p: string)
    requires p in ImagePaths(imageFolder, existing, listDir, flowers)
    ensures exists i :: 0 <= i < |flowers| && ListedIn(imageFolder, existing, listDir, flowers[i], p)
    decreases |flowers|
  {
    var n := |flowers|;
    var init := flowers[..n - 1];
    var folder := JoinPath(imageFolder, flowers[n - 1]);
    if p in ImagePaths(imageFolder, existing, listDir, init) {
      ImagePathsSound(imageFolder, existing, listDir, init, p);
      var i :| 0 <= i < |init| && ListedIn(imageFolder, existing, listDir, init[i], p);
      assert init[i] == flowers[i];
    } else {
      assert folder in existing && p in FolderImages(folder, listDir(folder));
      var names := Filter(listDir(folder), IsImageName);
      var k :| 0 <= k < |names| && p == FolderImages(folder, listDir(folder))[k];
      assert names[k] in names;
      assert names[k] in listDir(folder) && IsImageName(names[k]);
      assert ListedIn(imageFolder, existing, listDir, flowers[n - 1], p);
    }
  }

  /** `p` is a kept name of the existing folder of `flower`, joined to that folder. */
  predicate ListedIn(imageFolder: string, existing: set<string>, listDir: string -> seq<string>,
                     flower: string, p: string)
  {
    var folder := JoinPath(imageFolder, flower);
    folder in existing && exists name :: name in listDir(folder) && IsImageName(name) && p == JoinPath(folder, name)
  }

  /**
   * The gathering loop: for each flower in order, the images of its folder when the folder
   * exists.
   */
  method GatherImagePaths(imageFolder: string, existing: set<string>, listDir: string -> seq<string>)
    returns (paths: seq<string>)
    ensures paths == ImagePaths(imageFolder, existing, listDir, Flowers)
  {
    paths := [];
    for t := 0 to |Flowers|
      invariant paths == ImagePaths(imageFolder, existing, listDir, Flowers[..t])
    {
      assert Flowers[..t + 1][..t] == Flowers[..t];
      var flowerFolder := JoinPath(imageFolder, Flowers[t]);
      if flowerFolder in existing {
        var flowerImages := FolderImages(flowerFolder, listDir(flowerFolder));
        paths := paths + flowerImages;
      }
    }
    assert Flowers[..|Flowers|] == Flowers;
  }

  /** The row of one image: its file name and the model's answer, or "Error" when the call raised. */
  function RowFor(imagePath: string, outcome: Outcome<string>): (row: LabelRow)
    ensures row.imageName == BaseName(imagePath)
    ensures row.answer == "Error" <==> outcome.Err?
    ensures outcome.Ok? ==> row.answer == YesNo(outcome.value)
  {
    LabelRow(BaseName(imagePath), Answer(outcome))
  }

  /** A row names the listed file it was made for, when listing names are plain names. */
  lemma RowNamesListedFile(flowerFolder: string, name: string, outcome: Outcome<string>)
    requires IsPlainName(name)
    ensures RowFor(JoinPath(flowerFolder, name), outcome).imageName == name
  {
    BaseNameOfJoin(flowerFolder, name);
  }

  /** The processing loop: one row per image path, in order. */
  method AskAll(paths: seq<string>, ask: (string, string) -> Outcome<string>) returns (rows: seq<LabelRow>)
    ensures |rows| == |paths|
    ensures forall k :: 0 <= k < |paths| ==> rows[k] == RowFor(paths[k], ask(paths[k], Prompt))
  {
    rows := [];
    for k := 0 to |paths|
      invariant |rows| == k
      invariant forall j :: 0 <= j < k ==> rows[j] == RowFor(paths[j], ask(paths[j], Prompt))
    {
      var imagePath := paths[k];
      var outcome := ask(imagePath, Prompt);
      var row := RowFor(imagePath, outcome);
      rows := rows + [row];
    }
  }

  /**
   * The script for one seed: exit status 1 when the seed folder is missing or none of its
   * flower folders holds an image; otherwise one row per gathered image, in gathering order,
   * written to the seed's own file.
   */
  method Run(seed: int, existing: set<string>, listDir: string -> seq<string>,
             ask: (string, string) -> Outcome<string>)
    returns (run: Run<Csv<LabelRow>>)
    ensures SeedFolder(seed) !in existing ==> run == Exited(1)
    ensures SeedFolder(seed) in existing && ImagePaths(SeedFolder(seed), existing, listDir, Flowers) == [] ==>
      run == Exited(1)
    ensures SeedFolder(seed) in existing && ImagePaths(SeedFolder(seed), existing, listDir, Flowers) != [] ==>
      var paths := ImagePaths(SeedFolder(seed), existing, listDir, Flowers);
      && run.Finished? && run.output.file == OutputCsv(seed) && run.output.header == Header
      && |run.output.rows| == |paths|
      && forall k :: 0 <= k < |paths| ==> run.output.rows[k] == RowFor(paths[k], ask(paths[k], Prompt))
    // Every row is written with as many cells as the header has columns.
    ensures run.Finished? ==> forall k :: 0 <= k < |run.output.rows| ==> |run.output.rows[k].Cells()| == |run.output.header|
  {
    var imageFolder := SeedFolder(seed);
    if imageFolder !in existing {
      return Exited(1);
    }
    var paths := GatherImagePaths(imageFolder, existing, listDir);
    if paths == [] {
      return Exited(1);
    }
    var results := AskAll(paths, ask);
    run := Finished(Csv(OutputCsv(seed), Header, results));
  }
}
