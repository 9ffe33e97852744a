/**
 * `qwen_vl_iqa.py`: asks the vision-language model one fixed question about every image of
 * the test folder and writes one row per image. The listing is joined to the folder up
 * front, and each path is joined to the folder once more before the model call; because
 * the paths are already absolute, the second join changes nothing.
 */
module QwenVlIqa {
  import opened Sequences
  import opened Strings
  import opened Outcomes
  import opened Paths
  import opened Replies

  const ImageFolder: string := "D:\\iNaturalist\\test_3000"
  const OutputCsv: string := "blurry_results_qwen.csv"
  const Prompt: string := "Does the image contain other taxa than the one? Answer only Yes or No."
  const Header: seq<string> := ["Image Name", "Blurry"]

  /** The suffixes the listing is filtered on (`.png` appears twice); case-sensitive. */
  const Extensions: seq<string> := [".jpg", ".png", ".JPG", ".png", ".PNG", ".jpeg"]

  predicate IsImageName(name: string) {
    EndsWithAny(name, Extensions)
  }

  /** The kept names of the listing, each joined to the image folder, in listing order. */
  function ImagePaths(listing: seq<string>): seq<string> {
    JoinEach(ImageFolder, Filter(listing, IsImageName))
  }

  /** Joining the folder onto one of its own paths a second time gives the same path. */
  lemma RejoinUnchanged(name: string)
    ensures JoinPath(ImageFolder, JoinPath(ImageFolder, name)) == JoinPath(ImageFolder, name)
  {
    JoinedIsAbsolute(ImageFolder, name);
  }

  /** The row of one image: the path it was listed under and the model's answer, or "Error" when the call raised. */
  function RowFor(imageFile: string, outcome: Outcome<string>): (row: LabelRow)
    ensures row.imageName == imageFile
    ensures row.answer == "Error" <==> outcome.Err?
    ensures outcome.Ok? ==> row.answer == YesNo(outcome.value)
  {
    LabelRow(imageFile, Answer(outcome))
  }

  /**
   * The processing loop: each path is joined to the folder again and the model is asked
   * about the result; the row records the path as listed.
   */
  method AskAll(paths: seq<string>, ask: (string, string) -> Outcome<string>) returns (rows: seq<LabelRow>)
    ensures |rows| == |paths|
    ensures forall k :: 0 <= k < |paths| ==>
      rows[k] == RowFor(paths[k], ask(JoinPath(ImageFolder, paths[k]), Prompt))
  {
    rows := [];
    for k := 0 to |paths|
      invariant |rows| == k
      invariant forall j :: 0 <= j < k ==> rows[j] == RowFor(paths[j], ask(JoinPath(ImageFolder, paths[j]), Prompt))
    {
      var imageFile := paths[k];
      var imagePath := JoinPath(ImageFolder, imageFile);
      var outcome := ask(imagePath, Prompt);
      rows := rows + [RowFor(imageFile, outcome)];
    }
  }

  /**
   * The script, given whether the folder exists and its listing: exit status 1 when the
   * folder is missing or holds no image, otherwise one row per image in listing order,
   * naming the image by its full path; despite the second join, the model is asked about
   * exactly that path.
   */
  method Run(folderExists: bool, listing: seq<string>, ask: (string, string) -> Outcome<string>)
    returns (run: Run<Csv<LabelRow>>)
    ensures !folderExists ==> run == Exited(1)
    ensures folderExists && ImagePaths(listing) == [] ==> run == Exited(1)
    ensures folderExists && ImagePaths(listing) != [] ==>
      && run.Finished? && run.output.file == OutputCsv && run.output.header == Header
      && |run.output.rows| == |ImagePaths(listing)|
      && forall k :: 0 <= k < |ImagePaths(listing)| ==>
           run.output.rows[k] == RowFor(ImagePaths(listing)[k], ask(ImagePaths(listing)[k], Prompt))
    // Every row is written with as many cells as the header has columns.
    ensures run.Finished? ==> forall k :: 0 <= k < |run.output.rows| ==> |run.output.rows[k].Cells()| == |run.output.header|
  {
    if !folderExists {
      return Exited(1);
    }
    var paths := ImagePaths(listing);
    if paths == [] {
      return Exited(1);
    }
    var results := AskAll(paths, ask);
    forall k | 0 <= k < |paths| ensures JoinPath(ImageFolder, paths[k]) == paths[k] {
      RejoinUnchanged(Filter(listing, IsImageName)[k]);
    }
    run := Finished(Csv(OutputCsv, Header, results));
  }
}
