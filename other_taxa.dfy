/**
 * `other_taxa.py`: asks the vision-language model, for every image of the test folder,
 * whether it shows other taxa than the flower named in its file name, and writes one row
 * per image. The model call is the parameter `ask(imagePath, prompt)`.
 */
module OtherTaxa {
  import opened Sequences
  import opened Strings
  import opened Outcomes
  import opened Paths
  import opened Replies

  const ImageFolder: string := "D:\\iNaturalist\\test_3000"
  const OutputCsv: string := "taxa_results_qwen_updated_prompt.csv"
  const Header: seq<string> := ["Image Name", "Contains Other Taxa", "Identified Flower Name"]

  /** The suffixes the listing is filtered on; the test is case-sensitive. */
  const Extensions: seq<string> := [".jpg", ".png", ".JPG", ".PNG", ".jpeg"]

  predicate IsImageName(name: string) {
    EndsWithAny(name, Extensions)
  }

  /** The names of the listing kept for processing, in listing order. */
  function ImageFilenames(listing: seq<string>): (names: seq<string>)
    ensures forall n :: n in names <==> n in listing && IsImageName(n)
  {
    Filter(listing, IsImageName)
  }

  /**
   * The flower named by a file: the name without its extension, cut at its last underscore
   * (the part after it is the running number); without an underscore, the whole stem.
   */
  function FlowerName(filename: string): string {
    var stem := SplitExt(filename).0;
    var parts := Split(stem, '_');
    if |parts| > 1 then Join(parts[..|parts| - 1], '_') else stem
  }

  /** The flower name is the stem up to its last underscore, or the whole stem when it has none. */
  lemma FlowerNameSpec(filename: string)
    ensures var stem := SplitExt(filename).0;
      && ('_' !in stem ==> FlowerName(filename) == stem)
      && ('_' in stem ==> FlowerName(filename) == stem[..LastIndexOf(stem, '_')])
  {
    var stem := SplitExt(filename).0;
    if '_' in stem {
      JoinAllButLast(stem, '_');
    }
  }

  /**
   * The names the sampler files under a flower, `{flower}_{digits}.{ext}`, give that flower
   * back, even when the flower itself contains underscores.
   */
  lemma FlowerNameOfSampledFile(flower: string, digits: string, ext: string)
    requires |digits| >= 1 && AllDigits(digits)
    requires forall i :: 0 <= i < |ext| ==> ext[i] != '.' && !IsSeparator(ext[i])
    ensures FlowerName(flower + "_" + digits + "." + ext) == flower
  {
    var stem := flower + "_" + digits;
    assert stem[|stem| - 1] == digits[|digits| - 1];
    assert flower + "_" + digits + "." + ext == stem + "." + ext;
    SplitExtAtLastDot(stem, ext);
    assert '_' !in digits by {
      forall i | 0 <= i < |digits| ensures digits[i] != '_' {
        assert IsDigit(digits[i]);
      }
    }
    assert stem == flower + ['_'] + digits;
    LastIndexOfAt(flower, '_', digits);
    FlowerNameSpec(flower + "_" + digits + "." + ext);
    assert stem[..|flower|] == flower;
  }

  lemma ExampleFlowerName()
    ensures FlowerName("Bellis_perennis_12.jpg") == "Bellis_perennis"
  {
    assert "Bellis_perennis_12.jpg" == "Bellis_perennis" + "_" + "12" + "." + "jpg";
    FlowerNameOfSampledFile("Bellis_perennis", "12", "jpg");
  }

  /** The question asked about an image, naming the flower its file is filed under. */
  function Prompt(flower: string): string {
    "Does the image contain other taxa than the one in the image " + flower + "? Answer only Yes or No."
  }

  /** Different flowers get different questions: the flower can be read back from the prompt. */
  lemma PromptNamesFlower(a: string, b: string)
    ensures Prompt(a) == Prompt(b) <==> a == b
  {
    var front := "Does the image contain other taxa than the one in the image ";
    var back := "? Answer only Yes or No.";
    if Prompt(a) == Prompt(b) {
      assert |a| == |b|;
      assert a == Prompt(a)[|front|..|front| + |a|];
      assert b == Prompt(b)[|front|..|front| + |b|];
    }
  }

  /** A row of the output: the file name, "Yes", "No" or "Error", and the flower name or "N/A". */
  datatype TaxaRow = TaxaRow(imageName: string, containsOtherTaxa: string, flowerName: string)
  {
    function Cells(): (cells: seq<string>)
      ensures |cells| == |Header|
    {
      [imageName, containsOtherTaxa, flowerName]
    }
  }

  /** The row for one image: its answer and `flower`, or the error marker when the call raised. */
  function RowFor(filename: string, flower: string, outcome: Outcome<string>): (row: TaxaRow)
    ensures row.imageName == filename
    ensures row.containsOtherTaxa in {"Yes", "No", "Error"}
    ensures row.containsOtherTaxa == "Error" <==> outcome.Err?
    ensures outcome.Ok? ==> (row.containsOtherTaxa == "Yes" <==> exists i :: OccursAt(outcome.value, "Yes", i))
    ensures outcome.Ok? ==> row.flowerName == flower
    ensures outcome.Err? ==> row.flowerName == "N/A"
  {
    match outcome
    case Ok(response) =>
      YesNoSpec(response);
      TaxaRow(filename, YesNo(response), flower)
    case Err(_) => TaxaRow(filename, "Error", "N/A")
  }

  /** What the model answers for the image stored under `filename` in the test folder. */
  function AskAbout(filename: string, ask: (string, string) -> Outcome<string>): Outcome<string> {
    ask(JoinPath(ImageFolder, filename), Prompt(FlowerName(filename)))
  }

  /** The loop over the image names: one row per name, in order, from the model's reply about it. */
  method AskAll(names: seq<string>, ask: (string, string) -> Outcome<string>) returns (results: seq<TaxaRow>)
    ensures |results| == |names|
    ensures forall k :: 0 <= k < |names| ==>
      results[k] == RowFor(names[k], FlowerName(names[k]), AskAbout(names[k], ask))
  {
    results := [];
    for k := 0 to |names|
      invariant |results| == k
      invariant forall j :: 0 <= j < k ==>
        results[j] == RowFor(names[j], FlowerName(names[j]), AskAbout(names[j], ask))
    {
      var filename := names[k];
      var flower := FlowerName(filename);
      var imagePath := JoinPath(ImageFolder, filename);
      var outcome := ask(imagePath, Prompt(flower));
      results := results + [RowFor(filename, flower, outcome)];
    }
  }

  /**
   * The script, given whether the folder exists and its listing: exit status 1 when the
   * folder is missing or holds no image, otherwise the CSV with one row per image in
   * listing order.
   */
  method Run(folderExists: bool, listing: seq<string>, ask: (string, string) -> Outcome<string>)
    returns (run: Run<Csv<TaxaRow>>)
    ensures !folderExists ==> run == Exited(1)
    ensures folderExists && ImageFilenames(listing) == [] ==> run == Exited(1)
    ensures folderExists && ImageFilenames(listing) != [] ==>
      && run.Finished? && run.output.file == OutputCsv && run.output.header == Header
      && |run.output.rows| == |ImageFilenames(listing)|
      && forall k :: 0 <= k < |run.output.rows| ==>
           run.output.rows[k] == RowFor(ImageFilenames(listing)[k], FlowerName(ImageFilenames(listing)[k]),
                                   AskAbout(ImageFilenames(listing)[k], ask))
    // Every row is written with as many cells as the header has columns.
    ensures run.Finished? ==> forall k :: 0 <= k < |run.output.rows| ==> |run.output.rows[k].Cells()| == |run.output.header|
  {
    if !folderExists {
      return Exited(1);
    }
    var names := ImageFilenames(listing);
    if names == [] {
      return Exited(1);
    }
    var results := AskAll(names, ask);
    run := Finished(Csv(OutputCsv, Header, results));
  }
}
