/**
 * `no_reference/niqe.py`: scores every image of the test folder with the NIQE metric and
 * writes two tables, one with the path and score of each image that could be scored, one
 * with the path and error text of each image that could not. Opening an image (with its
 * RGB conversion), checking its integrity and scoring it are the parameters `open`,
 * `verify` and `measure`; each yields a value or the text of the exception it raised.
 */
module Niqe {
  import opened Sequences
  import opened Strings
  import opened Outcomes
  import opened Paths

  const ImageFolder: string := "D:\\iNaturalist\\test_3000"
  const ValidCsv: string := "valid_niqe_results3000.csv"
  const CorruptedCsv: string := "niqe_corrupted_images3000.csv"
  const ValidColumns: seq<string> := ["Image_Path", "NIQE_score"]
  const CorruptedColumns: seq<string> := ["Image_Path", "Error: "]

  /** The lower-case suffixes the lower-cased listing names are tested against. */
  const Extensions: seq<string> := [".jpg", ".jpeg", ".png"]

  /** The filter is case-insensitive: the name is lower-cased before the suffix test. */
  predicate IsImageName(name: string) {
    EndsWithAny(Lower(name), Extensions)
  }

  /** The kept names of the listing, each joined to the image folder, in listing order. */
  function ImagePaths(listing: seq<string>): seq<string> {
    JoinEach(ImageFolder, Filter(listing, IsImageName))
  }

  /** An image decoded and converted to RGB. */
  datatype Picture = Picture(rgb: seq<int>)

  /**
   * The body of the `try` for one path: open and convert, verify, open and convert again,
   * score. The first step that raises decides the error text.
   */
  function Assess(path: string, open: string -> Outcome<Picture>, verify: Picture -> Outcome<()>,
                  measure: Picture -> Outcome<real>): Outcome<real>
  {
    match open(path)
    case Err(m) => Err(m)
    case Ok(first) =>
      match verify(first)
      case Err(m) => Err(m)
      case Ok(_) =>
        match open(path)
        case Err(m) => Err(m)
        case Ok(second) => measure(second)
  }

  /** A path is scored exactly when opening, verifying and scoring all succeed, and then gets the metric's value. */
  lemma AssessSpec(path: string, open: string -> Outcome<Picture>, verify: Picture -> Outcome<()>,
                   measure: Picture -> Outcome<real>)
    ensures Assess(path, open, verify, measure).Ok? <==>
      open(path).Ok? && verify(open(path).value).Ok? && measure(open(path).value).Ok?
    ensures Assess(path, open, verify, measure).Ok? ==>
      Assess(path, open, verify, measure).value == measure(open(path).value).value
    ensures open(path).Err? ==> Assess(path, open, verify, measure) == Err(open(path).msg)
    ensures open(path).Ok? && verify(open(path).value).Err? ==>
      Assess(path, open, verify, measure) == Err(verify(open(path).value).msg)
    ensures open(path).Ok? && verify(open(path).value).Ok? && measure(open(path).value).Err? ==>
      Assess(path, open, verify, measure) == Err(measure(open(path).value).msg)
  {
  }

  /** The paths that go to the table of scores. */
  function Scored(open: string -> Outcome<Picture>, verify: Picture -> Outcome<()>,
                  measure: Picture -> Outcome<real>): string -> bool
  {
    p => Assess(p, open, verify, measure).Ok?
  }

  /** The paths that go to the table of corrupted images. */
  function Rejected(open: string -> Outcome<Picture>, verify: Picture -> Outcome<()>,
                    measure: Picture -> Outcome<real>): string -> bool
  {
    p => Assess(p, open, verify, measure).Err?
  }

  /** Each image of the valid table sits beside the score it was given. */
  predicate ScoresOf(images: seq<string>, scores: seq<real>, open: string -> Outcome<Picture>,
                     verify: Picture -> Outcome<()>, measure: Picture -> Outcome<real>)
  {
    |scores| == |images| && forall k :: 0 <= k < |images| ==> Assess(images[k], open, verify, measure) == Ok(scores[k])
  }

  /** Each image of the corrupted table sits beside the text of the error it raised. */
  predicate ErrorsOf(images: seq<string>, errors: seq<string>, open: string -> Outcome<Picture>,
                     verify: Picture -> Outcome<()>, measure: Picture -> Outcome<real>)
  {
    |errors| == |images| && forall k :: 0 <= k < |images| ==> Assess(images[k], open, verify, measure) == Err(errors[k])
  }

  /**
   * The scoring loop over four parallel lists: each path goes, in order, either to the valid
   * lists with its score or to the corrupted lists with its error text. The lists of each
   * table stay of equal length, as building its data frame requires.
   */
  method ScoreImages(paths: seq<string>, open: string -> Outcome<Picture>, verify: Picture -> Outcome<()>,
                     measure: Picture -> Outcome<real>)
    returns (validImages: seq<string>, validScores: seq<real>,
             corruptedImages: seq<string>, corruptedErrors: seq<string>)
    ensures validImages == Filter(paths, Scored(open, verify, measure))
    ensures corruptedImages == Filter(paths, Rejected(open, verify, measure))
    ensures ScoresOf(validImages, validScores, open, verify, measure)
    ensures ErrorsOf(corruptedImages, corruptedErrors, open, verify, measure)
  {
    validImages, validScores, corruptedImages, corruptedErrors := [], [], [], [];
    for t := 0 to |paths|
      invariant TablesSoFar(paths[..t], validImages, validScores, corruptedImages, corruptedErrors, open, verify, measure)
    {
      var imagePath := paths[t];
      assert paths[..t + 1] == paths[..t] + [imagePath];
      var outcome := Assess(imagePath, open, verify, measure);
      ghost var before := (validImages, validScores, corruptedImages, corruptedErrors);
      match outcome {
        case Ok(score) =>
          validImages := validImages + [imagePath];
          validScores := validScores + [score];
        case Err(e) =>
          corruptedImages := corruptedImages + [imagePath];
          corruptedErrors := corruptedErrors + [e];
      }
      ScoreStep(paths[..t], imagePath, before.0, before.1, before.2, before.3,
                validImages, validScores, corruptedImages, corruptedErrors, open, verify, measure);
    }
    assert paths[..|paths|] == paths;
  }

  /** The four lists after the paths `done`: the two filters, each beside its scores or error texts. */
  ghost predicate TablesSoFar(done: seq<string>, validImages: seq<string>, validScores: seq<real>,
                              corruptedImages: seq<string>, corruptedErrors: seq<string>,
                              open: string -> Outcome<Picture>, verify: Picture -> Outcome<()>,
                              measure: Picture -> Outcome<real>)
  {
    && validImages == Filter(done, Scored(open, verify, measure))
    && corruptedImages == Filter(done, Rejected(open, verify, measure))
    && ScoresOf(validImages, validScores, open, verify, measure)
    && ErrorsOf(corruptedImages, corruptedErrors, open, verify, measure)
  }

  /** One turn of the scoring loop keeps the four lists in step. */
  lemma ScoreStep(done: seq<string>, p: string,
                  valid: seq<string>, scores: seq<real>, corrupted: seq<string>, errors: seq<string>,
                  valid': seq<string>, scores': seq<real>, corrupted': seq<string>, errors': seq<string>,
                  open: string -> Outcome<Picture>, verify: Picture -> Outcome<()>, measure: Picture -> Outcome<real>)
    requires TablesSoFar(done, valid, scores, corrupted, errors, open, verify, measure)
    requires Assess(p, open, verify, measure).Ok? ==>
      valid' == valid + [p] && scores' == scores + [Assess(p, open, verify, measure).value]
      && corrupted' == corrupted && errors' == errors
    requires Assess(p, open, verify, measure).Err? ==>
      valid' == valid && scores' == scores
      && corrupted' == corrupted + [p] && errors' == errors + [Assess(p, open, verify, measure).msg]
    ensures TablesSoFar(done + [p], valid', scores', corrupted', errors', open, verify, measure)
  {
    FilterSnoc(done, p, Scored(open, verify, measure));
    FilterSnoc(done, p, Rejected(open, verify, measure));
  }

  /** Every listed image lands in exactly one of the two tables. */
  lemma TablesPartitionImages(paths: seq<string>, open: string -> Outcome<Picture>, verify: Picture -> Outcome<()>,
                              measure: Picture -> Outcome<real>)
    ensures |Filter(paths, Scored(open, verify, measure))| + |Filter(paths, Rejected(open, verify, measure))| == |paths|
    ensures multiset(Filter(paths, Scored(open, verify, measure)))
      + multiset(Filter(paths, Rejected(open, verify, measure))) == multiset(paths)
  {
    FilterPartition(paths, Scored(open, verify, measure), Rejected(open, verify, measure));
  }

  /** The two tables the script writes. */
  datatype Tables = Tables(validFile: string, validColumns: seq<string>,
                           validImages: seq<string>, validScores: seq<real>,
                           corruptedFile: string, corruptedColumns: seq<string>,
                           corruptedImages: seq<string>, corruptedErrors: seq<string>)

  /**
   * The script, given whether the folder exists and its listing. There is no guard: listing a
   * missing folder raises and nothing is written; an empty folder still writes two empty tables.
   */
  method Run(folderExists: bool, listing: seq<string>, open: string -> Outcome<Picture>,
             verify: Picture -> Outcome<()>, measure: Picture -> Outcome<real>)
    returns (run: Run<Tables>)
    ensures !folderExists ==> run.Raised?
    ensures folderExists ==>
      && run.Finished?
      && run.output.validFile == ValidCsv && run.output.validColumns == ValidColumns
      && run.output.corruptedFile == CorruptedCsv && run.output.corruptedColumns == CorruptedColumns
      && run.output.validImages == Filter(ImagePaths(listing), Scored(open, verify, measure))
      && run.output.corruptedImages == Filter(ImagePaths(listing), Rejected(open, verify, measure))
      && ScoresOf(run.output.validImages, run.output.validScores, open, verify, measure)
      && ErrorsOf(run.output.corruptedImages, run.output.corruptedErrors, open, verify, measure)
  {
    if !folderExists {
      return Raised("FileNotFoundError: " + ImageFolder);
    }
    var paths := ImagePaths(listing);
    var validImages, validScores, corruptedImages, corruptedErrors := ScoreImages(paths, open, verify, measure);
    run := Finished(Tables(ValidCsv, ValidColumns, validImages, validScores,
                           CorruptedCsv, CorruptedColumns, corruptedImages, corruptedErrors));
  }
}
