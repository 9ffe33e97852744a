/**
 * `extract_flower_samples` (misc/populate_test_directory.py): files the image names of a
 * directory listing under the first flower whose `{flower}_{digits}.` pattern they match, then
 * copies either all of a flower's files or a random sample of a fixed size into a per-flower
 * destination folder.
 *
 * The directory listing, the set of folders that already exist and the calls to `os.makedirs`
 * and `shutil.copy2` are values: the listing is an input, the created folders and the copies are
 * outputs, in the order the function performs them.
 */
module PopulateTestDirectory {
  import opened Sequences
  import opened Strings
  import opened Outcomes
  import opened Paths

  /** One entry of `os.listdir(source_folder)`, with what `os.path.isfile` says of it. */
  datatype Entry = Entry(name: string, isFile: bool)

  /** One `shutil.copy2(src, dst)` call, with the flower and the file name it copies. */
  datatype CopyOp = CopyOp(flower: string, file: string, src: string, dst: string)

  /** The extensions the scan accepts, compared after lower-casing both sides. */
  const ValidExtensions: seq<string> := [".jpg", ".jpeg", ".png", ".JPG", ".JPEG", ".PNG"]

  /** `samples_per_type` when the caller gives none. */
  const DefaultSamplesPerType: nat := 1000

  /** The flowers, source and destination of the script's entry point. */
  const FlowerTypes: seq<string> := ["Bellis_perennis", "Leucanthemum_vulgare", "Matricaria_chamomilla"]
  const SourceFolder: string := "D:\\iNaturalist\\images"
  const DestinationFolder: string := "D:\\iNaturalist\\test_3000"

  function Names(listing: seq<Entry>): (r: seq<string>)
    ensures |r| == |listing| && forall k :: 0 <= k < |listing| ==> r[k] == listing[k].name
  {
    seq(|listing|, k requires 0 <= k < |listing| => listing[k].name)
  }

  // ---------------------------------------------------------------------------------------
  // Extension filter

  /** The name, lower-cased, ends with one of the valid extensions, lower-cased. */
  predicate HasImageExtension(name: string) {
    exists i :: 0 <= i < |ValidExtensions| && EndsWith(Lower(name), Lower(ValidExtensions[i]))
  }

  /** The six extensions, lower-cased, are .jpg, .jpeg and .png, each twice. */
  lemma LoweredExtensions()
    ensures Lower(ValidExtensions[0]) == ".jpg" && Lower(ValidExtensions[3]) == ".jpg"
    ensures Lower(ValidExtensions[1]) == ".jpeg" && Lower(ValidExtensions[4]) == ".jpeg"
    ensures Lower(ValidExtensions[2]) == ".png" && Lower(ValidExtensions[5]) == ".png"
  {
    assert Lower(".JPG") == ".jpg";
    assert Lower(".JPEG") == ".jpeg";
    assert Lower(".PNG") == ".png";
  }

  /** The six-entry list accepts exactly the names whose lower-cased form ends in .jpg, .jpeg or .png. */
  lemma HasImageExtensionIff(name: string)
    ensures HasImageExtension(name) <==> EndsWithAny(Lower(name), [".jpg", ".jpeg", ".png"])
  {
    if HasImageExtension(name) {
      ExtensionIsLowered(name);
    }
    if EndsWithAny(Lower(name), [".jpg", ".jpeg", ".png"]) {
      LoweredIsExtension(name);
    }
  }

  /** A name the six-extension test accepts ends, lower-cased, in one of the three lower-case extensions. */
  lemma ExtensionIsLowered(name: string)
    requires HasImageExtension(name)
    ensures EndsWithAny(Lower(name), [".jpg", ".jpeg", ".png"])
  {
    var low, lowered := Lower(name), [".jpg", ".jpeg", ".png"];
    LoweredExtensions();
    var i :| 0 <= i < |ValidExtensions| && EndsWith(low, Lower(ValidExtensions[i]));
    var j := if i < 3 then i else i - 3;
    assert Lower(ValidExtensions[i]) == lowered[j];
  }

  /** A name ending, lower-cased, in one of the three lower-case extensions passes the six-extension test. */
  lemma LoweredIsExtension(name: string)
    requires EndsWithAny(Lower(name), [".jpg", ".jpeg", ".png"])
    ensures HasImageExtension(name)
  {
    var low, lowered := Lower(name), [".jpg", ".jpeg", ".png"];
    LoweredExtensions();
    var i :| 0 <= i < 3 && EndsWith(low, lowered[i]);
    assert Lower(ValidExtensions[i]) == lowered[i];
  }

  // ---------------------------------------------------------------------------------------
  // The flower pattern

  /**
   * `re.match(f"^{flower}_\\d+\\.", name)` with the flower read literally: the name starts with
   * the flower and an underscore, followed by one or more digits and a dot.
   */
  predicate MatchesPattern(name: string, flower: string) {
    StartsWith(name, flower + "_") &&
    exists k :: |flower| + 1 < k < |name| && name[k] == '.' &&
      forall j :: |flower| + 1 <= j < k ==> IsDigit(name[j])
  }

  /** The number of decimal digits `s` starts with. */
  function DigitRun(s: string): (n: nat)
    ensures n <= |s| && forall j :: 0 <= j < n ==> IsDigit(s[j])
    ensures n < |s| ==> !IsDigit(s[n])
  {
    if s == [] || !IsDigit(s[0]) then 0 else 1 + DigitRun(s[1..])
  }

  /** A run of `m` leading digits is covered by the digit run. */
  lemma {:induction false} DigitRunCovers(s: string, m: nat)
    requires m <= |s| && forall j :: 0 <= j < m ==> IsDigit(s[j])
    ensures DigitRun(s) >= m
    decreases m
  {
    if m > 0 {
      DigitRunCovers(s[1..], m - 1);
    }
  }

  /** The greedy reading of the pattern: after the prefix, a non-empty run of digits ends at a dot. */
  predicate PatternScan(name: string, flower: string) {
    StartsWith(name, flower + "_") &&
    var rest := name[|flower| + 1..];
    var n := DigitRun(rest);
    1 <= n < |rest| && rest[n] == '.'
  }

  /** The greedy scan accepts exactly the names the regular expression matches. */
  lemma PatternScanIff(name: string, flower: string)
    ensures PatternScan(name, flower) <==> MatchesPattern(name, flower)
  {
    if StartsWith(name, flower + "_") {
      var p := |flower| + 1;
      var rest := name[p..];
      var n := DigitRun(rest);
      if PatternScan(name, flower) {
        assert name[p + n] == '.';
        forall j | p <= j < p + n ensures IsDigit(name[j]) {
          assert name[j] == rest[j - p];
        }
      }
      if MatchesPattern(name, flower) {
        var k :| p < k < |name| && name[k] == '.' && forall j :: p <= j < k ==> IsDigit(name[j]);
        // The run of digits cannot pass the dot at k, and it reaches k because every earlier character is a digit.
        assert rest[k - p] == '.';
        DigitRunCovers(rest, k - p);
      }
    }
  }

  /**
   * The position in `flowers` of the first flower whose pattern `name` matches: the inner loop
   * of the scan stops at the first match.
   */
  function FirstFlower(name: string, flowers: seq<string>): (r: Option<nat>)
    ensures r.Some? ==> r.value < |flowers| && MatchesPattern(name, flowers[r.value])
    ensures r.Some? ==> forall j :: 0 <= j < r.value ==> !MatchesPattern(name, flowers[j])
    ensures r.None? ==> forall j :: 0 <= j < |flowers| ==> !MatchesPattern(name, flowers[j])
  {
    if flowers == [] then None
    else if MatchesPattern(name, flowers[0]) then Some(0)
    else
      match FirstFlower(name, flowers[1..])
      case None => None
      case Some(i) => Some(i + 1)
  }

  /** The flower a listing entry is filed under: regular image files only, first matching flower. */
  function FlowerOf(e: Entry, flowers: seq<string>): Option<string> {
    if e.isFile && HasImageExtension(e.name) then
      match FirstFlower(e.name, flowers)
      case None => None
      case Some(i) => Some(flowers[i])
    else None
  }

  /** `flower_files[flower]` once the scan is done: the names filed under `flower`, in listing order. */
  function FlowerFiles(listing: seq<Entry>, flowers: seq<string>, flower: string): seq<string> {
    if listing == [] then []
    else
      var last := listing[|listing| - 1];
      FlowerFiles(listing[..|listing| - 1], flowers, flower)
      + (if FlowerOf(last, flowers) == Some(flower) then [last.name] else [])
  }

  // ---------------------------------------------------------------------------------------
  // Properties of the filing

  /** A name in a flower's list is a regular image file whose first matching flower is that flower. */
  lemma {:induction false} FiledUnderFirstMatch(listing: seq<Entry>, flowers: seq<string>, flower: string, x: string)
    requires x in FlowerFiles(listing, flowers, flower)
    ensures HasImageExtension(x)
    ensures FirstFlower(x, flowers).Some? && flowers[FirstFlower(x, flowers).value] == flower
    decreases |listing|
  {
    var last := listing[|listing| - 1];
    if x !in FlowerFiles(listing[..|listing| - 1], flowers, flower) {
      assert x == last.name && FlowerOf(last, flowers) == Some(flower);
    } else {
      FiledUnderFirstMatch(listing[..|listing| - 1], flowers, flower, x);
    }
  }

  /** Conversely, every entry filed under a flower is in that flower's list. */
  lemma {:induction false} FiledIsListed(listing: seq<Entry>, flowers: seq<string>, k: nat, flower: string)
    requires k < |listing| && FlowerOf(listing[k], flowers) == Some(flower)
    ensures listing[k].name in FlowerFiles(listing, flowers, flower)
    decreases |listing|
  {
    var n := |listing| - 1;
    var tail := if FlowerOf(listing[n], flowers) == Some(flower) then [listing[n].name] else [];
    assert FlowerFiles(listing, flowers, flower) == FlowerFiles(listing[..n], flowers, flower) + tail;
    if k < n {
      assert listing[..n][k] == listing[k];
      FiledIsListed(listing[..n], flowers, k, flower);
    } else {
      assert k == n;
    }
  }

  /** No name is filed under two different flowers. */
  lemma FiledUnderOneFlower(listing: seq<Entry>, flowers: seq<string>, f: string, g: string, x: string)
    requires f != g && x in FlowerFiles(listing, flowers, f)
    ensures x !in FlowerFiles(listing, flowers, g)
  {
    FiledUnderFirstMatch(listing, flowers, f, x);
    if x in FlowerFiles(listing, flowers, g) {
      FiledUnderFirstMatch(listing, flowers, g, x);
    }
  }

  /**
   * Each flower's list is the listing's filed entries in listing order: strictly increasing
   * positions in the listing carry its names one by one (`FiledIsListed` gives the converse).
   */
  lemma {:induction false} FlowerFilesPositions(listing: seq<Entry>, flowers: seq<string>, flower: string)
    returns (pos: seq<nat>)
    ensures |pos| == |FlowerFiles(listing, flowers, flower)|
    ensures forall k :: 0 <= k < |pos| ==>
      pos[k] < |listing| && listing[pos[k]].name == FlowerFiles(listing, flowers, flower)[k]
      && FlowerOf(listing[pos[k]], flowers) == Some(flower)
    ensures forall k, l :: 0 <= k < l < |pos| ==> pos[k] < pos[l]
    decreases |listing|
  {
    if listing == [] {
      pos := [];
    } else {
      var n := |listing| - 1;
      pos := FlowerFilesPositions(listing[..n], flowers, flower);
      if FlowerOf(listing[n], flowers) == Some(flower) {
        pos := pos + [n];
      }
    }
  }

  /** An entry filed under no flower contributes to no list. */
  lemma UnfiledIgnored(listing: seq<Entry>, flowers: seq<string>, k: nat, flower: string)
    requires k < |listing| && NoDuplicates(Names(listing))
    requires FlowerOf(listing[k], flowers) == None
    ensures listing[k].name !in FlowerFiles(listing, flowers, flower)
  {
    var pos := FlowerFilesPositions(listing, flowers, flower);
    forall i | 0 <= i < |pos| ensures FlowerFiles(listing, flowers, flower)[i] != listing[k].name {
      assert pos[i] != k;
      assert Names(listing)[pos[i]] != Names(listing)[k];
    }
  }

  /** A listing without repeated names gives lists without repeated names. */
  lemma FlowerFilesNoDuplicates(listing: seq<Entry>, flowers: seq<string>, flower: string)
    requires NoDuplicates(Names(listing))
    ensures NoDuplicates(FlowerFiles(listing, flowers, flower))
  {
    var files := FlowerFiles(listing, flowers, flower);
    var pos := FlowerFilesPositions(listing, flowers, flower);
    forall a, b | 0 <= a < b < |files| ensures files[a] != files[b] {
      assert Names(listing)[pos[a]] != Names(listing)[pos[b]];
    }
  }

  // ---------------------------------------------------------------------------------------
  // The scan: `for filename in os.listdir(source_folder)`

  /** The inner loop over `flower_types`, stopping at the first pattern that matches. */
  method FirstMatchingFlower(name: string, flowers: seq<string>) returns (r: Option<nat>)
    ensures r == FirstFlower(name, flowers)
  {
    r := None;
    var j := 0;
    while j < |flowers|
      invariant 0 <= j <= |flowers|
      invariant forall t :: 0 <= t < j ==> !MatchesPattern(name, flowers[t])
    {
      PatternScanIff(name, flowers[j]);
      if PatternScan(name, flowers[j]) {
        r := Some(j);
        break;
      }
      j := j + 1;
    }
  }

  /**
   * Builds `flower_files`: one key per flower in the order the dictionary first sees it, each
   * list holding the names filed under that flower in listing order.
   */
  method CollectFlowerFiles(listing: seq<Entry>, flowers: seq<string>)
    returns (order: seq<string>, table: map<string, seq<string>>)
    ensures order == Distinct(flowers)
    ensures forall f :: f in table <==> f in flowers
    ensures forall f :: f in table ==> table[f] == FlowerFiles(listing, flowers, f)
  {
    order, table := [], map[];
    for t := 0 to |flowers|
      invariant order == Distinct(flowers[..t])
      invariant forall f :: f in table <==> f in flowers[..t]
      invariant forall f :: f in table ==> table[f] == []
    {
      assert flowers[..t + 1][..t] == flowers[..t];
      if flowers[t] !in table {
        order := order + [flowers[t]];
      }
      table := table[flowers[t] := []];
    }
    assert flowers[..|flowers|] == flowers;
    for i := 0 to |listing|
      invariant forall f :: f in table <==> f in flowers
      invariant forall f :: f in table ==> table[f] == FlowerFiles(listing[..i], flowers, f)
    {
      assert listing[..i + 1][..i] == listing[..i];
      var e := listing[i];
      if e.isFile && HasImageExtension(e.name) {
        var hit := FirstMatchingFlower(e.name, flowers);
        if hit.Some? {
          var f := flowers[hit.value];
          table := table[f := table[f] + [e.name]];
        }
      }
    }
    assert listing[..|listing|] == listing;
  }

  // ---------------------------------------------------------------------------------------
  // Sampling and copying: `for flower, files in flower_files.items()`

  /**
   * `sample_files` for one flower: every file when there are fewer than `samplesPerType`,
   * otherwise `random.sample(files, samplesPerType)`, which is left as an unspecified choice of
   * exactly that many of the files, none drawn more often than it occurs, in any order.
   */
  method SampleFiles(files: seq<string>, samplesPerType: nat) returns (sample: seq<string>)
    ensures |files| < samplesPerType ==> sample == files
    ensures |sample| == Min(|files|, samplesPerType)
    ensures multiset(sample) <= multiset(files)
  {
    if |files| < samplesPerType {
      sample := files;
    } else {
      assert files == files[..samplesPerType] + files[samplesPerType..];
      assert multiset(files[..samplesPerType]) <= multiset(files);
      sample :| |sample| == samplesPerType && multiset(sample) <= multiset(files);
    }
  }

  /** The `shutil.copy2` loop over `sample_files`: one copy per sampled file, from the source folder to the flower's folder. */
  method CopySample(source: string, flowerDest: string, flower: string, sample: seq<string>)
    returns (batch: seq<CopyOp>)
    ensures |batch| == |sample|
    ensures forall k :: 0 <= k < |batch| ==>
      batch[k] == CopyOp(flower, sample[k], JoinPath(source, sample[k]), JoinPath(flowerDest, sample[k]))
  {
    batch := [];
    for i := 0 to |sample|
      invariant |batch| == i
      invariant forall k :: 0 <= k < i ==>
        batch[k] == CopyOp(flower, sample[k], JoinPath(source, sample[k]), JoinPath(flowerDest, sample[k]))
    {
      batch := batch + [CopyOp(flower, sample[i], JoinPath(source, sample[i]), JoinPath(flowerDest, sample[i]))];
    }
  }

  /** The names copied for `flower`, in copy order. */
  function Selected(copies: seq<CopyOp>, flower: string): seq<string> {
    if copies == [] then []
    else
      var last := copies[|copies| - 1];
      Selected(copies[..|copies| - 1], flower) + (if last.flower == flower then [last.file] else [])
  }

  /** The names copied, in copy order. */
  function CopiedFiles(copies: seq<CopyOp>): (r: seq<string>)
    ensures |r| == |copies| && forall k :: 0 <= k < |copies| ==> r[k] == copies[k].file
  {
    seq(|copies|, k requires 0 <= k < |copies| => copies[k].file)
  }

  lemma {:induction false} SelectedAppend(a: seq<CopyOp>, b: seq<CopyOp>, flower: string)
    ensures Selected(a + b, flower) == Selected(a, flower) + Selected(b, flower)
    decreases |b|
  {
    if b == [] {
      assert a + b == a;
    } else {
      var n := |b| - 1;
      SelectedAppend(a, b[..n], flower);
      assert (a + b)[..|a + b| - 1] == a + b[..n];
    }
  }

  /** The copies of one flower's batch select that flower's sample and nothing for any other flower. */
  lemma {:induction false} SelectedBatch(batch: seq<CopyOp>, flower: string, sample: seq<string>, f: string)
    requires |batch| == |sample|
    requires forall k :: 0 <= k < |batch| ==> batch[k].flower == flower && batch[k].file == sample[k]
    ensures Selected(batch, f) == if f == flower then sample else []
    decreases |batch|
  {
    if batch != [] {
      var n := |batch| - 1;
      SelectedBatch(batch[..n], flower, sample[..n], f);
      assert sample == sample[..n] + [sample[n]];
    }
  }

  /** No list of the table repeats a name. */
  ghost predicate ListsUnique(table: map<string, seq<string>>) {
    forall f :: f in table ==> NoDuplicates(table[f])
  }

  /** No name is in the lists of two different flowers. */
  ghost predicate ListsDisjoint(table: map<string, seq<string>>) {
    forall f, g, x :: f in table && g in table && f != g && x in table[f] ==> x !in table[g]
  }

  /**
   * What the copies made for the flowers in `done` satisfy, with `table` the scanned
   * `flower_files` (the invariant of the `for flower, files in flower_files.items()` loop).
   */
  ghost predicate CopiesInvariant(source: string, destination: string, samplesPerType: nat,
                                  table: map<string, seq<string>>, copies: seq<CopyOp>, done: seq<string>)
  {
    && (forall c :: c in copies ==>
          c.flower in done && c.flower in table && c.file in table[c.flower]
          && c.src == JoinPath(source, c.file) && c.dst == JoinPath(JoinPath(destination, c.flower), c.file))
    && SamplesTaken(samplesPerType, table, copies, done)
    && (ListsUnique(table) ==> NoDuplicates(CopiedFiles(copies)))
  }

  /** Each flower in `done` got its sample, and no other flower has any copy yet. */
  ghost predicate SamplesTaken(samplesPerType: nat, table: map<string, seq<string>>,
                               copies: seq<CopyOp>, done: seq<string>)
  {
    && (forall f :: f in done ==> f in table && SampleOf(Selected(copies, f), table[f], samplesPerType))
    && (forall f :: f !in done ==> Selected(copies, f) == [])
  }

  /** `sample` is what the sampling rule allows for `files`: min(available, requested) of them, all when short. */
  predicate SampleOf(sample: seq<string>, files: seq<string>, samplesPerType: nat) {
    && |sample| == Min(|files|, samplesPerType)
    && multiset(sample) <= multiset(files)
    && (|files| < samplesPerType ==> sample == files)
  }

  /** Adding one flower's sample to the copies keeps every earlier flower's sample as it was. */
  lemma SamplesStep(samplesPerType: nat, table: map<string, seq<string>>,
                    copies: seq<CopyOp>, done: seq<string>, flower: string, sample: seq<string>, batch: seq<CopyOp>)
    requires SamplesTaken(samplesPerType, table, copies, done)
    requires flower !in done && flower in table
    requires SampleOf(sample, table[flower], samplesPerType)
    requires forall f :: Selected(copies + batch, f) == Selected(copies, f) + (if f == flower then sample else [])
    ensures SamplesTaken(samplesPerType, table, copies + batch, done + [flower])
  {
    forall f | f in done + [flower]
      ensures f in table && SampleOf(Selected(copies + batch, f), table[f], samplesPerType)
    {
      if f == flower {
        assert Selected(copies, f) == [];
        assert Selected(copies + batch, f) == [] + sample == sample;
      } else {
        assert f in done;
        assert Selected(copies + batch, f) == Selected(copies, f) + [] == Selected(copies, f);
      }
    }
    forall f | f !in done + [flower] ensures Selected(copies + batch, f) == [] {
      assert Selected(copies + batch, f) == Selected(copies, f) + [];
    }
  }

  /** The step of the copy loop keeps every file copied at most once. */
  lemma NoNewDuplicates(table: map<string, seq<string>>, copies: seq<CopyOp>, batch: seq<CopyOp>,
                        flower: string, sample: seq<string>, done: seq<string>)
    requires ListsUnique(table) && ListsDisjoint(table) && NoDuplicates(CopiedFiles(copies))
    requires forall c :: c in copies ==> c.flower in done && c.flower in table && c.file in table[c.flower]
    requires flower !in done && flower in table
    requires multiset(sample) <= multiset(table[flower])
    requires |batch| == |sample| && forall k :: 0 <= k < |batch| ==> batch[k].file == sample[k]
    ensures NoDuplicates(CopiedFiles(copies + batch))
  {
    var files := table[flower];
    var before := CopiedFiles(copies);
    SubMultisetNoDuplicates(sample, files);
    SubMultisetMembers(sample, files);
    forall k | 0 <= k < |copies| ensures before[k] !in files {
      assert copies[k] in copies;
    }
    ConcatNoDuplicates(before, sample);
    assert CopiedFiles(copies + batch) == before + sample;
  }

  /** One turn of the copy loop keeps the invariant, with one more flower done. */
  lemma CopiesStep(source: string, destination: string, samplesPerType: nat, table: map<string, seq<string>>,
                   copies: seq<CopyOp>, done: seq<string>, flower: string, sample: seq<string>, batch: seq<CopyOp>)
    requires CopiesInvariant(source, destination, samplesPerType, table, copies, done)
    requires ListsDisjoint(table)
    requires flower !in done && flower in table
    requires SampleOf(sample, table[flower], samplesPerType)
    requires |batch| == |sample|
    requires forall k :: 0 <= k < |batch| ==>
      batch[k] == CopyOp(flower, sample[k], JoinPath(source, sample[k]),
                         JoinPath(JoinPath(destination, flower), sample[k]))
    ensures CopiesInvariant(source, destination, samplesPerType, table, copies + batch, done + [flower])
  {
    var copies', done' := copies + batch, done + [flower];
    forall f ensures Selected(copies', f) == Selected(copies, f) + (if f == flower then sample else []) {
      SelectedAppend(copies, batch, f);
      SelectedBatch(batch, flower, sample, f);
    }
    SubMultisetMembers(sample, table[flower]);
    forall c | c in copies'
      ensures c.flower in done' && c.flower in table && c.file in table[c.flower]
      ensures c.src == JoinPath(source, c.file) && c.dst == JoinPath(JoinPath(destination, c.flower), c.file)
    {
      if c !in copies {
        var k :| 0 <= k < |batch| && batch[k] == c;
        assert c.file == sample[k];
      }
    }
    SamplesStep(samplesPerType, table, copies, done, flower, sample, batch);
    if ListsUnique(table) {
      NoNewDuplicates(table, copies, batch, flower, sample, done);
    }
  }

  /** The scanned table has unique lists when the listing has unique names, and disjoint lists always. */
  lemma TableShape(listing: seq<Entry>, flowers: seq<string>, table: map<string, seq<string>>)
    requires forall f :: f in table ==> table[f] == FlowerFiles(listing, flowers, f)
    ensures ListsDisjoint(table)
    ensures NoDuplicates(Names(listing)) ==> ListsUnique(table)
  {
    forall f, g, x | f in table && g in table && f != g && x in table[f] ensures x !in table[g] {
      FiledUnderOneFlower(listing, flowers, f, g, x);
    }
    if NoDuplicates(Names(listing)) {
      forall f | f in table ensures NoDuplicates(table[f]) {
        FlowerFilesNoDuplicates(listing, flowers, f);
      }
    }
  }

  /**
   * `if not os.path.exists(d): os.makedirs(d)`: `dirs` is the set of folders that exist and
   * `created` the folders made so far, in order.
   */
  method MakeFolder(dirs: set<string>, created: seq<string>, d: string)
    returns (dirs': set<string>, created': seq<string>)
    ensures d in dirs ==> dirs' == dirs && created' == created
    ensures d !in dirs ==> dirs' == dirs + {d} && created' == created + [d]
  {
    dirs', created' := dirs, created;
    if d !in dirs {
      created' := created + [d];
      dirs' := dirs + {d};
    }
  }

  /**
   * The folder bookkeeping of `extract_flower_samples` once the flowers in `done` are handled:
   * `dirs` is what existed plus what was made, only missing folders were made and each once,
   * the destination came first, and every folder made is the destination or a flower's folder.
   */
  ghost predicate FoldersInvariant(existing: set<string>, destination: string, flowers: seq<string>,
                                   done: seq<string>, dirs: set<string>, created: seq<string>)
  {
    && (forall d :: d in dirs <==> d in existing || d in created)
    && (forall d :: d in created ==> d !in existing)
    && NoDuplicates(created)
    && (destination in existing || (|created| > 0 && created[0] == destination))
    && destination in dirs
    && (forall f :: f in done ==> JoinPath(destination, f) in dirs)
    && (forall d :: d in created ==> d == destination || exists f :: f in flowers && d == JoinPath(destination, f))
  }

  /** Making the destination when it is missing starts the folder bookkeeping. */
  lemma FoldersStart(existing: set<string>, destination: string, flowers: seq<string>,
                     dirs: set<string>, created: seq<string>)
    requires destination in existing ==> dirs == existing && created == []
    requires destination !in existing ==> dirs == existing + {destination} && created == [destination]
    ensures FoldersInvariant(existing, destination, flowers, [], dirs, created)
  {
  }

  /** Once every flower is handled, the destination and every flower's folder exist. */
  lemma FoldersDone(existing: set<string>, destination: string, flowers: seq<string>,
                    dirs: set<string>, created: seq<string>)
    requires FoldersInvariant(existing, destination, flowers, Distinct(flowers), dirs, created)
    ensures forall d :: d in created ==> d !in existing
    ensures NoDuplicates(created)
    ensures destination in existing || (|created| > 0 && created[0] == destination)
    ensures forall f :: f in flowers ==> JoinPath(destination, f) in existing || JoinPath(destination, f) in created
    ensures forall d :: d in created ==> d == destination || exists f :: f in flowers && d == JoinPath(destination, f)
  {
    forall f | f in flowers ensures JoinPath(destination, f) in existing || JoinPath(destination, f) in created {
      assert f in Distinct(flowers);
    }
  }

  /** Making one flower's folder when it is missing keeps the folder bookkeeping, with that flower done. */
  lemma FoldersStep(existing: set<string>, destination: string, flowers: seq<string>, done: seq<string>,
                    dirs: set<string>, created: seq<string>, flower: string,
                    dirs': set<string>, created': seq<string>)
    requires FoldersInvariant(existing, destination, flowers, done, dirs, created)
    requires flower in flowers
    requires JoinPath(destination, flower) in dirs ==> dirs' == dirs && created' == created
    requires JoinPath(destination, flower) !in dirs ==>
      dirs' == dirs + {JoinPath(destination, flower)} && created' == created + [JoinPath(destination, flower)]
    ensures FoldersInvariant(existing, destination, flowers, done + [flower], dirs', created')
  {
    var fd := JoinPath(destination, flower);
    if fd !in dirs {
      forall i, j | 0 <= i < j < |created'| ensures created'[i] != created'[j] {
        if j == |created| {
          assert created[i] in created;
        }
      }
      forall d | d in created' ensures d == destination || exists f :: f in flowers && d == JoinPath(destination, f) {
        if d == fd {
          assert flower in flowers && d == JoinPath(destination, flower);
        } else {
          assert d in created;
        }
      }
    }
  }

  /**
   * The body of the `for flower, files in flower_files.items()` loop: sample the flower's files, create its folder
   * when missing, and copy the sample into it. `done` are the flowers handled before.
   */
  method CopyFlower(source: string, destination: string, samplesPerType: nat, table: map<string, seq<string>>,
                    flower: string, dirs: set<string>, created: seq<string>, copies: seq<CopyOp>,
                    ghost existing: set<string>, ghost flowers: seq<string>, ghost done: seq<string>)
    returns (dirs': set<string>, created': seq<string>, copies': seq<CopyOp>)
    requires FoldersInvariant(existing, destination, flowers, done, dirs, created)
    requires CopiesInvariant(source, destination, samplesPerType, table, copies, done)
    requires ListsDisjoint(table)
    requires flower in flowers && flower in table && flower !in done
    ensures FoldersInvariant(existing, destination, flowers, done + [flower], dirs', created')
    ensures CopiesInvariant(source, destination, samplesPerType, table, copies', done + [flower])
    // What was done before stays: earlier copies and folders are kept, in order, and no other
    // flower's selection changes.
    ensures |copies| <= |copies'| && copies'[..|copies|] == copies
    ensures |created| <= |created'| && created'[..|created|] == created
    ensures forall f :: f != flower ==> Selected(copies', f) == Selected(copies, f)
  {
    var sample := SampleFiles(table[flower], samplesPerType);
    var flowerDest := JoinPath(destination, flower);
    dirs', created' := MakeFolder(dirs, created, flowerDest);
    FoldersStep(existing, destination, flowers, done, dirs, created, flower, dirs', created');
    var batch := CopySample(source, flowerDest, flower, sample);
    CopiesStep(source, destination, samplesPerType, table, copies, done, flower, sample, batch);
    copies' := copies + batch;
    forall f | f != flower ensures Selected(copies', f) == Selected(copies, f) {
      SelectedAppend(copies, batch, f);
      SelectedBatch(batch, flower, sample, f);
    }
  }

  /** The `for flower, files in flower_files.items()` loop over the distinct flowers `order`, starting with no copies. */
  method CopyAll(source: string, destination: string, samplesPerType: nat, table: map<string, seq<string>>,
                 order: seq<string>, dirs: set<string>, created: seq<string>,
                 ghost existing: set<string>, ghost flowers: seq<string>)
    returns (dirs': set<string>, created': seq<string>, copies: seq<CopyOp>)
    requires FoldersInvariant(existing, destination, flowers, [], dirs, created)
    requires ListsDisjoint(table)
    requires NoDuplicates(order)
    requires forall f :: f in order ==> f in flowers && f in table
    ensures FoldersInvariant(existing, destination, flowers, order, dirs', created')
    ensures CopiesInvariant(source, destination, samplesPerType, table, copies, order)
  {
    dirs', created', copies := dirs, created, [];
    for t := 0 to |order|
      invariant FoldersInvariant(existing, destination, flowers, order[..t], dirs', created')
      invariant CopiesInvariant(source, destination, samplesPerType, table, copies, order[..t])
    {
      assert order[..t + 1] == order[..t] + [order[t]];
      assert order[t] !in order[..t];
      dirs', created', copies := CopyFlower(source, destination, samplesPerType, table, order[t],
                                            dirs', created', copies, existing, flowers, order[..t]);
    }
    assert order[..|order|] == order;
  }

  /**
   * `extract_flower_samples(source, destination, flowers, samplesPerType)` over a directory
   * listing and the set of folders that already exist. `created` lists the folders made, in
   * order; `copies` lists the copy calls, in order.
   */
  method ExtractFlowerSamples(source: string, destination: string, flowers: seq<string>,
                              samplesPerType: nat, listing: seq<Entry>, existing: set<string>)
    returns (created: seq<string>, copies: seq<CopyOp>)
    // Folders: only missing ones are made, each once, and afterwards the destination and every
    // flower's folder exist.
    ensures forall d :: d in created ==> d !in existing
    ensures NoDuplicates(created)
    ensures destination in existing || (|created| > 0 && created[0] == destination)
    ensures forall f :: f in flowers ==> JoinPath(destination, f) in existing || JoinPath(destination, f) in created
    ensures forall d :: d in created ==> d == destination || exists f :: f in flowers && d == JoinPath(destination, f)
    // Copies: each copies one of its flower's files from the source folder into the flower's folder.
    ensures forall c :: c in copies ==>
      c.flower in flowers && c.file in FlowerFiles(listing, flowers, c.flower)
      && c.src == JoinPath(source, c.file) && c.dst == JoinPath(JoinPath(destination, c.flower), c.file)
    // Per flower: min(available, requested) files, drawn from its list, all of them when short.
    ensures forall f :: f in flowers ==>
      |Selected(copies, f)| == Min(|FlowerFiles(listing, flowers, f)|, samplesPerType)
    ensures forall f :: f in flowers ==>
      multiset(Selected(copies, f)) <= multiset(FlowerFiles(listing, flowers, f))
    ensures forall f :: f in flowers && |FlowerFiles(listing, flowers, f)| < samplesPerType ==>
      Selected(copies, f) == FlowerFiles(listing, flowers, f)
    // A listing never repeats a name, and then no file is copied twice.
    ensures NoDuplicates(Names(listing)) ==> NoDuplicates(CopiedFiles(copies))
  {
    var dirs;
    dirs, created := MakeFolder(existing, [], destination);
    FoldersStart(existing, destination, flowers, dirs, created);
    var order, table := CollectFlowerFiles(listing, flowers);
    TableShape(listing, flowers, table);
    dirs, created, copies := CopyAll(source, destination, samplesPerType, table, order, dirs, created,
                                     existing, flowers);
    FoldersDone(existing, destination, flowers, dirs, created);
    CopiesOfListing(source, destination, samplesPerType, listing, flowers, table, copies);
  }

  /** The invariant over the scanned table, once every flower is done, read back in terms of the listing. */
  lemma CopiesOfListing(source: string, destination: string, samplesPerType: nat, listing: seq<Entry>,
                        flowers: seq<string>, table: map<string, seq<string>>, copies: seq<CopyOp>)
    requires forall f :: f in table <==> f in flowers
    requires forall f :: f in table ==> table[f] == FlowerFiles(listing, flowers, f)
    requires CopiesInvariant(source, destination, samplesPerType, table, copies, Distinct(flowers))
    requires NoDuplicates(Names(listing)) ==> ListsUnique(table)
    ensures forall c :: c in copies ==>
      c.flower in flowers && c.file in FlowerFiles(listing, flowers, c.flower)
      && c.src == JoinPath(source, c.file) && c.dst == JoinPath(JoinPath(destination, c.flower), c.file)
    ensures forall f :: f in flowers ==>
      |Selected(copies, f)| == Min(|FlowerFiles(listing, flowers, f)|, samplesPerType)
    ensures forall f :: f in flowers ==>
      multiset(Selected(copies, f)) <= multiset(FlowerFiles(listing, flowers, f))
    ensures forall f :: f in flowers && |FlowerFiles(listing, flowers, f)| < samplesPerType ==>
      Selected(copies, f) == FlowerFiles(listing, flowers, f)
    ensures NoDuplicates(Names(listing)) ==> NoDuplicates(CopiedFiles(copies))
  {
    forall f | f in flowers
      ensures SampleOf(Selected(copies, f), FlowerFiles(listing, flowers, f), samplesPerType)
    {
      assert f in Distinct(flowers);
    }
  }

  /** The script's entry point: the three flowers, the fixed folders and 1000 files per flower. */
  method PopulateTestDirectory(listing: seq<Entry>, existing: set<string>)
    returns (created: seq<string>, copies: seq<CopyOp>)
    ensures forall f :: f in FlowerTypes ==>
      |Selected(copies, f)| == Min(|FlowerFiles(listing, FlowerTypes, f)|, 1000)
    ensures forall c :: c in copies ==>
      c.flower in FlowerTypes && c.dst == JoinPath(JoinPath(DestinationFolder, c.flower), c.file)
  {
    created, copies := ExtractFlowerSamples(SourceFolder, DestinationFolder, FlowerTypes,
                                            DefaultSamplesPerType, listing, existing);
  }
}
