# vlm_for_iqa in Dafny

A model of the image-quality scripts of `vlm_for_iqa`: the sampler that builds the test folder
and the four scripts that score the images in it.

- `extract_flower_samples` (`misc/populate_test_directory.py`) scans a directory listing. It files
  each regular image file under the first flower whose `{flower}_{digits}.` pattern its name
  matches. Then, for each flower, it copies either all of that flower's files or a random sample of
  `samples_per_type` of them into `destination/flower`, creating missing folders on the way.
- `other_taxa.py` asks a vision-language model whether each image of the test folder shows
  other taxa than the flower named in its file name. It writes the answer and that flower name.
- `qwen200.py` gathers the images of the three flower sub-folders of one seed folder and asks
  whether each image is too blurry to identify.
- `qwen_vl_iqa.py` asks one fixed question about every image of the test folder.
- `no_reference/niqe.py` scores every image with the NIQE metric. It writes one table of scores
  and one table of images that could not be opened, verified or scored.

The folder listing, the folders that exist, the model call and the image decoder are
parameters. Each result is a value: the list of folders created, the list of copy calls, or the
rows and header of a CSV file together with an exit status.

Modules:

- `Sequences`: list comprehensions with a test, the keys of a dictionary built from a list,
  `min`, and facts about repeats and multisets.
- `Strings`: Python's `in`, `split`, `join`, `lower`, `endswith` and `str(int)`.
- `Paths`: Windows `os.path.join`, `basename` and `splitext`.
- `Replies`: the Yes/No rule the three model scripts share.
- `Outcomes`: a value or an exception text, and the end of a script run.
- One module per script.
- `ExtensionFilters`: compares the scripts' file-name filters with one another.

What the proofs establish:

- The sampler's filing is a partition. Each name goes to the first flower it matches and to no
  other, and keeps its listing order.
- The sampler copies min(available, requested) files per flower, all of them when there are too
  few, each drawn from that flower's list. No file is copied twice, and only missing folders are
  created.
- The flower name that `other_taxa.py` reads back from `{flower}_{digits}.{ext}` is the flower,
  even when the flower contains underscores, provided the extension holds no further dot. The
  sampler also files names such as `A_1.x_y.jpg`; for those the name read back is `A_1.x`.
- Different seeds never share a folder or an output file.
- In `qwen_vl_iqa.py` the second join of an already-joined path changes nothing.
- The NIQE tables partition the image list. Each image sits beside its own score or error text.

The filters differ between scripts:

- The sampler and the NIQE script compare case-insensitively. Both keep exactly the names whose
  lower-cased form ends in `.jpg`, `.jpeg` or `.png`.
- The three model scripts compare case-sensitively against a five-suffix list.
- So a name ending in `.JPEG` or `.Jpg` passes the sampler's and the NIQE script's filters and
  fails the model scripts' filters (`ExtensionFilters.MixedCaseOnlyScoredByNiqe`).

The sampler copies into `D:\iNaturalist\test_3000\{flower}\{file}`. `other_taxa.py`,
`qwen_vl_iqa.py` and `niqe.py` list `D:\iNaturalist\test_3000` itself and do not descend into
sub-folders. When that folder holds only the sampler's flower sub-folders, none of the three finds
an image (`ExtensionFilters.SamplerOutputUnlisted`). By their `Run` contracts, `other_taxa.py` and
`qwen_vl_iqa.py` then exit with status 1 and `niqe.py` writes two empty tables. This follows from
the code; it has not been executed.

`extract_flower_samples` samples from the unsorted listing with the global random generator and
writes no metadata.

## Model

| member | source | states |
|---|---|---|
| PopulateTestDirectory.LoweredExtensions | misc/populate_test_directory.py:26 | the six valid extensions, lower-cased, are `.jpg`, `.jpeg` and `.png`, each twice |
| PopulateTestDirectory.HasImageExtensionIff | misc/populate_test_directory.py:26-35 | the case-insensitive test against the six extensions accepts a name exactly when its lower-cased form ends in `.jpg`, `.jpeg` or `.png` |
| PopulateTestDirectory.ExtensionIsLowered | misc/populate_test_directory.py:26-35 | a name the six-extension test accepts ends, lower-cased, in `.jpg`, `.jpeg` or `.png` |
| PopulateTestDirectory.LoweredIsExtension | misc/populate_test_directory.py:26-35 | a name ending, lower-cased, in `.jpg`, `.jpeg` or `.png` passes the six-extension test |
| PopulateTestDirectory.DigitRun | misc/populate_test_directory.py:39 | the length of the leading run of digits: every character before it is a digit, and the one after it is not |
| PopulateTestDirectory.DigitRunCovers | misc/populate_test_directory.py:39 | any prefix made only of digits lies within the digit run |
| PopulateTestDirectory.PatternScanIff | misc/populate_test_directory.py:39 | the greedy scan (flower, underscore, longest digit run, then a dot) accepts exactly the names that `^{flower}_\d+\.` matches |
| PopulateTestDirectory.FirstFlower | misc/populate_test_directory.py:37-41 | the result is the index of a flower whose pattern matches, and no earlier flower matches; None only when no flower matches |
| PopulateTestDirectory.FirstMatchingFlower | misc/populate_test_directory.py:37-41 | the inner loop with its `break` returns the first matching flower |
| PopulateTestDirectory.CollectFlowerFiles | misc/populate_test_directory.py:23-41 | keys in first-seen order without repeats, exactly the flowers; each list holds the names filed under its flower, in listing order |
| PopulateTestDirectory.FiledUnderFirstMatch | misc/populate_test_directory.py:31-41 | a name in a flower's list has a valid extension, and that flower is the first one its name matches |
| PopulateTestDirectory.FiledUnderOneFlower | misc/populate_test_directory.py:37-41 | no name is filed under two different flowers |
| PopulateTestDirectory.FiledIsListed | misc/populate_test_directory.py:31-41 | every entry filed under a flower (a regular image file whose first matching flower it is) is in that flower's list |
| PopulateTestDirectory.FlowerFilesPositions | misc/populate_test_directory.py:31-40 | each list is carried by strictly increasing listing positions whose entries are filed under that flower; with FiledIsListed, the list is exactly the filed entries in listing order |
| PopulateTestDirectory.UnfiledIgnored | misc/populate_test_directory.py:35-41 | in a listing without repeated names (as `os.listdir` gives), an entry that is not a regular image file, or that matches no flower, is in no list |
| PopulateTestDirectory.FlowerFilesNoDuplicates | misc/populate_test_directory.py:31-40 | a listing without repeated names gives lists without repeated names |
| PopulateTestDirectory.TableShape | misc/populate_test_directory.py:31-41 | the scanned lists are pairwise disjoint, and free of repeats when the listing is |
| PopulateTestDirectory.SampleFiles | misc/populate_test_directory.py:47-53 | all files when there are fewer than requested; otherwise exactly the requested number, drawn from the files without repeating any more often than it occurs |
| PopulateTestDirectory.CopySample | misc/populate_test_directory.py:62-65 | one copy per sampled file, in order, from `source/file` to `flower_dest/file` |
| PopulateTestDirectory.SelectedAppend | misc/populate_test_directory.py:44-69 | the names copied for a flower over two runs of copies are the first run's followed by the second's |
| PopulateTestDirectory.SelectedBatch | misc/populate_test_directory.py:62-65 | one flower's batch selects that flower's sample, and nothing for any other flower |
| PopulateTestDirectory.SamplesStep | misc/populate_test_directory.py:44-69 | adding one flower's sample leaves every earlier flower's sample as it was |
| PopulateTestDirectory.NoNewDuplicates | misc/populate_test_directory.py:53-65 | a sample drawn from its own flower's list adds no file already copied |
| PopulateTestDirectory.CopiesStep | misc/populate_test_directory.py:44-69 | one turn of the per-flower loop keeps the copy invariant with one more flower done |
| PopulateTestDirectory.MakeFolder | misc/populate_test_directory.py:57-58 | a folder is created and recorded only when it does not exist yet |
| PopulateTestDirectory.FoldersStart | misc/populate_test_directory.py:18-19 | creating the destination only when missing starts the folder invariant |
| PopulateTestDirectory.FoldersStep | misc/populate_test_directory.py:56-58 | creating one flower's folder only when missing keeps the folder invariant with that flower done |
| PopulateTestDirectory.FoldersDone | misc/populate_test_directory.py:44-58 | when the loop ends, the destination and every flower's folder exist, and only missing ones were created, each once |
| PopulateTestDirectory.CopyFlower | misc/populate_test_directory.py:45-69 | one more flower handled: its folder exists and is created only when missing, and its copies are a sample of its list into that folder, with the folder and copy bookkeeping kept; earlier copies and created folders stay as they were, in order, and no other flower's selection changes |
| PopulateTestDirectory.CopyAll | misc/populate_test_directory.py:44-69 | after the loop over the distinct flowers, every flower's folder exists and each flower got its sample, and nothing else was copied |
| PopulateTestDirectory.ExtractFlowerSamples | misc/populate_test_directory.py:7-69 | folders: only missing ones created, each once, destination first; copies: each from `source/file` to `destination/flower/file` for a file filed under that flower; per flower min(available, requested) files from its list, all when short; no file copied twice when the listing has no repeated names |
| PopulateTestDirectory.CopiesOfListing | misc/populate_test_directory.py:44-69 | the finished loop invariant, read in terms of the listing, gives the per-flower counts and copy paths |
| PopulateTestDirectory.PopulateTestDirectory | misc/populate_test_directory.py:72-87 | with the three flowers and the fixed folders, each flower gets min(available, 1000) files, each copied into `D:\iNaturalist\test_3000\flower` |
| OtherTaxa.ImageFilenames | other_taxa.py:34-35 | a name is kept exactly when it is in the listing and ends with one of the five suffixes |
| OtherTaxa.FlowerNameSpec | other_taxa.py:48-53 | the flower name is the stem up to its last underscore, or the whole stem when it has no underscore |
| OtherTaxa.FlowerNameOfSampledFile | other_taxa.py:48-53 | a name `{flower}_{digits}.{ext}` whose extension holds no further dot gives back the flower, underscores in the flower included |
| OtherTaxa.ExampleFlowerName | other_taxa.py:48-53 | `Bellis_perennis_12.jpg` names `Bellis_perennis` |
| OtherTaxa.PromptNamesFlower | other_taxa.py:56 | two prompts are equal exactly when their flowers are |
| OtherTaxa.TaxaRow.Cells | other_taxa.py:89-99 | a row has as many cells as the header has columns |
| OtherTaxa.RowFor | other_taxa.py:87-93 | the file name; "Yes" exactly when the reply contains "Yes", "No" otherwise, with the given flower name; "Error" and "N/A" exactly when the call raised |
| OtherTaxa.AskAll | other_taxa.py:44-93 | one row per kept name, in order, for the model's answer about `folder/name` under the prompt for that name's flower, carrying that flower |
| OtherTaxa.Run | other_taxa.py:26-100 | exit status 1 when the folder is missing or has no image; otherwise the fixed file and header and one row per kept name, in listing order, for the model's answer about `folder/name` under that name's prompt; every row has as many cells as the header |
| Qwen200.SeedNamesInjective | qwen200.py:22-27 | two seeds share their folder, or their output file, exactly when they are equal |
| Qwen200.ExampleSeed42 | qwen200.py:22-27 | seed 42 reads `D:\iNaturalist\test_images_200\seed_42` and writes `blurry_results_qwen_seed_42.csv` |
| Qwen200.ImagePathsComplete | qwen200.py:44-50 | every kept name in any existing flower folder is gathered, joined to its folder |
| Qwen200.ImagePathsSound | qwen200.py:44-50 | every gathered path is a kept name of some existing flower folder, joined to that folder |
| Qwen200.GatherImagePaths | qwen200.py:41-50 | the gathering loop returns the flower folders' images in flower order, skipping missing folders |
| Qwen200.RowFor | qwen200.py:62-98 | the base name of the path; "Error" exactly when the call raised, otherwise the Yes/No label of the reply |
| Qwen200.RowNamesListedFile | qwen200.py:47-62 | the row names exactly the listed file, since `basename` undoes the join |
| Qwen200.AskAll | qwen200.py:61-98 | one row per gathered path, in order, for the model's answer about that path |
| Qwen200.Run | qwen200.py:22-105 | exit status 1 when the seed folder is missing or no image is gathered; otherwise the seed's own file and the header, with one row per gathered path; every row has as many cells as the header |
| QwenVlIqa.RejoinUnchanged | qwen_vl_iqa.py:48 | joining the folder onto one of its own paths again gives back that path |
| QwenVlIqa.RowFor | qwen_vl_iqa.py:78-84 | the path as listed; "Error" exactly when the call raised, otherwise the Yes/No label of the reply |
| QwenVlIqa.AskAll | qwen_vl_iqa.py:47-84 | one row per path, in order, for the model's answer about the re-joined path |
| QwenVlIqa.Run | qwen_vl_iqa.py:29-91 | exit status 1 when the folder is missing or has no image; otherwise one row per path, and the model is asked about exactly that path; every row has as many cells as the header |
| Niqe.AssessSpec | no_reference/niqe.py:33-39 | a path is scored exactly when opening, verifying and scoring all succeed, and then it gets the metric's value; otherwise the error text of the first step that raised: opening, verifying or scoring |
| Niqe.ScoreImages | no_reference/niqe.py:31-50 | the valid images are the scored paths in order and the corrupted images the rejected ones; each sits beside its own score or error text, so each pair of lists has equal length |
| Niqe.ScoreStep | no_reference/niqe.py:42-50 | one turn of the loop keeps both tables in step with the paths seen so far |
| Niqe.TablesPartitionImages | no_reference/niqe.py:31-50 | every path lands in exactly one of the two tables |
| Niqe.Run | no_reference/niqe.py:19-66 | a missing folder raises before anything is written; otherwise both tables, with their fixed files and columns, hold exactly the scored and the rejected paths |
| Replies.YesNoSpec | other_taxa.py:88 | the label is "Yes" or "No", and "Yes" exactly when "Yes", in that case, occurs somewhere in the reply |
| Replies.NoCapitalYMeansNo | qwen200.py:93 | a reply without a capital Y is labelled "No" |
| Replies.ExampleDeclined | qwen_vl_iqa.py:79 | "No, the image is clear." is labelled "No" |
| Replies.ExampleCaseSensitive | qwen_vl_iqa.py:79 | "yes" and "YES" are labelled "No" |
| Replies.ExampleSubstring | qwen_vl_iqa.py:79 | "Not sure. Yes" is labelled "Yes": the test is a substring test |
| Replies.Answer | qwen_vl_iqa.py:79-84 | "Error" exactly when the call raised, otherwise the Yes/No label of the reply |
| Replies.LabelRow.Cells | qwen200.py:94-104 | a two-column row, matching the two-column headers of `qwen200.py` and `qwen_vl_iqa.py` |
| Paths.JoinPath | other_taxa.py:45 | an absolute second path replaces the first; a second path rooted without a drive keeps only the first path's drive; otherwise the result starts with the first path, ends with the second, and is either their concatenation or the two with a backslash between, the backslash exactly when the first path is non-empty, not a bare drive and does not end in a separator |
| Paths.JoinedIsAbsolute | qwen_vl_iqa.py:37-48 | joining any name onto an absolute folder gives an absolute path, on the folder's drive unless the name is itself absolute |
| Paths.JoinEachBaseNames | qwen200.py:47-62 | joined onto any folder by the comprehension, each listed plain name is the base name of its path |
| Paths.BaseName | qwen200.py:62 | the result ends the path and holds no separator |
| Paths.LastSeparatorBeforeName | qwen200.py:62 | in a separator-terminated prefix followed by a plain name, the last separator ends the prefix |
| Paths.BaseNameAfterSeparator | qwen200.py:62 | a separator-terminated prefix followed by a plain name has that name as its base name |
| Paths.BaseNameOfJoin | qwen200.py:47-62 | the base name of a plain name joined onto any folder is that name |
| Paths.LastSeparator | qwen200.py:62 | the index of the last separator, or -1 when there is none |
| Paths.SplitExt | other_taxa.py:48 | root and extension concatenate to the name; the extension is empty or one dot followed by no further dot or separator |
| Paths.SplitExtAtLastDot | other_taxa.py:48 | a root followed by a dot and a dot-free extension splits at that dot, when the root is non-empty and ends in neither a dot nor a separator, and the extension holds no separator |
| Sequences.Distinct | misc/populate_test_directory.py:23 | the dictionary's keys: no repeats, and exactly the listed flowers |
| Strings.LowerSpec | no_reference/niqe.py:28 | lower-casing leaves no capital A-Z, turns each capital into its small letter, and keeps every other character |
| Strings.LowerIdempotent | no_reference/niqe.py:28 | lower-casing twice is lower-casing once |
| Strings.LowerEndsWith | misc/populate_test_directory.py:35 | a suffix match survives lower-casing both sides |
| Strings.ContainsIff | other_taxa.py:88 | `sub in s` holds exactly when `sub` occurs at some position of `s` |
| Strings.IndexOf | other_taxa.py:49 | the first position of the character |
| Strings.LastIndexOf | other_taxa.py:49-51 | the last position of the character, or -1 |
| Strings.Split | other_taxa.py:49 | at least one part, no part holds the separator, and more than one part exactly when the separator occurs |
| Strings.JoinSplit | other_taxa.py:49-51 | joining the parts of a split gives back the string |
| Strings.JoinDropLast | other_taxa.py:51 | joining all parts is joining all but the last, the separator, and the last |
| Strings.JoinAllButLast | other_taxa.py:49-51 | joining all parts but the last cuts the string at the last separator |
| Strings.LastIndexOfAt | other_taxa.py:49-51 | the last occurrence is the one after which the character no longer occurs |
| Strings.NatToStringRoundTrip | qwen200.py:24 | `str(n)` is a non-empty string of digits whose value is n |
| Strings.IntToStringInjective | qwen200.py:24-27 | two integers print alike exactly when they are equal |
| Sequences.Filter | other_taxa.py:34-35 | an element is kept exactly when it is in the input and passes the test; the result is no longer than the input |
| Sequences.FilterSnoc | no_reference/niqe.py:31-50 | filtering one more element appends it exactly when it passes |
| Sequences.FilterPartition | no_reference/niqe.py:31-50 | two complementary filters together hold each element exactly as often as the input does |
| Sequences.PartitionMultiset | no_reference/niqe.py:31-50 | the multisets of two complementary filters add up to the input's multiset |
| ExtensionFilters.ModelScriptFiltersAgree | qwen_vl_iqa.py:37-38 | the three model scripts keep exactly the same names; the repeated `.png` changes nothing |
| ExtensionFilters.SamplerAndNiqeAgree | no_reference/niqe.py:27-28 | the sampler's six-extension filter and NIQE's three-extension filter keep exactly the same names |
| ExtensionFilters.ModelScriptNamesAreNiqeNames | other_taxa.py:34-35 | every name a model script keeps, NIQE keeps too |
| ExtensionFilters.UpperJpegSkipped | other_taxa.py:35 | `a.JPEG` passes no model script's filter |
| ExtensionFilters.MixedJpgSkipped | other_taxa.py:35 | `a.Jpg` passes no model script's filter |
| ExtensionFilters.MixedCaseOnlyScoredByNiqe | no_reference/niqe.py:28 | `a.JPEG` and `a.Jpg` pass the sampler's and NIQE's name filters and fail the model scripts' filters |
| ExtensionFilters.DotlessEndsWithNone | other_taxa.py:34-35 | a string without a dot ends in none of a list of dot-led suffixes |
| ExtensionFilters.DotlessSkipped | no_reference/niqe.py:27-28 | a name without a dot, such as a flower folder, passes none of the filters of other_taxa.py, qwen_vl_iqa.py and niqe.py |
| ExtensionFilters.NoneKept | no_reference/niqe.py:27-28 | a comprehension whose test fails for every listed name gives the empty list |
| ExtensionFilters.SamplerOutputUnlisted | misc/populate_test_directory.py:56-78 | the sampler's destination is the folder the three scripts list; when it holds only the flower sub-folders, other_taxa.py, qwen_vl_iqa.py and niqe.py find no image |

## Left out

- Model loading, prompt templating, tokenisation and generation become the `ask` parameter. The
  model's reply is any string, and an exception raised by the model call becomes `Err`.
- OtherTaxa.AskAll, Qwen200.AskAll and QwenVlIqa.AskAll: the row is appended and then printed
  inside the same `try` (other_taxa.py:89-90, qwen200.py:94-95, qwen_vl_iqa.py:80-81). A `print`
  that raises after the append, for example an encoding error on a redirected output, would add
  an "Error" row for the same image after its Yes/No row. The model takes `print` never to raise,
  so it promises exactly one row per image.
- NIQE itself, PIL decoding and RGB conversion become the `open`, `verify` and `measure`
  parameters. Scores are `real`, not 64-bit floats.
- Niqe.Assess: `verify` may fail in the model. In niqe.py:35-36 it runs on the fresh in-memory
  image that `.convert('RGB')` returns, where PIL's `verify()` does nothing. The model therefore
  allows more failures than the script can have.
- Niqe.Assess: the second `Image.open` is taken to give the same outcome as the first, since
  `open` is a function of the path.
- Niqe.Run: a missing folder is `Raised` with a fixed text, not Python's exact exception
  message.
- CSV and data-frame serialisation (quoting, newlines, the index column) is not modelled. A table
  is its file name, header and rows.
- Printing, timing and progress messages are left out, and so is the `(i + 1) % 100` progress
  condition, which only prints.
- Qwen200.Run: the seed is the parsed integer. A non-integer answer to `input()`, which raises
  `ValueError` before anything happens, is not modelled.
- Strings.Lower: ASCII only. Python's `str.lower` also maps non-ASCII letters, so a name with a
  non-ASCII capital may be filtered differently.
- PopulateTestDirectory.MatchesPattern: `\d` is read as an ASCII digit, and the flower is read as
  literal text. A flower holding regex metacharacters would behave differently; the script's
  flowers hold none.
- Paths.JoinPath and Paths.BaseName: drive letters, both separators, absolute second paths and
  second paths rooted without a drive are handled. UNC paths are not. A second path with a drive
  but no root, such as `C:x`, is appended as if it were relative; `ntpath.join` instead switches
  to that drive.
- PopulateTestDirectory.SampleFiles: `random.sample` is any choice of the right size drawn from
  the files, not a uniform random one. A negative `samples_per_type`, which makes
  `random.sample` raise, is excluded by the `nat` type.
- PopulateTestDirectory.ExtractFlowerSamples: the file system is a set of existing folders and a
  listing. The copy calls are recorded, not performed. Errors raised by `listdir`,
  `makedirs` or `copy2` are not modelled.
- `misc/copy_filtered.py`, `qwen_iqa.py` and `misc/downloader.py` are not part of this model.
