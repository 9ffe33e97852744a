/**
 * The scripts decide by file-name suffix which files are images, each with its own list:
 * the sampler and the NIQE script ignore case, the three model scripts do not. These lemmas
 * relate the filters to one another.
 */
module ExtensionFilters {
  import opened Sequences
  import opened Strings
  import PopulateTestDirectory
  import OtherTaxa
  import Qwen200
  import QwenVlIqa
  import Niqe

  /** The three model scripts keep the same names; the repeated `.png` changes nothing. */
  lemma ModelScriptFiltersAgree(name: string)
    ensures OtherTaxa.IsImageName(name) <==> QwenVlIqa.IsImageName(name)
    ensures Qwen200.IsImageName(name) <==> QwenVlIqa.IsImageName(name)
  {
    var five, six := OtherTaxa.Extensions, QwenVlIqa.Extensions;
    assert five[0] == six[0] && five[1] == six[1] && five[2] == six[2] && five[3] == six[4] && five[4] == six[5];
    assert six[3] == five[1];
    EndsWithAnyMonotone(name, five, six);
    EndsWithAnyMonotone(name, six, five);
  }

  /** The sampler's filter and the NIQE script's filter keep the same names. */
  lemma SamplerAndNiqeAgree(name: string)
    ensures PopulateTestDirectory.HasImageExtension(name) <==> Niqe.IsImageName(name)
  {
    PopulateTestDirectory.HasImageExtensionIff(name);
  }

  /** Whatever a model script keeps, the NIQE script keeps too. */
  lemma ModelScriptNamesAreNiqeNames(name: string)
    requires OtherTaxa.IsImageName(name)
    ensures Niqe.IsImageName(name)
  {
    var five, three := OtherTaxa.Extensions, Niqe.Extensions;
    assert Lower(five[0]) == three[0] && Lower(five[1]) == three[2] && Lower(five[2]) == three[0];
    assert Lower(five[3]) == three[2] && Lower(five[4]) == three[1];
    EndsWithAnyLower(name, five, three);
  }

  /** A string does not end with a suffix that differs from it at some aligned position. */
  lemma NotEndsWithAt(s: string, suffix: string, k: int)
    requires 0 <= k < |suffix| <= |s| && s[|s| - |suffix| + k] != suffix[k]
    ensures !EndsWith(s, suffix)
  {
    assert s[|s| - |suffix|..][k] == s[|s| - |suffix| + k];
  }

  /** "a.JPEG" ends in none of the model scripts' suffixes. */
  lemma UpperJpegSkipped()
    ensures !OtherTaxa.IsImageName("a.JPEG")
  {
    var s, five := "a.JPEG", OtherTaxa.Extensions;
    assert s[4] == 'E';
    forall i | 0 <= i < |five| ensures !EndsWith(s, five[i]) {
      if i == 0 { NotEndsWithAt(s, ".jpg", 2); }
      else if i == 1 { NotEndsWithAt(s, ".png", 2); }
      else if i == 2 { NotEndsWithAt(s, ".JPG", 2); }
      else if i == 3 { NotEndsWithAt(s, ".PNG", 2); }
      else { NotEndsWithAt(s, ".jpeg", 3); }
    }
  }

  /** "a.Jpg" ends in none of the model scripts' suffixes. */
  lemma MixedJpgSkipped()
    ensures !OtherTaxa.IsImageName("a.Jpg")
  {
    var s, five := "a.Jpg", OtherTaxa.Extensions;
    assert s[2] == 'J' && s[3] == 'p';
    forall i | 0 <= i < |five| ensures !EndsWith(s, five[i]) {
      if i == 0 { NotEndsWithAt(s, ".jpg", 1); }
      else if i == 1 { NotEndsWithAt(s, ".png", 2); }
      else if i == 2 { NotEndsWithAt(s, ".JPG", 2); }
      else if i == 3 { NotEndsWithAt(s, ".PNG", 2); }
      else { NotEndsWithAt(s, ".jpeg", 3); }
    }
  }

  /**
   * The converse fails: a name ending in upper-case `.JPEG` or mixed-case `.Jpg` passes the
   * sampler's filter and the NIQE script's filter, and fails the model scripts' filters.
   */
  lemma MixedCaseOnlyScoredByNiqe()
    ensures Niqe.IsImageName("a.JPEG") && !OtherTaxa.IsImageName("a.JPEG") && !QwenVlIqa.IsImageName("a.JPEG")
    ensures Niqe.IsImageName("a.Jpg") && !OtherTaxa.IsImageName("a.Jpg") && !QwenVlIqa.IsImageName("a.Jpg")
    ensures PopulateTestDirectory.HasImageExtension("a.JPEG") && PopulateTestDirectory.HasImageExtension("a.Jpg")
  {
    var upper, mixed := "a.JPEG", "a.Jpg";
    assert Lower(upper) == "a.jpeg";
    assert EndsWith(Lower(upper), Niqe.Extensions[1]);
    assert Lower(mixed) == "a.jpg";
    assert EndsWith(Lower(mixed), Niqe.Extensions[0]);
    UpperJpegSkipped();
    MixedJpgSkipped();
    ModelScriptFiltersAgree(upper);
    ModelScriptFiltersAgree(mixed);
    SamplerAndNiqeAgree(upper);
    SamplerAndNiqeAgree(mixed);
  }

  /** A string without a dot ends in none of a list of suffixes that all start with a dot. */
  lemma DotlessEndsWithNone(s: string, suffixes: seq<string>)
    requires '.' !in s
    requires forall i :: 0 <= i < |suffixes| ==> |suffixes[i]| > 0 && suffixes[i][0] == '.'
    ensures !EndsWithAny(s, suffixes)
  {
    forall i | 0 <= i < |suffixes| ensures !EndsWith(s, suffixes[i]) {
      if |suffixes[i]| <= |s| {
        assert s[|s| - |suffixes[i]|..][0] == s[|s| - |suffixes[i]|];
      }
    }
  }

  /** A name without a dot passes none of the filters of the scripts that list the test folder. */
  lemma DotlessSkipped(name: string)
    requires '.' !in name
    ensures !OtherTaxa.IsImageName(name) && !QwenVlIqa.IsImageName(name) && !Niqe.IsImageName(name)
  {
    DotlessEndsWithNone(name, OtherTaxa.Extensions);
    DotlessEndsWithNone(name, QwenVlIqa.Extensions);
    assert '.' !in Lower(name) by {
      forall i | 0 <= i < |name| ensures Lower(name)[i] != '.' {
        assert name[i] != '.';
      }
    }
    DotlessEndsWithNone(Lower(name), Niqe.Extensions);
  }

  /**
   * The sampler copies into one sub-folder per flower of its destination, which is the folder
   * the other-taxa, question and NIQE scripts list without descending into sub-folders. When
   * that folder holds only the flower sub-folders, none of them finds an image: by their `Run`
   * contracts the two model scripts exit with status 1 and the NIQE script writes two empty tables.
   */
  lemma SamplerOutputUnlisted(listing: seq<string>)
    requires forall k :: 0 <= k < |listing| ==> listing[k] in PopulateTestDirectory.FlowerTypes
    ensures PopulateTestDirectory.DestinationFolder == OtherTaxa.ImageFolder
    ensures PopulateTestDirectory.DestinationFolder == QwenVlIqa.ImageFolder
    ensures PopulateTestDirectory.DestinationFolder == Niqe.ImageFolder
    ensures OtherTaxa.ImageFilenames(listing) == []
    ensures QwenVlIqa.ImagePaths(listing) == []
    ensures Niqe.ImagePaths(listing) == []
  {
    var flowers := PopulateTestDirectory.FlowerTypes;
    assert forall f :: f in flowers ==> '.' !in f;
    forall name | name in listing
      ensures !OtherTaxa.IsImageName(name) && !QwenVlIqa.IsImageName(name) && !Niqe.IsImageName(name)
    {
      DotlessSkipped(name);
    }
    NoneKept(listing, OtherTaxa.IsImageName);
    NoneKept(listing, QwenVlIqa.IsImageName);
    NoneKept(listing, Niqe.IsImageName);
  }

  /** A filter that keeps no element of its input gives the empty list. */
  lemma NoneKept(s: seq<string>, keep: string -> bool)
    requires forall x :: x in s ==> !keep(x)
    ensures Filter(s, keep) == []
  {
    if Filter(s, keep) != [] {
      assert Filter(s, keep)[0] in Filter(s, keep);
    }
  }
}
