/** The Yes/No rule that three scripts apply to a model's reply. */
module Replies {
  import opened Sequences
  import opened Strings
  import opened Outcomes

  /** The label for a reply: "Yes" when the reply holds "Yes", "No" otherwise. */
  function YesNo(response: string): string {
    if Contains(response, "Yes") then "Yes" else "No"
  }

  /**
   * Only two labels come out, and "Yes" exactly when "Yes", with that capitalisation, occurs
   * somewhere in the reply.
   */
  lemma YesNoSpec(response: string)
    ensures YesNo(response) == "Yes" || YesNo(response) == "No"
    ensures YesNo(response) == "Yes" <==> exists i :: OccursAt(response, "Yes", i)
  {
    ContainsIff(response, "Yes");
  }

  /** A reply without a capital Y is labelled "No". */
  lemma NoCapitalYMeansNo(response: string)
    requires 'Y' !in response
    ensures YesNo(response) == "No"
  {
    ContainsIff(response, "Yes");
    forall i | 0 <= i < |response|
      ensures !OccursAt(response, "Yes", i)
    {
      if i + 3 <= |response| {
        assert response[i..i + 3][0] == response[i] != 'Y';
      }
    }
  }

  /** A reply that declines is labelled "No". */
  lemma ExampleDeclined()
    ensures YesNo("No, the image is clear.") == "No"
  {
    NoCapitalYMeansNo("No, the image is clear.");
  }

  /** The test is case-sensitive: a lower-case or upper-case reply is labelled "No". */
  lemma ExampleCaseSensitive()
    ensures YesNo("yes") == "No"
    ensures YesNo("YES") == "No"
  {
    NoCapitalYMeansNo("yes");
    ContainsIff("YES", "Yes");
    assert "YES"[0..3][1] != "Yes"[1];
  }

  /** The test is a substring test, not a word match: "Yes" anywhere in the reply counts. */
  lemma ExampleSubstring()
    ensures YesNo("Not sure. Yes") == "Yes"
  {
    var reply := "Not sure. Yes";
    assert reply[10..13] == "Yes";
    assert OccursAt(reply, "Yes", 10);
    ContainsIff(reply, "Yes");
  }

  /** A row of a two-column table: the image and its label ("Yes", "No" or "Error"). */
  datatype LabelRow = LabelRow(imageName: string, answer: string)
  {
    function Cells(): (cells: seq<string>)
      ensures |cells| == 2
    {
      [imageName, answer]
    }
  }

  /** The answer cell of a two-column row: the label on success, "Error" when the call raised. */
  function Answer(outcome: Outcome<string>): (r: string)
    ensures r == "Error" <==> outcome.Err?
    ensures outcome.Ok? ==> r == YesNo(outcome.value)
  {
    match outcome
    case Ok(response) => YesNo(response)
    case Err(_) => "Error"
  }
}
