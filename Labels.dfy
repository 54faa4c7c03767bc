/**
 * The four label texts of the back end (backend/app.py) against the
 * substring tests the results page applies to them: each label includes
 * the class name of its own code and no other class name.
 */
module Labels {
  import JsText
  import Backend

  // Each label's own class name follows its glyph and a space.

  lemma FalsePositiveLabelIncludesName()
    ensures JsText.Includes("\U{274C} FALSE POSITIVE", "FALSE POSITIVE")
  {
    var s := "\U{274C} FALSE POSITIVE";
    assert s[2..] == "FALSE POSITIVE";
    JsText.IncludesAt(s, "FALSE POSITIVE", 2);
  }

  lemma CandidateLabelIncludesName()
    ensures JsText.Includes("\U{1F50D} CANDIDATE", "CANDIDATE")
  {
    var s := "\U{1F50D} CANDIDATE";
    assert s[2..] == "CANDIDATE";
    JsText.IncludesAt(s, "CANDIDATE", 2);
  }

  lemma ConfirmedLabelIncludesName()
    ensures JsText.Includes("\U{1F30D} CONFIRMED", "CONFIRMED")
  {
    var s := "\U{1F30D} CONFIRMED";
    assert s[2..] == "CONFIRMED";
    JsText.IncludesAt(s, "CONFIRMED", 2);
  }

  // A label lacks another class name: that name has a letter the label does not.

  lemma FalsePositiveLabelLacksConfirmed()
    ensures !JsText.Includes("\U{274C} FALSE POSITIVE", "CONFIRMED")
  {
    JsText.MissingCharNotIncluded("\U{274C} FALSE POSITIVE", "CONFIRMED", 'C');
  }

  lemma FalsePositiveLabelLacksCandidate()
    ensures !JsText.Includes("\U{274C} FALSE POSITIVE", "CANDIDATE")
  {
    JsText.MissingCharNotIncluded("\U{274C} FALSE POSITIVE", "CANDIDATE", 'C');
  }

  lemma CandidateLabelLacksConfirmed()
    ensures !JsText.Includes("\U{1F50D} CANDIDATE", "CONFIRMED")
  {
    JsText.MissingCharNotIncluded("\U{1F50D} CANDIDATE", "CONFIRMED", 'O');
  }

  lemma CandidateLabelLacksFalsePositive()
    ensures !JsText.Includes("\U{1F50D} CANDIDATE", "FALSE POSITIVE")
  {
    JsText.MissingCharNotIncluded("\U{1F50D} CANDIDATE", "FALSE POSITIVE", 'F');
  }

  lemma ConfirmedLabelLacksCandidate()
    ensures !JsText.Includes("\U{1F30D} CONFIRMED", "CANDIDATE")
  {
    JsText.MissingCharNotIncluded("\U{1F30D} CONFIRMED", "CANDIDATE", 'A');
  }

  lemma ConfirmedLabelLacksFalsePositive()
    ensures !JsText.Includes("\U{1F30D} CONFIRMED", "FALSE POSITIVE")
  {
    JsText.MissingCharNotIncluded("\U{1F30D} CONFIRMED", "FALSE POSITIVE", 'A');
  }

  lemma UnknownLabelLacksConfirmed()
    ensures !JsText.Includes("\U{2753} UNKNOWN", "CONFIRMED")
  {
    JsText.MissingCharNotIncluded("\U{2753} UNKNOWN", "CONFIRMED", 'C');
  }

  lemma UnknownLabelLacksCandidate()
    ensures !JsText.Includes("\U{2753} UNKNOWN", "CANDIDATE")
  {
    JsText.MissingCharNotIncluded("\U{2753} UNKNOWN", "CANDIDATE", 'C');
  }

  lemma UnknownLabelLacksFalsePositive()
    ensures !JsText.Includes("\U{2753} UNKNOWN", "FALSE POSITIVE")
  {
    JsText.MissingCharNotIncluded("\U{2753} UNKNOWN", "FALSE POSITIVE", 'F');
  }

  /** The back end's labels include the class name of their own code and of no other. */
  lemma LabelNames(c: int)
    ensures JsText.Includes(Backend.LabelOf(c), "CONFIRMED") <==> c == 2
    ensures JsText.Includes(Backend.LabelOf(c), "CANDIDATE") <==> c == 1
    ensures JsText.Includes(Backend.LabelOf(c), "FALSE POSITIVE") <==> c == 0
  {
    Backend.LabelsByCode(c);
    if c == 0 {
      FalsePositiveLabelIncludesName();
      FalsePositiveLabelLacksConfirmed();
      FalsePositiveLabelLacksCandidate();
    } else if c == 1 {
      CandidateLabelIncludesName();
      CandidateLabelLacksConfirmed();
      CandidateLabelLacksFalsePositive();
    } else if c == 2 {
      ConfirmedLabelIncludesName();
      ConfirmedLabelLacksCandidate();
      ConfirmedLabelLacksFalsePositive();
    } else {
      UnknownLabelLacksConfirmed();
      UnknownLabelLacksCandidate();
      UnknownLabelLacksFalsePositive();
    }
  }
}
