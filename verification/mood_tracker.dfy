/** The daily mood check-in card: the student picks one of five moods, saves it, and may
    start over. */
module MoodCheckIn {
  import opened Options

  datatype MoodOption = MoodOption(value: int, text: string)

  /** The five choices, best first. */
  const MoodOptions: seq<MoodOption> := [
    MoodOption(5, "Great"),
    MoodOption(4, "Good"),
    MoodOption(3, "Okay"),
    MoodOption(2, "Low"),
    MoodOption(1, "Very Low")
  ]

  function Values(options: seq<MoodOption>): (r: seq<int>)
    ensures |r| == |options| && forall i :: 0 <= i < |options| ==> r[i] == options[i].value
  {
    if options == [] then [] else [options[0].value] + Values(options[1..])
  }

  /** The choices carry the values 1 to 5, each once, listed from 5 down to 1. */
  lemma MoodOptionValues()
    ensures var vs := Values(MoodOptions);
      (forall i, j :: 0 <= i < j < |vs| ==> vs[i] > vs[j]) &&
      (set i | 0 <= i < |vs| :: vs[i]) == {1, 2, 3, 4, 5}
  {
    var vs := Values(MoodOptions);
    assert vs == [5, 4, 3, 2, 1];
    assert vs[0] == 5 && vs[1] == 4 && vs[2] == 3 && vs[3] == 2 && vs[4] == 1;
  }

  /** The card's state. A saved check-in always has a mood. */
  class MoodTracker {
    var selectedMood: Option<int>
    var isSubmitted: bool

    ghost predicate Valid()
      reads this
    {
      isSubmitted ==> selectedMood.Some?
    }

    constructor ()
      ensures Valid() && selectedMood == None && !isSubmitted
    {
      selectedMood := None;
      isSubmitted := false;
    }

    /** `handleMoodSelect`. */
    method SelectMood(value: int)
      requires Valid()
      modifies this
      ensures Valid()
      ensures selectedMood == Some(value) && isSubmitted == old(isSubmitted)
    {
      selectedMood := Some(value);
    }

    /** `handleSubmit`: saves only when a mood is selected. Pressing the disabled button
        would change nothing, and pressing the enabled one saves the check-in. */
    method Submit()
      requires Valid()
      modifies this
      ensures Valid()
      ensures selectedMood == old(selectedMood)
      ensures isSubmitted == (old(isSubmitted) || old(selectedMood).Some?)
      ensures old(SubmitDisabled()) ==> selectedMood == old(selectedMood) && isSubmitted == old(isSubmitted)
      ensures !old(SubmitDisabled()) ==> isSubmitted
    {
      if selectedMood.Some? {
        isSubmitted := true;
      }
    }

    /** `handleReset`: back to the initial state. */
    method Reset()
      requires Valid()
      modifies this
      ensures Valid() && selectedMood == None && !isSubmitted
    {
      selectedMood := None;
      isSubmitted := false;
    }

    /** The save button, shown on a card not yet submitted, is disabled exactly when no mood
        is selected; a disabled button is therefore never on a submitted card. */
    function SubmitDisabled(): (r: bool)
      reads this
      requires Valid()
      ensures r <==> selectedMood.None?
      ensures r ==> !isSubmitted
    {
      selectedMood == None
    }
  }
}
