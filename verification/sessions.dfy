/**
 Concrete sessions of the editor: two adds followed by a value edit, and a
 rejected blank submission.
 */
module Sessions {
  import opened Params
  import opened Whitespace
  import opened Editor

  /** The first add on an empty editor gets id 1. */
  lemma AddTimeout()
    ensures Step(Init([]), Submitted("timeout", "30")) == State([Param(1, "timeout", "30")], 2, None)
  {
    assert !IsBlank("timeout") && !IsBlank("30") by {
      assert !IsWhiteSpace("timeout"[0]) && !IsWhiteSpace("30"[0]);
    }
  }

  /** The second add is appended after the first with id 2. */
  lemma AddRetries()
    ensures Step(State([Param(1, "timeout", "30")], 2, None), Submitted("retries", "3"))
         == State([Param(1, "timeout", "30"), Param(2, "retries", "3")], 3, None)
  {
    assert !IsBlank("retries") && !IsBlank("3") by {
      assert !IsWhiteSpace("retries"[0]) && !IsWhiteSpace("3"[0]);
    }
  }

  /** Typing into the row with id 1 changes only that row's value. */
  lemma EditTimeout()
    ensures Step(State([Param(1, "timeout", "30"), Param(2, "retries", "3")], 3, None), Typed(1, "60"))
         == State([Param(1, "timeout", "60"), Param(2, "retries", "3")], 3, None)
  {
    var r := UpdateParamValue(State([Param(1, "timeout", "30"), Param(2, "retries", "3")], 3, None), 1, "60");
    assert r.params[0] == Param(1, "timeout", "60");
    assert r.params[1] == Param(2, "retries", "3");
  }

  /** Two adds and an edit, from an empty editor. */
  lemma ExampleSession()
    ensures Run(Init([]), [Submitted("timeout", "30"), Submitted("retries", "3"), Typed(1, "60")]).params
         == [Param(1, "timeout", "60"), Param(2, "retries", "3")]
  {
    var es := [Submitted("timeout", "30"), Submitted("retries", "3"), Typed(1, "60")];
    AddTimeout();
    AddRetries();
    EditTimeout();
    assert es[1..] == [Submitted("retries", "3"), Typed(1, "60")];
    assert es[1..][1..] == [Typed(1, "60")];
  }

  /** A submission whose name is only white space is discarded. */
  lemma BlankSubmissionDiscarded(s: State)
    ensures Submit(s, " \t", "x") == s
  {
    assert IsBlank(" \t");
  }
}
