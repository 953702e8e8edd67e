/**
 * The `--refresh-time` argument check of the news crawler's command line:
 * the text must be an integer as Python's `int` reads it, and not negative.
 */
module RefreshTime {
  import opened Wrappers
  import opened PyText

  /** The default value of `--refresh-time`, in seconds, as the command line gives it. */
  const DEFAULT_REFRESH_TIME: string := "60"

  /** The message of the `ArgumentTypeError` raised for every rejected value. */
  const REFRESH_TIME_ERROR: string := "Refresh time must be a positive integer."

  /**
   * `prepare_refresh_time`: an `Err` stands for the `ArgumentTypeError`.
   * Zero passes, although the message speaks of a positive integer.
   */
  function PrepareRefreshTime(raw: string): (r: Result<int, string>)
    ensures r.Ok? <==> ParseInt(raw).Some? && ParseInt(raw).value >= 0
    ensures r.Ok? ==> r.value >= 0 && ParseInt(raw) == Some(r.value)
    ensures r.Err? ==> r.error == REFRESH_TIME_ERROR
  {
    match ParseInt(raw)
    case None => Err(REFRESH_TIME_ERROR)
    case Some(n) => if n < 0 then Err(REFRESH_TIME_ERROR) else Ok(n)
  }

  /** Every non-negative number written in decimal is accepted and read back unchanged. */
  lemma AcceptsEveryNatural(n: nat)
    ensures PrepareRefreshTime(IntToText(n)) == Ok(n)
  {
    IntToTextRoundTrip(n);
  }

  /** Every negative number written in decimal is rejected with the one message. */
  lemma RejectsEveryNegative(n: int)
    requires n < 0
    ensures PrepareRefreshTime(IntToText(n)) == Err(REFRESH_TIME_ERROR)
  {
    IntToTextRoundTrip(n);
  }

  /** Zero is accepted. */
  lemma ZeroAccepted()
    ensures PrepareRefreshTime("0") == Ok(0)
  {
    AcceptsEveryNatural(0);
    assert IntToText(0) == "0";
  }

  /** The default value gives sixty seconds. */
  lemma DefaultAccepted()
    ensures PrepareRefreshTime(DEFAULT_REFRESH_TIME) == Ok(60)
  {
    SixtyText();
    AcceptsEveryNatural(60);
  }

  /**
   * `int` skips only ASCII and non-ASCII spaces around the digits, not the
   * separators U+001C to U+001F that `strip` removes: a leading U+001C is refused.
   */
  lemma SeparatorRejected()
    ensures PrepareRefreshTime("\U{1c}60") == Err(REFRESH_TIME_ERROR)
  {
    var t := "\U{1c}60";
    assert IntStrip(t) == t by {
      assert IntLStrip(t) == t;
      assert IntRStrip(t) == t;
    }
    assert !IsDigit(t[0]);
  }

  lemma SixtyText()
    ensures IntToText(60) == DEFAULT_REFRESH_TIME
  {
    assert NatToText(6) == "6";
  }
}
