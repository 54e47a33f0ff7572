/** The texts with which a code check reports its errors, and what the use case makes of them by looking
    for words in them. */
module CheckErrors {
  import opened TypedStore

  const READ_PREFIX := "read otp: "

  /** `cause` is the text of the cache's own error. */
  function ErrorText(v: Verdict, cause: string): string
    requires !v.Accepted?
  {
    match v
    case Missing => "otp not found or expired"
    case Unreadable => READ_PREFIX + cause
    case LockedOut => "max retry exceeded"
    case LastGuess => "max retry exceeded"
    case WrongGuess => "invalid otp"
  }

  /** What the user is told. */
  datatype Report = TooManyTries | Expired | WrongCode | Other(text: string)

  predicate Within(part: string, text: string, i: int) {
    0 <= i <= |text| - |part| && text[i..i + |part|] == part
  }

  predicate Contains(text: string, part: string) {
    exists i :: 0 <= i <= |text| && Within(part, text, i)
  }

  function Classify(text: string): Report {
    if Contains(text, "max retry exceeded") then TooManyTries
    else if Contains(text, "not found") || Contains(text, "expired") then Expired
    else if Contains(text, "invalid") then WrongCode
    else Other(text)
  }

  /** What the verdict means. */
  function Meant(v: Verdict, cause: string): Report
    requires !v.Accepted?
  {
    match v
    case Missing => Expired
    case Unreadable => Other(READ_PREFIX + cause)
    case LockedOut => TooManyTries
    case LastGuess => TooManyTries
    case WrongGuess => WrongCode
  }

  /** One of the words looked for stands in the cache's own error. */
  predicate Misleading(cause: string) {
    Contains(cause, "max retry exceeded") || Contains(cause, "not found") || Contains(cause, "expired") ||
    Contains(cause, "invalid")
  }

  lemma Lacks(text: string, part: string, i: nat)
    requires i < |part| && part[i] !in text
    ensures !Contains(text, part)
  {
    forall j | 0 <= j <= |text| - |part|
      ensures !Within(part, text, j)
    {
      assert text[j..j + |part|][i] == text[j + i];
    }
  }

  lemma Straddles(text: string, part: string, i: nat)
    requires part != "" && part[0] != ' ' && ':' !in part && READ_PREFIX <= text
    requires i < |READ_PREFIX| < i + |part| <= |text|
    ensures !Within(part, text, i)
  {
    if i == 9 {
      assert text[i..i + |part|][0] == text[9] == ' ';
    } else {
      assert text[i..i + |part|][8 - i] == text[8] == ':';
    }
  }

  /** A word without colon and without leading space does not reach into the prefix. */
  lemma PastPrefix(cause: string, part: string)
    requires part != "" && part[0] != ' ' && ':' !in part && !Contains(READ_PREFIX, part)
    ensures Contains(READ_PREFIX + cause, part) <==> Contains(cause, part)
  {
    var text, p := READ_PREFIX + cause, |READ_PREFIX|;
    if Contains(cause, part) {
      var i :| 0 <= i <= |cause| && Within(part, cause, i);
      assert text[p + i..p + i + |part|] == part;
      assert Within(part, text, p + i);
    }
    if Contains(text, part) {
      var i :| 0 <= i <= |text| && Within(part, text, i);
      if i >= p {
        assert cause[i - p..i - p + |part|] == part;
        assert Within(part, cause, i - p);
      } else if i + |part| <= p {
        assert READ_PREFIX[i..i + |part|] == text[i..i + |part|];
        assert Within(part, READ_PREFIX, i);
      } else {
        Straddles(text, part, i);
      }
    }
  }

  /** What the user is told after a failed read. */
  function ReadReport(cause: string): Report {
    if Contains(cause, "max retry exceeded") then TooManyTries
    else if Contains(cause, "not found") || Contains(cause, "expired") then Expired
    else if Contains(cause, "invalid") then WrongCode
    else Other("read otp: " + cause)
  }

  lemma ReadErrors(cause: string)
    ensures Misleading(READ_PREFIX + cause) <==> Misleading(cause)
    ensures Classify(READ_PREFIX + cause) == ReadReport(cause)
  {
    Lacks(READ_PREFIX, "max retry exceeded", 0);
    Lacks(READ_PREFIX, "not found", 0);
    Lacks(READ_PREFIX, "expired", 1);
    Lacks(READ_PREFIX, "invalid", 0);
    PastPrefix(cause, "max retry exceeded");
    PastPrefix(cause, "not found");
    PastPrefix(cause, "expired");
    PastPrefix(cause, "invalid");
  }

  lemma OwnErrors(v: Verdict, cause: string)
    requires !v.Accepted? && !v.Unreadable?
    ensures Classify(ErrorText(v, cause)) == Meant(v, cause)
  {
    assert Within("max retry exceeded", "max retry exceeded", 0);
    assert Within("not found", "otp not found or expired", 4);
    assert Within("invalid", "invalid otp", 0);
    Lacks("otp not found or expired", "max retry exceeded", 0);
    Lacks("invalid otp", "max retry exceeded", 0);
    Lacks("invalid otp", "not found", 4);
    Lacks("invalid otp", "expired", 0);
  }

  /** The user is told what the check found, except exactly when the read itself failed and the cache's own
      error holds one of the words looked for: too many tries at the fifth wrong guess and after it, expired if there
      is no code, wrong code at an earlier wrong guess. */
  lemma ClassifiedExactly(v: Verdict, cause: string)
    requires !v.Accepted?
    ensures v.LockedOut? || v.LastGuess? ==> Classify(ErrorText(v, cause)) == TooManyTries
    ensures v.Missing? ==> Classify(ErrorText(v, cause)) == Expired
    ensures v.WrongGuess? ==> Classify(ErrorText(v, cause)) == WrongCode
    ensures v.Unreadable? ==> Classify(ErrorText(v, cause)) == ReadReport(cause)
    ensures Classify(ErrorText(v, cause)) == Meant(v, cause) <==> !(v.Unreadable? && Misleading(cause))
  {
    if v.Unreadable? {
      ReadErrors(cause);
    } else {
      OwnErrors(v, cause);
    }
  }
}
