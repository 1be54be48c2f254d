/**
  Worked examples of phone normalisation: a bare number, an inner `+`, a stored number and a formatted one.
  Each example takes its input as a parameter fixed by its `requires`, which keeps the literal out of the
  verifier's context until the proof needs it.
 */
module PhoneExamples {
  import opened Phone

  /** Example: a `+` is put in front of a bare number. */
  lemma {:induction false} NormalizePhoneBareExample(bare: string)
    requires bare == "1234567890"
    ensures NormalizePhone(bare) == "+1234567890"
  {
    KeepPhoneCharsFixesPhoneStrings(bare);
  }

  /** Example: a `+` inside the number survives, and another is put in front. */
  lemma {:induction false} NormalizePhoneInnerPlusExample(inner: string)
    requires inner == "99+8"
    ensures NormalizePhone(inner) == "+99+8"
  {
    KeepPhoneCharsFixesPhoneStrings(inner);
  }

  /** Example: a number already in the stored form, and the empty text. */
  lemma {:induction false} NormalizePhoneStoredExample(stored: string)
    requires stored == "+998901234567"
    ensures NormalizePhone(stored) == stored
    ensures NormalizePhone("") == "+"
  {
    NormalizePhoneFixesStored(stored);
  }

  /** The filter drops the brackets, spaces and dashes of a formatted number. */
  lemma {:induction false} FormattingDropped()
    ensures KeepPhoneChars(" (") == [] && KeepPhoneChars(")") == []
    ensures KeepPhoneChars(" ") == [] && KeepPhoneChars("-") == []
  {
  }

  /** The filter on the front of a formatted number: the country code and the bracketed area code. */
  lemma {:induction false} FormattedFront(a: string, b: string)
    requires a == "+1 (" && b == "234)"
    ensures KeepPhoneChars(a) == "+1" && KeepPhoneChars(b) == "234"
  {
    assert a == [] + "+1" + " (" && b == [] + "234" + ")";
    FormattingDropped();
    KeepPhoneCharsDropsNoise([], "+1", " (");
    KeepPhoneCharsDropsNoise([], "234", ")");
  }

  /** The filter on the back of a formatted number: the groups after a space and a dash. */
  lemma {:induction false} FormattedBack(c: string, d: string)
    requires c == " 567" && d == "-8900"
    ensures KeepPhoneChars(c) == "567" && KeepPhoneChars(d) == "8900"
  {
    assert c == " " + "567" + [] && d == "-" + "8900" + [];
    FormattingDropped();
    KeepPhoneCharsDropsNoise(" ", "567", []);
    KeepPhoneCharsDropsNoise("-", "8900", []);
  }

  /** The filter on the whole formatted number, piece by piece. */
  lemma {:induction false} FormattedPieces(a: string, b: string, c: string, d: string)
    requires a == "+1 (" && b == "234)" && c == " 567" && d == "-8900"
    ensures KeepPhoneChars(a + (b + (c + d))) == "+1" + ("234" + ("567" + "8900"))
  {
    FormattedFront(a, b);
    FormattedBack(c, d);
    KeepPhoneCharsAppend(c, d);
    KeepPhoneCharsAppend(b, c + d);
    KeepPhoneCharsAppend(a, b + (c + d));
  }

  /** Example: spaces, brackets and dashes are dropped from a formatted number. */
  lemma {:induction false} NormalizePhoneFormattedExample(s: string)
    requires s == "+1 (234) 567-8900"
    ensures NormalizePhone(s) == "+12345678900"
  {
    var a, b, c, d := "+1 (", "234)", " 567", "-8900";
    assert s == a + (b + (c + d));
    FormattedPieces(a, b, c, d);
    assert "+1" + ("234" + ("567" + "8900")) == "+12345678900";
  }
}
