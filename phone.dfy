/**
  Phone normalisation done by `setContact` before it stores a number: every
  character other than a digit or `+` is removed (`preg_replace('#[^\+0-9]#', '', ...)`),
  and `+` is put in front when the result does not already start with one.
 */
module Phone {

  predicate IsDigit(c: char) {
    '0' <= c <= '9'
  }

  /** The characters the regular expression `[^\+0-9]` does not match. */
  predicate IsPhoneChar(c: char) {
    c == '+' || IsDigit(c)
  }

  predicate IsPhoneString(s: string) {
    forall i :: 0 <= i < |s| ==> IsPhoneChar(s[i])
  }

  /** The `preg_replace` step: the digits and `+` signs of `s`, in their order. */
  function KeepPhoneChars(s: string): (r: string)
    ensures IsPhoneString(r)
    ensures |r| <= |s|
  {
    if s == [] then []
    else (if IsPhoneChar(s[0]) then [s[0]] else []) + KeepPhoneChars(s[1..])
  }

  /** The number `setContact` writes for the raw contact text `s`. */
  function NormalizePhone(s: string): (r: string)
    ensures |r| >= 1 && r[0] == '+'
    ensures IsPhoneString(r)
    ensures r == KeepPhoneChars(s) || r == "+" + KeepPhoneChars(s)
    ensures r == KeepPhoneChars(s) <==> KeepPhoneChars(s) != [] && KeepPhoneChars(s)[0] == '+'
  {
    var kept := KeepPhoneChars(s);
    if kept != [] && kept[0] == '+' then kept else "+" + kept
  }

  /** The digits of `s`, in their order. */
  function Digits(s: string): (r: string)
    ensures forall i :: 0 <= i < |r| ==> IsDigit(r[i])
  {
    if s == [] then []
    else (if IsDigit(s[0]) then [s[0]] else []) + Digits(s[1..])
  }

  /** Filtering distributes over concatenation: each character is kept or dropped on its own. */
  lemma {:induction false} KeepPhoneCharsAppend(s: string, t: string)
    ensures KeepPhoneChars(s + t) == KeepPhoneChars(s) + KeepPhoneChars(t)
  {
    if s == [] {
      assert s + t == t;
    } else {
      var head := if IsPhoneChar(s[0]) then [s[0]] else [];
      assert (s + t)[0] == s[0];
      assert (s + t)[1..] == s[1..] + t;
      calc {
        KeepPhoneChars(s + t);
        head + KeepPhoneChars(s[1..] + t);
        { KeepPhoneCharsAppend(s[1..], t); }
        head + (KeepPhoneChars(s[1..]) + KeepPhoneChars(t));
        (head + KeepPhoneChars(s[1..])) + KeepPhoneChars(t);
      }
    }
  }

  /** A string made only of digits and `+` passes the filter unchanged. */
  lemma {:induction false} KeepPhoneCharsFixesPhoneStrings(s: string)
    requires IsPhoneString(s)
    ensures KeepPhoneChars(s) == s
  {
    if s != [] {
      assert IsPhoneChar(s[0]);
      KeepPhoneCharsFixesPhoneStrings(s[1..]);
    }
  }

  /** Text the filter drops entirely, on either side of a number, leaves just the number. */
  lemma {:induction false} KeepPhoneCharsDropsNoise(pre: string, kept: string, post: string)
    requires KeepPhoneChars(pre) == [] && IsPhoneString(kept) && KeepPhoneChars(post) == []
    ensures KeepPhoneChars(pre + kept + post) == kept
  {
    KeepPhoneCharsAppend(pre, kept);
    KeepPhoneCharsAppend(pre + kept, post);
    KeepPhoneCharsFixesPhoneStrings(kept);
    assert [] + kept + [] == kept;
  }

  /** A character the filter drops leaves no trace; one it keeps is kept as it is. */
  lemma {:induction false} KeepPhoneCharsSingle(c: char)
    ensures KeepPhoneChars([c]) == if IsPhoneChar(c) then [c] else []
  {
    assert [c][1..] == [];
  }

  /** Filtering twice is filtering once. */
  lemma {:induction false} KeepPhoneCharsIdempotent(s: string)
    ensures KeepPhoneChars(KeepPhoneChars(s)) == KeepPhoneChars(s)
  {
    KeepPhoneCharsFixesPhoneStrings(KeepPhoneChars(s));
  }

  /** The filter keeps every digit of its input and adds none. */
  lemma {:induction false} KeepPhoneCharsKeepsDigits(s: string)
    ensures Digits(KeepPhoneChars(s)) == Digits(s)
  {
    if s != [] {
      KeepPhoneCharsKeepsDigits(s[1..]);
      var head := if IsPhoneChar(s[0]) then [s[0]] else [];
      DigitsAppend(head, KeepPhoneChars(s[1..]));
      if IsPhoneChar(s[0]) {
        assert [s[0]][1..] == [];
      }
    }
  }

  lemma {:induction false} DigitsAppend(s: string, t: string)
    ensures Digits(s + t) == Digits(s) + Digits(t)
  {
    if s == [] {
      assert s + t == t;
    } else {
      assert (s + t)[0] == s[0];
      assert (s + t)[1..] == s[1..] + t;
      DigitsAppend(s[1..], t);
    }
  }

  /** Normalising twice gives the same number as normalising once. */
  lemma {:induction false} NormalizePhoneIdempotent(s: string)
    ensures NormalizePhone(NormalizePhone(s)) == NormalizePhone(s)
  {
    var r := NormalizePhone(s);
    KeepPhoneCharsFixesPhoneStrings(r);
  }

  /**
    Normalising keeps the digits of the input, in order, and adds none; and it
    keeps every `+` of the input: the normalised number is the filtered input,
    with at most one `+` put in front.
   */
  lemma {:induction false} NormalizePhoneKeepsDigits(s: string)
    ensures Digits(NormalizePhone(s)) == Digits(s)
    ensures KeepPhoneChars(NormalizePhone(s)) == NormalizePhone(s)
  {
    var kept := KeepPhoneChars(s);
    KeepPhoneCharsKeepsDigits(s);
    KeepPhoneCharsFixesPhoneStrings(NormalizePhone(s));
    if !(kept != [] && kept[0] == '+') {
      DigitsAppend("+", kept);
      assert "+"[1..] == [];
    }
  }

  /** Normalisation is the identity on numbers already in the stored form. */
  lemma {:induction false} NormalizePhoneFixesStored(s: string)
    requires IsPhoneString(s) && |s| >= 1 && s[0] == '+'
    ensures NormalizePhone(s) == s
  {
    KeepPhoneCharsFixesPhoneStrings(s);
  }
}
