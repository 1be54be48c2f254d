/**
  The string operations the start command applies to the incoming text: PHP's
  `trim`, the case-insensitive prefix test `stripos($text, $token) === 0`, and
  `explode('_', $text)` with its inverse `implode('_', ...)`.
 */
module Text {

  /** The characters PHP's `trim` removes by default. */
  predicate IsTrimSpace(c: char) {
    c == ' ' || c == '\t' || c == '\n' || c == '\r' || c == '\0' || c == '\U{000B}'
  }

  /** Removes the leading run of trim characters. */
  function TrimLeft(s: string): string {
    if s != [] && IsTrimSpace(s[0]) then TrimLeft(s[1..]) else s
  }

  /** Removes the trailing run of trim characters. */
  function TrimRight(s: string): string {
    if s != [] && IsTrimSpace(s[|s| - 1]) then TrimRight(s[..|s| - 1]) else s
  }

  /** PHP's `trim`: the text without its leading and trailing trim characters. */
  function Trim(s: string): string {
    TrimRight(TrimLeft(s))
  }

  /** `TrimLeft` drops exactly the leading trim characters: what it keeps is a suffix that starts with another character. */
  lemma {:induction false} TrimLeftSpec(s: string)
    ensures |TrimLeft(s)| <= |s| && TrimLeft(s) == s[|s| - |TrimLeft(s)|..]
    ensures forall i :: 0 <= i < |s| - |TrimLeft(s)| ==> IsTrimSpace(s[i])
    ensures TrimLeft(s) == [] || !IsTrimSpace(TrimLeft(s)[0])
  {
    if s != [] && IsTrimSpace(s[0]) {
      var t := s[1..];
      TrimLeftSpec(t);
      var n := |t| - |TrimLeft(t)|;
      assert TrimLeft(s) == TrimLeft(t);
      assert t[n..] == s[n + 1..];
      forall i | 0 <= i < n + 1
        ensures IsTrimSpace(s[i])
      {
        if i > 0 {
          assert s[i] == t[i - 1];
        }
      }
    }
  }

  /** `TrimRight` drops exactly the trailing trim characters: what it keeps is a prefix that ends with another character. */
  lemma {:induction false} TrimRightSpec(s: string)
    ensures |TrimRight(s)| <= |s| && TrimRight(s) == s[..|TrimRight(s)|]
    ensures forall i :: |TrimRight(s)| <= i < |s| ==> IsTrimSpace(s[i])
    ensures TrimRight(s) == [] || !IsTrimSpace(TrimRight(s)[|TrimRight(s)| - 1])
  {
    if s != [] && IsTrimSpace(s[|s| - 1]) {
      var t := s[..|s| - 1];
      TrimRightSpec(t);
      var n := |TrimRight(t)|;
      assert TrimRight(s) == TrimRight(t);
      assert t[..n] == s[..n];
      forall i | n <= i < |s|
        ensures IsTrimSpace(s[i])
      {
        if i < |s| - 1 {
          assert s[i] == t[i];
        }
      }
    }
  }

  /**
    `trim` keeps the middle of the text, from the first to the last character that
    is not a trim character, and removes only trim characters.
   */
  lemma {:induction false} TrimSpec(s: string)
    ensures var r, n := Trim(s), |s| - |TrimLeft(s)|;
      && 0 <= n && n + |r| <= |s| && r == s[n..n + |r|]
      && (forall i :: 0 <= i < n ==> IsTrimSpace(s[i]))
      && (forall i :: n + |r| <= i < |s| ==> IsTrimSpace(s[i]))
      && (r == [] || (!IsTrimSpace(r[0]) && !IsTrimSpace(r[|r| - 1])))
  {
    var l := TrimLeft(s);
    TrimLeftSpec(s);
    TrimRightSpec(l);
    var r := Trim(s);
    if r != [] {
      assert r[0] == l[0];
    }
  }

  /** Text that already has no trim characters at its ends is left as it is. */
  lemma {:induction false} TrimFixesTrimmed(s: string)
    requires s == [] || (!IsTrimSpace(s[0]) && !IsTrimSpace(s[|s| - 1]))
    ensures Trim(s) == s
  {
    assert TrimLeft(s) == s;
  }

  /** Trimming twice is trimming once. */
  lemma {:induction false} TrimIdempotent(s: string)
    ensures Trim(Trim(s)) == Trim(s)
  {
    TrimSpec(s);
    TrimFixesTrimmed(Trim(s));
  }

  /** ASCII lower-casing, as `stripos` compares. */
  function Lower(c: char): char {
    if 'A' <= c <= 'Z' then (c as int + 32) as char else c
  }

  /** `stripos(s, prefix) === 0`: `s` starts with `prefix`, ignoring ASCII case. */
  predicate StartsWithCI(s: string, prefix: string) {
    |prefix| <= |s| && forall i :: 0 <= i < |prefix| ==> Lower(s[i]) == Lower(prefix[i])
  }

  /** Two prefixes that differ, ignoring case, at a position both have cannot both start the same text. */
  lemma {:induction false} PrefixesClash(s: string, p: string, q: string, i: nat)
    requires i < |p| && i < |q| && Lower(p[i]) != Lower(q[i])
    ensures !(StartsWithCI(s, p) && StartsWithCI(s, q))
  {
  }

  /** Compared ignoring case with a non-letter, a character matches exactly when it is that character. */
  lemma {:induction false} LowerOfNonLetter(c: char, d: char)
    requires !('A' <= d <= 'Z') && !('a' <= d <= 'z')
    ensures Lower(c) == d <==> c == d
  {
  }

  /** The separator of `explode` in the start command. */
  const Sep: char := '_'

  /** The position of the first separator in `s`, or `|s|` when there is none. */
  function IndexOfSep(s: string): (k: nat)
    ensures k <= |s|
    ensures k < |s| ==> s[k] == Sep
    ensures forall i :: 0 <= i < k ==> s[i] != Sep
  {
    if s == [] || s[0] == Sep then 0 else 1 + IndexOfSep(s[1..])
  }

  /** The separator index is pinned down by a separator at `k` with none before it. */
  lemma {:induction false} IndexOfSepIs(s: string, k: nat)
    requires k <= |s| && (k < |s| ==> s[k] == Sep)
    requires forall i :: 0 <= i < k ==> s[i] != Sep
    ensures IndexOfSep(s) == k
  {
  }

  /** A case-insensitive prefix match keeps matching after both sides drop their first `n` characters. */
  lemma {:induction false} StartsWithCIDrop(s: string, prefix: string, n: nat)
    requires StartsWithCI(s, prefix) && n <= |prefix|
    ensures StartsWithCI(s[n..], prefix[n..])
  {
    forall i | 0 <= i < |prefix| - n
      ensures Lower(s[n..][i]) == Lower(prefix[n..][i])
    {
      assert s[n..][i] == s[n + i] && prefix[n..][i] == prefix[n + i];
    }
  }

  /** Text that starts with a prefix whose first separator is at `k`, ignoring case, has its first separator at `k` too. */
  lemma {:induction false} SepIndexCI(s: string, prefix: string, k: nat)
    requires StartsWithCI(s, prefix)
    requires k < |prefix| && prefix[k] == Sep && forall i :: 0 <= i < k ==> prefix[i] != Sep
    ensures IndexOfSep(s) == k
  {
    forall i | 0 <= i <= k
      ensures s[i] == Sep <==> prefix[i] == Sep
    {
      LowerOfNonLetter(s[i], Sep);
      LowerOfNonLetter(prefix[i], Sep);
    }
    IndexOfSepIs(s, k);
  }

  /** Past a prefix whose first separator is at `k`, the fields continue after that separator. */
  lemma {:induction false} SplitPastField(s: string, prefix: string, k: nat)
    requires StartsWithCI(s, prefix)
    requires k < |prefix| && prefix[k] == Sep && forall i :: 0 <= i < k ==> prefix[i] != Sep
    ensures k < |s| && Split(s)[1..] == Split(s[k + 1..])
  {
    SepIndexCI(s, prefix, k);
    SplitTail(s);
  }

  /**
    A text that starts, ignoring case, with a prefix holding exactly two separators,
    at `j` and `k`, has a third field: what follows the prefix up to the next separator.
   */
  lemma {:induction false} ThirdField(s: string, prefix: string, j: nat, k: nat)
    requires StartsWithCI(s, prefix)
    requires j < k < |prefix| && prefix[j] == Sep && prefix[k] == Sep
    requires forall i :: 0 <= i < k && i != j ==> prefix[i] != Sep
    ensures k < |s| && |Split(s)| > 2
    ensures Split(s)[2] == s[k + 1..][..IndexOfSep(s[k + 1..])]
  {
    SplitPastField(s, prefix, j);
    StartsWithCIDrop(s, prefix, j + 1);
    var s1, p1 := s[j + 1..], prefix[j + 1..];
    forall i | 0 <= i < k - j - 1
      ensures p1[i] != Sep
    {
      assert p1[i] == prefix[j + 1 + i];
    }
    SplitPastField(s1, p1, k - j - 1);
    var s2 := s[k + 1..];
    assert s1[k - j..] == s2;
    SplitFields(s2);
    SplitHead(s2);
    assert Split(s)[1..][1..] == Split(s2);
  }

  /** `explode('_', s)`: the fields between separators, in order. */
  function Split(s: string): seq<string>
    decreases |s|
  {
    var k := IndexOfSep(s);
    if k == |s| then [s] else [s[..k]] + Split(s[k + 1..])
  }

  /** `implode('_', fields)`. */
  function Join(fields: seq<string>): string
    requires |fields| >= 1
  {
    if |fields| == 1 then fields[0] else fields[0] + [Sep] + Join(fields[1..])
  }

  /** `explode` gives at least one field, and no field holds a separator. */
  lemma {:induction false} SplitFields(s: string)
    ensures |Split(s)| >= 1
    ensures forall i :: 0 <= i < |Split(s)| ==> Sep !in Split(s)[i]
    decreases |s|
  {
    var k := IndexOfSep(s);
    if k < |s| {
      SplitFields(s[k + 1..]);
      assert Sep !in s[..k];
    } else {
      assert Sep !in s;
    }
  }

  /** The first field of `explode` is the text up to the first separator. */
  lemma {:induction false} SplitHead(s: string)
    ensures Split(s)[0] == s[..IndexOfSep(s)]
  {
  }

  /** When `s` has a separator, its fields after the first are those of the rest of `s`. */
  lemma {:induction false} SplitTail(s: string)
    requires IndexOfSep(s) < |s|
    ensures Split(s)[1..] == Split(s[IndexOfSep(s) + 1..])
  {
    var k := IndexOfSep(s);
    var head, tail := [s[..k]], Split(s[k + 1..]);
    assert Split(s) == head + tail;
    assert (head + tail)[1..] == tail;
  }

  /** Joining the fields of `explode` gives back the text. */
  lemma {:induction false} JoinSplit(s: string)
    ensures |Split(s)| >= 1 && Join(Split(s)) == s
    decreases |s|
  {
    SplitFields(s);
    var k := IndexOfSep(s);
    if k < |s| {
      var rest := Split(s[k + 1..]);
      assert Split(s) == [s[..k]] + rest;
      calc {
        Join(Split(s));
        s[..k] + [Sep] + Join(rest);
        { JoinSplit(s[k + 1..]); }
        s[..k] + [Sep] + s[k + 1..];
        s;
      }
    }
  }

  /** Splitting a join of separator-free fields gives back the fields. */
  lemma {:induction false} SplitJoin(fields: seq<string>)
    requires |fields| >= 1
    requires forall i :: 0 <= i < |fields| ==> Sep !in fields[i]
    ensures Split(Join(fields)) == fields
    decreases |fields|
  {
    var s := Join(fields);
    if |fields| == 1 {
      NoSepIndex(fields[0]);
    } else {
      var rest := Join(fields[1..]);
      assert s == fields[0] + ([Sep] + rest);
      NoSepIndex(fields[0]);
      assert IndexOfSep([Sep] + rest) == 0;
      IndexOfSepAppend(fields[0], [Sep] + rest);
      assert IndexOfSep(s) == |fields[0]|;
      assert s[..|fields[0]|] == fields[0];
      assert s[|fields[0]| + 1..] == rest;
      SplitJoin(fields[1..]);
    }
  }

  /** A separator-free text has its separator index at its end. */
  lemma {:induction false} NoSepIndex(s: string)
    requires Sep !in s
    ensures IndexOfSep(s) == |s|
  {
    if s != [] {
      assert s[0] != Sep;
      assert Sep !in s[1..];
      NoSepIndex(s[1..]);
    }
  }

  /** A separator-free prefix is skipped by the search for the first separator. */
  lemma {:induction false} IndexOfSepAppend(a: string, b: string)
    requires Sep !in a
    ensures IndexOfSep(a + b) == |a| + IndexOfSep(b)
  {
    if a != [] {
      assert (a + b)[0] == a[0] && a[0] != Sep;
      assert (a + b)[1..] == a[1..] + b;
      assert Sep !in a[1..];
      IndexOfSepAppend(a[1..], b);
    } else {
      assert a + b == b;
    }
  }
}
