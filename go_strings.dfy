/**
  An ASCII model of Go's `strings.Title`, the case transform that the market
  query binder applies to every query key other than its one alias.

  `strings.Title` walks the string keeping the previous character (initially a
  space) and title-cases every character whose predecessor is a separator.
  Only ASCII is modelled: a non-ASCII character is never a separator here and
  is never changed.
*/
module GoStrings {

  /** ASCII letters, digits and '_' are not separators; every other ASCII character is. */
  predicate IsSeparator(c: char) {
    c as int < 128 && !(('0' <= c <= '9') || ('a' <= c <= 'z') || ('A' <= c <= 'Z') || c == '_')
  }

  predicate IsLower(c: char) {
    'a' <= c <= 'z'
  }

  /** `unicode.ToTitle` on ASCII: a lower-case letter becomes upper case, all else is kept. */
  function ToTitle(c: char): (u: char)
    ensures IsLower(c) ==> 'A' <= u <= 'Z' && u as int + 32 == c as int
    ensures !IsLower(c) ==> u == c
  {
    if IsLower(c) then (c as int - 32) as char else c
  }

  /** `strings.Title` with the previous character `prev` made explicit. */
  function TitleFrom(prev: char, s: string): (r: string)
    ensures |r| == |s|
    decreases |s|
  {
    if s == [] then []
    else [if IsSeparator(prev) then ToTitle(s[0]) else s[0]] + TitleFrom(s[0], s[1..])
  }

  /** `strings.Title(s)`: Go starts the walk with a space as the previous character. */
  function Title(s: string): (t: string)
    ensures |t| == |s|
    ensures s != [] ==> t[0] == ToTitle(s[0])
  {
    TitleFrom(' ', s)
  }

  /** Title-casing a character never changes whether it is a separator. */
  lemma ToTitleKeepsClass(c: char)
    ensures IsSeparator(ToTitle(c)) == IsSeparator(c)
  {
  }

  lemma {:induction false} TitleFromAt(prev: char, s: string, i: nat)
    requires i < |s|
    ensures TitleFrom(prev, s)[i] ==
      if (if i == 0 then IsSeparator(prev) else IsSeparator(s[i - 1])) then ToTitle(s[i]) else s[i]
    decreases |s|
  {
    if i > 0 {
      TitleFromAt(s[0], s[1..], i - 1);
    }
  }

  /**
    Pointwise meaning of `Title`: the result has the input's length, and position `i`
    is title-cased exactly when it is the first character or follows a separator;
    every other character is copied unchanged.
  */
  lemma TitleAt(s: string, i: nat)
    requires i < |s|
    ensures |Title(s)| == |s|
    ensures Title(s)[i] == if i == 0 || IsSeparator(s[i - 1]) then ToTitle(s[i]) else s[i]
  {
    TitleFromAt(' ', s, i);
  }

  /** `Title` only ever upper-cases letters: every position keeps its character or its title case. */
  lemma TitleOnlyUppercases(s: string, i: nat)
    requires i < |s|
    ensures |Title(s)| == |s|
    ensures Title(s)[i] == s[i] || (IsLower(s[i]) && Title(s)[i] == ToTitle(s[i]))
    ensures IsSeparator(Title(s)[i]) == IsSeparator(s[i])
  {
    TitleAt(s, i);
    ToTitleKeepsClass(s[i]);
  }

  /** A non-empty string without separators: the shape of a Go struct field name. */
  predicate IsWord(t: string) {
    t != [] && forall i :: 0 <= i < |t| ==> !IsSeparator(t[i])
  }

  /**
    The keys that `Title` maps onto a word `t` are exactly those that agree with `t`
    after the first character and whose first character title-cases to `t[0]`:
    `Title` reaches nothing beyond an initial capital.
  */
  lemma TitlePreimage(k: string, t: string)
    requires IsWord(t)
    ensures Title(k) == t <==> |k| == |t| && ToTitle(k[0]) == t[0] && k[1..] == t[1..]
  {
    if Title(k) == t {
      TitleAt(k, 0);
      forall i | 1 <= i < |k|
        ensures k[i] == t[i]
      {
        TitleOnlyUppercases(k, i - 1);
        TitleAt(k, i);
      }
    }
    if |k| == |t| && ToTitle(k[0]) == t[0] && k[1..] == t[1..] {
      forall i | 0 <= i < |k|
        ensures Title(k)[i] == t[i]
      {
        TitleAt(k, i);
        if i == 1 {
          ToTitleKeepsClass(k[0]);
        } else if i > 1 {
          assert k[i - 1] == k[1..][i - 2] == t[i - 1];
          assert k[i] == k[1..][i - 1];
        } else {
        }
        if i >= 1 {
          assert k[i] == k[1..][i - 1];
        }
      }
    }
  }
}
