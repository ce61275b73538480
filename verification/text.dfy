/**
 * Character-level helpers used by the protocol: an ASCII model of Java's
 * `toLowerCase`, `toUpperCase` and `equalsIgnoreCase`, and the two ways the
 * server splits a line on ':'.
 */
module Text {

  /** Lower-cases an ASCII capital letter and keeps every other character. */
  function LowerChar(c: char): char {
    if 'A' <= c <= 'Z' then (c as int + 32) as char else c
  }

  /** Upper-cases an ASCII small letter and keeps every other character. */
  function UpperChar(c: char): char {
    if 'a' <= c <= 'z' then (c as int - 32) as char else c
  }

  /** `String.toLowerCase`, character by character. */
  function ToLower(s: string): string {
    seq(|s|, i requires 0 <= i < |s| => LowerChar(s[i]))
  }

  /** `String.toUpperCase`, character by character. */
  function ToUpper(s: string): string {
    seq(|s|, i requires 0 <= i < |s| => UpperChar(s[i]))
  }

  predicate IsLowerCase(s: string) {
    forall i :: 0 <= i < |s| ==> !('A' <= s[i] <= 'Z')
  }

  predicate IsUpperCase(s: string) {
    forall i :: 0 <= i < |s| ==> !('a' <= s[i] <= 'z')
  }

  /** The per-character test of `String.equalsIgnoreCase`: equal, or equal once
      both are upper-cased, or equal once both are lower-cased. */
  predicate SameCharIgnoringCase(a: char, b: char) {
    a == b || UpperChar(a) == UpperChar(b) || LowerChar(a) == LowerChar(b)
  }

  /** `String.equalsIgnoreCase`: same length and pairwise equal ignoring case. */
  predicate EqualsIgnoreCase(a: string, b: string) {
    |a| == |b| && forall i :: 0 <= i < |a| ==> SameCharIgnoringCase(a[i], b[i])
  }

  lemma SameCharIffSameLower(a: char, b: char)
    ensures SameCharIgnoringCase(a, b) <==> LowerChar(a) == LowerChar(b)
  {
  }

  /** Ignoring case is the same as comparing lower-cased copies, and the same as
      comparing upper-cased copies. */
  lemma EqualsIgnoreCaseIffSameFold(a: string, b: string)
    ensures EqualsIgnoreCase(a, b) <==> ToLower(a) == ToLower(b)
    ensures EqualsIgnoreCase(a, b) <==> ToUpper(a) == ToUpper(b)
  {
    if EqualsIgnoreCase(a, b) {
      forall i | 0 <= i < |a|
        ensures ToLower(a)[i] == ToLower(b)[i] && ToUpper(a)[i] == ToUpper(b)[i]
      {
        SameCharIffSameLower(a[i], b[i]);
      }
    }
    if ToLower(a) == ToLower(b) {
      forall i | 0 <= i < |a|
        ensures SameCharIgnoringCase(a[i], b[i])
      {
        assert ToLower(a)[i] == ToLower(b)[i];
      }
    }
    if ToUpper(a) == ToUpper(b) {
      forall i | 0 <= i < |a|
        ensures SameCharIgnoringCase(a[i], b[i])
      {
        assert ToUpper(a)[i] == ToUpper(b)[i];
      }
    }
  }

  /** `equalsIgnoreCase` is an equivalence relation. */
  lemma EqualsIgnoreCaseIsEquivalence(a: string, b: string, c: string)
    ensures EqualsIgnoreCase(a, a)
    ensures EqualsIgnoreCase(a, b) ==> EqualsIgnoreCase(b, a)
    ensures EqualsIgnoreCase(a, b) && EqualsIgnoreCase(b, c) ==> EqualsIgnoreCase(a, c)
  {
    EqualsIgnoreCaseIffSameFold(a, b);
    EqualsIgnoreCaseIffSameFold(b, a);
    EqualsIgnoreCaseIffSameFold(b, c);
    EqualsIgnoreCaseIffSameFold(a, c);
  }

  /** Lower-casing yields a lower-case string that still equals the input
      ignoring case, and lower-casing twice changes nothing. */
  lemma ToLowerFolds(s: string)
    ensures IsLowerCase(ToLower(s))
    ensures EqualsIgnoreCase(ToLower(s), s)
    ensures ToLower(ToLower(s)) == ToLower(s)
  {
  }

  /** Upper-casing yields an upper-case string that still equals the input
      ignoring case, and upper-casing twice changes nothing. */
  lemma ToUpperFolds(s: string)
    ensures IsUpperCase(ToUpper(s))
    ensures EqualsIgnoreCase(ToUpper(s), s)
    ensures ToUpper(ToUpper(s)) == ToUpper(s)
  {
  }

  /** A string with no capital letters is its own lower-case form. */
  lemma LowerCaseIsFixed(s: string)
    requires IsLowerCase(s)
    ensures ToLower(s) == s
  {
  }

  /** A string with no small letters is its own upper-case form. */
  lemma UpperCaseIsFixed(s: string)
    requires IsUpperCase(s)
    ensures ToUpper(s) == s
  {
  }

  // ---------------------------------------------------------------------
  // Splitting on a separator
  // ---------------------------------------------------------------------

  /** `s.split(":", -1)`: every field between separators, empty ones included. */
  function Fields(s: string, sep: char): (parts: seq<string>)
    ensures |parts| >= 1
    ensures forall i :: 0 <= i < |parts| ==> sep !in parts[i]
    ensures |parts| == 1 <==> sep !in s
    decreases |s|
  {
    if |s| == 0 then [""]
    else
      var rest := Fields(s[1..], sep);
      if s[0] == sep then [""] + rest
      else [[s[0]] + rest[0]] + rest[1..]
  }

  /** Puts the fields back together with the separator between them. */
  function Join(parts: seq<string>, sep: char): string
    requires |parts| >= 1
    decreases |parts|
  {
    if |parts| == 1 then parts[0] else parts[0] + [sep] + Join(parts[1..], sep)
  }

  /** Splitting loses nothing: joining the fields gives the line back. */
  lemma {:induction false} JoinFields(s: string, sep: char)
    ensures Join(Fields(s, sep), sep) == s
    decreases |s|
  {
    if |s| > 0 {
      var rest := Fields(s[1..], sep);
      JoinFields(s[1..], sep);
      if s[0] == sep {
        assert Fields(s, sep)[1..] == rest;
      } else {
        var parts := Fields(s, sep);
        if |rest| == 1 {
          assert parts == [[s[0]] + rest[0]];
        } else {
          assert parts[1..] == rest[1..];
          assert Join(rest, sep) == rest[0] + [sep] + Join(rest[1..], sep);
        }
        assert s == [s[0]] + s[1..];
      }
    }
  }

  /** Joining fields that hold no separator and splitting again gives the fields back. */
  lemma {:induction false} FieldsJoin(parts: seq<string>, sep: char)
    requires |parts| >= 1
    requires forall i :: 0 <= i < |parts| ==> sep !in parts[i]
    ensures Fields(Join(parts, sep), sep) == parts
    decreases |parts|, |parts[0]|
  {
    var s := Join(parts, sep);
    if |parts[0]| == 0 {
      if |parts| > 1 {
        assert s == [sep] + Join(parts[1..], sep);
        assert s[1..] == Join(parts[1..], sep);
        FieldsJoin(parts[1..], sep);
        assert Fields(s, sep) == [""] + parts[1..];
      }
    } else {
      var shorter := [parts[0][1..]] + parts[1..];
      assert forall i :: 0 <= i < |shorter| ==> sep !in shorter[i] by {
        forall i | 0 <= i < |shorter| ensures sep !in shorter[i] {
          if i == 0 {
            assert forall x :: x in parts[0][1..] ==> x in parts[0];
          } else {
            assert shorter[i] == parts[i];
          }
        }
      }
      FieldsJoin(shorter, sep);
      assert parts[0] == [parts[0][0]] + parts[0][1..];
      if |parts| == 1 {
        assert s == parts[0];
      } else {
        assert Join(shorter, sep) == parts[0][1..] + [sep] + Join(parts[1..], sep);
      }
      assert s[1..] == Join(shorter, sep);
      assert s[0] == parts[0][0] && s[0] != sep;
      assert Fields(s, sep) == [[parts[0][0]] + shorter[0]] + shorter[1..];
    }
  }

  /** Drops the empty strings at the end of a field list. */
  function DropTrailingEmpty(parts: seq<string>): (kept: seq<string>)
    ensures |kept| <= |parts| && kept == parts[..|kept|]
    ensures |kept| > 0 ==> kept[|kept| - 1] != ""
    ensures forall i :: |kept| <= i < |parts| ==> parts[i] == ""
  {
    if |parts| == 0 then []
    else if parts[|parts| - 1] == "" then DropTrailingEmpty(parts[..|parts| - 1])
    else parts
  }

  /** `s.split(":")`: like `Fields`, but trailing empty fields are removed,
      except that a line without any separator is returned whole (so the empty
      line yields one empty field and ":" yields none). */
  function Tokens(s: string, sep: char): (tokens: seq<string>)
    ensures sep !in s ==> tokens == [s]
    ensures |tokens| <= |Fields(s, sep)|
    ensures forall i :: 0 <= i < |tokens| ==> tokens[i] == Fields(s, sep)[i]
    ensures forall i :: |tokens| <= i < |Fields(s, sep)| ==> Fields(s, sep)[i] == ""
    ensures sep in s && |tokens| > 0 ==> tokens[|tokens| - 1] != ""
  {
    if sep !in s then JoinFields(s, sep); [s] else DropTrailingEmpty(Fields(s, sep))
  }
}
