/** The handful of JavaScript string operations the core relies on, written out on `seq<char>`. */
module Strings {

  /** The `\s` character class, read as ASCII whitespace: space, tab, LF, VT, FF, CR. */
  predicate IsSpace(c: char)
  {
    c == ' ' || c == '\t' || c == '\n' || c == '\U{B}' || c == '\U{C}' || c == '\r'
  }

  /** No character of `s` is whitespace. */
  predicate NoSpace(s: string)
  {
    forall k :: 0 <= k < |s| ==> !IsSpace(s[k])
  }

  /** `pat` occurs in `s` starting at index `i`. */
  ghost predicate OccursAt(s: string, pat: string, i: nat)
  {
    i + |pat| <= |s| && s[i..i + |pat|] == pat
  }

  /** `String.prototype.includes`: `pat` occurs somewhere in `s`. */
  function Contains(s: string, pat: string): (r: bool)
    ensures r <==> exists i: nat :: OccursAt(s, pat, i)
  {
    if pat <= s then
      assert OccursAt(s, pat, 0);
      true
    else if s == [] then
      assert forall i: nat :: !OccursAt(s, pat, i);
      false
    else
      var rest := Contains(s[1..], pat);
      assert forall i: nat :: OccursAt(s[1..], pat, i) <==> OccursAt(s, pat, i + 1) by {
        forall i: nat ensures OccursAt(s[1..], pat, i) <==> OccursAt(s, pat, i + 1) {
          if i + |pat| <= |s[1..]| {
            assert s[1..][i..i + |pat|] == s[i + 1..i + 1 + |pat|];
          }
        }
      }
      assert !OccursAt(s, pat, 0);
      assert forall i: nat :: OccursAt(s, pat, i) ==> i > 0 && OccursAt(s[1..], pat, i - 1);
      rest
  }

  /** `i` is the first index at which `pat` occurs in `s`. */
  ghost predicate FirstOccurrence(s: string, pat: string, i: nat)
  {
    OccursAt(s, pat, i) && forall j: nat :: j < i ==> !OccursAt(s, pat, j)
  }

  /**
   * `s.replace(pat, rep)` with a string pattern: only the FIRST occurrence of `pat`
   * is replaced, wherever it stands (see ReplaceFirstAt); a string without `pat` is
   * returned unchanged.
   */
  function ReplaceFirst(s: string, pat: string, rep: string): (r: string)
    ensures pat <= s ==> r == rep + s[|pat|..]
  {
    if pat <= s then rep + s[|pat|..]
    else if s == [] then s
    else [s[0]] + ReplaceFirst(s[1..], pat, rep)
  }

  /** A string that does not contain `pat` comes back unchanged. */
  lemma {:induction false} ReplaceFirstAbsent(s: string, pat: string, rep: string)
    requires !Contains(s, pat)
    ensures ReplaceFirst(s, pat, rep) == s
  {
    if s != [] {
      assert !(pat <= s) by { assert OccursAt(s, pat, 0) ==> Contains(s, pat); }
      assert !Contains(s[1..], pat) by {
        forall i: nat | OccursAt(s[1..], pat, i) ensures false {
          OccursAtTail(s, pat, i);
        }
      }
      ReplaceFirstAbsent(s[1..], pat, rep);
    }
  }

  /** Shifting the string by one character shifts every occurrence by one. */
  lemma OccursAtTail(s: string, pat: string, i: nat)
    requires s != []
    ensures OccursAt(s[1..], pat, i) <==> OccursAt(s, pat, i + 1)
  {
    if i + |pat| <= |s[1..]| {
      assert s[1..][i..i + |pat|] == s[i + 1..i + 1 + |pat|];
    }
  }

  /** When `pat` is not a prefix, the first occurrence in `s` is one past the first in its tail. */
  lemma FirstOccurrenceTail(s: string, pat: string, i: nat)
    requires FirstOccurrence(s, pat, i) && !(pat <= s)
    ensures i > 0 && FirstOccurrence(s[1..], pat, i - 1)
  {
    OccursAtTail(s, pat, i - 1);
    forall j: nat | j < i - 1 ensures !OccursAt(s[1..], pat, j) {
      OccursAtTail(s, pat, j);
    }
  }

  /** When `pat` is a prefix, it is the first occurrence. */
  lemma FirstOccurrenceAtPrefix(s: string, pat: string, i: nat)
    requires FirstOccurrence(s, pat, i) && pat <= s
    ensures i == 0
  {
    assert OccursAt(s, pat, 0);
  }

  /** The replacement happens exactly at the first occurrence of `pat`. */
  lemma {:induction false} ReplaceFirstAt(s: string, pat: string, rep: string, i: nat)
    requires FirstOccurrence(s, pat, i)
    ensures ReplaceFirst(s, pat, rep) == s[..i] + rep + s[i + |pat|..]
  {
    if pat <= s {
      FirstOccurrenceAtPrefix(s, pat, i);
    } else {
      FirstOccurrenceTail(s, pat, i);
      var t := s[1..];
      ReplaceFirstAt(t, pat, rep, i - 1);
      assert ReplaceFirst(s, pat, rep) == [s[0]] + ReplaceFirst(t, pat, rep);
      assert t[..i - 1] == s[1..i] && t[i - 1 + |pat|..] == s[i + |pat|..];
      assert s[..i] == [s[0]] + s[1..i];
    }
  }

  /** `s.replace(/\s+/g, "")`: every whitespace character removed, the others kept in order. */
  function RemoveSpaces(s: string): (r: string)
    ensures NoSpace(r)
    ensures |r| <= |s|
    ensures NoSpace(s) ==> r == s
  {
    if s == [] then []
    else if IsSpace(s[0]) then RemoveSpaces(s[1..])
    else [s[0]] + RemoveSpaces(s[1..])
  }

  /** On one character: a whitespace character is dropped, any other is kept. */
  lemma RemoveSpacesChar(c: char)
    ensures RemoveSpaces([c]) == if IsSpace(c) then [] else [c]
  {
    assert [c][1..] == [];
  }

  /** Removal works piece by piece: the characters kept from `a` come first, in order, then those of `b`. */
  lemma {:induction false} RemoveSpacesAppend(a: string, b: string)
    ensures RemoveSpaces(a + b) == RemoveSpaces(a) + RemoveSpaces(b)
  {
    if a == [] {
      assert a + b == b;
    } else {
      assert (a + b)[0] == a[0];
      assert (a + b)[1..] == a[1..] + b;
      RemoveSpacesAppend(a[1..], b);
    }
  }

  /** A first and a last name around one space, as "Jean Dupont", are joined: "JeanDupont". */
  lemma RemoveSpacesJoins(first: string, c: char, last: string)
    requires NoSpace(first) && IsSpace(c) && NoSpace(last)
    ensures RemoveSpaces(first + [c] + last) == first + last
  {
    assert first + [c] + last == first + ([c] + last);
    RemoveSpacesAppend(first, [c] + last);
    RemoveSpacesAppend([c], last);
    RemoveSpacesChar(c);
  }

  /** ASCII reading of `toLowerCase` on one character. */
  function LowerChar(c: char): (r: char)
    ensures 'A' <= c <= 'Z' ==> 'a' <= r <= 'z'
    ensures !('A' <= c <= 'Z') ==> r == c
  {
    if 'A' <= c <= 'Z' then (c as int + 32) as char else c
  }

  /** ASCII reading of `String.prototype.toLowerCase`. */
  function ToLower(s: string): (r: string)
    ensures |r| == |s|
    ensures forall k :: 0 <= k < |s| ==> r[k] == LowerChar(s[k])
  {
    if s == [] then [] else [LowerChar(s[0])] + ToLower(s[1..])
  }

  /** A decimal digit. */
  predicate IsDigit(c: char)
  {
    '0' <= c <= '9'
  }

  /** The decimal text JavaScript prints for a non-negative integer (`${n}`). */
  function NatToString(n: nat): (r: string)
    ensures |r| >= 1
    ensures forall k :: 0 <= k < |r| ==> IsDigit(r[k])
  {
    var d := ['0' + (n % 10) as char];
    if n < 10 then d else NatToString(n / 10) + d
  }

  /** Lowering an ASCII string never introduces whitespace. */
  lemma {:induction false} ToLowerKeepsNoSpace(s: string)
    requires NoSpace(s)
    ensures NoSpace(ToLower(s))
  {
    forall k | 0 <= k < |s| ensures !IsSpace(ToLower(s)[k]) {
      assert !IsSpace(s[k]);
    }
  }
}
