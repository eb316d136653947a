/** The few Python string operations the app relies on: `str.lower()`,
    the substring test `w in s`, and `sep.join(parts)`. */
module Strings {

  /** `str.lower()` on one character. Only ASCII letters are mapped: every
      string this app lowers is ASCII apart from an em dash, which
      `lower()` leaves unchanged. */
  function LowerChar(c: char): (d: char)
    ensures 'A' <= c <= 'Z' ==> 'a' <= d <= 'z'
    ensures !('A' <= c <= 'Z') ==> d == c
  {
    if 'A' <= c <= 'Z' then (c as int + 32) as char else c
  }

  /** `s.lower()`: same length, lowered character by character. */
  function Lower(s: string): (r: string)
    ensures |r| == |s|
    ensures forall i :: 0 <= i < |s| ==> r[i] == LowerChar(s[i])
  {
    seq(|s|, i requires 0 <= i < |s| => LowerChar(s[i]))
  }

  /** `w` occurs in `s` starting at position `k`. */
  predicate OccursAt(s: string, w: string, k: int)
    requires 0 <= k <= |s| - |w|
  {
    s[k..k + |w|] == w
  }

  /** Python's substring test `w in s`. */
  predicate Contains(s: string, w: string) {
    exists k :: 0 <= k <= |s| - |w| && OccursAt(s, w, k)
  }

  /** `sep.join(parts)`. */
  function Join(parts: seq<string>, sep: string): (r: string)
    ensures |parts| == 0 ==> r == ""
    ensures |parts| > 0 ==> |r| >= |parts[0]| && r[..|parts[0]|] == parts[0]
  {
    if |parts| == 0 then ""
    else if |parts| == 1 then parts[0]
    else Join(parts[..|parts| - 1], sep) + sep + parts[|parts| - 1]
  }

  /** No position of the lowered `s` holds `a` immediately followed by `b`. */
  ghost predicate LacksPair(s: string, a: char, b: char) {
    forall k :: 0 <= k < |s| - 1 ==> !(LowerChar(s[k]) == a && LowerChar(s[k + 1]) == b)
  }

  /** The last character of `s`, lowered, is not `a`. */
  ghost predicate EndsClearOf(s: string, a: char) {
    |s| == 0 || LowerChar(s[|s| - 1]) != a
  }

  lemma LowerAppend(x: string, y: string)
    ensures Lower(x + y) == Lower(x) + Lower(y)
  {
  }

  lemma ContainsInRight(x: string, y: string, w: string)
    requires Contains(y, w)
    ensures Contains(x + y, w)
  {
    var k :| 0 <= k <= |y| - |w| && OccursAt(y, w, k);
    assert OccursAt(x + y, w, |x| + k) by {
      assert (x + y)[|x| + k..|x| + k + |w|] == y[k..k + |w|];
    }
  }

  lemma ContainsInLeft(x: string, y: string, w: string)
    requires Contains(x, w)
    ensures Contains(x + y, w)
  {
    var k :| 0 <= k <= |x| - |w| && OccursAt(x, w, k);
    assert OccursAt(x + y, w, k) by {
      assert (x + y)[k..k + |w|] == x[k..k + |w|];
    }
  }

  /** A word that starts with `a` then `b` cannot occur in a string lacking that pair. */
  lemma LacksPairExcludes(s: string, w: string)
    requires |w| >= 2 && LacksPair(s, w[0], w[1])
    ensures !Contains(Lower(s), w)
  {
    forall k | 0 <= k <= |s| - |w|
      ensures !OccursAt(Lower(s), w, k)
    {
      assert Lower(s)[k..k + |w|][0] == LowerChar(s[k]);
      assert Lower(s)[k..k + |w|][1] == LowerChar(s[k + 1]);
    }
  }

  lemma LacksPairAppend(x: string, y: string, a: char, b: char)
    requires LacksPair(x, a, b) && LacksPair(y, a, b) && EndsClearOf(x, a)
    ensures LacksPair(x + y, a, b) && (|y| > 0 ==> (EndsClearOf(x + y, a) <==> EndsClearOf(y, a)))
  {
    var s := x + y;
    forall k | 0 <= k < |s| - 1
      ensures !(LowerChar(s[k]) == a && LowerChar(s[k + 1]) == b)
    {
      if k < |x| - 1 {
        assert s[k] == x[k] && s[k + 1] == x[k + 1];
      } else if k == |x| - 1 {
        assert s[k] == x[|x| - 1];
      } else {
        assert s[k] == y[k - |x|] && s[k + 1] == y[k - |x| + 1];
      }
    }
  }

  /** Joining pieces that each lack the pair, with a separator that lacks it
      too, gives a string that lacks it as long as no piece and not the
      separator ends in `a`. */
  lemma {:induction false} JoinLacksPair(parts: seq<string>, sep: string, a: char, b: char)
    requires forall i :: 0 <= i < |parts| ==> LacksPair(parts[i], a, b) && EndsClearOf(parts[i], a)
    requires LacksPair(sep, a, b) && EndsClearOf(sep, a)
    ensures LacksPair(Join(parts, sep), a, b) && EndsClearOf(Join(parts, sep), a)
  {
    if |parts| == 0 {
    } else if |parts| == 1 {
    } else {
      var init, last := parts[..|parts| - 1], parts[|parts| - 1];
      JoinLacksPair(init, sep, a, b);
      LacksPairAppend(Join(init, sep), sep, a, b);
      LacksPairAppend(Join(init, sep) + sep, last, a, b);
      assert Join(parts, sep) == Join(init, sep) + sep + last;
    }
  }

  /** A word mentioned (case-insensitively) by one of the parts is mentioned
      by the lowered join of all of them. */
  lemma {:induction false} JoinMentions(parts: seq<string>, sep: string, w: string, i: int)
    requires 0 <= i < |parts| && Contains(Lower(parts[i]), w)
    ensures Contains(Lower(Join(parts, sep)), w)
  {
    if |parts| == 1 {
    } else {
      var init, last := parts[..|parts| - 1], parts[|parts| - 1];
      assert Join(parts, sep) == (Join(init, sep) + sep) + last;
      LowerAppend(Join(init, sep) + sep, last);
      LowerAppend(Join(init, sep), sep);
      if i == |parts| - 1 {
        ContainsInRight(Lower(Join(init, sep) + sep), Lower(last), w);
      } else {
        JoinMentions(init, sep, w, i);
        ContainsInLeft(Lower(Join(init, sep)), Lower(sep), w);
        ContainsInLeft(Lower(Join(init, sep)) + Lower(sep), Lower(last), w);
      }
    }
  }
}
