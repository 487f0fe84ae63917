/**
 * The JavaScript string operations the command handlers rely on:
 * `String.prototype.includes`, `String.prototype.split` on a one-character
 * separator, `Array.prototype.pop` on its result, and template-literal joins.
 */
module Strings {

  /** `s` begins with `p`. */
  predicate StartsWith(s: string, p: string) {
    |p| <= |s| && s[..|p|] == p
  }

  /** `s.includes(sub)`: `sub` occurs in `s` at some position (the empty string occurs everywhere). */
  predicate Contains(s: string, sub: string)
    ensures Contains(s, sub) ==> |sub| <= |s|
    ensures sub == [] ==> Contains(s, sub)
    decreases |s|
  {
    StartsWith(s, sub) || (|s| > 0 && Contains(s[1..], sub))
  }

  /** An occurrence of `sub` at any position `i` is found by `Contains`. */
  lemma {:induction false} ContainsAt(s: string, sub: string, i: nat)
    requires i + |sub| <= |s| && s[i..i + |sub|] == sub
    ensures Contains(s, sub)
  {
    if i == 0 {
      assert s[..|sub|] == sub;
    } else {
      assert s[1..][i - 1..i - 1 + |sub|] == s[i..i + |sub|];
      ContainsAt(s[1..], sub, i - 1);
    }
  }

  /** Conversely, when `s` contains `sub` there is a position where it occurs. */
  lemma {:induction false} ContainsHasOccurrence(s: string, sub: string) returns (i: nat)
    requires Contains(s, sub)
    ensures i + |sub| <= |s| && s[i..i + |sub|] == sub
    decreases |s|
  {
    if StartsWith(s, sub) {
      i := 0;
    } else {
      var k := ContainsHasOccurrence(s[1..], sub);
      assert s[1..][k..k + |sub|] == s[k + 1..k + 1 + |sub|];
      i := k + 1;
    }
  }

  /** A string built around `sub` contains it. */
  lemma ContainsInfix(pre: string, sub: string, post: string)
    ensures Contains(pre + sub + post, sub)
  {
    var s := pre + sub + post;
    assert s[|pre|..|pre| + |sub|] == sub;
    ContainsAt(s, sub, |pre|);
  }

  /**
   * `s.split(sep)`: the maximal runs of `s` between separators, in order.
   * Like JavaScript, the result is never empty ("".split("/") is [""]).
   */
  function Split(s: string, sep: char): (parts: seq<string>)
    ensures |parts| >= 1
    ensures forall i :: 0 <= i < |parts| ==> sep !in parts[i]
    decreases |s|
  {
    if s == [] then [""]
    else
      var rest := Split(s[1..], sep);
      if s[0] == sep then [""] + rest
      else [[s[0]] + rest[0]] + rest[1..]
  }

  /** `parts.join(sep)`, which is also what a template literal with separators builds. */
  function Join(parts: seq<string>, sep: char): (s: string)
    requires |parts| >= 1
    ensures |s| >= |parts[0]| + |parts| - 1
    decreases |parts|
  {
    if |parts| == 1 then parts[0] else parts[0] + [sep] + Join(parts[1..], sep)
  }

  /** `parts.pop()` on a non-empty array: its last element. */
  function Last(parts: seq<string>): (last: string)
    requires |parts| >= 1
    ensures parts == parts[..|parts| - 1] + [last]
  {
    parts[|parts| - 1]
  }

  /** A string without the separator splits into itself alone, and only such a string does. */
  lemma {:induction false} SplitSingle(s: string, sep: char)
    ensures |Split(s, sep)| == 1 <==> sep !in s
    ensures sep !in s ==> Split(s, sep) == [s]
    decreases |s|
  {
    if s != [] {
      SplitSingle(s[1..], sep);
      assert s == [s[0]] + s[1..];
    }
  }

  /** Splitting at a separator splits each side independently. */
  lemma {:induction false} SplitAround(a: string, b: string, sep: char)
    ensures Split(a + [sep] + b, sep) == Split(a, sep) + Split(b, sep)
    decreases |a|
  {
    var s := a + [sep] + b;
    if a == [] {
      assert s[0] == sep && s[1..] == b;
    } else {
      assert s[0] == a[0] && s[1..] == a[1..] + [sep] + b;
      SplitAround(a[1..], b, sep);
    }
  }

  /** Joining splits back together: `s.split(sep).join(sep) == s`. */
  lemma {:induction false} JoinSplit(s: string, sep: char)
    ensures Join(Split(s, sep), sep) == s
    decreases |s|
  {
    if s != [] {
      var rest := Split(s[1..], sep);
      JoinSplit(s[1..], sep);
      if s[0] == sep {
        assert Split(s, sep) == [""] + rest;
        assert ([""] + rest)[1..] == rest;
      } else {
        var parts := Split(s, sep);
        assert parts[0] == [s[0]] + rest[0] && parts[1..] == rest[1..];
        if |rest| > 1 {
          assert Join(rest, sep) == rest[0] + [sep] + Join(rest[1..], sep);
        }
      }
    }
  }

  /** Splitting a join of separator-free parts gives the parts back. */
  lemma {:induction false} SplitJoin(parts: seq<string>, sep: char)
    requires |parts| >= 1
    requires forall i :: 0 <= i < |parts| ==> sep !in parts[i]
    ensures Split(Join(parts, sep), sep) == parts
    decreases |parts|
  {
    SplitSingle(parts[0], sep);
    if |parts| > 1 {
      SplitJoin(parts[1..], sep);
      SplitAround(parts[0], Join(parts[1..], sep), sep);
      assert [parts[0]] + parts[1..] == parts;
    }
  }

  /** One step of `pop` after `split`: the last part of `s` in terms of the last part of its tail. */
  lemma LastOfSplitStep(s: string, sep: char)
    requires s != []
    ensures Last(Split(s, sep)) ==
      if s[0] != sep && |Split(s[1..], sep)| == 1 then s else Last(Split(s[1..], sep))
  {
    var rest := Split(s[1..], sep);
    if s[0] != sep && |rest| == 1 {
      SplitSingle(s[1..], sep);
      assert s == [s[0]] + s[1..];
    }
  }

  /** A suffix of the tail of `s` is a suffix of `s`, preceded by the same character. */
  lemma SuffixOfTail(s: string, u: string)
    requires |s| > 0 && |u| <= |s| - 1 && s[1..][|s| - 1 - |u|..] == u
    ensures s[|s| - |u|..] == u
    ensures |u| < |s| - 1 ==> s[|s| - |u| - 1] == s[1..][|s| - 1 - |u| - 1]
  {
    assert s[|s| - |u|..] == s[1..][|s| - 1 - |u|..];
  }

  /**
   * The last part of a split is the text after the last separator: it holds no
   * separator, it is a suffix of `s`, and unless it is all of `s` a separator
   * stands right before it.
   */
  lemma {:induction false} LastPartIsFinalSegment(s: string, sep: char)
    ensures var u := Last(Split(s, sep));
      && sep !in u
      && |u| <= |s|
      && s[|s| - |u|..] == u
      && (|u| < |s| ==> s[|s| - |u| - 1] == sep)
    decreases |s|
  {
    if s != [] {
      var t := s[1..];
      var u' := Last(Split(t, sep));
      LastPartIsFinalSegment(t, sep);
      LastOfSplitStep(s, sep);
      if s[0] == sep || |Split(t, sep)| != 1 {
        SplitSingle(t, sep);
        assert |u'| < |t| || s[0] == sep;
        SuffixOfTail(s, u');
      }
    }
  }
}
