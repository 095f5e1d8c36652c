/** The string operations the service relies on: JavaScript's `split` and `join`,
    and the `FIND` function of the record store's formula language. */
module Strings {

  /** The pieces of `s` between occurrences of `sep`, as JavaScript's
      `s.split(sep)` gives them for a one-character separator. */
  function Split(s: string, sep: char): (pieces: seq<string>)
    ensures |pieces| >= 1
    ensures forall i :: 0 <= i < |pieces| ==> sep !in pieces[i]
  {
    if |s| == 0 then [""]
    else
      var rest := Split(s[1..], sep);
      if s[0] == sep then [""] + rest
      else
        assert sep !in [s[0]] + rest[0];
        [[s[0]] + rest[0]] + rest[1..]
  }

  /** `pieces` glued together with `sep` between neighbours, as JavaScript's `pieces.join(sep)`. */
  function Join(pieces: seq<string>, sep: string): string
  {
    if |pieces| == 0 then ""
    else if |pieces| == 1 then pieces[0]
    else pieces[0] + sep + Join(pieces[1..], sep)
  }

  /** Joining the pieces of a split with the same separator gives back the string. */
  lemma {:induction false} JoinSplit(s: string, sep: char)
    ensures Join(Split(s, sep), [sep]) == s
  {
    if |s| > 0 {
      JoinSplit(s[1..], sep);
      var rest := Split(s[1..], sep);
      if s[0] == sep {
        assert ([""] + rest)[1..] == rest;
        assert s == [sep] + s[1..];
      } else if |rest| == 1 {
        assert s == [s[0]] + s[1..];
      } else {
        var first := [s[0]] + rest[0];
        assert ([first] + rest[1..])[1..] == rest[1..];
        assert Join(rest, [sep]) == rest[0] + [sep] + Join(rest[1..], [sep]);
        assert s == [s[0]] + s[1..];
      }
    }
  }

  /** A string without the separator is a single piece. */
  lemma {:induction false} SplitWithoutSeparator(s: string, sep: char)
    requires sep !in s
    ensures Split(s, sep) == [s]
  {
    if |s| > 0 {
      assert sep !in s[1..] by {
        forall i | 0 <= i < |s[1..]| ensures s[1..][i] != sep {
          assert s[1..][i] == s[i + 1];
        }
      }
      SplitWithoutSeparator(s[1..], sep);
      assert s == [s[0]] + s[1..];
    }
  }

  /** Splitting at the first separator: a separator-free prefix becomes the first piece. */
  lemma {:induction false} SplitAfterPrefix(a: string, sep: char, b: string)
    requires sep !in a
    ensures Split(a + [sep] + b, sep) == [a] + Split(b, sep)
  {
    if |a| == 0 {
      assert a + [sep] + b == [sep] + b;
      assert ([sep] + b)[1..] == b;
    } else {
      var s := a + [sep] + b;
      assert s[0] == a[0];
      assert s[1..] == a[1..] + [sep] + b;
      assert sep !in a[1..] by {
        forall i | 0 <= i < |a[1..]| ensures a[1..][i] != sep {
          assert a[1..][i] == a[i + 1];
        }
      }
      SplitAfterPrefix(a[1..], sep, b);
      assert a == [a[0]] + a[1..];
    }
  }

  /** `needle` stands in `haystack` starting at index `i`. */
  predicate OccursAt(needle: string, haystack: string, i: nat)
  {
    i <= |haystack| && needle <= haystack[i..]
  }

  /** 1-based position of the first occurrence of `needle` in `haystack`, 0 when there
      is none: the `FIND(needle, haystack)` of the record store's formula language.
      The comparison is character by character, so it is case-sensitive. */
  function Find(needle: string, haystack: string): (pos: nat)
    ensures pos > 0 ==> OccursAt(needle, haystack, pos - 1)
    ensures pos > 0 ==> forall i: nat :: i < pos - 1 ==> !OccursAt(needle, haystack, i)
    ensures pos == 0 ==> forall i: nat :: !OccursAt(needle, haystack, i)
    decreases |haystack|
  {
    if needle <= haystack then 1
    else if |haystack| == 0 then 0
    else
      var p := Find(needle, haystack[1..]);
      assert forall i: nat :: OccursAt(needle, haystack, i) ==> i > 0 && OccursAt(needle, haystack[1..], i - 1) by {
        forall i: nat | OccursAt(needle, haystack, i) ensures i > 0 && OccursAt(needle, haystack[1..], i - 1) {
          assert haystack[1..][i - 1..] == haystack[i..];
        }
      }
      assert p > 0 ==> OccursAt(needle, haystack, p) by {
        if p > 0 {
          assert haystack[1..][p - 1..] == haystack[p..];
        }
      }
      if p == 0 then 0 else p + 1
  }

  /** `needle` occurs in `haystack` as a contiguous substring. */
  ghost predicate Occurs(needle: string, haystack: string)
  {
    exists i: nat :: OccursAt(needle, haystack, i)
  }

  /** `FIND(q, s) > 0`, the test the search formula applies, holds exactly when `q` is a substring of `s`. */
  lemma FindPositiveIffOccurs(needle: string, haystack: string)
    ensures Find(needle, haystack) > 0 <==> Occurs(needle, haystack)
  {
    var p := Find(needle, haystack);
    if p > 0 {
      assert OccursAt(needle, haystack, p - 1);
    }
  }
}
