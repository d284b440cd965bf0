/** The few Kotlin string operations the core relies on. */
module Strings {

  /** Kotlin's `s.split(sep)` for a one-character delimiter: every
      occurrence of `sep` separates two fields and empty fields are kept,
      so the result always has at least one field. */
  function Split(s: string, sep: char): (r: seq<string>)
    ensures |r| >= 1
    ensures forall k :: 0 <= k < |r| ==> sep !in r[k]
    decreases |s|
  {
    if |s| == 0 then [""]
    else
      var rest := Split(s[1..], sep);
      if s[0] == sep then [""] + rest
      else [[s[0]] + rest[0]] + rest[1..]
  }

  /** Puts the fields back together with `sep` between them. */
  function Join(parts: seq<string>, sep: char): (s: string)
  {
    if |parts| == 0 then ""
    else if |parts| == 1 then parts[0]
    else parts[0] + [sep] + Join(parts[1..], sep)
  }

  /** Splitting loses nothing: joining the fields gives the input back. */
  lemma {:induction false} JoinSplit(s: string, sep: char)
    ensures Join(Split(s, sep), sep) == s
    decreases |s|
  {
    if |s| > 0 {
      var rest := Split(s[1..], sep);
      JoinSplit(s[1..], sep);
      if s[0] == sep {
        assert Split(s, sep) == [""] + rest;
        assert ([""] + rest)[1..] == rest;
      } else {
        var parts := [[s[0]] + rest[0]] + rest[1..];
        assert Split(s, sep) == parts;
        if |rest| == 1 {
          assert Join(parts, sep) == [s[0]] + rest[0];
        } else {
          assert parts[1..] == rest[1..];
          assert Join(parts, sep) == [s[0]] + rest[0] + [sep] + Join(rest[1..], sep);
        }
        assert [s[0]] + s[1..] == s;
      }
    }
  }

  /** Position of the first `c` in `s`, or `|s|` when there is none. */
  function FirstIndex(s: string, c: char): (i: nat)
    ensures i <= |s|
    ensures i < |s| ==> s[i] == c
    ensures c !in s[..i]
    decreases |s|
  {
    if |s| == 0 || s[0] == c then 0
    else
      var j := FirstIndex(s[1..], c);
      assert s[..1 + j] == [s[0]] + s[1..][..j];
      1 + j
  }

  /** The first `c` of `p + rest` is the one starting `rest` when `p`
      holds none. */
  lemma {:induction false} FirstIndexAfter(p: string, rest: string, c: char)
    requires c !in p
    requires rest == [] || rest[0] == c
    ensures FirstIndex(p + rest, c) == |p|
    decreases |p|
  {
    if |p| == 0 {
      assert p + rest == rest;
    } else {
      assert (p + rest)[1..] == p[1..] + rest;
      FirstIndexAfter(p[1..], rest, c);
    }
  }

  /** The first field of a split is the text before the first separator,
      and the remaining fields are those of the text after it. */
  lemma {:induction false} SplitAtFirst(s: string, sep: char)
    ensures Split(s, sep)[0] == s[..FirstIndex(s, sep)]
    ensures FirstIndex(s, sep) < |s| ==>
              Split(s, sep)[1..] == Split(s[FirstIndex(s, sep) + 1..], sep)
    ensures FirstIndex(s, sep) == |s| ==> Split(s, sep) == [s]
    decreases |s|
  {
    if |s| > 0 && s[0] != sep {
      var rest := Split(s[1..], sep);
      SplitAtFirst(s[1..], sep);
      var j := FirstIndex(s[1..], sep);
      assert s[..1 + j] == [s[0]] + s[1..][..j];
      if j < |s[1..]| {
        assert s[1..][j + 1..] == s[1 + j + 1..];
      } else {
        assert s[..1 + j] == s;
      }
    }
  }

  /** Kotlin's `s.dropLast(n)`: the whole string but its last `n`
      characters, or the empty string when it has at most `n`. */
  function DropLast(s: string, n: nat): (r: string)
    ensures |s| <= n ==> r == ""
    ensures |s| > n ==> |r| == |s| - n && r <= s
  {
    s[..if |s| >= n then |s| - n else 0]
  }
}
