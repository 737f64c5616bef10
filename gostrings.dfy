/**
 * The parts of Go's `strings` package that the translation relies on, for a
 * separator that is a single character: `strings.Split`, `strings.Join`,
 * `strings.Index` and `strings.Contains` (the latter is Dafny's `in`).
 */
module GoStrings {

  /**
   * `strings.Split(s, sep)`: the pieces of `s` between occurrences of `sep`.
   * There is always at least one piece (`Split("", sep) == [""]`), and there
   * are at least two exactly when `sep` occurs in `s`.
   */
  function Split(s: string, sep: char): (parts: seq<string>)
    ensures |parts| >= 1
    ensures |parts| >= 2 <==> sep in s
    decreases |s|
  {
    if |s| == 0 then [""]
    else if s[0] == sep then [""] + Split(s[1..], sep)
    else
      var rest := Split(s[1..], sep);
      [[s[0]] + rest[0]] + rest[1..]
  }

  /** `strings.Join(parts, sep)`: the pieces glued back with `sep` between them. */
  function Join(parts: seq<string>, sep: char): string
    decreases |parts|
  {
    if |parts| == 0 then ""
    else if |parts| == 1 then parts[0]
    else parts[0] + [sep] + Join(parts[1..], sep)
  }

  /** `strings.Index(s, c)`: the position of the first `c` in `s`, or -1. */
  function IndexOf(s: string, c: char): (i: int)
    ensures -1 <= i < |s|
    ensures i == -1 <==> c !in s
    ensures 0 <= i ==> s[i] == c && c !in s[..i]
    decreases |s|
  {
    if |s| == 0 then -1
    else if s[0] == c then 0
    else
      var j := IndexOf(s[1..], c);
      if j < 0 then -1 else j + 1
  }

  /** The text of `s` up to (not including) its first `c`, or all of `s`. */
  function FirstField(s: string, c: char): (field: string)
    ensures c !in field
    ensures |field| <= |s| && field == s[..|field|]
    ensures |field| == |s| || s[|field|] == c
  {
    var i := IndexOf(s, c);
    if i < 0 then s else s[..i]
  }

  /** The text of `s` after its first `c` (empty when there is none). */
  function AfterFirst(s: string, c: char): (rest: string)
    ensures c in s ==> rest == s[IndexOf(s, c) + 1..]
  {
    var i := IndexOf(s, c);
    if i < 0 then "" else s[i + 1..]
  }

  /** Any position holding `c` with no `c` before it is the one `IndexOf` finds. */
  lemma IndexOfUnique(s: string, c: char, k: int)
    requires 0 <= k < |s| && s[k] == c && c !in s[..k]
    ensures IndexOf(s, c) == k
  {
    assert c in s by { assert s[k] == c; }
  }

  /** Without a separator there is one piece, the whole string. */
  lemma {:induction false} SplitWithoutSep(s: string, sep: char)
    requires sep !in s
    ensures Split(s, sep) == [s]
    decreases |s|
  {
    if |s| > 0 {
      var t := s[1..];
      assert forall j :: 0 <= j < |t| ==> t[j] == s[j + 1];
      SplitWithoutSep(t, sep);
      assert [s[0]] + t == s;
    }
  }

  /** Splitting peels off the text before the first separator, then splits the rest. */
  lemma {:induction false} SplitAtFirst(s: string, sep: char)
    requires sep in s
    ensures Split(s, sep) == [s[..IndexOf(s, sep)]] + Split(s[IndexOf(s, sep) + 1..], sep)
    decreases |s|
  {
    var i := IndexOf(s, sep);
    if s[0] == sep {
      assert i == 0 && s[..0] == "";
    } else {
      var t := s[1..];
      assert t[i - 1] == sep;
      var j := IndexOf(t, sep);
      assert i == j + 1;
      SplitAtFirst(t, sep);
      assert s[..i] == [s[0]] + t[..j];
      assert s[i + 1..] == t[j + 1..];
    }
  }

  /** The first two pieces of a split, described by positions in `s`. */
  lemma SplitFields(s: string, sep: char)
    ensures Split(s, sep)[0] == FirstField(s, sep)
    ensures sep in s ==> Split(s, sep)[1] == FirstField(AfterFirst(s, sep), sep)
  {
    if sep in s {
      SplitAtFirst(s, sep);
      var rest := s[IndexOf(s, sep) + 1..];
      if sep in rest {
        SplitAtFirst(rest, sep);
      } else {
        SplitWithoutSep(rest, sep);
      }
    } else {
      SplitWithoutSep(s, sep);
    }
  }

  /** No piece of a split contains the separator. */
  lemma {:induction false} SplitPiecesOmitSep(s: string, sep: char)
    ensures forall i :: 0 <= i < |Split(s, sep)| ==> sep !in Split(s, sep)[i]
    decreases |s|
  {
    if |s| > 0 {
      SplitPiecesOmitSep(s[1..], sep);
    }
  }

  /** Joining the pieces of a split gives back the original string. */
  lemma {:induction false} JoinSplit(s: string, sep: char)
    ensures Join(Split(s, sep), sep) == s
    decreases |s|
  {
    if |s| > 0 {
      var rest := Split(s[1..], sep);
      JoinSplit(s[1..], sep);
      if s[0] == sep {
        assert ([""] + rest)[1..] == rest;
      } else if |rest| > 1 {
        var parts := [[s[0]] + rest[0]] + rest[1..];
        assert parts[1..] == rest[1..];
        assert Join(rest, sep) == rest[0] + [sep] + Join(rest[1..], sep);
      }
    }
  }

  /**
   * Split is the only way to cut `s` into separator-free pieces that join
   * back to `s`: the two properties above characterise it.
   */
  lemma {:induction false} SplitUnique(parts: seq<string>, sep: char)
    requires |parts| >= 1
    requires forall i :: 0 <= i < |parts| ==> sep !in parts[i]
    ensures Split(Join(parts, sep), sep) == parts
    decreases |parts|
  {
    if |parts| == 1 {
      SplitWithoutSep(parts[0], sep);
    } else {
      var p := parts[0];
      var tail := parts[1..];
      var rest := Join(tail, sep);
      var s := p + [sep] + rest;
      assert Join(parts, sep) == s;
      assert forall i :: 0 <= i < |tail| ==> tail[i] == parts[i + 1];
      SplitUnique(tail, sep);
      assert s[..|p|] == p && s[|p|] == sep;
      IndexOfUnique(s, sep, |p|);
      SplitAtFirst(s, sep);
      assert s[|p| + 1..] == rest;
      assert parts == [p] + tail;
    }
  }
}
