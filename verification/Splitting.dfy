/** Where a string is cut and split: at the first occurrence of a separator, again and again. */
module Splitting {
  import opened Counting
  import opened JvmArchiveEntries
  import opened SandboxPreflight

  predicate Occurs(s: string, separator: string, i: nat) {
    i + |separator| <= |s| && s[i..i + |separator|] == separator
  }

  predicate FirstAt(s: string, separator: string, i: nat) {
    Occurs(s, separator, i) && forall j | 0 <= j < i :: !Occurs(s, separator, j)
  }

  predicate Free(s: string, separator: string) { forall j | 0 <= j <= |s| :: !Occurs(s, separator, j) }

  /** The parts of `s`: the first ends where the separator first occurs, and so on. */
  predicate IsSplit(s: string, separator: string, parts: seq<string>)
    decreases |parts|
  {
    && parts != []
    && if |parts| == 1 then parts[0] == s && Free(s, separator)
       else
         var n := |parts[0]|;
         && FirstAt(s, separator, n) && parts[0] == s[..n]
         && IsSplit(s[n + |separator|..], separator, parts[1..])
  }

  lemma PrefixOccurs(s: string, separator: string)
    ensures HasPrefix(s, separator) <==> Occurs(s, separator, 0)
  {}

  lemma OccursLater(s: string, separator: string, i: nat)
    requires s != ""
    ensures Occurs(s, separator, i + 1) <==> Occurs(s[1..], separator, i)
  {
    if i + 1 + |separator| <= |s| {
      assert s[1..][i..i + |separator|] == s[i + 1..i + 1 + |separator|];
    }
  }

  /** A first character that begins no separator moves the first occurrence by one. */
  lemma FirstLater(s: string, separator: string, i: nat)
    requires s != "" && !Occurs(s, separator, 0)
    ensures FirstAt(s, separator, i + 1) <==> FirstAt(s[1..], separator, i)
  {
    hide Occurs;
    forall j: nat ensures Occurs(s, separator, j + 1) <==> Occurs(s[1..], separator, j) { OccursLater(s, separator, j); }
    if FirstAt(s, separator, i + 1) {
      forall j | 0 <= j < i ensures !Occurs(s[1..], separator, j) { assert !Occurs(s, separator, j + 1); }
    }
    if FirstAt(s[1..], separator, i) {
      forall j | 0 <= j < i + 1 ensures !Occurs(s, separator, j) {
        if j > 0 { assert !Occurs(s[1..], separator, j - 1); }
      }
    }
  }

  lemma FreeLater(s: string, separator: string)
    requires s != "" && !Occurs(s, separator, 0)
    ensures Free(s, separator) <==> Free(s[1..], separator)
  {
    hide Occurs;
    forall j: nat ensures Occurs(s, separator, j + 1) <==> Occurs(s[1..], separator, j) { OccursLater(s, separator, j); }
    if Free(s, separator) {
      forall j | 0 <= j <= |s| - 1 ensures !Occurs(s[1..], separator, j) { assert !Occurs(s, separator, j + 1); }
    }
    if Free(s[1..], separator) {
      forall j | 0 <= j <= |s| ensures !Occurs(s, separator, j) {
        if j > 0 { assert !Occurs(s[1..], separator, j - 1); }
      }
    }
  }

  lemma {:induction false} CutIs(s: string, separator: string)
    requires separator != ""
    ensures match Cut(s, separator)
      case None => Free(s, separator)
      case Some((a, b)) => FirstAt(s, separator, |a|) && a == s[..|a|] && b == s[|a| + |separator|..]
  {
    hide Occurs, FirstAt, Free;
    PrefixOccurs(s, separator);
    if HasPrefix(s, separator) {
      AtOnce(s, separator);
    } else if s == "" {
      EmptyIsFree(separator);
    } else {
      CutIs(s[1..], separator);
      FreeLater(s, separator);
      match Cut(s[1..], separator)
      case None =>
      case Some((a, b)) =>
        FirstLater(s, separator, |a|);
        FirstFits(s[1..], separator, |a|);
        assert [s[0]] + a == s[..|a| + 1];
        assert s[1..][|a| + |separator|..] == s[|a| + 1 + |separator|..];
    }
  }

  lemma AtOnce(s: string, separator: string)
    requires Occurs(s, separator, 0)
    ensures FirstAt(s, separator, 0)
  {}

  lemma FirstFits(s: string, separator: string, i: nat)
    requires FirstAt(s, separator, i)
    ensures i + |separator| <= |s|
  {}

  lemma EmptyIsFree(separator: string)
    requires separator != ""
    ensures Free("", separator)
  {}

  /** Two first occurrences are one, and there is none in a string that is free of it. */
  lemma OneFirst(s: string, separator: string, i: nat, j: nat)
    requires FirstAt(s, separator, i)
    ensures FirstAt(s, separator, j) ==> i == j
    ensures !Free(s, separator)
  {
    hide Occurs;
    FirstFits(s, separator, i);
    assert Occurs(s, separator, i);
  }

  /** strings.Cut cuts where the separator first occurs. */
  lemma CutIff(s: string, separator: string, a: string, b: string)
    requires separator != ""
    ensures Cut(s, separator) == Some((a, b)) <==>
            FirstAt(s, separator, |a|) && a == s[..|a|] && b == s[|a| + |separator|..]
  {
    hide Occurs, FirstAt, Free, Cut;
    CutIs(s, separator);
    if FirstAt(s, separator, |a|) {
      OneFirst(s, separator, |a|, |a|);
      var cut := Cut(s, separator);
      if cut.Some? { OneFirst(s, separator, |a|, |cut.value.0|); }
    }
  }

  lemma {:induction false} SplitIs(s: string, separator: string)
    requires separator != ""
    ensures IsSplit(s, separator, SplitOn(s, separator))
    decreases |s|
  {
    hide Occurs, FirstAt, Free;
    PrefixOccurs(s, separator);
    if s == "" {
      EmptyIsFree(separator);
    } else if HasPrefix(s, separator) {
      var rest := SplitOn(s[|separator|..], separator);
      SplitIs(s[|separator|..], separator);
      AtOnce(s, separator);
      assert ([""] + rest)[1..] == rest;
    } else {
      var rest := SplitOn(s[1..], separator);
      SplitIs(s[1..], separator);
      FreeLater(s, separator);
      FirstLater(s, separator, |rest[0]|);
      var parts := [[s[0]] + rest[0]] + rest[1..];
      assert parts[1..] == rest[1..];
      if |rest| == 1 {
        assert parts[0] == s;
      } else {
        FirstFits(s[1..], separator, |rest[0]|);
        assert parts[0] == s[..|rest[0]| + 1];
        assert s[1..][|rest[0]| + |separator|..] == s[|rest[0]| + 1 + |separator|..];
      }
    }
  }

  lemma {:induction false} OneSplit(s: string, separator: string, a: seq<string>, b: seq<string>)
    requires separator != "" && IsSplit(s, separator, a) && IsSplit(s, separator, b)
    ensures a == b
    decreases |a|
  {
    hide Occurs, FirstAt, Free;
    if |a| > 1 { OneFirst(s, separator, |a[0]|, |b[0]|); }
    if |b| > 1 { OneFirst(s, separator, |b[0]|, |a[0]|); }
    if |a| > 1 {
      FirstFits(s, separator, |a[0]|);
      OneSplit(s[|a[0]| + |separator|..], separator, a[1..], b[1..]);
      assert a == [a[0]] + a[1..] && b == [b[0]] + b[1..];
    } else {
      assert a == [a[0]] && b == [b[0]];
    }
  }

  /** strings.Split splits at each next first occurrence. */
  lemma SplitIff(s: string, separator: string, parts: seq<string>)
    requires separator != ""
    ensures SplitOn(s, separator) == parts <==> IsSplit(s, separator, parts)
  {
    hide SplitOn, IsSplit;
    SplitIs(s, separator);
    if IsSplit(s, separator, parts) { OneSplit(s, separator, parts, SplitOn(s, separator)); }
  }

  /** The parts with a separator between them. */
  function Glued(parts: seq<string>, separator: string): string {
    if parts == [] then "" else if |parts| == 1 then parts[0]
    else parts[0] + separator + Glued(parts[1..], separator)
  }

  /** strings.ReplaceAll puts another separator between the parts. */
  lemma {:induction false} ReplacedIs(s: string, with: string)
    ensures ReplaceLineEnds(s, with) == Glued(SplitOn(s, "\r\n"), with)
    decreases |s|
  {
    var parts := SplitOn(s, "\r\n");
    if s == "" {
    } else if HasPrefix(s, "\r\n") {
      ReplacedIs(s[2..], with);
      assert parts[1..] == SplitOn(s[2..], "\r\n");
      assert Glued(parts, with) == "" + with + Glued(parts[1..], with);
    } else {
      ReplacedIs(s[1..], with);
      var rest := SplitOn(s[1..], "\r\n");
      assert parts[1..] == rest[1..];
      if |rest| > 1 { assert [s[0]] + (rest[0] + with + Glued(rest[1..],
          with)) == ([s[0]] + rest[0]) + with + Glued(rest[1..], with); }
    }
  }

  /** `t` is `s` without the line ends behind it. */
  predicate IsTrimmed(s: string, t: string) {
    && |t| <= |s| && s[..|t|] == t && (forall i | |t| <= i < |s| :: s[i] == '\n')
    && (t != "" ==> t[|t| - 1] != '\n')
  }

  lemma {:induction false} TrimIff(s: string, t: string)
    ensures TrimNewlines(s) == t <==> IsTrimmed(s, t)
    decreases |s|
  {
    if s != "" && s[|s| - 1] == '\n' {
      var front := s[..|s| - 1];
      TrimIff(front, t);
      assert |t| < |s| ==> front[..|t|] == s[..|t|];
      if IsTrimmed(s, t) { assert t != s; }
    }
  }
}
