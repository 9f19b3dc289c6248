/** The string operations the sinker relies on: substring occurrence and search,
    Python's `str.split`, `str.rpartition` and `str.replace(c, "")`. */
module Text {
  import opened Wrappers

  /** `pat` occurs in `s` starting at position `i`. */
  predicate Occurs(s: string, i: int, pat: string)
  {
    0 <= i <= |s| && pat <= s[i..]
  }

  /** `pat` occurs somewhere in `s`. */
  ghost predicate Contains(s: string, pat: string)
  {
    exists i :: Occurs(s, i, pat)
  }

  /** An occurrence of `a + b` is an occurrence of `a` followed by one of `b`. */
  lemma {:induction false} OccursConcat(s: string, i: int, a: string, b: string)
    ensures Occurs(s, i, a + b) <==> Occurs(s, i, a) && Occurs(s, i + |a|, b)
  {
    if Occurs(s, i, a) && Occurs(s, i + |a|, b) {
      assert s[i..i + |a + b|] == s[i..i + |a|] + s[i + |a|..i + |a| + |b|];
    }
    if Occurs(s, i, a + b) {
      assert s[i..i + |a|] == (a + b)[..|a|];
      assert s[i + |a|..i + |a| + |b|] == (a + b)[|a|..];
    }
  }

  /** An occurrence inside `s[k..]` is an occurrence in `s`, shifted by `k`. */
  lemma {:induction false} OccursShift(s: string, k: nat, i: nat, pat: string)
    requires k <= |s|
    ensures Occurs(s[k..], i, pat) <==> Occurs(s, k + i, pat)
  {
    if i <= |s| - k {
      assert s[k..][i..] == s[k + i..];
    }
  }

  /** An occurrence in a prefix of `s` is an occurrence in `s`. */
  lemma {:induction false} OccursInPrefix(s: string, k: nat, i: int, pat: string)
    requires k <= |s|
    ensures Occurs(s[..k], i, pat) ==> Occurs(s, i, pat)
  {
    if Occurs(s[..k], i, pat) {
      assert s[..k][i..][..|pat|] == s[i..][..|pat|];
    }
  }

  /** A one-character pattern occurs exactly where that character is. */
  lemma {:induction false} OccursChar(s: string, c: char)
    ensures forall j :: Occurs(s, j, [c]) <==> 0 <= j < |s| && s[j] == c
  {
    forall j | 0 <= j < |s|
      ensures s[j..j + 1] == [s[j]]
    {
    }
  }

  /** The first position at or after `from` where `pat` occurs. */
  function FindFrom(s: string, pat: string, from: nat): (r: Option<nat>)
    requires from <= |s|
    ensures r.Some? ==> from <= r.value && Occurs(s, r.value, pat)
    decreases |s| - from
  {
    if Occurs(s, from, pat) then Some(from)
    else if from == |s| then None
    else FindFrom(s, pat, from + 1)
  }

  /** `FindFrom` finds the first occurrence: none lies between `from` and what it
      returns, and when it finds nothing there is none at or after `from`. */
  lemma {:induction false} FindFromFirst(s: string, pat: string, from: nat)
    requires from <= |s|
    ensures var r := FindFrom(s, pat, from);
            r.Some? ==> forall j :: from <= j < r.value ==> !Occurs(s, j, pat)
    ensures FindFrom(s, pat, from).None? ==> forall j :: from <= j ==> !Occurs(s, j, pat)
    decreases |s| - from
  {
    if !Occurs(s, from, pat) && from < |s| {
      FindFromFirst(s, pat, from + 1);
    }
  }

  /** Python's `s.split(sep)` for a non-empty separator: the pieces between
      the non-overlapping occurrences of `sep`, scanning from the left. */
  function Split(s: string, sep: string): (pieces: seq<string>)
    requires |sep| > 0
    ensures |pieces| >= 1
    decreases |s|
  {
    match FindFrom(s, sep, 0)
    case None => [s]
    case Some(k) => [s[..k]] + Split(s[k + |sep|..], sep)
  }

  /** Python's `sep.join(pieces)`. */
  function Join(pieces: seq<string>, sep: string): string
  {
    if |pieces| == 0 then ""
    else if |pieces| == 1 then pieces[0]
    else pieces[0] + sep + Join(pieces[1..], sep)
  }

  /** Joining a piece in front of a non-empty list puts the separator between them. */
  lemma {:induction false} JoinCons(a: string, rest: seq<string>, sep: string)
    requires |rest| > 0
    ensures Join([a] + rest, sep) == a + sep + Join(rest, sep)
  {
    assert ([a] + rest)[1..] == rest;
  }

  /** Text around an occurrence of `sep` is the part before, `sep`, and the part after. */
  lemma {:induction false} SplitAround(s: string, k: nat, sep: string)
    requires Occurs(s, k, sep)
    ensures s == s[..k] + sep + s[k + |sep|..]
  {
    assert s == s[..k] + s[k..k + |sep|] + s[k + |sep|..];
  }

  /** Past the first occurrence of the separator, a split continues on the text after it. */
  lemma {:induction false} SplitStep(s: string, sep: string)
    requires |sep| > 0
    requires FindFrom(s, sep, 0).Some?
    ensures var k := FindFrom(s, sep, 0).value;
            k + |sep| <= |s| && Split(s, sep) == [s[..k]] + Split(s[k + |sep|..], sep)
  {
  }

  /** Joining the pieces of a split gives back the original text. */
  lemma {:induction false} SplitJoin(s: string, sep: string)
    requires |sep| > 0
    ensures Join(Split(s, sep), sep) == s
    decreases |s|
  {
    var f := FindFrom(s, sep, 0);
    if f.Some? {
      var k := f.value;
      SplitStep(s, sep);
      var head, rest := s[..k], s[k + |sep|..];
      SplitJoin(rest, sep);
      JoinCons(head, Split(rest, sep), sep);
      SplitAround(s, k, sep);
    }
  }

  /** Splitting a join gives the pieces back when no piece contains the separator,
      for a two-character separator whose characters differ (such as `"; "`): no
      occurrence can then straddle a piece and the separator after it. */
  lemma {:induction false} JoinSplit(pieces: seq<string>, sep: string)
    requires |pieces| >= 1 && |sep| == 2 && sep[0] != sep[1]
    requires forall n, j :: 0 <= n < |pieces| ==> !Occurs(pieces[n], j, sep)
    ensures Split(Join(pieces, sep), sep) == pieces
    decreases |pieces|
  {
    var p := pieces[0];
    var s := Join(pieces, sep);
    if |pieces| == 1 {
      assert s == p;
    } else {
      var rest := pieces[1..];
      JoinSplit(rest, sep);
      assert s == p + sep + Join(rest, sep);
      FirstSeparator(p, Join(rest, sep), sep);
      SplitStep(s, sep);
      assert s[..|p|] == p;
      assert s[|p| + 2..] == Join(rest, sep);
    }
  }

  /** The first occurrence of such a separator in `p + sep + t` is the one after
      `p`, when `p` does not contain it. */
  lemma {:induction false} FirstSeparator(p: string, t: string, sep: string)
    requires |sep| == 2 && sep[0] != sep[1]
    requires forall j :: !Occurs(p, j, sep)
    ensures FindFrom(p + sep + t, sep, 0) == Some(|p|)
  {
    var s := p + sep + t;
    assert s[|p|..][..2] == sep;
    assert Occurs(s, |p|, sep);
    forall i | 0 <= i < |p|
      ensures !Occurs(s, i, sep)
    {
      if i + 2 <= |p| {
        assert s[i..i + 2] == p[i..i + 2];
        assert !Occurs(p, i, sep);
      } else {
        assert s[i + 1] == sep[0];
      }
    }
    FindFromFirst(s, sep, 0);
  }

  /** No piece of a split contains the separator. */
  lemma {:induction false} SplitPiecesFree(s: string, sep: string)
    requires |sep| > 0
    ensures forall n, j :: 0 <= n < |Split(s, sep)| ==> !Occurs(Split(s, sep)[n], j, sep)
    decreases |s|
  {
    FindFromFirst(s, sep, 0);
    match FindFrom(s, sep, 0)
    case None =>
    case Some(k) =>
      var rest := s[k + |sep|..];
      SplitPiecesFree(rest, sep);
      forall j
        ensures Occurs(s[..k], j, sep) ==> Occurs(s, j, sep)
      {
        OccursInPrefix(s, k, j, sep);
      }
  }

  /** A split has more than one piece exactly when the separator occurs. */
  lemma {:induction false} SplitMany(s: string, sep: string)
    requires |sep| > 0
    ensures |Split(s, sep)| > 1 <==> FindFrom(s, sep, 0).Some?
  {
  }

  /** The second piece of a split is the text between the first occurrence of
      the separator and the next one (or the end of the text). */
  lemma {:induction false} SecondPiece(s: string, sep: string)
    requires |sep| > 0
    requires FindFrom(s, sep, 0).Some?
    ensures var k := FindFrom(s, sep, 0).value;
            var pieces := Split(s, sep);
            |pieces| > 1 &&
            Occurs(s, k + |sep|, pieces[1]) &&
            (k + |sep| + |pieces[1]| == |s| || Occurs(s, k + |sep| + |pieces[1]|, sep))
  {
    var k := FindFrom(s, sep, 0).value;
    SecondIsFirstOfRest(s, sep);
    var rest := s[k + |sep|..];
    var p := Split(rest, sep)[0];
    FirstPiece(rest, sep);
    assert rest[0..] == rest;
    OccursShift(s, k + |sep|, |p|, sep);
  }

  /** Piece `[1]` of a split is piece `[0]` of the split of what follows the
      first separator. */
  lemma {:induction false} SecondIsFirstOfRest(s: string, sep: string)
    requires |sep| > 0
    requires FindFrom(s, sep, 0).Some?
    ensures var k := FindFrom(s, sep, 0).value;
            k + |sep| <= |s| && |Split(s, sep)| > 1 && Split(s, sep)[1] == Split(s[k + |sep|..], sep)[0]
  {
    SplitStep(s, sep);
  }

  /** Piece `[0]` is a prefix of the text that ends at the first occurrence of
      the separator or at the end. */
  lemma {:induction false} FirstPiece(s: string, sep: string)
    requires |sep| > 0
    ensures var p := Split(s, sep)[0];
            Occurs(s, 0, p) && (|p| == |s| || Occurs(s, |p|, sep))
  {
    assert s[0..] == s;
  }

  /** When a character of `pat` appears in `s` only where one occurrence of `pat`
      puts it, that occurrence is the only one. */
  lemma {:induction false} OnlyOccurrence(s: string, pat: string, k: nat, m: nat)
    requires m < |pat| && Occurs(s, k, pat)
    requires forall i :: 0 <= i < |s| && s[i] == pat[m] ==> i == k + m
    ensures forall j :: Occurs(s, j, pat) ==> j == k
  {
    forall j | Occurs(s, j, pat)
      ensures j == k
    {
      assert s[j + m] == s[j..][m];
    }
  }

  /** A separator that occurs exactly once splits the text into what lies before
      it and what lies after it. */
  lemma {:induction false} SplitOnce(s: string, sep: string, k: nat)
    requires |sep| > 0 && Occurs(s, k, sep)
    requires forall j :: Occurs(s, j, sep) ==> j == k
    ensures Split(s, sep) == [s[..k], s[k + |sep|..]]
  {
    FindFromFirst(s, sep, 0);
    SplitStep(s, sep);
    var rest := s[k + |sep|..];
    FindFromFirst(rest, sep, 0);
    if FindFrom(rest, sep, 0).Some? {
      var j := FindFrom(rest, sep, 0).value;
      OccursShift(s, k + |sep|, j, sep);
      assert false;
    }
  }

  /** Python's `s.replace(c, "")` for a one-character `c`. */
  function RemoveChar(s: string, c: char): (r: string)
    ensures forall i :: 0 <= i < |r| ==> r[i] != c
    ensures |r| <= |s|
  {
    if |s| == 0 then ""
    else if s[0] == c then RemoveChar(s[1..], c)
    else [s[0]] + RemoveChar(s[1..], c)
  }

  /** Removing a character that does not occur changes nothing. */
  lemma {:induction false} RemoveAbsentChar(s: string, c: char)
    requires forall i :: 0 <= i < |s| ==> s[i] != c
    ensures RemoveChar(s, c) == s
  {
    if |s| > 0 {
      RemoveAbsentChar(s[1..], c);
    }
  }

  /** Removing a character keeps every other character: the multiset of the
      result is that of the input minus every `c`. */
  lemma {:induction false} RemoveCharKeepsOthers(s: string, c: char)
    ensures multiset(RemoveChar(s, c)) == multiset(s)[c := 0]
  {
    if |s| > 0 {
      RemoveCharKeepsOthers(s[1..], c);
      assert s == [s[0]] + s[1..];
    }
  }

  /** Removal works piecewise, so what is kept stays in its order: removing from
      `a + b` is removing from `a`, then from `b`. */
  lemma {:induction false} RemoveCharAppend(a: string, b: string, c: char)
    ensures RemoveChar(a + b, c) == RemoveChar(a, c) + RemoveChar(b, c)
    decreases |a|
  {
    if |a| > 0 {
      assert (a + b)[0] == a[0] && (a + b)[1..] == a[1..] + b;
      RemoveCharAppend(a[1..], b, c);
    } else {
      assert a + b == b;
    }
  }

  /** Python's `s.rpartition(sep)` for a one-character separator:
      `(head, sep, tail)` split at the last occurrence, or `("", "", s)`. */
  function RPartition(s: string, sep: char): (r: (string, string, string))
    ensures r.0 + r.1 + r.2 == s
    ensures forall i :: 0 <= i < |r.2| ==> r.2[i] != sep
    ensures r.1 == [sep] || (r.1 == "" && r.0 == "")
  {
    if |s| == 0 then ("", "", "")
    else if s[|s| - 1] == sep then (s[..|s| - 1], [sep], "")
    else
      var (h, m, t) := RPartition(s[..|s| - 1], sep);
      assert s == s[..|s| - 1] + [s[|s| - 1]];
      (h, m, t + [s[|s| - 1]])
  }
}
