/**
 * The three regular expressions of the adapter all have one shape: literal
 * text with lazy `(.*?)` groups in between, for example
 * `<h2>(?<type>.*?) :</h2>`. This module models how the .NET regex engine
 * matches that shape without the compiled-regex machinery: the leftmost start
 * position wins, each lazy group tries the shortest text first and grows one
 * character at a time, `.` matches anything but a newline, and a group that
 * did not match has the value "".
 *
 * A pattern is written as its literals: `[l0, l1, ..., ln]` stands for
 * `l0(.*?)l1(.*?)...(.*?)ln`, with n groups.
 */
module LazyRegex {
  import opened Wrappers
  import opened Text

  predicate NoNewline(t: string)
  {
    forall k :: 0 <= k < |t| ==> t[k] != '\n'
  }

  /** The text the pattern lits matches when its groups take the values groups. */
  function Interleave(lits: seq<string>, groups: seq<string>): string
    requires |groups| + 1 == |lits|
    decreases |groups|
  {
    if |groups| == 0 then lits[0]
    else lits[0] + groups[0] + Interleave(lits[1..], groups[1..])
  }

  /** The groups of the match of lits that starts exactly at pos, if any. */
  function MatchAt(s: string, pos: nat, lits: seq<string>): (r: Option<seq<string>>)
    requires |lits| >= 1 && pos <= |s|
    ensures r.Some? ==> |r.value| + 1 == |lits|
    decreases |lits|, 0, 0
  {
    if !StartsAt(s, pos, lits[0]) then None
    else if |lits| == 1 then Some([])
    else Extend(s, pos + |lits[0]|, 0, lits[1..])
  }

  /** A lazy group that starts at start and has so far taken len characters,
      followed by the rest of the pattern. */
  function Extend(s: string, start: nat, len: nat, lits: seq<string>): (r: Option<seq<string>>)
    requires |lits| >= 1 && start + len <= |s|
    ensures r.Some? ==> |r.value| == |lits|
    decreases |lits|, 1, |s| - (start + len)
  {
    match MatchAt(s, start + len, lits)
    case Some(groups) => Some([s[start..start + len]] + groups)
    case None =>
      if start + len < |s| && s[start + len] != '\n' then Extend(s, start, len + 1, lits)
      else None
  }

  /** The leftmost match at or after from: its start and its groups. */
  function FirstMatchFrom(s: string, lits: seq<string>, from: nat): (r: Option<(nat, seq<string>)>)
    requires |lits| >= 1 && from <= |s|
    ensures r.Some? ==> from <= r.value.0 <= |s| && MatchAt(s, r.value.0, lits) == Some(r.value.1)
    ensures r.Some? ==> forall j :: from <= j < r.value.0 ==> MatchAt(s, j, lits).None?
    ensures r.None? ==> forall j :: from <= j <= |s| ==> MatchAt(s, j, lits).None?
    decreases |s| - from
  {
    match MatchAt(s, from, lits)
    case Some(groups) => Some((from, groups))
    case None => if from < |s| then FirstMatchFrom(s, lits, from + 1) else None
  }

  /** Regex.Match(s): the leftmost match in the whole input. */
  function FirstMatch(s: string, lits: seq<string>): Option<(nat, seq<string>)>
    requires |lits| >= 1
  {
    FirstMatchFrom(s, lits, 0)
  }

  /** Match.Groups[k].Value: the k-th group of the leftmost match, or "" when
      nothing matched. */
  function GroupValue(s: string, lits: seq<string>, k: nat): string
    requires |lits| >= 1
  {
    match FirstMatch(s, lits)
    case Some((_, groups)) => if k < |groups| then groups[k] else ""
    case None => ""
  }

  lemma StartsAtConcat(s: string, pos: int, a: string, b: string)
    requires StartsAt(s, pos, a) && StartsAt(s, pos + |a|, b)
    ensures StartsAt(s, pos, a + b)
  {
    assert s[pos..pos + |a + b|] == s[pos..pos + |a|] + s[pos + |a|..pos + |a| + |b|];
  }

  /** A match of several literals that starts with the first one goes on with
      the first lazy group. */
  lemma MatchAtOpens(s: string, pos: nat, lits: seq<string>)
    requires |lits| >= 2 && pos <= |s| && StartsAt(s, pos, lits[0])
    ensures MatchAt(s, pos, lits) == Extend(s, pos + |lits[0]|, 0, lits[1..])
  {
  }

  /** One differing character rules a literal out at a position. */
  lemma MismatchNotStartsAt(s: string, pos: nat, lit: string, k: nat)
    requires k < |lit| && pos + k < |s| && s[pos + k] != lit[k]
    ensures !StartsAt(s, pos, lit)
  {
    if pos + |lit| <= |s| {
      assert s[pos..pos + |lit|][k] == s[pos + k];
    }
  }

  lemma StartsAtSplit(s: string, pos: int, a: string, b: string)
    requires StartsAt(s, pos, a + b)
    ensures StartsAt(s, pos, a) && StartsAt(s, pos + |a|, b)
  {
    assert s[pos..pos + |a|] == (a + b)[..|a|];
    assert s[pos + |a|..pos + |a| + |b|] == (a + b)[|a|..];
  }

  /** What a match at pos finds is the pattern with newline-free groups. */
  lemma {:induction false} MatchAtSound(s: string, pos: nat, lits: seq<string>)
    requires |lits| >= 1 && pos <= |s|
    requires MatchAt(s, pos, lits).Some?
    ensures var g := MatchAt(s, pos, lits).value;
      |g| + 1 == |lits| && StartsAt(s, pos, Interleave(lits, g)) &&
      forall k :: 0 <= k < |g| ==> NoNewline(g[k])
    decreases |lits|, 0, 0
  {
    if |lits| > 1 {
      var start := pos + |lits[0]|;
      var tail := lits[1..];
      assert s[start..start] == [];
      ExtendSound(s, start, 0, tail);
      var g := Extend(s, start, 0, tail).value;
      assert MatchAt(s, pos, lits) == Some(g);
      var r := Interleave(tail, g[1..]);
      assert StartsAt(s, start, g[0]);
      StartsAtConcat(s, pos, lits[0], g[0]);
      StartsAtConcat(s, pos, lits[0] + g[0], r);
    }
  }

  lemma {:induction false} ExtendSound(s: string, start: nat, len: nat, lits: seq<string>)
    requires |lits| >= 1 && start + len <= |s|
    requires NoNewline(s[start..start + len])
    requires Extend(s, start, len, lits).Some?
    ensures var g := Extend(s, start, len, lits).value;
      |g| == |lits| && start + |g[0]| <= |s| && g[0] == s[start..start + |g[0]|] &&
      NoNewline(g[0]) && StartsAt(s, start + |g[0]|, Interleave(lits, g[1..])) &&
      forall k :: 1 <= k < |g| ==> NoNewline(g[k])
    decreases |lits|, 1, |s| - (start + len)
  {
    match MatchAt(s, start + len, lits)
    case Some(groups) =>
      MatchAtSound(s, start + len, lits);
      var g := Extend(s, start, len, lits).value;
      assert g[1..] == groups;
    case None =>
      assert s[start..start + len + 1] == s[start..start + len] + [s[start + len]];
      ExtendSound(s, start, len + 1, lits);
  }

  /** Conversely, wherever the pattern occurs with newline-free groups, it matches. */
  lemma {:induction false} MatchAtComplete(s: string, pos: nat, lits: seq<string>, g: seq<string>)
    requires |lits| >= 1 && pos <= |s| && |g| + 1 == |lits|
    requires forall k :: 0 <= k < |g| ==> NoNewline(g[k])
    requires StartsAt(s, pos, Interleave(lits, g))
    ensures MatchAt(s, pos, lits).Some?
    decreases |lits|, 0, 0
  {
    if |lits| > 1 {
      assert Interleave(lits, g) == lits[0] + (g[0] + Interleave(lits[1..], g[1..]));
      StartsAtSplit(s, pos, lits[0], g[0] + Interleave(lits[1..], g[1..]));
      ExtendComplete(s, pos + |lits[0]|, 0, lits[1..], g);
    } else {
      assert Interleave(lits, g) == lits[0];
    }
  }

  lemma {:induction false} ExtendComplete(s: string, start: nat, len: nat, lits: seq<string>, g: seq<string>)
    requires |lits| >= 1 && start + len <= |s| && |g| == |lits|
    requires len <= |g[0]|
    requires forall k :: 0 <= k < |g| ==> NoNewline(g[k])
    requires StartsAt(s, start, g[0] + Interleave(lits, g[1..]))
    ensures Extend(s, start, len, lits).Some?
    decreases |lits|, 1, |s| - (start + len)
  {
    StartsAtSplit(s, start, g[0], Interleave(lits, g[1..]));
    if MatchAt(s, start + len, lits).None? {
      if len == |g[0]| {
        MatchAtComplete(s, start + len, lits, g[1..]);
      } else {
        assert s[start + len] == g[0][len];
        ExtendComplete(s, start, len + 1, lits, g);
      }
    }
  }

  /** A lazy group is as short as the rest of the pattern allows: no shorter
      length, from len on, lets the rest of the pattern match. */
  lemma {:induction false} ExtendShortest(s: string, start: nat, len: nat, lits: seq<string>)
    requires |lits| >= 1 && start + len <= |s|
    requires Extend(s, start, len, lits).Some?
    ensures var g := Extend(s, start, len, lits).value;
      |g| >= 1 && len <= |g[0]| && start + |g[0]| <= |s| &&
      forall p :: start + len <= p < start + |g[0]| ==> MatchAt(s, p, lits).None?
    decreases |s| - (start + len)
  {
    if MatchAt(s, start + len, lits).None? {
      ExtendShortest(s, start, len + 1, lits);
    }
  }

  /** For a pattern with one group, the group ends at the first closing literal. */
  lemma ShortestSingleGroup(s: string, pos: nat, open: string, close: string)
    requires pos <= |s| && MatchAt(s, pos, [open, close]).Some?
    ensures var g := MatchAt(s, pos, [open, close]).value;
      |g| == 1 && forall p :: pos + |open| <= p < pos + |open| + |g[0]| ==> !StartsAt(s, p, close)
  {
    var lits := [open, close];
    assert lits[1..] == [close];
    ExtendShortest(s, pos + |open|, 0, [close]);
    MatchAtSound(s, pos, lits);
    var g := MatchAt(s, pos, lits).value;
    assert g == Extend(s, pos + |open|, 0, [close]).value;
    forall p | pos + |open| <= p < pos + |open| + |g[0]| ensures !StartsAt(s, p, close) {
      assert MatchAt(s, p, [close]).None?;
    }
  }

  /** The converse of ExtendShortest: a newline-free group x at start, after
      which the rest of the pattern matches with groups rest while it matches
      at no shorter length, is what the lazy group takes. */
  lemma {:induction false} ExtendExact(s: string, start: nat, len: nat, lits: seq<string>, x: string, rest: seq<string>)
    requires |lits| >= 1 && len <= |x| && start + |x| <= |s|
    requires s[start..start + |x|] == x && NoNewline(x)
    requires forall p :: start + len <= p < start + |x| ==> MatchAt(s, p, lits).None?
    requires MatchAt(s, start + |x|, lits) == Some(rest)
    ensures Extend(s, start, len, lits) == Some([x] + rest)
    decreases |x| - len
  {
    if len < |x| {
      assert s[start + len] == x[len];
      ExtendExact(s, start, len + 1, lits, x, rest);
    }
  }

  /** The closing literal first starts at the end of x in x + close: a lazy
      group over x stops exactly there. */
  predicate ClosesOnlyAtEnd(x: string, close: string)
  {
    forall p :: 0 <= p < |x| ==> !StartsAt(x + close, p, close)
  }

  /** A group text that lacks the closing literal's first character closes
      only at its end. */
  lemma FirstCharAbsentCloses(x: string, close: string)
    requires |close| > 0 && close[0] !in x
    ensures ClosesOnlyAtEnd(x, close)
  {
    forall p | 0 <= p < |x| ensures !StartsAt(x + close, p, close) {
      assert (x + close)[p] == x[p];
      MismatchNotStartsAt(x + close, p, close, 0);
    }
  }

  /** Inside a literal w found at start, a literal c starts at start + k
      exactly when it starts at k in w. */
  lemma StartsAtWithin(s: string, start: nat, w: string, k: nat, c: string)
    requires StartsAt(s, start, w) && k + |c| <= |w|
    ensures StartsAt(s, start + k, c) <==> StartsAt(w, k, c)
  {
    var t, u := s[start + k..start + k + |c|], w[k..k + |c|];
    forall j | 0 <= j < |c| ensures t[j] == u[j] {
      assert s[start..start + |w|][k + j] == s[start + k + j];
    }
    assert t == u;
  }

  /** A lazy group over a text in which the next literal starts only at its
      end, followed by a match of the rest, takes exactly that text. */
  lemma GroupExactBefore(s: string, start: nat, x: string, lits: seq<string>, rest: seq<string>)
    requires |lits| >= 1 && NoNewline(x) && ClosesOnlyAtEnd(x, lits[0])
    requires StartsAt(s, start, x + lits[0])
    requires MatchAt(s, start + |x|, lits) == Some(rest)
    ensures Extend(s, start, 0, lits) == Some([x] + rest)
  {
    var w := x + lits[0];
    StartsAtSplit(s, start, x, lits[0]);
    forall p | start <= p < start + |x| ensures MatchAt(s, p, lits).None? {
      StartsAtWithin(s, start, w, p - start, lits[0]);
    }
    ExtendExact(s, start, 0, lits, x, rest);
  }

  /** A match at i with no match before it is the leftmost match. */
  lemma FirstMatchAt(s: string, lits: seq<string>, i: nat, g: seq<string>)
    requires |lits| >= 1 && i <= |s| && MatchAt(s, i, lits) == Some(g)
    requires forall j :: 0 <= j < i ==> MatchAt(s, j, lits).None?
    ensures FirstMatch(s, lits) == Some((i, g))
  {
  }

  /** The value of a group of the leftmost match: it comes from a match at some
      position, and no earlier position matches. */
  lemma GroupValueOfFirstMatch(s: string, lits: seq<string>, k: nat)
    requires |lits| >= 1 && k + 1 < |lits|
    ensures match FirstMatch(s, lits)
      case Some((i, g)) =>
        GroupValue(s, lits, k) == g[k] && StartsAt(s, i, Interleave(lits, g)) &&
        (forall j :: 0 <= j < i ==> MatchAt(s, j, lits).None?)
      case None => GroupValue(s, lits, k) == ""
  {
    if FirstMatch(s, lits).Some? {
      MatchAtSound(s, FirstMatch(s, lits).value.0, lits);
    }
  }

  /** When the pattern occurs nowhere, every group has the value "". */
  lemma {:induction false} NoMatchGivesEmpty(s: string, lits: seq<string>, k: nat)
    requires |lits| >= 1
    requires forall i :: !StartsAt(s, i, lits[0])
    ensures GroupValue(s, lits, k) == ""
  {
    assert FirstMatch(s, lits).None?;
  }
}
