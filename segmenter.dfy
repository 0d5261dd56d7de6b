/** The rationale segmenter: `rationale_to_steps` splits a rationale into
    sentences with one regular-expression split and keeps the sentences that
    hold enough space characters.

    The pattern `(?<!\w\.\w.)(?<![A-Z][a-z]\.)(?<=\.|\?)\s` matches exactly one
    whitespace character, so a split point is a position of the string, and
    the character at it is removed by the split. */
module Segmenter {
  import opened CharClasses

  /** Default of `max_spaces`. */
  const DefaultMaxSpaces: int := 2

  // ---------------------------------------------------------------------
  // The split rule
  // ---------------------------------------------------------------------

  /** `(?<!\w\.\w.)` fails at `i`: the four characters before `i` are a word
      character, a dot, a word character and any character but a newline
      (as in "e.g." or "U.S."). Too close to the start, it cannot match. */
  predicate AbbreviationBefore(s: string, i: int)
    requires 0 <= i <= |s|
  {
    4 <= i && IsWord(s[i - 4]) && s[i - 3] == '.' && IsWord(s[i - 2]) && IsAnyButNewline(s[i - 1])
  }

  /** `(?<![A-Z][a-z]\.)` fails at `i`: the three characters before `i` are an
      upper-case letter, a lower-case letter and a dot (as in "Mr."). */
  predicate TitleBefore(s: string, i: int)
    requires 0 <= i <= |s|
  {
    3 <= i && IsUpper(s[i - 3]) && IsLower(s[i - 2]) && s[i - 1] == '.'
  }

  /** `(?<=\.|\?)` holds at `i`: the character before `i` ends a sentence. */
  predicate TerminatorBefore(s: string, i: int)
    requires 0 <= i <= |s|
  {
    1 <= i && (s[i - 1] == '.' || s[i - 1] == '?')
  }

  /** The whole pattern matches the single character at `i`: a whitespace
      character right after a `.` or `?`, unless a lookbehind fires. */
  predicate IsSplitPoint(s: string, i: int)
    requires 0 <= i < |s|
    ensures IsSplitPoint(s, i) ==> 1 <= i && (s[i - 1] == '.' || s[i - 1] == '?') && IsSpace(s[i])
  {
    && !AbbreviationBefore(s, i)
    && !TitleBefore(s, i)
    && TerminatorBefore(s, i)
    && IsSpace(s[i])
  }

  /** The matched character is whitespace, so the pattern never matches two
      adjacent characters: of a run of whitespace after a terminator, only
      the first is consumed and the rest stay in the next piece. */
  lemma NoAdjacentSplitPoints(s: string, i: nat)
    requires i + 1 < |s| && IsSplitPoint(s, i)
    ensures !IsSplitPoint(s, i + 1)
  {
    SpaceIsNoOtherClass(s[i]);
  }

  // ---------------------------------------------------------------------
  // re.split, scanning left to right
  // ---------------------------------------------------------------------

  /** The pieces `re.split` produces from position `i` on, when the current
      piece began at `start`. */
  function SplitFrom(s: string, start: nat, i: nat): seq<string>
    requires start <= i <= |s|
    decreases |s| - i
  {
    if i == |s| then [s[start..]]
    else if IsSplitPoint(s, i) then [s[start..i]] + SplitFrom(s, i + 1, i + 1)
    else SplitFrom(s, start, i + 1)
  }

  /** `re.split(pattern, s)`: exactly the text between consecutive split
      points, one piece more than there are split points; the pieces
      interleaved with the removed characters give back the input. */
  function Split(s: string): (pieces: seq<string>)
    ensures pieces == PiecesFrom(s, 0, Cuts(s))
    ensures |pieces| == |Cuts(s)| + 1 && |Removed(s)| == |Cuts(s)|
    ensures Rejoin(pieces, Removed(s)) == s
  {
    SplitFromIsPieces(s, 0, 0);
    PiecesRejoin(s, 0, Cuts(s));
    SplitFrom(s, 0, 0)
  }

  // ---------------------------------------------------------------------
  // Reference description: the split positions and the text between them
  // ---------------------------------------------------------------------

  /** `cuts` is a strictly increasing list of positions in `[start, |s|)`. */
  ghost predicate ValidCuts(s: string, start: nat, cuts: seq<nat>) {
    && (forall k :: 0 <= k < |cuts| ==> start <= cuts[k] < |s|)
    && (forall a, b :: 0 <= a < b < |cuts| ==> cuts[a] < cuts[b])
  }

  /** The split points of `s` at or after `i`, in increasing order: exactly
      the positions where the pattern matches. */
  ghost function CutsFrom(s: string, i: nat): (cuts: seq<nat>)
    requires i <= |s|
    ensures ValidCuts(s, i, cuts)
    ensures forall c :: i <= c < |s| ==> (c in cuts <==> IsSplitPoint(s, c))
    decreases |s| - i
  {
    if i == |s| then []
    else if IsSplitPoint(s, i) then [i] + CutsFrom(s, i + 1)
    else CutsFrom(s, i + 1)
  }

  ghost function Cuts(s: string): seq<nat> {
    CutsFrom(s, 0)
  }

  /** The text from `start` to the first cut, from each cut to the next
      (the cut character itself excluded), and from the last cut to the end. */
  ghost function PiecesFrom(s: string, start: nat, cuts: seq<nat>): seq<string>
    requires start <= |s|
    requires ValidCuts(s, start, cuts)
    decreases |cuts|
  {
    if cuts == [] then [s[start..]]
    else [s[start..cuts[0]]] + PiecesFrom(s, cuts[0] + 1, cuts[1..])
  }

  /** The characters at the given positions: what the split removes. */
  ghost function CharsAt(s: string, cuts: seq<nat>): (chars: seq<char>)
    requires forall k :: 0 <= k < |cuts| ==> cuts[k] < |s|
    ensures |chars| == |cuts|
    decreases |cuts|
  {
    if cuts == [] then [] else [s[cuts[0]]] + CharsAt(s, cuts[1..])
  }

  /** The characters the split of `s` removes, in order. */
  ghost function Removed(s: string): seq<char> {
    CharsAt(s, Cuts(s))
  }

  /** Interleaves pieces with separators: p0 + c0 + p1 + c1 + ... + pn. */
  function Rejoin(pieces: seq<string>, seps: seq<char>): string
    requires |pieces| == |seps| + 1
    decreases |seps|
  {
    if seps == [] then pieces[0]
    else pieces[0] + [seps[0]] + Rejoin(pieces[1..], seps[1..])
  }

  lemma {:induction false} SplitFromIsPieces(s: string, start: nat, i: nat)
    requires start <= i <= |s|
    requires forall k :: start <= k < i ==> !IsSplitPoint(s, k)
    ensures SplitFrom(s, start, i) == PiecesFrom(s, start, CutsFrom(s, i))
    decreases |s| - i
  {
    if i == |s| {
    } else if IsSplitPoint(s, i) {
      SplitFromIsPieces(s, i + 1, i + 1);
      var cuts := CutsFrom(s, i);
      assert cuts[0] == i && cuts[1..] == CutsFrom(s, i + 1);
    } else {
      SplitFromIsPieces(s, start, i + 1);
    }
  }

  lemma {:induction false} PiecesRejoin(s: string, start: nat, cuts: seq<nat>)
    requires start <= |s|
    requires ValidCuts(s, start, cuts)
    ensures |PiecesFrom(s, start, cuts)| == |cuts| + 1
    ensures Rejoin(PiecesFrom(s, start, cuts), CharsAt(s, cuts)) == s[start..]
    decreases |cuts|
  {
    if cuts != [] {
      var c, rest := cuts[0], cuts[1..];
      PiecesRejoin(s, c + 1, rest);
      var pieces, chars := PiecesFrom(s, start, cuts), CharsAt(s, cuts);
      assert pieces[0] == s[start..c] && pieces[1..] == PiecesFrom(s, c + 1, rest);
      assert chars[0] == s[c] && chars[1..] == CharsAt(s, rest);
      calc {
        Rejoin(pieces, chars);
        s[start..c] + [s[c]] + Rejoin(PiecesFrom(s, c + 1, rest), CharsAt(s, rest));
        s[start..c] + [s[c]] + s[c + 1..];
        s[start..];
      }
    }
  }

  lemma {:induction false} CharsAtIndex(s: string, cuts: seq<nat>, k: nat)
    requires forall j :: 0 <= j < |cuts| ==> cuts[j] < |s|
    requires k < |cuts|
    ensures |CharsAt(s, cuts)| == |cuts| && CharsAt(s, cuts)[k] == s[cuts[k]]
    decreases |cuts|
  {
    if k > 0 {
      CharsAtIndex(s, cuts[1..], k - 1);
    } else {
      assert CharsAt(s, cuts) == [s[cuts[0]]] + CharsAt(s, cuts[1..]);
    }
  }

  /** Every removed character is a whitespace character right after a `.`
      or `?`, at a position the pattern matches; and every position the
      pattern matches is removed. */
  lemma RemovedAreSentenceBreaks(s: string)
    ensures |Removed(s)| == |Cuts(s)|
    ensures forall k :: 0 <= k < |Cuts(s)| ==>
      var c := Cuts(s)[k];
      && 1 <= c < |s| && Removed(s)[k] == s[c]
      && IsSpace(s[c]) && (s[c - 1] == '.' || s[c - 1] == '?')
    ensures forall i :: 0 <= i < |s| && IsSplitPoint(s, i) ==> i in Cuts(s)
  {
    forall k | 0 <= k < |Cuts(s)|
      ensures |Removed(s)| == |Cuts(s)| && Removed(s)[k] == s[Cuts(s)[k]]
    {
      CharsAtIndex(s, Cuts(s), k);
    }
    if Cuts(s) == [] {
      assert Removed(s) == [];
    } else {
      CharsAtIndex(s, Cuts(s), 0);
    }
    forall k | 0 <= k < |Cuts(s)|
      ensures IsSplitPoint(s, Cuts(s)[k])
    {
      assert Cuts(s)[k] in Cuts(s);
    }
  }

  /** No split after an abbreviation such as "e.g." or "U.S.", or after a
      title such as "Mr.". */
  lemma NoSplitAfterAbbreviation(s: string, i: nat)
    requires i < |s|
    requires AbbreviationBefore(s, i) || TitleBefore(s, i)
    ensures i !in Cuts(s)
  {
  }

  // ---------------------------------------------------------------------
  // The filter
  // ---------------------------------------------------------------------

  /** `sentence.count(" ")`: the number of occurrences of U+0020 alone. */
  function CountSpaces(s: string): (n: nat)
    ensures n <= |s|
    ensures n == 0 <==> ' ' !in s
  {
    multiset(s)[' ']
  }

  /** Two distinct space characters make a count of at least two. */
  lemma TwoSpacesAt(s: string, i: nat, j: nat)
    requires i < j < |s| && s[i] == ' ' && s[j] == ' '
    ensures CountSpaces(s) >= 2
  {
    assert s == s[..i] + [s[i]] + s[i + 1..j] + [s[j]] + s[j + 1..];
  }

  /** `a` is `b` with some elements left out, the rest kept in order. */
  ghost predicate IsSubsequence<T>(a: seq<T>, b: seq<T>)
    decreases |b|
  {
    if a == [] then true
    else if b == [] then false
    else (a[0] == b[0] && IsSubsequence(a[1..], b[1..])) || IsSubsequence(a, b[1..])
  }

  /** The list comprehension keeping the pieces with at least `maxSpaces`
      spaces: the result is the order-preserving subsequence of the passing
      pieces, each passing piece kept as often as it occurs. */
  function KeepSteps(pieces: seq<string>, maxSpaces: int): (steps: seq<string>)
    ensures forall k :: 0 <= k < |steps| ==> CountSpaces(steps[k]) >= maxSpaces
    ensures forall x :: multiset(steps)[x] == if CountSpaces(x) >= maxSpaces then multiset(pieces)[x] else 0
    ensures IsSubsequence(steps, pieces)
    decreases |pieces|
  {
    if pieces == [] then []
    else
      assert pieces == [pieces[0]] + pieces[1..];
      var rest := KeepSteps(pieces[1..], maxSpaces);
      if CountSpaces(pieces[0]) >= maxSpaces then
        assert ([pieces[0]] + rest)[1..] == rest;
        [pieces[0]] + rest
      else
        rest
  }

  /** When every piece passes, the filter keeps them all. */
  lemma {:induction false} KeepStepsKeepsAllPassing(pieces: seq<string>, maxSpaces: int)
    requires forall k :: 0 <= k < |pieces| ==> CountSpaces(pieces[k]) >= maxSpaces
    ensures KeepSteps(pieces, maxSpaces) == pieces
    decreases |pieces|
  {
    if pieces != [] {
      KeepStepsKeepsAllPassing(pieces[1..], maxSpaces);
      assert pieces == [pieces[0]] + pieces[1..];
    }
  }

  /** `rationale_to_steps(rationale, max_spaces=2)`. */
  function RationaleToSteps(rationale: string, maxSpaces: int := DefaultMaxSpaces): (steps: seq<string>)
    ensures forall k :: 0 <= k < |steps| ==> CountSpaces(steps[k]) >= maxSpaces
    ensures maxSpaces >= 1 ==> forall k :: 0 <= k < |steps| ==> steps[k] != []
  {
    KeepSteps(Split(rationale), maxSpaces)
  }

  /** The steps are exactly the split pieces that pass the filter, in order
      and with their multiplicities. */
  lemma RationaleToStepsSpec(rationale: string, maxSpaces: int)
    ensures IsSubsequence(RationaleToSteps(rationale, maxSpaces), PiecesFrom(rationale, 0, Cuts(rationale)))
    ensures forall x ::
      multiset(RationaleToSteps(rationale, maxSpaces))[x] ==
      (if CountSpaces(x) >= maxSpaces then multiset(PiecesFrom(rationale, 0, Cuts(rationale)))[x] else 0)
  {
  }

  // ---------------------------------------------------------------------
  // Idempotence
  // ---------------------------------------------------------------------

  /** Inside a slice that starts the string or follows a whitespace
      character, the pattern matches exactly where it matches in the whole
      string: none of the three lookbehinds can reach past a whitespace
      character with a different outcome. */
  lemma SplitPointIsLocal(s: string, a: nat, b: nat, j: nat)
    requires a <= b <= |s|
    requires a == 0 || IsSpace(s[a - 1])
    requires j < b - a
    ensures IsSplitPoint(s[a..b], j) <==> IsSplitPoint(s, a + j)
  {
    var t := s[a..b];
    if a > 0 {
      SpaceIsNoOtherClass(s[a - 1]);
    }
    assert forall k :: 0 <= k < j ==> t[k] == s[a + k];
    assert t[j] == s[a + j];
  }

  lemma {:induction false} NoSplitPointSinglePiece(t: string, start: nat, i: nat)
    requires start <= i <= |t|
    requires forall k :: i <= k < |t| ==> !IsSplitPoint(t, k)
    ensures SplitFrom(t, start, i) == [t[start..]]
    decreases |t| - i
  {
    if i < |t| {
      NoSplitPointSinglePiece(t, start, i + 1);
    }
  }

  /** A slice of `s` that starts the string or follows a whitespace
      character and holds no split point of `s` splits into itself alone. */
  lemma CleanSliceSplitsToItself(s: string, a: nat, b: nat)
    requires a <= b <= |s|
    requires a == 0 || IsSpace(s[a - 1])
    requires forall k :: a <= k < b ==> !IsSplitPoint(s, k)
    ensures Split(s[a..b]) == [s[a..b]]
  {
    var t := s[a..b];
    forall j | 0 <= j < |t|
      ensures !IsSplitPoint(t, j)
    {
      SplitPointIsLocal(s, a, b, j);
    }
    NoSplitPointSinglePiece(t, 0, 0);
  }

  lemma {:induction false} PiecesSplitToThemselves(s: string, start: nat, i: nat)
    requires start <= i <= |s|
    requires start == 0 || IsSpace(s[start - 1])
    requires forall k :: start <= k < i ==> !IsSplitPoint(s, k)
    ensures forall p :: p in SplitFrom(s, start, i) ==> Split(p) == [p]
    decreases |s| - i
  {
    if i == |s| {
      CleanSliceSplitsToItself(s, start, |s|);
      assert s[start..|s|] == s[start..];
    } else if IsSplitPoint(s, i) {
      CleanSliceSplitsToItself(s, start, i);
      PiecesSplitToThemselves(s, i + 1, i + 1);
    } else {
      PiecesSplitToThemselves(s, start, i + 1);
    }
  }

  /** Segmenting any returned step again yields exactly that step. */
  lemma SegmentationIdempotent(rationale: string, maxSpaces: int)
    ensures forall step :: step in RationaleToSteps(rationale, maxSpaces) ==>
      RationaleToSteps(step, maxSpaces) == [step]
  {
    PiecesSplitToThemselves(rationale, 0, 0);
    var steps := RationaleToSteps(rationale, maxSpaces);
    forall step | step in steps
      ensures RationaleToSteps(step, maxSpaces) == [step]
    {
      assert multiset(steps)[step] > 0;
      assert step in Split(rationale);
      assert KeepSteps([step], maxSpaces) == [step] + KeepSteps([], maxSpaces);
    }
  }

  // ---------------------------------------------------------------------
  // Sentences joined by single spaces
  // ---------------------------------------------------------------------

  /** A sentence `body + [p]` with no `.` or `?` in `body`, followed by a
      space and more text, is split off as the first piece when the last
      characters of the sentence do not look like an abbreviation. */
  lemma SplitFirstSentence(body: string, p: char, rest: string)
    requires '.' !in body && '?' !in body
    requires p == '.' || p == '?'
    requires |body| >= 3 && !IsUpper(body[|body| - 2])
    ensures Split(body + [p] + [' '] + rest) == [body + [p]] + Split(rest)
  {
    var s := body + [p] + [' '] + rest;
    var n := |body| + 1;
    forall k | 0 <= k < n
      ensures !IsSplitPoint(s, k)
    {
      if 1 <= k {
        assert s[k - 1] == body[k - 1];
      }
    }
    assert s[n - 1] == p && s[n - 2] == body[|body| - 1] && s[n - 3] == body[|body| - 2];
    assert IsSplitPoint(s, n);
    NoSplitUntil(s, 0, 0, n);
    assert s[..n] == body + [p];
    assert s[n + 1..] == rest;
    SuffixAfterSpace(s, n + 1);
  }

  lemma {:induction false} NoSplitUntil(s: string, start: nat, i: nat, j: nat)
    requires start <= i <= j <= |s|
    requires forall k :: i <= k < j ==> !IsSplitPoint(s, k)
    ensures SplitFrom(s, start, i) == SplitFrom(s, start, j)
    decreases j - i
  {
    if i < j {
      NoSplitUntil(s, start, i + 1, j);
    }
  }

  /** After a whitespace character, the pieces from position `a` on are the
      pieces of the suffix on its own. */
  lemma SuffixAfterSpace(s: string, a: nat)
    requires 1 <= a <= |s| && IsSpace(s[a - 1])
    ensures SplitFrom(s, a, a) == Split(s[a..])
  {
    SuffixAfterSpaceFrom(s, a, a, a);
  }

  lemma {:induction false} SuffixAfterSpaceFrom(s: string, a: nat, start: nat, i: nat)
    requires 1 <= a <= start <= i <= |s| && IsSpace(s[a - 1])
    ensures SplitFrom(s, start, i) == SplitFrom(s[a..], start - a, i - a)
    decreases |s| - i
  {
    var t := s[a..];
    if i == |s| {
      assert s[start..] == t[start - a..];
    } else {
      SplitPointIsLocal(s, a, |s|, i - a);
      assert t == s[a..|s|];
      if IsSplitPoint(s, i) {
        SuffixAfterSpaceFrom(s, a, i + 1, i + 1);
        assert s[start..i] == t[start - a..i - a];
      } else {
        SuffixAfterSpaceFrom(s, a, start, i + 1);
      }
    }
  }

  /** A sentence with no `.` or `?` before its final character is not split. */
  lemma SingleSentence(body: string, p: char)
    requires '.' !in body && '?' !in body
    ensures Split(body + [p]) == [body + [p]]
  {
    var s := body + [p];
    forall k | 0 <= k < |s|
      ensures !IsSplitPoint(s, k)
    {
      if 1 <= k {
        assert s[k - 1] == body[k - 1];
      }
    }
    NoSplitPointSinglePiece(s, 0, 0);
  }
}
