/** `replaceAll` of src/utility.ts: `input.split(pattern).join(replacement)`. */
module Utility {
  import opened JsString

  function ReplaceAll(input: string, pattern: string, replacement: string): string {
    Join(Split(input, pattern), replacement)
  }

  /**
   * Number of non-overlapping occurrences of a non-empty `pattern` found by a
   * left-to-right scan, the occurrences `split` cuts at.
   */
  function Occurrences(s: string, pattern: string): nat
    requires pattern != []
    decreases |s|
  {
    if pattern <= s then 1 + Occurrences(s[|pattern|..], pattern)
    else if s == [] then 0
    else Occurrences(s[1..], pattern)
  }

  /**
   * Reference for an empty pattern: `replacement` between each pair of
   * adjacent characters, built from the right.
   */
  function InsertBetween(s: string, replacement: string): string
    decreases |s|
  {
    if |s| <= 1 then s
    else InsertBetween(s[..|s| - 1], replacement) + replacement + [s[|s| - 1]]
  }

  lemma {:induction false} JoinAppend(parts: seq<string>, x: string, sep: string)
    requires parts != []
    ensures Join(parts + [x], sep) == Join(parts, sep) + sep + x
    decreases |parts|
  {
    if |parts| == 1 {
      assert parts + [x] == [parts[0], x];
    } else {
      assert (parts + [x])[1..] == parts[1..] + [x];
      JoinAppend(parts[1..], x, sep);
    }
  }

  /** Splitting at the pattern and joining with the pattern again restores the text. */
  lemma {:induction false} JoinSplitWithSeparator(s: string, pattern: string, cur: string)
    requires pattern != []
    ensures Join(SplitFrom(s, pattern, cur), pattern) == cur + s
    decreases |s|
  {
    if pattern <= s {
      var rest := s[|pattern|..];
      JoinSplitWithSeparator(rest, pattern, []);
      JoinPrepend(cur, SplitFrom(rest, pattern, []), pattern);
      assert s == pattern + rest;
    } else if s == [] {
    } else {
      JoinSplitWithSeparator(s[1..], pattern, cur + [s[0]]);
      assert cur + [s[0]] + s[1..] == cur + s;
    }
  }

  /** `s.split(sep).join(sep) == s` for a non-empty separator. */
  lemma SplitJoinsBack(s: string, sep: string)
    requires sep != []
    ensures Join(Split(s, sep), sep) == s
  {
    JoinSplitWithSeparator(s, sep, []);
  }

  /** No occurrence of `sep` in `cur + s` starts inside `cur`, the piece collected so far. */
  ghost predicate NoSeparatorStartsIn(cur: string, s: string, sep: string) {
    forall p :: 0 <= p < |cur| ==> !(sep <= (cur + s)[p..])
  }

  /** A piece in which no occurrence of the separator starts does not contain it. */
  lemma {:induction false} PieceWithoutSeparator(cur: string, s: string, sep: string)
    requires sep != [] && NoSeparatorStartsIn(cur, s, sep)
    ensures !Contains(cur, sep)
    decreases |cur|
  {
    if cur != [] {
      assert (cur + s)[0..] == cur + s;
      assert !(sep <= cur);
      assert NoSeparatorStartsIn(cur[1..], s, sep) by {
        forall p | 0 <= p < |cur[1..]| ensures !(sep <= (cur[1..] + s)[p..]) {
          assert (cur[1..] + s)[p..] == (cur + s)[p + 1..];
        }
      }
      PieceWithoutSeparator(cur[1..], s, sep);
    }
  }

  lemma {:induction false} SplitFromAvoidsSeparator(s: string, sep: string, cur: string)
    requires sep != [] && NoSeparatorStartsIn(cur, s, sep)
    ensures forall i :: 0 <= i < |SplitFrom(s, sep, cur)| ==> !Contains(SplitFrom(s, sep, cur)[i], sep)
    decreases |s|
  {
    PieceWithoutSeparator(cur, s, sep);
    if sep <= s {
      SplitFromAvoidsSeparator(s[|sep|..], sep, []);
    } else if s != [] {
      assert cur + [s[0]] + s[1..] == cur + s;
      assert (cur + s)[|cur|..] == s;
      SplitFromAvoidsSeparator(s[1..], sep, cur + [s[0]]);
    }
  }

  /** No piece of `s.split(sep)` contains the separator. */
  lemma SplitPiecesAvoidSeparator(s: string, sep: string)
    requires sep != []
    ensures forall i :: 0 <= i < |Split(s, sep)| ==> !Contains(Split(s, sep)[i], sep)
  {
    SplitFromAvoidsSeparator(s, sep, []);
  }

  lemma {:induction false} JoinSplitLength(s: string, pattern: string, cur: string, replacement: string)
    requires pattern != []
    ensures |Join(SplitFrom(s, pattern, cur), replacement)|
            == |cur| + |s| + Occurrences(s, pattern) * (|replacement| - |pattern|)
    decreases |s|
  {
    var d := |replacement| - |pattern|;
    if pattern <= s {
      var rest := s[|pattern|..];
      var tail := SplitFrom(rest, pattern, []);
      var o := Occurrences(rest, pattern);
      assert SplitFrom(s, pattern, cur) == [cur] + tail;
      JoinSplitLength(rest, pattern, [], replacement);
      JoinPrepend(cur, tail, replacement);
      assert |Join(tail, replacement)| == |rest| + o * d;
      assert Occurrences(s, pattern) == 1 + o;
      Distribute(o, d);
    } else if s == [] {
    } else {
      assert SplitFrom(s, pattern, cur) == SplitFrom(s[1..], pattern, cur + [s[0]]);
      JoinSplitLength(s[1..], pattern, cur + [s[0]], replacement);
      assert Occurrences(s, pattern) == Occurrences(s[1..], pattern);
    }
  }

  lemma Distribute(o: int, d: int)
    ensures (1 + o) * d == d + o * d
  {
  }

  lemma {:induction false} SplitWithoutOccurrence(s: string, pattern: string, cur: string)
    requires pattern != [] && !Contains(s, pattern)
    ensures SplitFrom(s, pattern, cur) == [cur + s]
    decreases |s|
  {
    if s == [] {
      assert cur + s == cur;
    } else {
      SplitWithoutOccurrence(s[1..], pattern, cur + [s[0]]);
      assert cur + [s[0]] + s[1..] == cur + s;
    }
  }

  /** A piece free of a one-character separator is scanned into the current piece whole. */
  lemma {:induction false} SplitFromAfterPiece(x: string, rest: string, sep: string, cur: string)
    requires |sep| == 1 && !Contains(x, sep)
    ensures SplitFrom(x + rest, sep, cur) == SplitFrom(rest, sep, cur + x)
    decreases |x|
  {
    if x == [] {
      assert x + rest == rest && cur + x == cur;
    } else {
      assert !(sep <= x);
      assert (x + rest)[1..] == x[1..] + rest;
      SplitFromAfterPiece(x[1..], rest, sep, cur + [x[0]]);
      assert cur + [x[0]] + x[1..] == cur + x;
    }
  }

  lemma {:induction false} SplitFromJoin(names: seq<string>, sep: string, cur: string)
    requires |sep| == 1 && names != []
    requires forall i :: 0 <= i < |names| ==> !Contains(names[i], sep)
    ensures SplitFrom(Join(names, sep), sep, cur) == [cur + names[0]] + names[1..]
    decreases |names|
  {
    if |names| == 1 {
      SplitFromAfterPiece(names[0], [], sep, cur);
      assert names[0] + [] == names[0];
    } else {
      var tail := Join(names[1..], sep);
      assert Join(names, sep) == names[0] + (sep + tail);
      SplitFromAfterPiece(names[0], sep + tail, sep, cur);
      assert (sep + tail)[|sep|..] == tail;
      SplitFromJoin(names[1..], sep, []);
      assert [] + names[1..][0] == names[1];
      assert [names[1]] + names[2..] == names[1..];
    }
  }

  /** Joining names free of a one-character separator and splitting again gives the names back. */
  lemma SplitJoin(names: seq<string>, sep: string)
    requires |sep| == 1 && names != []
    requires forall i :: 0 <= i < |names| ==> !Contains(names[i], sep)
    ensures Split(Join(names, sep), sep) == names
  {
    SplitFromJoin(names, sep, []);
    assert [] + names[0] == names[0];
  }

  /** Text in which the pattern does not occur comes back unchanged. */
  lemma ReplaceAllWithoutOccurrence(input: string, pattern: string, replacement: string)
    requires !Contains(input, pattern)
    ensures ReplaceAll(input, pattern, replacement) == input
  {
    assert pattern != [];
    SplitWithoutOccurrence(input, pattern, []);
  }

  /** Replacing a pattern by itself is the identity, also for the empty pattern. */
  lemma ReplaceAllBySelf(input: string, pattern: string)
    ensures ReplaceAll(input, pattern, pattern) == input
  {
    if pattern == [] {
      ReplaceAllEmptyPattern(input, []);
      InsertNothing(input);
    } else {
      SplitJoinsBack(input, pattern);
    }
  }

  lemma {:induction false} InsertNothing(s: string)
    ensures InsertBetween(s, []) == s
    decreases |s|
  {
    if |s| > 1 {
      InsertNothing(s[..|s| - 1]);
      assert s[..|s| - 1] + [s[|s| - 1]] == s;
    }
  }

  /** Each replaced occurrence changes the length by |replacement| - |pattern|. */
  lemma ReplaceAllLength(input: string, pattern: string, replacement: string)
    requires pattern != []
    ensures |ReplaceAll(input, pattern, replacement)|
            == |input| + Occurrences(input, pattern) * (|replacement| - |pattern|)
  {
    JoinSplitLength(input, pattern, [], replacement);
  }

  /** The empty text stays empty, whatever the pattern. */
  lemma ReplaceAllOfEmpty(pattern: string, replacement: string)
    ensures ReplaceAll([], pattern, replacement) == []
  {
  }

  /** An empty pattern inserts the replacement between adjacent characters and nowhere else. */
  lemma {:induction false} ReplaceAllEmptyPattern(input: string, replacement: string)
    ensures ReplaceAll(input, [], replacement) == InsertBetween(input, replacement)
    decreases |input|
  {
    var n := |input|;
    if n == 1 {
      assert input == [input[0]];
      assert Split(input, []) == [input];
    } else if n > 1 {
      var init := input[..n - 1];
      ReplaceAllEmptyPattern(init, replacement);
      assert Split(input, []) == Split(init, []) + [[input[n - 1]]];
      JoinAppend(Split(init, []), [input[n - 1]], replacement);
    }
  }
}
