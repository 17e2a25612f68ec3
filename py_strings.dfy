/** Python's `str.replace(old, new)` as used by `PdfViewPageMixin.get_template`
    (wagtail_pdf_view/mixins.py), with `str.split` and `str.join` as the
    independent reference: `s.replace(p, r) == r.join(s.split(p))`. Matches
    are found left to right and do not overlap. */
module PyStrings {

  /** `sep` occurs in `s` starting at position i. */
  predicate MatchesAt(s: string, i: nat, sep: string) {
    i + |sep| <= |s| && s[i..i + |sep|] == sep
  }

  predicate Occurs(s: string, sep: string) {
    exists i: nat | i <= |s| :: MatchesAt(s, i, sep)
  }

  /** `s.replace(pattern, replacement)` for a non-empty pattern: replacing
      a pattern by itself changes nothing, and a replacement as long as the
      pattern keeps the length. */
  function Replace(s: string, pattern: string, replacement: string): (r: string)
    requires pattern != ""
    ensures replacement == pattern ==> r == s
    ensures |replacement| == |pattern| ==> |r| == |s|
    decreases |s|
  {
    if |s| < |pattern| then s
    else if s[..|pattern|] == pattern then
      assert s == s[..|pattern|] + s[|pattern|..];
      replacement + Replace(s[|pattern|..], pattern, replacement)
    else
      assert s == [s[0]] + s[1..];
      [s[0]] + Replace(s[1..], pattern, replacement)
  }

  /** `s.split(sep)` for a non-empty separator. */
  function Split(s: string, sep: string): (parts: seq<string>)
    requires sep != ""
    ensures |parts| > 0
    decreases |s|
  {
    if |s| < |sep| then [s]
    else if s[..|sep|] == sep then [""] + Split(s[|sep|..], sep)
    else
      var rest := Split(s[1..], sep);
      [[s[0]] + rest[0]] + rest[1..]
  }

  /** `sep.join(parts)` for a non-empty list. */
  function Join(parts: seq<string>, sep: string): string
    requires |parts| > 0
    decreases |parts|
  {
    if |parts| == 1 then parts[0] else parts[0] + sep + Join(parts[1..], sep)
  }

  lemma JoinCons(head: string, parts: seq<string>, sep: string)
    requires |parts| > 0
    ensures Join([head] + parts, sep) == head + sep + Join(parts, sep)
  {
    assert ([head] + parts)[1..] == parts;
  }

  /** Putting the first piece back behind one more character. */
  lemma JoinExtendHead(c: char, parts: seq<string>, sep: string)
    requires |parts| > 0
    ensures Join([[c] + parts[0]] + parts[1..], sep) == [c] + Join(parts, sep)
  {
    if |parts| > 1 {
      JoinCons([c] + parts[0], parts[1..], sep);
    }
  }

  /** Splitting and joining back with the same separator is the identity. */
  lemma {:induction false} SplitJoin(s: string, sep: string)
    requires sep != ""
    ensures Join(Split(s, sep), sep) == s
    decreases |s|
  {
    if |s| < |sep| {
    } else if s[..|sep|] == sep {
      var tail := s[|sep|..];
      var rest := Split(tail, sep);
      assert Split(s, sep) == [""] + rest;
      SplitJoin(tail, sep);
      JoinCons("", rest, sep);
      assert s == sep + tail;
    } else {
      var tail := s[1..];
      var rest := Split(tail, sep);
      assert Split(s, sep) == [[s[0]] + rest[0]] + rest[1..];
      SplitJoin(tail, sep);
      JoinExtendHead(s[0], rest, sep);
      assert s == [s[0]] + tail;
    }
  }

  /** replace is split followed by join with the replacement. */
  lemma {:induction false} ReplaceIsJoinOfSplit(s: string, pattern: string, replacement: string)
    requires pattern != ""
    ensures Replace(s, pattern, replacement) == Join(Split(s, pattern), replacement)
    decreases |s|
  {
    if |s| < |pattern| {
    } else if s[..|pattern|] == pattern {
      ReplaceIsJoinOfSplit(s[|pattern|..], pattern, replacement);
      JoinCons("", Split(s[|pattern|..], pattern), replacement);
    } else {
      ReplaceIsJoinOfSplit(s[1..], pattern, replacement);
      JoinExtendHead(s[0], Split(s[1..], pattern), replacement);
    }
  }

  /** The first piece of a split is a prefix of the string. */
  lemma {:induction false} SplitHeadPrefix(s: string, sep: string)
    requires sep != ""
    ensures Split(s, sep)[0] <= s
    decreases |s|
  {
    if |s| >= |sep| && s[..|sep|] != sep {
      SplitHeadPrefix(s[1..], sep);
    }
  }

  /** No piece left between the separators contains the separator: every
      occurrence is consumed by the split, so replace leaves none of the
      original occurrences behind. */
  lemma {:induction false} SplitPiecesFree(s: string, sep: string)
    requires sep != ""
    ensures forall k | 0 <= k < |Split(s, sep)| :: !Occurs(Split(s, sep)[k], sep)
    decreases |s|
  {
    var parts := Split(s, sep);
    if |s| < |sep| {
      assert forall i: nat :: !MatchesAt(s, i, sep);
    } else if s[..|sep|] == sep {
      SplitPiecesFree(s[|sep|..], sep);
      var rest := Split(s[|sep|..], sep);
      assert forall i: nat :: !MatchesAt("", i, sep);
      forall k | 1 <= k < |parts| ensures !Occurs(parts[k], sep) {
        assert parts[k] == rest[k - 1];
      }
    } else {
      SplitPiecesFree(s[1..], sep);
      SplitHeadPrefix(s[1..], sep);
      var rest := Split(s[1..], sep);
      var head := [s[0]] + rest[0];
      forall i: nat | i <= |head| ensures !MatchesAt(head, i, sep) {
        if i == 0 && |sep| <= |head| {
          assert head[..|sep|] == s[..|sep|];
        } else if i > 0 && i + |sep| <= |head| {
          assert head[1..] == rest[0];
          assert head[i..i + |sep|] == head[1..][i - 1..i - 1 + |sep|];
          assert !MatchesAt(rest[0], i - 1, sep);
        }
      }
      forall k | 1 <= k < |parts| ensures !Occurs(parts[k], sep) {
        assert parts[k] == rest[k];
      }
    }
  }

  /** A string without the pattern is left unchanged. */
  lemma ReplaceAbsent(s: string, pattern: string, replacement: string)
    requires pattern != "" && !Occurs(s, pattern)
    ensures Replace(s, pattern, replacement) == s
  {
    ReplaceIsJoinOfSplit(s, pattern, replacement);
    SplitJoin(s, pattern);
    var parts := Split(s, pattern);
    if |parts| > 1 {
      // the first separator sits right after the first piece
      assert s == parts[0] + pattern + Join(parts[1..], pattern);
      assert MatchesAt(s, |parts[0]|, pattern);
    }
  }

  /** A name whose only occurrence of the pattern is its suffix gets exactly
      that suffix replaced. */
  lemma {:induction false} ReplaceSuffix(base: string, pattern: string, replacement: string)
    requires pattern != ""
    requires forall i: nat | i < |base| :: !MatchesAt(base + pattern, i, pattern)
    ensures Replace(base + pattern, pattern, replacement) == base + replacement
    decreases |base|
  {
    var s := base + pattern;
    if base == [] {
      assert s == pattern;
      assert s[..|pattern|] == pattern;
      assert s[|pattern|..] == [];
      assert Replace(s, pattern, replacement) == replacement + Replace([], pattern, replacement);
    } else {
      var base' := base[1..];
      var s' := base' + pattern;
      assert !MatchesAt(s, 0, pattern);
      assert s[..|pattern|] != pattern;
      assert s[1..] == s';
      assert Replace(s, pattern, replacement) == [s[0]] + Replace(s', pattern, replacement);
      forall i: nat | i < |base'| ensures !MatchesAt(s', i, pattern) {
        assert !MatchesAt(s, i + 1, pattern);
        assert s[i + 1..i + 1 + |pattern|] == s'[i..i + |pattern|];
      }
      ReplaceSuffix(base', pattern, replacement);
      assert base == [s[0]] + base';
    }
  }
}
