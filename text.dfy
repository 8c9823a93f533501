/** Optional values, standing for TypeScript's `T | undefined` and `T | null`. */
module Options {
  datatype Option<+T> = None | Some(value: T)
}

/**
 * String operations the request engine relies on, over `seq<char>`:
 * `startsWith`, `includes`, and the `split(p).join(r)` idiom that
 * replaces every occurrence of a placeholder.
 */
module Text {

  /** `s.startsWith(prefix)` */
  predicate StartsWith(s: string, prefix: string) {
    |prefix| <= |s| && s[..|prefix|] == prefix
  }

  /** `s.includes(p)`: some suffix of `s` starts with `p`. */
  predicate Contains(s: string, p: string)
    decreases |s|
  {
    StartsWith(s, p) || (|s| > 0 && Contains(s[1..], p))
  }

  /**
   * `s.split(p)` for a non-empty separator: the pieces between the
   * occurrences of `p` found scanning left to right without overlap.
   */
  function Split(s: string, p: string): (parts: seq<string>)
    requires |p| > 0
    ensures |parts| >= 1
    decreases |s|
  {
    if |s| < |p| then [s]
    else if StartsWith(s, p) then [[]] + Split(s[|p|..], p)
    else
      var rest := Split(s[1..], p);
      [[s[0]] + rest[0]] + rest[1..]
  }

  /** `parts.join(sep)` */
  function Join(parts: seq<string>, sep: string): string
    decreases |parts|
  {
    if |parts| == 0 then []
    else if |parts| == 1 then parts[0]
    else parts[0] + sep + Join(parts[1..], sep)
  }

  /**
   * Replaces every occurrence of `p` in `s` by `r`, scanning left to right;
   * the text `r` puts in is not scanned again.
   */
  function ReplaceAll(s: string, p: string, r: string): string
    requires |p| > 0
    decreases |s|
  {
    if |s| < |p| then s
    else if StartsWith(s, p) then r + ReplaceAll(s[|p|..], p, r)
    else [s[0]] + ReplaceAll(s[1..], p, r)
  }

  lemma JoinConsFirst(c: char, parts: seq<string>, sep: string)
    requires |parts| >= 1
    ensures Join([[c] + parts[0]] + parts[1..], sep) == [c] + Join(parts, sep)
  {
    var q := [[c] + parts[0]] + parts[1..];
    assert q[1..] == parts[1..];
  }

  /** `ReplaceAll` is exactly `s.split(p).join(r)`. */
  lemma {:induction false} ReplaceAllIsSplitJoin(s: string, p: string, r: string)
    requires |p| > 0
    ensures ReplaceAll(s, p, r) == Join(Split(s, p), r)
    decreases |s|
  {
    if |s| < |p| {
    } else if StartsWith(s, p) {
      ReplaceAllIsSplitJoin(s[|p|..], p, r);
      var parts := Split(s[|p|..], p);
      assert ([[]] + parts)[1..] == parts;
    } else {
      ReplaceAllIsSplitJoin(s[1..], p, r);
      JoinConsFirst(s[0], Split(s[1..], p), r);
    }
  }

  /** Joining the pieces with the separator gives back the string. */
  lemma {:induction false} JoinSplit(s: string, p: string)
    requires |p| > 0
    ensures Join(Split(s, p), p) == s
    decreases |s|
  {
    if |s| < |p| {
    } else if StartsWith(s, p) {
      JoinSplit(s[|p|..], p);
      var parts := Split(s[|p|..], p);
      assert ([[]] + parts)[1..] == parts;
      assert s == s[..|p|] + s[|p|..];
    } else {
      JoinSplit(s[1..], p);
      JoinConsFirst(s[0], Split(s[1..], p), p);
      assert s == [s[0]] + s[1..];
    }
  }

  lemma StartsWithPrefix(s: string, t: string, p: string)
    requires StartsWith(t, p) && StartsWith(s, t)
    ensures StartsWith(s, p)
  {
    assert s[..|p|] == s[..|t|][..|p|];
  }

  lemma {:induction false} SplitFirstIsPrefix(s: string, p: string)
    requires |p| > 0
    ensures StartsWith(s, Split(s, p)[0])
    decreases |s|
  {
    if |s| < |p| {
    } else if StartsWith(s, p) {
    } else {
      SplitFirstIsPrefix(s[1..], p);
      var q := Split(s[1..], p)[0];
      assert s[..|q| + 1] == [s[0]] + s[1..][..|q|];
    }
  }

  /**
   * No piece of `s.split(p)` contains `p`: joining the pieces with `r`
   * leaves no occurrence of `p` that was in `s` unreplaced.
   */
  lemma {:induction false} SplitPiecesAreFree(s: string, p: string)
    requires |p| > 0
    ensures forall k :: 0 <= k < |Split(s, p)| ==> !Contains(Split(s, p)[k], p)
    decreases |s|
  {
    var parts := Split(s, p);
    if |s| < |p| {
      ShortNotContains(s, p);
    } else if StartsWith(s, p) {
      SplitPiecesAreFree(s[|p|..], p);
      ShortNotContains([], p);
      assert forall k :: 1 <= k < |parts| ==> parts[k] == Split(s[|p|..], p)[k - 1];
    } else {
      var rest := Split(s[1..], p);
      SplitPiecesAreFree(s[1..], p);
      SplitFirstIsPrefix(s[1..], p);
      var first := [s[0]] + rest[0];
      assert parts[0] == first;
      assert first[1..] == rest[0];
      assert StartsWith(s, first) by {
        assert s[..|first|] == [s[0]] + s[1..][..|rest[0]|];
      }
      if StartsWith(first, p) {
        StartsWithPrefix(s, first, p);
      }
      assert !Contains(first, p);
      assert forall k :: 1 <= k < |parts| ==> parts[k] == rest[k];
    }
  }

  lemma {:induction false} ShortNotContains(s: string, p: string)
    requires |s| < |p|
    ensures !Contains(s, p)
    decreases |s|
  {
    if |s| > 0 {
      ShortNotContains(s[1..], p);
    }
  }

  /** Replacing a placeholder that does not occur leaves the string as it is. */
  lemma {:induction false} ReplaceAllMiss(s: string, p: string, r: string)
    requires |p| > 0 && !Contains(s, p)
    ensures ReplaceAll(s, p, r) == s
    decreases |s|
  {
    if |s| >= |p| {
      ReplaceAllMiss(s[1..], p, r);
      assert s == [s[0]] + s[1..];
    }
  }

  /**
   * A prefix without the separator's first character holds no occurrence:
   * replacing through it leaves it as it is.
   */
  lemma {:induction false} ReplaceAllSkip(a: string, t: string, p: string, r: string)
    requires |p| > 0 && p[0] !in a
    ensures ReplaceAll(a + t, p, r) == a + ReplaceAll(t, p, r)
    decreases |a|
  {
    if a != [] {
      var s := a + t;
      var c, rest := a[0], a[1..];
      assert a == [c] + rest;
      assert s == [c] + (rest + t);
      assert p[0] != c;
      assert p[0] !in rest;
      if |s| < |p| {
        ShortReplaceAll(t, p, r);
        ShortReplaceAll(s, p, r);
      } else {
        assert s[..|p|][0] == c;
        assert !StartsWith(s, p);
        assert s[1..] == rest + t;
        ReplaceAllSkip(rest, t, p, r);
      }
    } else {
      assert a + t == t;
    }
  }

  lemma ShortReplaceAll(t: string, p: string, r: string)
    requires 0 < |p| && |t| < |p|
    ensures ReplaceAll(t, p, r) == t
  {
  }

  /** Likewise `includes` looks past such a prefix. */
  lemma {:induction false} ContainsSkip(a: string, t: string, p: string)
    requires |p| > 0 && p[0] !in a
    ensures Contains(a + t, p) == Contains(t, p)
    decreases |a|
  {
    if a != [] {
      var s := a + t;
      assert s[0] == a[0];
      assert !StartsWith(s, p);
      assert s[1..] == a[1..] + t;
      assert forall x :: x in a[1..] ==> x in a;
      ContainsSkip(a[1..], t, p);
    } else {
      assert a + t == t;
    }
  }

  lemma {:induction false} ContainsAppend(s: string, t: string, p: string)
    requires Contains(s, p)
    ensures Contains(s + t, p)
    decreases |s|
  {
    if StartsWith(s, p) {
      assert (s + t)[..|p|] == s[..|p|];
    } else {
      assert (s + t)[1..] == s[1..] + t;
      ContainsAppend(s[1..], t, p);
    }
  }

  lemma NoBraceNotContains(s: string, p: string)
    requires |p| > 0 && p[0] !in s
    ensures !Contains(s, p)
  {
    ContainsSkip(s, [], p);
    assert s + [] == s;
  }

  /** When the text and the replacement both hold `p`, so does the result. */
  lemma {:induction false} ReplaceAllKeeps(s: string, p: string, r: string)
    requires |p| > 0 && Contains(s, p) && Contains(r, p)
    ensures Contains(ReplaceAll(s, p, r), p)
    decreases |s|
  {
    if StartsWith(s, p) {
      ContainsAppend(r, ReplaceAll(s[|p|..], p, r), p);
    } else {
      ShortNotContainsOrLong(s, p);
      ReplaceAllKeeps(s[1..], p, r);
      assert ([s[0]] + ReplaceAll(s[1..], p, r))[1..] == ReplaceAll(s[1..], p, r);
    }
  }

  lemma ShortNotContainsOrLong(s: string, p: string)
    requires Contains(s, p)
    ensures |s| >= |p|
  {
    if |s| < |p| {
      ShortNotContains(s, p);
    }
  }
}
