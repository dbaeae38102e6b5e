/** Character classes, ASCII case folding and substring search on strings. */
module Text {

  predicate IsAsciiLower(c: char) { 'a' <= c <= 'z' }

  predicate IsAsciiUpper(c: char) { 'A' <= c <= 'Z' }

  predicate IsAsciiDigit(c: char) { '0' <= c <= '9' }

  /** Maps `A`..`Z` to `a`..`z` and leaves every other character alone. */
  function FoldChar(c: char): (r: char)
    ensures !IsAsciiUpper(r)
    ensures r != c <==> IsAsciiUpper(c)
    ensures IsAsciiUpper(c) ==> IsAsciiLower(r) && r as int - 'a' as int == c as int - 'A' as int
  {
    if IsAsciiUpper(c) then (c as int - 'A' as int + 'a' as int) as char else c
  }

  /** The string with every ASCII capital replaced by its small letter. */
  function Fold(s: string): (r: string)
    ensures |r| == |s|
    ensures forall i :: 0 <= i < |r| ==> !IsAsciiUpper(r[i])
  {
    seq(|s|, i requires 0 <= i < |s| => FoldChar(s[i]))
  }

  /** Folding twice is folding once. */
  lemma FoldIdempotent(s: string)
    ensures Fold(Fold(s)) == Fold(s)
  {
    forall i | 0 <= i < |s| ensures Fold(Fold(s))[i] == Fold(s)[i] {
      assert !IsAsciiUpper(Fold(s)[i]);
    }
  }

  /** `s` and `s'` differ at most in the case of ASCII letters. */
  predicate SameUpToCase(s: string, s': string)
  {
    |s| == |s'| && forall i :: 0 <= i < |s| ==> FoldChar(s[i]) == FoldChar(s'[i])
  }

  /** Strings that differ only in the case of ASCII letters fold to the same string. */
  lemma SameUpToCaseFoldsEqual(s: string, s': string)
    requires SameUpToCase(s, s')
    ensures Fold(s) == Fold(s')
  {
    forall i | 0 <= i < |s| ensures Fold(s)[i] == Fold(s')[i] {
      assert Fold(s)[i] == FoldChar(s[i]) && Fold(s')[i] == FoldChar(s'[i]);
    }
  }

  /** `t` occurs in `s` starting at position `i`. */
  predicate OccursAt(s: string, t: string, i: nat)
  {
    i + |t| <= |s| && s[i..i + |t|] == t
  }

  /** Substring search, scanning `s` from the left. */
  predicate Contains(s: string, t: string)
    decreases |s|
  {
    |t| <= |s| && (s[..|t|] == t || (0 < |s| && Contains(s[1..], t)))
  }

  /** The scan finds `t` exactly when `t` occurs somewhere in `s`. */
  lemma {:induction false} ContainsIff(s: string, t: string)
    ensures Contains(s, t) <==> exists i: nat :: OccursAt(s, t, i)
    decreases |s|
  {
    if |t| > |s| {
      forall i: nat ensures !OccursAt(s, t, i) { }
    } else if s[..|t|] == t {
      assert OccursAt(s, t, 0);
    } else {
      ContainsIff(s[1..], t);
      forall j: nat ensures OccursAt(s[1..], t, j) <==> OccursAt(s, t, j + 1) {
        if j + 1 + |t| <= |s| {
          assert s[1..][j..j + |t|] == s[j + 1..j + 1 + |t|];
        }
      }
      if Contains(s[1..], t) {
        var j: nat :| OccursAt(s[1..], t, j);
        assert OccursAt(s, t, j + 1);
      }
      if i: nat :| OccursAt(s, t, i) {
        assert i != 0;
        assert OccursAt(s[1..], t, i - 1);
      }
    }
  }

  /** The empty string occurs in every string. */
  lemma ContainsEmpty(s: string)
    ensures Contains(s, [])
  {
    assert s[..0] == [];
  }

  /** Case-insensitive substring test on ASCII letters (`name__icontains`). */
  predicate ContainsIgnoringCase(s: string, t: string)
  {
    Contains(Fold(s), Fold(t))
  }

  /** Changing the case of letters in the query does not change the answer. */
  lemma ContainsIgnoringCaseRespectsFolding(s: string, t: string)
    ensures ContainsIgnoringCase(s, t) <==> ContainsIgnoringCase(s, Fold(t))
    ensures ContainsIgnoringCase(s, t) <==> ContainsIgnoringCase(Fold(s), t)
  {
    FoldIdempotent(s);
    FoldIdempotent(t);
  }

  /** Changing the case of any ASCII letters, in the name and in the query, never changes
      whether the name contains the query. */
  lemma CaseNeverChangesTheMatch(s: string, s': string, t: string, t': string)
    requires SameUpToCase(s, s') && SameUpToCase(t, t')
    ensures ContainsIgnoringCase(s, t) <==> ContainsIgnoringCase(s', t')
  {
    SameUpToCaseFoldsEqual(s, s');
    SameUpToCaseFoldsEqual(t, t');
  }
}
