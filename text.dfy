/**
  String operations the providers rely on, over `seq<char>`.
  Case-insensitive comparison is modelled as ASCII case folding.
*/
module Text {

  /** Maps an ASCII upper-case letter to lower case, leaves every other character alone. */
  function Lower(c: char): char
  {
    if 'A' <= c <= 'Z' then (c as int + 32) as char else c
  }

  /** The case-folded form of a string, character by character. */
  function Fold(s: string): (f: string)
    ensures |f| == |s|
    ensures forall i :: 0 <= i < |s| ==> f[i] == Lower(s[i])
  {
    seq(|s|, i requires 0 <= i < |s| => Lower(s[i]))
  }

  /** `string.Compare(a, b, true) == 0` and the OrdinalIgnoreCase comparer. */
  predicate EqualsIgnoreCase(a: string, b: string)
  {
    Fold(a) == Fold(b)
  }

  predicate IsAsciiLetter(c: char)
  {
    'A' <= c <= 'Z' || 'a' <= c <= 'z'
  }

  /** Two characters are the same letter in either case, or simply the same character. */
  predicate SameIgnoringCase(c: char, d: char)
  {
    c == d || (IsAsciiLetter(c) && IsAsciiLetter(d) && (c as int - d as int == 32 || d as int - c as int == 32))
  }

  /** Folding is a normal form: it leaves no upper-case letter and folding again changes nothing. */
  lemma FoldIdempotent(s: string)
    ensures forall i :: 0 <= i < |Fold(s)| ==> !('A' <= Fold(s)[i] <= 'Z')
    ensures Fold(Fold(s)) == Fold(s)
  {
  }

  /**
    The case-insensitive comparison, character by character: two strings are equal
    ignoring case exactly when they have the same length and agree at every index up
    to the case of a letter.
  */
  lemma EqualsIgnoreCaseIff(a: string, b: string)
    ensures EqualsIgnoreCase(a, b) <==> |a| == |b| && forall i :: 0 <= i < |a| ==> SameIgnoringCase(a[i], b[i])
  {
    if EqualsIgnoreCase(a, b) {
      forall i | 0 <= i < |a| ensures SameIgnoringCase(a[i], b[i]) {
        assert Fold(a)[i] == Fold(b)[i];
      }
    }
    if |a| == |b| && forall i :: 0 <= i < |a| ==> SameIgnoringCase(a[i], b[i]) {
      assert forall i :: 0 <= i < |a| ==> Fold(a)[i] == Fold(b)[i];
    }
  }

  /** `pat` occurs, ignoring case, in `s` at index `i`. */
  predicate OccursAt(s: string, pat: string, i: int)
  {
    0 <= i && i + |pat| <= |s| && Fold(s[i..i + |pat|]) == Fold(pat)
  }

  predicate Contains(s: string, pat: string)
  {
    exists i :: 0 <= i <= |s| && OccursAt(s, pat, i)
  }

  /**
    `s.Replace(pat, null, StringComparison.InvariantCultureIgnoreCase)`: scans left to
    right and deletes every non-overlapping occurrence of `pat`, ignoring case.
    .NET rejects an empty pattern, hence the precondition.
  */
  function RemoveAll(s: string, pat: string): string
    requires pat != []
    decreases |s|
  {
    if |s| < |pat| then s
    else if OccursAt(s, pat, 0) then RemoveAll(s[|pat|..], pat)
    else [s[0]] + RemoveAll(s[1..], pat)
  }

  /** `char.IsWhiteSpace`: the Unicode space separators, line and paragraph separators and controls 9-13, 0x85. */
  predicate IsWhiteSpace(c: char)
  {
    || '\U{0009}' <= c <= '\U{000D}'
    || c == ' ' || c == '\U{0085}' || c == '\U{00A0}' || c == '\U{1680}'
    || '\U{2000}' <= c <= '\U{200A}'
    || c == '\U{2028}' || c == '\U{2029}' || c == '\U{202F}' || c == '\U{205F}' || c == '\U{3000}'
  }

  /** `string.IsNullOrWhiteSpace` for a non-null string. */
  predicate IsNullOrWhiteSpace(s: string)
  {
    forall i :: 0 <= i < |s| ==> IsWhiteSpace(s[i])
  }

  // ---------------------------------------------------------------------------
  // Lemmas

  lemma LowerIsColonOnlyForColon(c: char)
    ensures Lower(c) == ':' <==> c == ':'
  {
  }

  lemma FoldAppend(a: string, b: string)
    ensures Fold(a + b) == Fold(a) + Fold(b)
  {
    assert forall i :: 0 <= i < |a + b| ==> Fold(a + b)[i] == (Fold(a) + Fold(b))[i];
  }

  /** Whether a pattern occurs depends only on its folded form. */
  lemma OccursAtFoldedPattern(s: string, p: string, q: string, i: int)
    requires Fold(p) == Fold(q)
    ensures |p| == |q|
    ensures OccursAt(s, p, i) <==> OccursAt(s, q, i)
  {
  }

  lemma ContainsFoldedPattern(s: string, p: string, q: string)
    requires Fold(p) == Fold(q)
    ensures Contains(s, p) <==> Contains(s, q)
  {
    forall i ensures OccursAt(s, p, i) <==> OccursAt(s, q, i) {
      OccursAtFoldedPattern(s, p, q, i);
    }
  }

  /** Replacing a pattern or any case variant of it gives the same result. */
  lemma {:induction false} RemoveAllFoldedPattern(s: string, p: string, q: string)
    requires p != [] && Fold(p) == Fold(q)
    ensures q != [] && RemoveAll(s, p) == RemoveAll(s, q)
    decreases |s|
  {
    OccursAtFoldedPattern(s, p, q, 0);
    if |s| < |p| {
    } else if OccursAt(s, p, 0) {
      RemoveAllFoldedPattern(s[|p|..], p, q);
    } else {
      RemoveAllFoldedPattern(s[1..], p, q);
    }
  }

  /** A string in which the pattern never occurs is left unchanged. */
  lemma {:induction false} RemoveAllWithoutOccurrence(s: string, pat: string)
    requires pat != []
    requires !Contains(s, pat)
    ensures RemoveAll(s, pat) == s
    decreases |s|
  {
    if |s| < |pat| {
    } else {
      assert !OccursAt(s, pat, 0);
      forall i ensures !OccursAt(s[1..], pat, i) {
        if OccursAt(s[1..], pat, i) {
          assert s[1..][i..i + |pat|] == s[i + 1..i + 1 + |pat|];
          assert OccursAt(s, pat, i + 1);
        }
      }
      RemoveAllWithoutOccurrence(s[1..], pat);
    }
  }

  /** A string without a colon never contains a pattern that starts with a colon. */
  lemma ColonFreeHasNoColonPattern(s: string, pat: string)
    requires pat != [] && pat[0] == ':'
    requires ':' !in s
    ensures !Contains(s, pat)
  {
    forall i | OccursAt(s, pat, i)
      ensures false
    {
      assert Fold(s[i..i + |pat|])[0] == Fold(pat)[0];
      LowerIsColonOnlyForColon(s[i]);
    }
  }

  /**
    Every occurrence is removed, not only a trailing one: an occurrence `m` standing
    after a prefix `x` in which no match starts is deleted and the scan continues
    behind it.
  */
  lemma {:induction false} RemoveAllDeletesOccurrence(x: string, m: string, y: string, pat: string)
    requires pat != [] && EqualsIgnoreCase(m, pat)
    requires forall i :: 0 <= i < |x| ==> !OccursAt(x + m + y, pat, i)
    ensures RemoveAll(x + m + y, pat) == x + RemoveAll(y, pat)
    decreases |x|
  {
    var s := x + m + y;
    assert |m| == |pat|;
    if x == [] {
      assert s == m + y;
      assert s[..|pat|] == m;
      assert OccursAt(s, pat, 0);
      assert s[|pat|..] == y;
    } else {
      var s' := x[1..] + m + y;
      assert s[1..] == s';
      forall i | 0 <= i < |x[1..]|
        ensures !OccursAt(s', pat, i)
      {
        OccursAtTail(s, pat, i);
      }
      calc {
        RemoveAll(s, pat);
        { assert !OccursAt(s, pat, 0); }
        [s[0]] + RemoveAll(s', pat);
        { RemoveAllDeletesOccurrence(x[1..], m, y, pat); }
        [x[0]] + (x[1..] + RemoveAll(y, pat));
        { assert x == [x[0]] + x[1..]; }
        x + RemoveAll(y, pat);
      }
    }
  }

  /** Dropping the first character moves every occurrence one place to the left. */
  lemma OccursAtTail(s: string, pat: string, i: nat)
    requires |s| > 0
    ensures OccursAt(s, pat, i + 1) <==> OccursAt(s[1..], pat, i)
  {
    if i + 1 + |pat| <= |s| {
      assert s[1..][i..i + |pat|] == s[i + 1..i + 1 + |pat|];
    }
  }

  /**
    The parent-path derivation on a well-formed child path: when the child's key has no
    colon and its parent's path does not contain `":" + key` (ignoring case), deleting
    every occurrence of `":" + key` from `parent + ":" + key` gives back `parent`.
  */
  lemma RemoveAllTrailingSegment(parent: string, key: string)
    requires ':' !in key
    requires !Contains(parent, ":" + key)
    ensures RemoveAll(parent + ":" + key, ":" + key) == parent
  {
    var pat := ":" + key;
    var s := parent + pat;
    assert parent + ":" + key == parent + pat + [];
    forall i | 0 <= i < |parent|
      ensures !OccursAt(s, pat, i)
    {
      if i + |pat| <= |parent| {
        assert s[i..i + |pat|] == parent[i..i + |pat|];
        assert !OccursAt(parent, pat, i);
      } else {
        // a match here would cover the colon at index |parent| with a key character
        var k := |parent| - i;
        assert s[i..i + |pat|][k] == ':' && pat[k] == key[k - 1];
        LowerIsColonOnlyForColon(key[k - 1]);
      }
    }
    assert EqualsIgnoreCase(pat, pat);
    assert parent + pat + [] == s;
    RemoveAllDeletesOccurrence(parent, pat, [], pat);
  }

  /** The one-character-per-step scan yields `aX` for `a:AwsSecretX:AwsSecret`: a segment that merely starts with the key is mangled. */
  lemma RemoveAllMangledSegment()
    ensures RemoveAll("a:AwsSecretX:AwsSecret", ":AwsSecret") == "aX"
  {
    var pat := ":AwsSecret";
    var y := "X:AwsSecret";
    assert "a" + pat + y == "a:AwsSecretX:AwsSecret";
    assert "X" + pat + [] == y;
    RemoveAllAfterOneCharacter("a", y, pat);
    RemoveAllAfterOneCharacter("X", [], pat);
    assert RemoveAll(y, pat) == "X" + RemoveAll([], pat) == "X";
    assert "a" + "X" == "aX";
  }

  /** A character that does not fold to a colon, then the pattern `:AwsSecret`: the pattern is deleted. */
  lemma RemoveAllAfterOneCharacter(c: string, y: string, pat: string)
    requires pat == ":AwsSecret" && |c| == 1 && Lower(c[0]) != ':'
    ensures RemoveAll(c + pat + y, pat) == c + RemoveAll(y, pat)
  {
    var s := c + pat + y;
    assert !OccursAt(s, pat, 0) by {
      assert Fold(s[0..|pat|])[0] == Lower(c[0]);
    }
    assert EqualsIgnoreCase(pat, pat);
    RemoveAllDeletesOccurrence(c, pat, y, pat);
  }
}
