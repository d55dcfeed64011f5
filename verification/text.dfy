/** String primitives the JavaScript and Python code relies on: substring test
    (`includes` / `in`), lower-casing and whitespace stripping (`trim` / `strip`).
    Lower-casing and whitespace are modelled on ASCII only. */
module Text {

  /** True iff `sub` occurs in `s` at position `i`. */
  predicate MatchAt(s: string, sub: string, i: nat, j: nat)
    requires i + |sub| <= |s|
    decreases |sub| - j
  {
    j >= |sub| || (s[i + j] == sub[j] && MatchAt(s, sub, i, j + 1))
  }

  /** True iff `sub` occurs in `s` at some position `>= i`. */
  predicate ContainsFrom(s: string, sub: string, i: nat)
    decreases |s| - i
  {
    i + |sub| <= |s| && (MatchAt(s, sub, i, 0) || ContainsFrom(s, sub, i + 1))
  }

  /** JavaScript `s.includes(sub)`, Python `sub in s`. */
  predicate Contains(s: string, sub: string) {
    ContainsFrom(s, sub, 0)
  }

  /** `sub` occurs in `s` starting at position `k`. */
  predicate OccursAt(s: string, sub: string, k: nat) {
    k + |sub| <= |s| && s[k .. k + |sub|] == sub
  }

  lemma {:induction false} MatchAtSlice(s: string, sub: string, i: nat, j: nat)
    requires i + |sub| <= |s| && j <= |sub|
    ensures MatchAt(s, sub, i, j) <==> s[i + j .. i + |sub|] == sub[j..]
    decreases |sub| - j
  {
    if j < |sub| {
      MatchAtSlice(s, sub, i, j + 1);
      assert s[i + j .. i + |sub|] == [s[i + j]] + s[i + j + 1 .. i + |sub|];
      assert sub[j..] == [sub[j]] + sub[j + 1..];
    }
  }

  /** The recursive test agrees with the textbook definition of an occurrence. */
  lemma {:induction false} ContainsFromOccurrence(s: string, sub: string, i: nat)
    ensures ContainsFrom(s, sub, i) <==> exists k: nat :: i <= k && OccursAt(s, sub, k)
    decreases |s| - i
  {
    if i + |sub| <= |s| {
      MatchAtSlice(s, sub, i, 0);
      assert sub[0..] == sub;
      ContainsFromOccurrence(s, sub, i + 1);
      if MatchAt(s, sub, i, 0) {
        assert s[i + 0 .. i + |sub|] == s[i .. i + |sub|];
        assert OccursAt(s, sub, i);
      }
      if ContainsFrom(s, sub, i) && !MatchAt(s, sub, i, 0) {
        var k: nat :| i + 1 <= k && OccursAt(s, sub, k);
        assert i <= k;
      }
      if exists k: nat :: i <= k && OccursAt(s, sub, k) {
        var k: nat :| i <= k && OccursAt(s, sub, k);
        if k > i {
          assert i + 1 <= k;
        } else {
          assert s[i + 0 .. i + |sub|] == s[i .. i + |sub|];
        }
      }
    } else {
      forall k: nat | i <= k ensures !OccursAt(s, sub, k) {
      }
    }
  }

  /** If the character at position `j` of `sub` never appears in `s` from position `j`
      on, `sub` occurs nowhere in `s` (an occurrence at `k` would put it at `k + j`). */
  lemma CharExcludes(s: string, sub: string, j: nat)
    requires j < |sub| && j <= |s| && sub[j] !in s[j..]
    ensures !Contains(s, sub)
  {
    ContainsFromOccurrence(s, sub, 0);
    forall k: nat | k + |sub| <= |s| ensures !OccursAt(s, sub, k) {
      assert s[k .. k + |sub|][j] == s[k + j] == s[j..][k];
    }
  }

  /** A character of `sub` that `s` lacks altogether rules out any occurrence. */
  lemma MissingCharExcludes(s: string, sub: string, c: char)
    requires c in sub && c !in s
    ensures !Contains(s, sub)
  {
    var j :| 0 <= j < |sub| && sub[j] == c;
    if j <= |s| {
      assert c !in s[j..];
      CharExcludes(s, sub, j);
    } else {
      ContainsFromOccurrence(s, sub, 0);
    }
  }

  /** A string built around `sub` contains it. */
  lemma ContainsSplit(pre: string, sub: string, post: string)
    ensures Contains(pre + sub + post, sub)
  {
    var s := pre + sub + post;
    assert s[|pre| .. |pre| + |sub|] == sub;
    OccurrenceWitness(s, sub, |pre|);
  }

  /** An occurrence at a known position witnesses containment. */
  lemma OccurrenceWitness(s: string, sub: string, k: nat)
    requires OccursAt(s, sub, k)
    ensures Contains(s, sub)
  {
    ContainsFromOccurrence(s, sub, 0);
  }

  function LowerChar(c: char): char {
    if 'A' <= c <= 'Z' then (c as int + 32) as char else c
  }

  /** JavaScript `toLowerCase`, Python `lower`, on the ASCII letters. */
  function Lower(s: string): (r: string)
    ensures |r| == |s|
    ensures forall i :: 0 <= i < |s| ==> r[i] == LowerChar(s[i])
  {
    seq(|s|, i requires 0 <= i < |s| => LowerChar(s[i]))
  }

  /** The ASCII whitespace characters that `trim` and `strip` remove. */
  predicate IsSpace(c: char) {
    c == ' ' || c == '\t' || c == '\n' || c == '\r' || c == '\U{000B}' || c == '\U{000C}'
  }

  predicate IsBlank(s: string) {
    forall i :: 0 <= i < |s| ==> IsSpace(s[i])
  }

  /** Drops leading whitespace. */
  function TrimStart(s: string): (r: string)
    ensures |r| <= |s| && r == s[|s| - |r|..]
    ensures forall i :: 0 <= i < |s| - |r| ==> IsSpace(s[i])
    ensures |r| > 0 ==> !IsSpace(r[0])
    decreases |s|
  {
    if |s| > 0 && IsSpace(s[0]) then TrimStart(s[1..]) else s
  }

  /** Drops trailing whitespace. */
  function TrimEnd(s: string): (r: string)
    ensures |r| <= |s| && r == s[..|r|]
    ensures forall i :: |r| <= i < |s| ==> IsSpace(s[i])
    ensures |r| > 0 ==> !IsSpace(r[|r| - 1])
    decreases |s|
  {
    if |s| > 0 && IsSpace(s[|s| - 1]) then TrimEnd(s[..|s| - 1]) else s
  }

  lemma TrimBothBlank(s: string)
    ensures TrimEnd(TrimStart(s)) == "" <==> IsBlank(s)
    ensures TrimEnd(TrimStart(s)) != "" ==> TrimEnd(TrimStart(s))[0] == TrimStart(s)[0]
  {
    var t := TrimStart(s);
    var r := TrimEnd(t);
    if r != "" {
      assert r[0] == t[0];
      assert !IsSpace(s[|s| - |t|]);
    }
  }

  /** Cutting a blank prefix of length `a` and then a blank suffix leaves a slice of `s`
      with blanks on both sides. */
  lemma BlankCuts(s: string, t: string, r: string, a: nat)
    requires a <= |s| && t == s[a..] && IsBlank(s[..a])
    requires |r| <= |t| && r == t[..|r|] && forall i :: |r| <= i < |t| ==> IsSpace(t[i])
    ensures a + |r| <= |s| && r == s[a..a + |r|]
    ensures IsBlank(s[a + |r|..])
  {
    var post := s[a + |r|..];
    forall i | 0 <= i < |post|
      ensures IsSpace(post[i])
    {
      assert post[i] == t[|r| + i];
    }
  }

  /** Trimming both ends keeps a slice `s[a..b]` and drops only whitespace around it. */
  lemma TrimBothSlice(s: string)
    ensures exists a, b :: (0 <= a <= b <= |s| && TrimEnd(TrimStart(s)) == s[a..b]
      && IsBlank(s[..a]) && IsBlank(s[b..]))
  {
    var t := TrimStart(s);
    var a := |s| - |t|;
    assert IsBlank(s[..a]);
    BlankCuts(s, t, TrimEnd(t), a);
  }

  /** JavaScript `trim()`, Python `strip()`: whitespace removed from both ends and
      nowhere else. */
  function Strip(s: string): (r: string)
    ensures |r| <= |s|
    ensures |r| > 0 ==> !IsSpace(r[0]) && !IsSpace(r[|r| - 1])
    ensures r == "" <==> IsBlank(s)
    ensures exists a, b :: 0 <= a <= b <= |s| && r == s[a..b] && IsBlank(s[..a]) && IsBlank(s[b..])
  {
    TrimBothBlank(s);
    TrimBothSlice(s);
    TrimEnd(TrimStart(s))
  }

  /** `text.substring(0, maxLength) + '...'` when the text is longer than `maxLength`,
      the text itself otherwise (`substring` clamps a negative end to 0). A long text
      keeps its first `maxLength` characters and gains an ellipsis. */
  function Truncate(t: string, maxLength: int): (r: string)
    ensures |t| <= maxLength ==> r == t
    ensures |t| > maxLength ==>
      |r| == (if maxLength < 0 then 0 else maxLength) + 3
      && r[..|r| - 3] == t[..|r| - 3] && r[|r| - 3..] == "..."
  {
    if |t| > maxLength then
      var k := if maxLength < 0 then 0 else maxLength;
      t[..k] + "..."
    else t
  }
}
