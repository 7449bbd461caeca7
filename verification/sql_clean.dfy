/**
  `clean_sql_query` of src/utils/tools.py: the text a language model returns
  for a SQL query loses every "```sql" tag, then every remaining "```"
  fence, then its surrounding whitespace.
 */
module SqlClean {

  const SqlFence: string := "```sql"
  const Fence: string := "```"

  /** `p` occurs in `s` starting at index `i`. */
  predicate OccursAt(s: string, p: string, i: int)
  {
    0 <= i && i + |p| <= |s| && s[i..i + |p|] == p
  }

  predicate Occurs(s: string, p: string)
  {
    exists i | 0 <= i <= |s| - |p| :: OccursAt(s, p, i)
  }

  /** Python's `str.isspace` for one character: the characters `str.strip()`
      removes when called without arguments. */
  predicate IsSpace(c: char)
  {
    || c == ' '
    || '\t' <= c <= '\r'
    || '\U{1C}' <= c <= '\U{1F}'
    || c == '\U{85}'
    || c == '\U{A0}'
    || c == '\U{1680}'
    || '\U{2000}' <= c <= '\U{200A}'
    || c == '\U{2028}'
    || c == '\U{2029}'
    || c == '\U{202F}'
    || c == '\U{205F}'
    || c == '\U{3000}'
  }

  predicate AllSpace(s: string)
  {
    forall k | 0 <= k < |s| :: IsSpace(s[k])
  }

  /** Neither end of `s` is whitespace. */
  predicate Trimmed(s: string)
  {
    |s| == 0 || (!IsSpace(s[0]) && !IsSpace(s[|s| - 1]))
  }

  /** `a` is obtained from `b` by deleting characters, without inserting or
      reordering any. */
  predicate Subsequence(a: string, b: string)
    decreases |b|
  {
    || |a| == 0
    || (|b| > 0 && ((a[0] == b[0] && Subsequence(a[1..], b[1..])) || Subsequence(a, b[1..])))
  }

  lemma {:induction false} SubsequenceLength(a: string, b: string)
    requires Subsequence(a, b)
    ensures |a| <= |b|
    decreases |b|
  {
    if |a| > 0 {
      if a[0] == b[0] && Subsequence(a[1..], b[1..]) {
        SubsequenceLength(a[1..], b[1..]);
      } else {
        SubsequenceLength(a, b[1..]);
      }
    }
  }

  lemma {:induction false} SubsequenceTransitive(a: string, b: string, c: string)
    requires Subsequence(a, b) && Subsequence(b, c)
    ensures Subsequence(a, c)
    decreases |c|
  {
    if |a| > 0 {
      if Subsequence(b, c[1..]) {
        SubsequenceTransitive(a, b, c[1..]);
      } else if Subsequence(a, b[1..]) {
        SubsequenceTransitive(a, b[1..], c[1..]);
      } else {
        SubsequenceTransitive(a[1..], b[1..], c[1..]);
      }
    }
  }

  /** Dropping a prefix of the larger string keeps what is left a supersequence. */
  lemma {:induction false} SubsequenceOfSuffix(a: string, b: string, k: nat)
    requires k <= |b| && Subsequence(a, b[k..])
    ensures Subsequence(a, b)
    decreases k
  {
    if k > 0 {
      assert b[1..][k - 1..] == b[k..];
      SubsequenceOfSuffix(a, b[1..], k - 1);
    }
  }

  /** Every contiguous slice is a subsequence. */
  lemma {:induction false} SliceIsSubsequence(s: string, i: nat, j: nat)
    requires i <= j <= |s|
    ensures Subsequence(s[i..j], s)
    decreases |s|
  {
    if i > 0 {
      assert s[1..][i - 1..j - 1] == s[i..j];
      SliceIsSubsequence(s[1..], i - 1, j - 1);
    } else if j > 0 {
      assert s[..j][1..] == s[1..][..j - 1];
      SliceIsSubsequence(s[1..], 0, j - 1);
    }
  }

  /** `s.replace(p, "")`: scanning from the left, each occurrence of `p`
      that does not overlap an earlier deleted one is deleted. */
  function DeleteAll(s: string, p: string): (r: string)
    requires |p| > 0
    ensures Subsequence(r, s)
    ensures |r| <= |s|
    decreases |s|
  {
    if |s| == 0 then s
    else if p <= s then
      var r := DeleteAll(s[|p|..], p);
      SubsequenceOfSuffix(r, s, |p|);
      SubsequenceLength(r, s);
      r
    else
      var rest := DeleteAll(s[1..], p);
      assert ([s[0]] + rest)[1..] == rest;
      [s[0]] + rest
  }

  /** The number of occurrences `DeleteAll` deletes. */
  function CountDeleted(s: string, p: string): nat
    requires |p| > 0
    decreases |s|
  {
    if |s| == 0 then 0
    else if p <= s then 1 + CountDeleted(s[|p|..], p)
    else CountDeleted(s[1..], p)
  }

  /** The number of whitespace characters `strip` takes off the front. */
  function LeadingSpace(s: string): (n: nat)
    ensures n <= |s|
    ensures AllSpace(s[..n])
    ensures n == |s| || !IsSpace(s[n])
    decreases |s|
  {
    if |s| > 0 && IsSpace(s[0]) then
      var n := 1 + LeadingSpace(s[1..]);
      assert forall k | 1 <= k < n :: s[..n][k] == s[1..][..n - 1][k - 1];
      n
    else 0
  }

  /** The number of whitespace characters `strip` takes off the back. */
  function TrailingSpace(s: string): (n: nat)
    ensures n <= |s|
    ensures AllSpace(s[|s| - n..])
    ensures n == |s| || !IsSpace(s[|s| - n - 1])
    decreases |s|
  {
    if |s| > 0 && IsSpace(s[|s| - 1]) then
      var t := s[..|s| - 1];
      var n := 1 + TrailingSpace(t);
      assert s[|s| - n..] == t[|t| - (n - 1)..] + [s[|s| - 1]];
      n
    else 0
  }

  /** `str.strip()`: the result is a slice of `s` with no whitespace at
      either end, and only whitespace lies outside it. */
  function Strip(s: string): (r: string)
    ensures Trimmed(r)
    ensures exists i | 0 <= i <= |s| - |r| :: r == s[i..i + |r|] && AllSpace(s[..i]) && AllSpace(s[i + |r|..])
  {
    var i := LeadingSpace(s);
    var t := s[i..];
    var n := TrailingSpace(t);
    var r := t[..|t| - n];
    assert r == s[i..i + |r|];
    assert s[i + |r|..] == t[|t| - n..];
    r
  }

  /** `clean_sql_query`. */
  function Clean(s: string): (r: string)
    ensures Trimmed(r)
    ensures !Occurs(r, Fence)
    ensures Subsequence(r, s)
    ensures |r| <= |s|
  {
    var u := DeleteAll(s, SqlFence);
    var w := DeleteAll(u, Fence);
    var r := Strip(w);
    var i :| 0 <= i <= |w| - |r| && r == w[i..i + |r|] && AllSpace(w[..i]) && AllSpace(w[i + |r|..]);
    NoFenceAfterDelete(u);
    NoFenceInSlice(w, i, i + |r|);
    SliceIsSubsequence(w, i, i + |r|);
    SubsequenceTransitive(r, w, u);
    SubsequenceTransitive(r, u, s);
    SubsequenceLength(r, s);
    r
  }

  /** A fence in a slice is a fence in the whole. */
  lemma NoFenceInSlice(s: string, i: nat, j: nat)
    requires i <= j <= |s|
    requires !Occurs(s, Fence)
    ensures !Occurs(s[i..j], Fence)
  {
    var t := s[i..j];
    forall k | 0 <= k <= |t| - |Fence| ensures !OccursAt(t, Fence, k) {
      assert |Fence| == 3 && t[k] == s[i + k] && t[k + 1] == s[i + k + 1] && t[k + 2] == s[i + k + 2];
      assert t[k..k + |Fence|] == s[i + k..i + k + |Fence|];
      assert !OccursAt(s, Fence, i + k);
    }
  }

  /** After deleting fences, a leading backtick comes from a leading backtick. */
  lemma DeletedStartsWithTick(s: string)
    ensures |DeleteAll(s, Fence)| > 0 && DeleteAll(s, Fence)[0] == '`' ==> |s| > 0 && s[0] == '`'
  {
  }

  /** After deleting fences, two leading backticks come from two leading backticks. */
  lemma TwoTicksCarryBack(s: string)
    ensures StartsWithTwoTicks(DeleteAll(s, Fence)) ==> StartsWithTwoTicks(s)
  {
    if |s| > 0 && !(Fence <= s) {
      assert DeleteAll(s, Fence) == [s[0]] + DeleteAll(s[1..], Fence);
      DeletedStartsWithTick(s[1..]);
    }
  }

  predicate StartsWithTwoTicks(s: string)
  {
    |s| > 1 && s[0] == '`' && s[1] == '`'
  }

  /** Deleting every "```" leaves none: a leftmost occurrence is never
      preceded by a backtick, so no new fence forms across a deletion. */
  lemma {:induction false} NoFenceAfterDelete(s: string)
    ensures !Occurs(DeleteAll(s, Fence), Fence)
    decreases |s|
  {
    if |s| == 0 {
    } else if Fence <= s {
      NoFenceAfterDelete(s[3..]);
    } else {
      var rest := DeleteAll(s[1..], Fence);
      var r := [s[0]] + rest;
      assert DeleteAll(s, Fence) == r;
      NoFenceAfterDelete(s[1..]);
      TwoTicksCarryBack(s[1..]);
      forall i | 0 <= i <= |r| - |Fence| ensures !OccursAt(r, Fence, i) {
        if i > 0 {
          assert r[i..i + |Fence|] == rest[i - 1..i - 1 + |Fence|];
          assert !OccursAt(rest, Fence, i - 1);
        } else {
          assert r[..3] == [s[0], rest[0], rest[1]];
        }
      }
    }
  }

  /** Where `p` does not occur, `s.replace(p, "")` is `s`. */
  lemma {:induction false} DeleteAllWithoutOccurrence(s: string, p: string)
    requires |p| > 0
    requires !Occurs(s, p)
    ensures DeleteAll(s, p) == s
    decreases |s|
  {
    if |s| > 0 {
      assert !OccursAt(s, p, 0);
      forall i | 0 <= i <= |s[1..]| - |p| ensures !OccursAt(s[1..], p, i) {
        assert s[1..][i..i + |p|] == s[i + 1..i + 1 + |p|];
        assert !OccursAt(s, p, i + 1);
      }
      DeleteAllWithoutOccurrence(s[1..], p);
    }
  }

  /** A "```sql" tag begins with a fence. */
  lemma TagContainsFence(s: string)
    ensures Occurs(s, SqlFence) ==> Occurs(s, Fence)
  {
    forall i | 0 <= i <= |s| - |SqlFence| && OccursAt(s, SqlFence, i) ensures OccursAt(s, Fence, i) {
      assert s[i..i + |Fence|] == s[i..i + |SqlFence|][..3];
    }
  }

  /** Text already free of surrounding whitespace is left alone by `strip`. */
  lemma StripTrimmed(s: string)
    requires Trimmed(s)
    ensures Strip(s) == s
  {
    assert s[0..] == s;
  }

  /** `clean_sql_query` returns its input unchanged exactly when the input
      has no fence and no surrounding whitespace. */
  lemma CleanFixedPoint(s: string)
    ensures Clean(s) == s <==> !Occurs(s, Fence) && Trimmed(s)
  {
    if !Occurs(s, Fence) && Trimmed(s) {
      TagContainsFence(s);
      DeleteAllWithoutOccurrence(s, SqlFence);
      DeleteAllWithoutOccurrence(s, Fence);
      StripTrimmed(s);
    }
  }

  /** Cleaning twice is cleaning once. */
  lemma CleanIdempotent(s: string)
    ensures Clean(Clean(s)) == Clean(s)
  {
    CleanFixedPoint(Clean(s));
  }

  /** The number of occurrences of `c` in `s`. */
  function Count(s: string, c: char): nat
    decreases |s|
  {
    if |s| == 0 then 0 else (if s[0] == c then 1 else 0) + Count(s[1..], c)
  }

  lemma {:induction false} CountAppend(a: string, b: string, c: char)
    ensures Count(a + b, c) == Count(a, c) + Count(b, c)
    decreases |a|
  {
    if |a| == 0 {
      assert a + b == b;
    } else {
      assert (a + b)[0] == a[0];
      assert (a + b)[1..] == a[1..] + b;
      CountAppend(a[1..], b, c);
    }
  }

  lemma {:induction false} CountAllSpace(s: string, c: char)
    requires AllSpace(s) && !IsSpace(c)
    ensures Count(s, c) == 0
    decreases |s|
  {
    if |s| > 0 {
      assert IsSpace(s[0]);
      CountAllSpace(s[1..], c);
    }
  }

  /** `s.replace(p, "")` removes whole copies of `p` and nothing else: the
      count of each character drops by its count in `p` once per deleted
      copy. */
  lemma {:induction false} DeleteAllCounts(s: string, p: string, c: char)
    requires |p| > 0
    ensures Count(s, c) == Count(DeleteAll(s, p), c) + CountDeleted(s, p) * Count(p, c)
    decreases |s|
  {
    if |s| == 0 {
    } else if p <= s {
      DeleteAllCounts(s[|p|..], p, c);
      DeletedPrefixCounts(s, p, c);
    } else {
      DeleteAllCounts(s[1..], p, c);
      KeptHeadCounts(s, p, c);
    }
  }

  /** One deletion step of `DeleteAllCounts`. */
  lemma DeletedPrefixCounts(s: string, p: string, c: char)
    requires 0 < |p| && p <= s
    requires Count(s[|p|..], c) == Count(DeleteAll(s[|p|..], p), c) + CountDeleted(s[|p|..], p) * Count(p, c)
    ensures Count(s, c) == Count(DeleteAll(s, p), c) + CountDeleted(s, p) * Count(p, c)
  {
    var rest := s[|p|..];
    assert s == p + rest;
    CountAppend(p, rest, c);
    assert DeleteAll(s, p) == DeleteAll(rest, p);
    Distribute(CountDeleted(rest, p), Count(p, c));
  }

  lemma Distribute(k: nat, m: nat)
    ensures (1 + k) * m == m + k * m
  {
  }

  /** One keeping step of `DeleteAllCounts`. */
  lemma KeptHeadCounts(s: string, p: string, c: char)
    requires 0 < |p| && 0 < |s| && !(p <= s)
    requires Count(s[1..], c) == Count(DeleteAll(s[1..], p), c) + CountDeleted(s[1..], p) * Count(p, c)
    ensures Count(s, c) == Count(DeleteAll(s, p), c) + CountDeleted(s, p) * Count(p, c)
  {
    var r := DeleteAll(s[1..], p);
    assert DeleteAll(s, p) == [s[0]] + r;
    assert ([s[0]] + r)[1..] == r;
  }

  /** `strip` removes whitespace only. */
  lemma StripKeepsOtherCharacters(s: string, c: char)
    requires !IsSpace(c)
    ensures Count(Strip(s), c) == Count(s, c)
  {
    var r := Strip(s);
    var i :| 0 <= i <= |s| - |r| && r == s[i..i + |r|] && AllSpace(s[..i]) && AllSpace(s[i + |r|..]);
    SliceBetweenSpaces(s, i, i + |r|, c);
  }

  lemma SliceBetweenSpaces(s: string, i: nat, j: nat, c: char)
    requires i <= j <= |s|
    requires AllSpace(s[..i]) && AllSpace(s[j..]) && !IsSpace(c)
    ensures Count(s[i..j], c) == Count(s, c)
  {
    assert s[..i] + s[i..j] == s[..j];
    assert s[..j] + s[j..] == s;
    CountAppend(s[..j], s[j..], c);
    CountAppend(s[..i], s[i..j], c);
    CountAllSpace(s[..i], c);
    CountAllSpace(s[j..], c);
  }

  /** Only backticks, the letters of the lower-case tag and surrounding
      whitespace can disappear: every other character keeps its count, so
      "```SQL" keeps its "SQL". */
  lemma CleanKeepsOtherCharacters(s: string, c: char)
    requires c != '`' && c != 's' && c != 'q' && c != 'l' && !IsSpace(c)
    ensures Count(Clean(s), c) == Count(s, c)
  {
    var u := DeleteAll(s, SqlFence);
    var w := DeleteAll(u, Fence);
    LiteralCounts(c);
    DeleteAllCounts(s, SqlFence, c);
    DeleteAllCounts(u, Fence, c);
    assert Count(u, c) == Count(s, c) by {
      ZeroTimes(CountDeleted(s, SqlFence), Count(SqlFence, c));
    }
    assert Count(w, c) == Count(u, c) by {
      ZeroTimes(CountDeleted(u, Fence), Count(Fence, c));
    }
    StripKeepsOtherCharacters(w, c);
    assert Clean(s) == Strip(w);
  }

  lemma ZeroTimes(k: nat, m: nat)
    requires m == 0
    ensures k * m == 0
  {
  }

  /** How often a character occurs in the two patterns. */
  lemma LiteralCounts(c: char)
    ensures Count(Fence, c) == if c == '`' then 3 else 0
    ensures Count(SqlFence, c) == Count(Fence, c) + (if c == 's' || c == 'q' || c == 'l' then 1 else 0)
  {
    assert SqlFence == Fence + "sql";
    CountAppend(Fence, "sql", c);
    assert Fence[1..][1..][1..] == [];
    assert "sql"[1..][1..][1..] == [];
  }

  /** The letters s, q and l only ever go together, one of each per deleted
      "```sql" tag; the fence and whitespace passes never touch them. */
  lemma CleanRemovesTagLettersTogether(s: string)
    ensures Count(s, 's') == Count(Clean(s), 's') + CountDeleted(s, SqlFence)
    ensures Count(s, 'q') == Count(Clean(s), 'q') + CountDeleted(s, SqlFence)
    ensures Count(s, 'l') == Count(Clean(s), 'l') + CountDeleted(s, SqlFence)
  {
    TagLetters(s, 's');
    TagLetters(s, 'q');
    TagLetters(s, 'l');
  }

  lemma TagLetters(s: string, c: char)
    requires c == 's' || c == 'q' || c == 'l'
    ensures Count(s, c) == Count(Clean(s), c) + CountDeleted(s, SqlFence)
  {
    var u := DeleteAll(s, SqlFence);
    var w := DeleteAll(u, Fence);
    LiteralCounts(c);
    DeleteAllCounts(s, SqlFence, c);
    DeleteAllCounts(u, Fence, c);
    StripKeepsOtherCharacters(w, c);
  }

  /** An upper-case tag is not a tag: only its backticks go. */
  lemma UpperCaseTagKeepsLetters()
    ensures Clean("```SQL") == "SQL"
  {
    assert DeleteAll("L", SqlFence) == "L";
    assert DeleteAll("QL", SqlFence) == "QL";
    assert DeleteAll("SQL", SqlFence) == "SQL";
    assert DeleteAll("`SQL", SqlFence) == "`SQL";
    assert DeleteAll("``SQL", SqlFence) == "``SQL";
    assert DeleteAll("```SQL", SqlFence) == "```SQL";
    assert DeleteAll("L", Fence) == "L";
    assert DeleteAll("QL", Fence) == "QL";
    assert DeleteAll("SQL", Fence) == "SQL";
    assert "```SQL"[3..] == "SQL";
    assert DeleteAll("```SQL", Fence) == "SQL";
    assert LeadingSpace("SQL") == 0;
    assert TrailingSpace("SQL") == 0;
  }

  /** "sql" that is not right after a fence survives, here as "sqlite". */
  lemma PlainSqliteSurvives()
    ensures Clean("sqlite") == "sqlite"
  {
    var q := "sqlite";
    forall i | 0 <= i <= |q| - |Fence| ensures !OccursAt(q, Fence, i) {
      assert q[i] != '`';
    }
    assert !IsSpace('s') && !IsSpace('e');
    CleanFixedPoint(q);
  }

  /** The tag is matched as text, not as a word: a fence opening an
      "sqlite" block loses the "sql" of "sqlite" too. */
  lemma TagMatchedInsideWord()
    ensures Clean("```sqlite") == "ite"
  {
    assert "```sqlite"[6..] == "ite";
    assert DeleteAll("e", SqlFence) == "e";
    assert DeleteAll("te", SqlFence) == "te";
    assert DeleteAll("ite", SqlFence) == "ite";
    assert DeleteAll("```sqlite", SqlFence) == "ite";
    assert DeleteAll("e", Fence) == "e";
    assert DeleteAll("te", Fence) == "te";
    assert DeleteAll("ite", Fence) == "ite";
    assert LeadingSpace("ite") == 0;
    assert TrailingSpace("ite") == 0;
  }
}
