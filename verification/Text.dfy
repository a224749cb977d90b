// Strings as sequences of runes: trimming, containment and strings.ReplaceAll, the left-to-right
// non-overlapping replacement.
module Text {

  /** Go's unicode.IsSpace. */
  predicate IsSpace(c: char) {
    || '\U{9}' <= c <= '\U{D}' || c == ' ' || c == '\U{85}' || c == '\U{A0}' || c == '\U{1680}'
    || '\U{2000}' <= c <= '\U{200A}' || c == '\U{2028}' || c == '\U{2029}' || c == '\U{202F}'
    || c == '\U{205F}' || c == '\U{3000}'
  }

  /** Among the ASCII characters: blank, tab, line feed, vertical tab, form feed, carriage return. */
  lemma AsciiSpaces(c: char)
    requires c < '\U{80}'
    ensures IsSpace(c) <==> c in " \t\n\U{B}\U{C}\r"
  {
  }

  function TrimLeft(s: string): (r: string)
    ensures r == "" || !IsSpace(r[0])
    ensures |r| <= |s| && r == s[|s| - |r|..]
  {
    if s != "" && IsSpace(s[0]) then TrimLeft(s[1..]) else s
  }

  function TrimRight(s: string): (r: string)
    ensures r == "" || !IsSpace(r[|r| - 1])
    ensures r <= s
  {
    if s != "" && IsSpace(s[|s| - 1]) then TrimRight(s[..|s| - 1]) else s
  }

  function TrimSpace(s: string): string {
    TrimRight(TrimLeft(s))
  }

  /** Not empty, and no space at either end. */
  predicate Trimmed(s: string) {
    s != "" && !IsSpace(s[0]) && !IsSpace(s[|s| - 1])
  }

  predicate Occurs(s: string, w: string, k: nat) {
    k + |w| <= |s| && s[k..k + |w|] == w
  }

  ghost predicate Contains(s: string, w: string) {
    exists k: nat :: Occurs(s, w, k)
  }

  function ReplaceAll(s: string, p: string, put: string): string
    requires p != ""
  {
    if |s| < |p| then s
    else if Occurs(s, p, 0) then put + ReplaceAll(s[|p|..], p, put)
    else [s[0]] + ReplaceAll(s[1..], p, put)
  }

  // --- containment ------------------------------------------------------------------------------

  lemma OccursInTail(s: string, w: string, k: nat, m: nat)
    requires m <= k && Occurs(s, w, k)
    ensures Occurs(s[m..], w, k - m)
  {
    assert s[m..][k - m..k - m + |w|] == s[k..k + |w|];
  }

  lemma OccursBehind(a: string, s: string, w: string)
    requires Contains(s, w)
    ensures Contains(a + s, w)
  {
    var k: nat :| Occurs(s, w, k);
    assert (a + s)[|a| + k..|a| + k + |w|] == s[k..k + |w|];
    assert Occurs(a + s, w, |a| + k);
  }

  lemma OccursFirst(w: string, b: string)
    ensures Contains(w + b, w)
  {
    assert Occurs(w + b, w, 0);
  }

  lemma {:induction false} TrimLeftKeeps(s: string, w: string, k: nat)
    requires Occurs(s, w, k) && Trimmed(w)
    ensures Contains(TrimLeft(s), w)
  {
    if IsSpace(s[0]) {
      assert s[k..k + |w|][0] == s[k];
      OccursInTail(s, w, k, 1);
      TrimLeftKeeps(s[1..], w, k - 1);
    }
  }

  lemma {:induction false} TrimRightKeeps(s: string, w: string, k: nat)
    requires Occurs(s, w, k) && Trimmed(w)
    ensures Contains(TrimRight(s), w)
  {
    var n := |s| - 1;
    if IsSpace(s[n]) {
      assert s[k..k + |w|][|w| - 1] == s[k + |w| - 1];
      assert s[..n][k..k + |w|] == s[k..k + |w|];
      TrimRightKeeps(s[..n], w, k);
    }
  }

  /** Trimming cannot cut into a trimmed word. */
  lemma TrimKeeps(s: string, w: string)
    requires Contains(s, w) && Trimmed(w)
    ensures Contains(TrimSpace(s), w)
  {
    var k: nat :| Occurs(s, w, k);
    TrimLeftKeeps(s, w, k);
    var j: nat :| Occurs(TrimLeft(s), w, j);
    TrimRightKeeps(TrimLeft(s), w, j);
  }

  predicate AllSpace(s: string) {
    forall i :: 0 <= i < |s| ==> IsSpace(s[i])
  }

  lemma {:induction false} LeftCut(s: string)
    ensures AllSpace(s[..|s| - |TrimLeft(s)|])
  {
    if s != "" && IsSpace(s[0]) {
      LeftCut(s[1..]);
      var n := |s| - |TrimLeft(s)|;
      assert s[..n][1..] == s[1..][..n - 1];
      forall i | 0 <= i < n ensures IsSpace(s[..n][i]) {
        if i > 0 {
          assert s[..n][i] == s[1..][..n - 1][i - 1];
        }
      }
    }
  }

  lemma {:induction false} RightCut(s: string)
    ensures AllSpace(s[|TrimRight(s)|..])
  {
    if s != "" && IsSpace(s[|s| - 1]) {
      var t := s[..|s| - 1];
      RightCut(t);
      forall i | |TrimRight(s)| <= i < |s| ensures IsSpace(s[i]) {
        if i < |t| {
          assert t[|TrimRight(t)|..][i - |TrimRight(t)|] == t[i];
        }
      }
    }
  }

  /** Trimming cuts white space at the ends and nothing else, and leaves none there. */
  lemma {:induction false} TrimCuts(s: string) returns (a: string, b: string)
    ensures s == a + TrimSpace(s) + b && AllSpace(a) && AllSpace(b)
    ensures TrimSpace(s) == "" || Trimmed(TrimSpace(s))
  {
    hide TrimLeft, TrimRight;
    var l := TrimLeft(s);
    a, b := s[..|s| - |l|], l[|TrimRight(l)|..];
    LeftCut(s);
    RightCut(l);
    assert s == a + l && l == TrimRight(l) + b;
  }

  lemma {:induction false} TrimmedIsFixed(s: string)
    requires Trimmed(s)
    ensures TrimSpace(s) == s
  {
  }

  // --- what a replacement leaves alone ------------------------------------------------------------

  /** p, placed at offset d of w, agrees with w wherever they overlap. */
  predicate Agree(w: string, p: string, d: int) {
    forall i {:trigger w[i]} :: 0 <= i < |w| && d <= i < d + |p| ==> w[i] == p[i - d]
  }

  /** No occurrence of p can overlap an occurrence of w. */
  ghost predicate Apart(w: string, p: string) {
    forall d :: -|p| < d < |w| ==> !Agree(w, p, d)
  }

  lemma OverlapAgrees(s: string, w: string, k: nat, p: string, m: nat)
    requires Occurs(s, w, k) && Occurs(s, p, m)
    ensures Agree(w, p, m - k)
  {
    forall i | 0 <= i < |w| && m - k <= i < m - k + |p| ensures w[i] == p[i - (m - k)] {
      assert s[k..k + |w|][i] == s[k + i] == s[m..m + |p|][k + i - m];
    }
  }

  lemma {:induction false} NoMatchInFront(s: string, p: string, put: string, m: nat)
    requires p != "" && m <= |s| && forall i: nat :: i < m ==> !Occurs(s, p, i)
    ensures ReplaceAll(s, p, put) == s[..m] + ReplaceAll(s[m..], p, put)
  {
    if m == 0 {
      assert s[0..] == s;
    } else if |s| >= |p| {
      forall i: nat | i < m - 1 ensures !Occurs(s[1..], p, i) {
        assert !Occurs(s, p, i + 1);
        assert i + 1 + |p| <= |s| ==> s[1..][i..i + |p|] == s[i + 1..i + 1 + |p|];
      }
      NoMatchInFront(s[1..], p, put, m - 1);
      assert [s[0]] + s[1..][..m - 1] == s[..m];
    }
  }

  lemma NothingToReplace(s: string, p: string, put: string)
    requires p != "" && !Contains(s, p)
    ensures ReplaceAll(s, p, put) == s
  {
    NoMatchInFront(s, p, put, |s|);
  }

  /** The leftmost occurrence is replaced, and the text after it in the same way. */
  lemma {:induction false} LeftmostIsReplaced(s: string, p: string, put: string, m: nat)
    requires p != "" && Occurs(s, p, m) && forall i: nat :: i < m ==> !Occurs(s, p, i)
    ensures ReplaceAll(s, p, put) == s[..m] + put + ReplaceAll(s[m + |p|..], p, put)
  {
    OccursInTail(s, p, m, m);
    hide ReplaceAll, Occurs;
    NoMatchInFront(s, p, put, m);
    ReplacesFirst(s[m..], p, put);
    DropTwice(s, m, |p|);
    assert s[..m] + (put + ReplaceAll(s[m + |p|..], p, put)) == s[..m] + put + ReplaceAll(s[m + |p|..], p, put);
  }

  lemma DropTwice(s: string, m: nat, n: nat)
    requires m + n <= |s|
    ensures s[m..][n..] == s[m + n..]
  {
  }

  lemma {:induction false} ReplacesFirst(s: string, p: string, put: string)
    requires p != "" && Occurs(s, p, 0)
    ensures ReplaceAll(s, p, put) == put + ReplaceAll(s[|p|..], p, put)
  {
  }

  lemma {:induction false} KeptAt(s: string, p: string, put: string, w: string, k: nat)
    requires p != "" && w != "" && Occurs(s, w, k) && Apart(w, p)
    ensures Contains(ReplaceAll(s, p, put), w)
  {
    if |s| < |p| {
    } else if Occurs(s, p, 0) {
      OverlapAgrees(s, w, k, p, 0);
      assert |p| <= k;
      OccursInTail(s, w, k, |p|);
      KeptAt(s[|p|..], p, put, w, k - |p|);
      OccursBehind(put, ReplaceAll(s[|p|..], p, put), w);
    } else if k > 0 {
      OccursInTail(s, w, k, 1);
      KeptAt(s[1..], p, put, w, k - 1);
      OccursBehind([s[0]], ReplaceAll(s[1..], p, put), w);
    } else {
      forall i: nat | i < |w| ensures !Occurs(s, p, i) {
        if Occurs(s, p, i) {
          OverlapAgrees(s, w, 0, p, i);
        }
      }
      NoMatchInFront(s, p, put, |w|);
      OccursFirst(w, ReplaceAll(s[|w|..], p, put));
    }
  }

  /** A word no match can overlap survives the replacement, whatever is put in. */
  lemma Kept(s: string, p: string, put: string, w: string)
    requires p != "" && w != "" && Contains(s, w) && Apart(w, p)
    ensures Contains(ReplaceAll(s, p, put), w)
  {
    var k: nat :| Occurs(s, w, k);
    KeptAt(s, p, put, w, k);
  }

  /** Where there was something to replace, the replacement is there. */
  lemma {:induction false} PutInAt(s: string, p: string, put: string, k: nat)
    requires p != "" && Occurs(s, p, k)
    ensures Contains(ReplaceAll(s, p, put), put)
  {
    if Occurs(s, p, 0) {
      OccursFirst(put, ReplaceAll(s[|p|..], p, put));
    } else {
      OccursInTail(s, p, k, 1);
      PutInAt(s[1..], p, put, k - 1);
      OccursBehind([s[0]], ReplaceAll(s[1..], p, put), put);
    }
  }

  lemma PutIn(s: string, p: string, put: string)
    requires p != "" && Contains(s, p)
    ensures Contains(ReplaceAll(s, p, put), put)
  {
    var k: nat :| Occurs(s, p, k);
    PutInAt(s, p, put, k);
  }

  // --- counting one character -----------------------------------------------------------------------

  function Count(s: string, c: char): nat {
    if s == "" then 0 else (if s[0] == c then 1 else 0) + Count(s[1..], c)
  }

  lemma {:induction false} CountConcat(a: string, b: string, c: char)
    ensures Count(a + b, c) == Count(a, c) + Count(b, c)
  {
    if a == "" {
      assert a + b == b;
    } else {
      assert (a + b)[1..] == a[1..] + b;
      CountConcat(a[1..], b, c);
    }
  }

  lemma {:induction false} CountAbsent(s: string, c: char)
    requires c !in s
    ensures Count(s, c) == 0
  {
    if s != "" {
      CountAbsent(s[1..], c);
    }
  }

  lemma CountWithin(s: string, w: string, c: char)
    requires Contains(s, w)
    ensures Count(w, c) <= Count(s, c)
  {
    var k: nat :| Occurs(s, w, k);
    assert s == s[..k] + (w + s[k + |w|..]);
    CountConcat(s[..k], w + s[k + |w|..], c);
    CountConcat(w, s[k + |w|..], c);
  }

  /** Replacing p by something without c never adds a c, and loses p's if p occurs. */
  lemma {:induction false} CountFalls(s: string, p: string, put: string, c: char)
    requires p != "" && c !in put
    ensures Count(ReplaceAll(s, p, put), c) <= Count(s, c)
    ensures Contains(s, p) ==> Count(ReplaceAll(s, p, put), c) + Count(p, c) <= Count(s, c)
  {
    if |s| < |p| {
    } else if Occurs(s, p, 0) {
      assert s == p + s[|p|..];
      CountFalls(s[|p|..], p, put, c);
      CountConcat(p, s[|p|..], c);
      CountConcat(put, ReplaceAll(s[|p|..], p, put), c);
      CountAbsent(put, c);
    } else {
      CountFalls(s[1..], p, put, c);
      CountConcat([s[0]], ReplaceAll(s[1..], p, put), c);
      assert [s[0]][1..] == "";
      if Contains(s, p) {
        var k: nat :| Occurs(s, p, k);
        OccursInTail(s, p, k, 1);
      }
    }
  }

  lemma OccursInPrefix(p: string, s: string, w: string)
    requires p <= s && Contains(p, w)
    ensures Contains(s, w)
  {
    var k: nat :| Occurs(p, w, k);
    assert s[k..k + |w|] == p[k..k + |w|];
    assert Occurs(s, w, k);
  }

  lemma TrimIsWithin(s: string, w: string)
    requires Contains(TrimSpace(s), w)
    ensures Contains(s, w)
  {
    hide TrimLeft, TrimRight, Contains;
    var l := TrimLeft(s);
    OccursInPrefix(TrimRight(l), l, w);
    OccursBehind(s[..|s| - |l|], l, w);
    assert s == s[..|s| - |l|] + l;
  }
}
