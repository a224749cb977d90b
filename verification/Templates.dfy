// What a watermark template says (internals/wmopts/wmopts.go): each placeholder shows its value where
// it stands, an empty one goes together with one separator, and a line that is too long gives up the
// end of the company, then the company, then the date.
module Templates {
  import opened Basics
  import opened Text
  import opened WmOpts

  // --- values in their places -----------------------------------------------------------------------

  datatype Piece = Words(text: string) | Company | Recipient | Date

  /** The pieces, each written as f says. */
  function Written(ps: seq<Piece>, f: Piece -> string): string {
    if ps == [] then "" else f(ps[0]) + Written(ps[1..], f)
  }

  function AsTemplate(p: Piece): string {
    match p
    case Words(text) => text
    case Company => "{company}"
    case Recipient => "{recipient}"
    case Date => "{date}"
  }

  function AsShown(company: string, recipient: string, date: string): Piece -> string {
    (p: Piece) => match p
      case Words(text) => text
      case Company => company
      case Recipient => recipient
      case Date => date
  }

  predicate Plain(s: string) {
    '{' !in s
  }

  predicate PlainWords(ps: seq<Piece>) {
    forall i :: 0 <= i < |ps| && ps[i].Words? ==> Plain(ps[i].text)
  }

  /** No occurrence of ph can begin inside s. */
  predicate SteersClear(s: string, ph: string) {
    || Plain(s)
    || (|s| >= 2 && |ph| >= 2 && s[0] == '{' && s[1] != ph[1] && Plain(s[1..]))
  }

  lemma {:induction false} TwoCharacters(t: string, ph: string, i: nat)
    requires |ph| >= 2 && i < |t|
    ensures Occurs(t, ph, i) ==> t[i] == ph[0] && i + 1 < |t| && t[i + 1] == ph[1]
  {
    if Occurs(t, ph, i) {
      assert t[i..i + |ph|][0] == t[i] && t[i..i + |ph|][1] == t[i + 1];
    }
  }

  lemma {:induction false} SkipsOver(s: string, rest: string, ph: string, put: string)
    requires |ph| >= 2 && ph[0] == '{' && SteersClear(s, ph)
    ensures ReplaceAll(s + rest, ph, put) == s + ReplaceAll(rest, ph, put)
  {
    var t := s + rest;
    forall i: nat | i < |s| ensures !Occurs(t, ph, i) {
      TwoCharacters(t, ph, i);
      assert t[i] == s[i] && (i > 0 ==> s[1..][i - 1] == s[i]);
    }
    NoMatchInFront(t, ph, put, |s|);
    assert t[..|s|] == s && t[|s|..] == rest;
  }

  lemma {:induction false} ReplacesHead(rest: string, ph: string, put: string)
    requires ph != ""
    ensures ReplaceAll(ph + rest, ph, put) == put + ReplaceAll(rest, ph, put)
  {
    hide ReplaceAll;
    assert Occurs(ph + rest, ph, 0);
    ReplacesFirst(ph + rest, ph, put);
    assert (ph + rest)[|ph|..] == rest;
  }

  /** One replacement pass over the pieces. */
  lemma {:induction false} PassOver(ps: seq<Piece>, f: Piece -> string, ph: string, put: string, g: Piece -> string)
    requires |ph| >= 2 && ph[0] == '{'
    requires forall p :: p in ps ==> if f(p) == ph then g(p) == put else SteersClear(f(p), ph) && g(p) == f(p)
    ensures ReplaceAll(Written(ps, f), ph, put) == Written(ps, g)
  {
    hide ReplaceAll, SteersClear;
    if ps == [] {
      NothingInEmpty(ph, put);
    } else {
      PassOver(ps[1..], f, ph, put, g);
      if f(ps[0]) == ph {
        ReplacesHead(Written(ps[1..], f), ph, put);
      } else {
        SkipsOver(f(ps[0]), Written(ps[1..], f), ph, put);
      }
    }
  }

  lemma {:induction false} NothingInEmpty(ph: string, put: string)
    requires ph != ""
    ensures ReplaceAll("", ph, put) == ""
  {
  }

  /** A template of plain words and placeholders shows, between the same words, the company, the
      recipient and the date wherever their placeholders stand. */
  lemma {:induction false} ShowsValuesInPlace(ps: seq<Piece>, template: string, company: string, recipient: string,
      date: string)
    requires PlainWords(ps) && Plain(company) && Plain(recipient) && company != "" && date != ""
    requires TrimSpace(template) == Written(ps, AsTemplate) != ""
    ensures Filled(template, company, recipient, date) == TrimSpace(Written(ps, AsShown(company, recipient, date)))
  {
    hide ReplaceAll, TrimSpace, Written;
    var f1 := AsShown(company, RECIPIENT, DATE);
    var f2 := AsShown(company, recipient, DATE);
    var t := Written(ps, AsTemplate);
    PlaceholdersDiffer();
    PassOver(ps, AsTemplate, COMPANY, company, f1);
    PassOver(ps, f1, RECIPIENT, recipient, f2);
    PassOver(ps, f2, DATE, date, AsShown(company, recipient, date));
  }

  lemma {:induction false} PlaceholdersDiffer()
    ensures SteersClear(RECIPIENT, COMPANY) && SteersClear(DATE, COMPANY)
    ensures SteersClear(COMPANY, RECIPIENT) && SteersClear(DATE, RECIPIENT)
    ensures SteersClear(COMPANY, DATE) && SteersClear(RECIPIENT, DATE)
  {
  }

  /** A blank template is "{recipient} . {date}" with a middle dot. */
  lemma {:induction false} BlankIsDefault(template: string, company: string, recipient: string, date: string)
    requires TrimSpace(template) == ""
    ensures Filled(template, company, recipient, date)
            == Filled("{recipient} \U{B7} {date}", company, recipient, date)
  {
    hide ReplaceAll, WithoutEmpty, TrimSpace;
    TrimmedIsFixed(DEFAULT_TEMPLATE);
    DefaultSpelled();
  }

  lemma {:induction false} DefaultSpelled()
    ensures DEFAULT_TEMPLATE == "{recipient} \U{B7} {date}"
  {
  }

  // --- an empty value goes with one separator ----------------------------------------------------------

  /** ph stands in t at k and nowhere else. */
  ghost predicate OnlyAt(t: string, ph: string, k: nat) {
    Occurs(t, ph, k) && forall i: nat :: Occurs(t, ph, i) ==> i == k
  }

  /** Every brace opened before i is closed before i. */
  predicate ClosedUpTo(t: string, i: nat)
    requires i <= |t|
  {
    forall m :: 0 <= m < i && t[m] == '{' ==> exists n :: m < n < i && t[n] == '}'
  }

  /** A word that begins with the one brace it opens and ends with the one it closes. */
  predicate IsPlaceholder(ph: string) {
    && |ph| >= 2 && ph[0] == '{' && ph[|ph| - 1] == '}'
    && forall i :: 0 < i < |ph| - 1 ==> ph[i] != '{' && ph[i] != '}'
  }

  /** t without what stands from i to j. */
  function CutOut(t: string, i: nat, j: nat): (r: string)
    requires i <= j <= |t|
  {
    t[..i] + t[j..]
  }

  /** w stands in t right before i. */
  predicate Before(t: string, w: string, i: nat) {
    |w| <= i && Occurs(t, w, i - |w|)
  }

  /** t without what stands from i to j and one separator: the one after it, else the one before it -
      a dot rather than a dash on either side. */
  function WithoutOne(t: string, i: nat, j: nat): string
    requires i <= j <= |t|
  {
    if Occurs(t, DOT, j) then CutOut(t, i, j + |DOT|)
    else if Before(t, DOT, i) then CutOut(t, i - |DOT|, j)
    else if Occurs(t, DASH, j) then CutOut(t, i, j + |DASH|)
    else if Before(t, DASH, i) then CutOut(t, i - |DASH|, j)
    else CutOut(t, i, j)
  }

  /** The characters of an occurrence. */
  lemma {:induction false} StandsAt(t: string, w: string, i: nat)
    ensures Occurs(t, w, i) <==> i + |w| <= |t| && forall j :: 0 <= j < |w| ==> t[i + j] == w[j]
  {
    if i + |w| <= |t| {
      var part := t[i..i + |w|];
      assert forall j :: 0 <= j < |w| ==> part[j] == t[i + j];
    }
  }

  lemma {:induction false} CutOutAt(t: string, i: nat, j: nat)
    requires i <= j <= |t|
    ensures |CutOut(t, i, j)| == |t| - (j - i)
    ensures forall m :: 0 <= m < i ==> CutOut(t, i, j)[m] == t[m]
    ensures forall m :: i <= m < |CutOut(t, i, j)| ==> CutOut(t, i, j)[m] == t[m + (j - i)]
  {
  }

  /** With its one place cut out - and with it what stands around it - no ph is left. */
  lemma {:induction false} NoneLeft(t: string, ph: string, k: nat, i: nat, j: nat)
    requires IsPlaceholder(ph) && OnlyAt(t, ph, k) && i <= k && k + |ph| <= j <= |t| && ClosedUpTo(t, i)
    ensures !Contains(CutOut(t, i, j), ph)
  {
    hide CutOut, Occurs;
    CutOutAt(t, i, j);
    forall m: nat ensures !Occurs(CutOut(t, i, j), ph, m) {
      NoneAt(t, ph, k, i, j, m);
    }
  }

  lemma {:induction false} NoneAt(t: string, ph: string, k: nat, i: nat, j: nat, m: nat)
    requires IsPlaceholder(ph) && OnlyAt(t, ph, k) && i <= k && k + |ph| <= j <= |t| && ClosedUpTo(t, i)
    ensures !Occurs(CutOut(t, i, j), ph, m)
  {
    hide *;
    if m + |ph| <= i {
      NoneInFront(t, ph, k, i, j, m);
    } else if i <= m {
      NoneBehind(t, ph, k, i, j, m);
    } else {
      NoneAcross(t, ph, i, j, m);
    }
  }

  lemma {:induction false} NoneInFront(t: string, ph: string, k: nat, i: nat, j: nat, m: nat)
    requires IsPlaceholder(ph) && OnlyAt(t, ph, k) && i <= k && k + |ph| <= j <= |t| && m + |ph| <= i
    ensures !Occurs(CutOut(t, i, j), ph, m)
  {
    hide CutOut, Occurs;
    var u := CutOut(t, i, j);
    CutOutAt(t, i, j);
    StandsAt(u, ph, m);
    StandsAt(t, ph, m);
    if m + |ph| <= |u| {
      assert forall n :: 0 <= n < |ph| ==> (u[m + n] == ph[n] <==> t[m + n] == ph[n]);
    }
  }

  lemma {:induction false} NoneBehind(t: string, ph: string, k: nat, i: nat, j: nat, m: nat)
    requires IsPlaceholder(ph) && OnlyAt(t, ph, k) && i <= k && k + |ph| <= j <= |t| && i <= m
    ensures !Occurs(CutOut(t, i, j), ph, m)
  {
    hide CutOut, Occurs;
    var u, later := CutOut(t, i, j), m + (j - i);
    CutOutAt(t, i, j);
    StandsAt(u, ph, m);
    StandsAt(t, ph, later);
    if m + |ph| <= |u| {
      assert forall n :: 0 <= n < |ph| ==> (u[m + n] == ph[n] <==> t[later + n] == ph[n]);
    }
  }

  lemma {:induction false} NoneAcross(t: string, ph: string, i: nat, j: nat, m: nat)
    requires IsPlaceholder(ph) && i <= j <= |t| && ClosedUpTo(t, i) && m < i < m + |ph|
    ensures !Occurs(CutOut(t, i, j), ph, m)
  {
    hide CutOut, Occurs;
    var u := CutOut(t, i, j);
    CutOutAt(t, i, j);
    StandsAt(u, ph, m);
    if m + |ph| <= |u| {
      assert u[m + 0] == t[m] && ph[0] == '{';
      if t[m] == '{' {
        var n :| m < n < i && t[n] == '}';
        assert u[m + (n - m)] == t[n];
        assert ph[n - m] != '}';
      }
    }
  }

  /** w stands in form at d. */
  predicate Holds(form: string, w: string, d: nat) {
    d + |w| <= |form| && forall j :: 0 <= j < |w| ==> form[d + j] == w[j]
  }

  lemma {:induction false} FormHolds(t: string, form: string, ph: string, d: nat, i: nat)
    requires Occurs(t, form, i) && Holds(form, ph, d)
    ensures Occurs(t, ph, i + d)
  {
    hide Occurs;
    StandsAt(t, form, i);
    StandsAt(t, ph, i + d);
    forall j | 0 <= j < |ph| ensures t[i + d + j] == ph[j] {
      assert t[i + (d + j)] == form[d + j];
    }
  }

  lemma {:induction false} OccursLater(t: string, w: string, m: nat, i: nat)
    requires m <= |t| && Occurs(t[m..], w, i)
    ensures Occurs(t, w, m + i)
  {
    hide Occurs;
    StandsAt(t[m..], w, i);
    StandsAt(t, w, m + i);
  }

  lemma {:induction false} NothingPut(t: string, i: nat, j: nat)
    requires i <= j <= |t|
    ensures t[..i] + "" + t[j..] == CutOut(t, i, j)
  {
  }

  /** Taking a form - the placeholder with something before or after it - out of t. */
  lemma {:induction false} FormGoes(t: string, form: string, ph: string, d: nat, k: nat)
    requires form != "" && Holds(form, ph, d) && OnlyAt(t, ph, k)
    ensures if d <= k && Occurs(t, form, k - d) then
        k - d + |form| <= |t| && ReplaceAll(t, form, "") == CutOut(t, k - d, k - d + |form|)
      else ReplaceAll(t, form, "") == t
  {
    hide ReplaceAll, Holds, CutOut;
    forall i: nat | Occurs(t, form, i) ensures i + d == k {
      FormHolds(t, form, ph, d, i);
    }
    if d <= k && Occurs(t, form, k - d) {
      var m, n := k - d, k - d + |form|;
      LeftmostIsReplaced(t, form, "", m);
      NoneAfter(t, form, n, m);
      NothingToReplace(t[n..], form, "");
      NothingPut(t, m, n);
    } else {
      NothingToReplace(t, form, "");
    }
  }

  lemma {:induction false} NoneAfter(t: string, w: string, n: nat, m: nat)
    requires n <= |t| && m < n && forall i: nat :: Occurs(t, w, i) ==> i == m
    ensures !Contains(t[n..], w)
  {
    hide Occurs;
    forall i: nat ensures !Occurs(t[n..], w, i) {
      if Occurs(t[n..], w, i) {
        OccursLater(t, w, n, i);
      }
    }
  }

  lemma {:induction false} AfterIff(t: string, ph: string, after: string, k: nat)
    requires Occurs(t, ph, k)
    ensures Occurs(t, ph + after, k) <==> Occurs(t, after, k + |ph|)
  {
    hide Occurs;
    StandsAt(t, ph, k);
    StandsAt(t, ph + after, k);
    StandsAt(t, after, k + |ph|);
    var form, n := ph + after, k + |ph|;
    if n + |after| <= |t| {
      forall j | 0 <= j < |after| ensures t[n + j] == after[j] <==> t[k + (|ph| + j)] == form[|ph| + j] {
      }
      forall j | 0 <= j < |form| ensures t[k + j] == form[j] <==>
          if j < |ph| then t[k + j] == ph[j] else t[n + (j - |ph|)] == after[j - |ph|]
      {
      }
    }
  }

  lemma {:induction false} BeforeIff(t: string, before: string, ph: string, k: nat)
    requires Occurs(t, ph, k) && |before| <= k
    ensures Occurs(t, before + ph, k - |before|) <==> Occurs(t, before, k - |before|)
  {
    hide Occurs;
    var m := k - |before|;
    StandsAt(t, ph, k);
    StandsAt(t, before + ph, m);
    StandsAt(t, before, m);
    var form := before + ph;
    forall j | 0 <= j < |before| ensures t[m + j] == before[j] <==> t[m + j] == form[j] {
    }
    forall j | 0 <= j < |form| ensures t[m + j] == form[j] <==>
        if j < |before| then t[m + j] == before[j] else t[k + (j - |before|)] == ph[j - |before|]
    {
    }
  }

  lemma {:induction false} GoneStays(g: string, form: string, ph: string, d: nat)
    requires form != "" && Holds(form, ph, d) && !Contains(g, ph)
    ensures ReplaceAll(g, form, "") == g
  {
    hide ReplaceAll, Holds, Occurs;
    forall i: nat ensures !Occurs(g, form, i) {
      if Occurs(g, form, i) {
        FormHolds(g, form, ph, d, i);
      }
    }
    NothingToReplace(g, form, "");
  }

  lemma {:induction false} HoldsFirst(ph: string, w: string)
    ensures Holds(ph + w, ph, 0)
  {
  }

  lemma {:induction false} HoldsLast(w: string, ph: string)
    ensures Holds(w + ph, ph, |w|)
  {
  }

  lemma {:induction false} RemoveOneMore(t: string, words: seq<string>, i: nat)
    requires i < |words| && "" !in words
    ensures RemoveEach(t, words[..i + 1]) == ReplaceAll(RemoveEach(t, words[..i]), words[i], "")
  {
    assert words[..i + 1][..i] == words[..i];
  }

  /** One form after the other is taken out. */
  lemma {:induction false} DroppedInTurn(t: string, ph: string)
    requires ph != ""
    ensures var t1 := ReplaceAll(t, ph + DOT, "");
      var t2 := ReplaceAll(t1, DOT + ph, "");
      var t3 := ReplaceAll(t2, ph + DASH, "");
      var t4 := ReplaceAll(t3, DASH + ph, "");
      Dropped(t, ph) == ReplaceAll(t4, ph, "")
  {
    var fs := Forms(ph);
    assert fs == [ph + DOT, DOT + ph, ph + DASH, DASH + ph, ph];
    hide ReplaceAll, RemoveEach;
    NothingRemoved(t);
    assert fs[..0] == [] && fs[..5] == fs;
    RemoveOneMore(t, fs, 0);
    RemoveOneMore(t, fs, 1);
    RemoveOneMore(t, fs, 2);
    RemoveOneMore(t, fs, 3);
    RemoveOneMore(t, fs, 4);
  }

  lemma {:induction false} NothingRemoved(t: string)
    ensures RemoveEach(t, []) == t
  {
  }

  lemma {:induction false} PlaceholderIsLong(ph: string)
    requires IsPlaceholder(ph)
    ensures |ph| >= 2
  {
  }

  lemma {:induction false} Fits(t: string, w: string, k: nat)
    requires Occurs(t, w, k)
    ensures k + |w| <= |t|
  {
  }

  lemma {:induction false} OnlyAtOccurs(t: string, ph: string, k: nat)
    requires OnlyAt(t, ph, k)
    ensures Occurs(t, ph, k) && k + |ph| <= |t|
  {
  }

  /** What taking out one form leaves: the text without the placeholder and that separator, in which
      nothing more is taken out - or the text as it was. */
  lemma {:induction false} CutForm(t: string, form: string, ph: string, d: nat, k: nat)
    requires IsPlaceholder(ph) && OnlyAt(t, ph, k) && Holds(form, ph, d) && d <= k <= |t|
    requires Occurs(t, form, k - d) ==> ClosedUpTo(t, k - d)
    ensures var u := ReplaceAll(t, form, "");
      if Occurs(t, form, k - d) then
        k - d + |form| <= |t| && u == CutOut(t, k - d, k - d + |form|) && !Contains(u, ph)
      else u == t
  {
    HoldsFits(form, ph, d);
    hide *;
    FormGoes(t, form, ph, d, k);
    if Occurs(t, form, k - d) {
      Fits(t, form, k - d);
      NoneLeft(t, ph, k, k - d, k - d + |form|);
    }
  }

  lemma {:induction false} HoldsFits(form: string, ph: string, d: nat)
    requires IsPlaceholder(ph) && Holds(form, ph, d)
    ensures d + |ph| <= |form| && form != ""
  {
  }

  lemma {:induction false} FormAfter(t: string, ph: string, after: string, k: nat)
    requires IsPlaceholder(ph) && OnlyAt(t, ph, k) && k <= |t| && ClosedUpTo(t, k)
    ensures var u := ReplaceAll(t, ph + after, "");
      if Occurs(t, after, k + |ph|) then
        k + |ph + after| <= |t| && u == CutOut(t, k, k + |ph + after|) && !Contains(u, ph)
      else u == t
  {
    OnlyAtOccurs(t, ph, k);
    hide *;
    HoldsFirst(ph, after);
    AfterIff(t, ph, after, k);
    CutForm(t, ph + after, ph, 0, k);
  }

  lemma {:induction false} FormBefore(t: string, before: string, ph: string, k: nat)
    requires IsPlaceholder(ph) && OnlyAt(t, ph, k) && |before| <= k <= |t| && ClosedUpTo(t, k) && '}' !in before
    ensures var u, i := ReplaceAll(t, before + ph, ""), k - |before|;
      if Occurs(t, before, i) then
        i + |before + ph| <= |t| && u == CutOut(t, i, i + |before + ph|) && !Contains(u, ph)
      else u == t
  {
    OnlyAtOccurs(t, ph, k);
    hide *;
    HoldsLast(before, ph);
    BeforeIff(t, before, ph, k);
    if Occurs(t, before, k - |before|) {
      StillClosed(t, k, before);
    }
    CutForm(t, before + ph, ph, |before|, k);
  }

  /** There is no room for the separator before it. */
  lemma {:induction false} NoRoomBefore(t: string, before: string, ph: string, k: nat)
    requires IsPlaceholder(ph) && OnlyAt(t, ph, k) && k < |before|
    ensures ReplaceAll(t, before + ph, "") == t
  {
    PlaceholderIsLong(ph);
    hide ReplaceAll, IsPlaceholder, OnlyAt, Holds, CutOut;
    HoldsLast(before, ph);
    FormGoes(t, before + ph, ph, |before|, k);
  }

  lemma {:induction false} SeparatorBefore(t: string, sep: string, ph: string, k: nat)
    requires IsPlaceholder(ph) && OnlyAt(t, ph, k) && k + |ph| <= |t| && ClosedUpTo(t, k) && '}' !in sep
    ensures var u := ReplaceAll(t, sep + ph, "");
      if Before(t, sep, k) then u == CutOut(t, k - |sep|, k + |ph|) && !Contains(u, ph) else u == t
  {
    hide ReplaceAll, IsPlaceholder, OnlyAt, Occurs, CutOut, ClosedUpTo, Contains;
    if |sep| <= k {
      FormBefore(t, sep, ph, k);
      assert k - |sep| + |sep + ph| == k + |ph|;
    } else {
      NoRoomBefore(t, sep, ph, k);
    }
  }

  lemma {:induction false} SeparatorAfter(t: string, sep: string, ph: string, k: nat)
    requires IsPlaceholder(ph) && OnlyAt(t, ph, k) && k + |ph| <= |t| && ClosedUpTo(t, k)
    ensures var u := ReplaceAll(t, ph + sep, "");
      if Occurs(t, sep, k + |ph|) then
        k + |ph| + |sep| <= |t| && u == CutOut(t, k, k + |ph| + |sep|) && !Contains(u, ph)
      else u == t
  {
    hide ReplaceAll, IsPlaceholder, OnlyAt, Occurs, CutOut, ClosedUpTo, Contains;
    FormAfter(t, ph, sep, k);
    assert k + |ph + sep| == k + |ph| + |sep|;
  }

  lemma {:induction false} StillClosed(t: string, k: nat, w: string)
    requires k <= |t| && ClosedUpTo(t, k) && |w| <= k && Occurs(t, w, k - |w|) && '}' !in w
    ensures ClosedUpTo(t, k - |w|)
  {
    var i := k - |w|;
    StandsAt(t, w, i);
    forall n | i <= n < k ensures t[n] != '}' {
      assert t[i + (n - i)] == w[n - i];
    }
  }

  /** An empty value takes its placeholder out together with one separator next to it. */
  lemma {:induction false} EmptyGoesWithSeparator(t: string, ph: string, k: nat)
    requires IsPlaceholder(ph) && OnlyAt(t, ph, k) && k + |ph| <= |t| && ClosedUpTo(t, k)
    ensures Dropped(t, ph) == WithoutOne(t, k, k + |ph|)
  {
    PlaceholderIsLong(ph);
    DroppedInTurn(t, ph);
    NoBraceInSeparators();
    hide ReplaceAll, Dropped, Occurs, OnlyAt, Contains, IsPlaceholder, ClosedUpTo, CutOut;
    SeparatorAfter(t, DOT, ph, k);
    if Occurs(t, DOT, k + |ph|) {
      StaysGone(ReplaceAll(t, ph + DOT, ""), ph);
    } else {
      SeparatorBefore(t, DOT, ph, k);
      if Before(t, DOT, k) {
        StaysGone(ReplaceAll(t, DOT + ph, ""), ph);
      } else {
        DashesGo(t, ph, k);
      }
    }
  }

  lemma {:induction false} DashesGo(t: string, ph: string, k: nat)
    requires IsPlaceholder(ph) && OnlyAt(t, ph, k) && k + |ph| <= |t| && ClosedUpTo(t, k)
    ensures var u := ReplaceAll(ReplaceAll(ReplaceAll(t, ph + DASH, ""), DASH + ph, ""), ph, "");
      if Occurs(t, DASH, k + |ph|) then k + |ph| + |DASH| <= |t| && u == CutOut(t, k, k + |ph| + |DASH|)
      else if Before(t, DASH, k) then u == CutOut(t, k - |DASH|, k + |ph|)
      else u == CutOut(t, k, k + |ph|)
  {
    PlaceholderIsLong(ph);
    NoBraceInSeparators();
    hide ReplaceAll, Occurs, OnlyAt, Contains, IsPlaceholder, ClosedUpTo, CutOut;
    SeparatorAfter(t, DASH, ph, k);
    if Occurs(t, DASH, k + |ph|) {
      StaysGone(ReplaceAll(t, ph + DASH, ""), ph);
    } else {
      SeparatorBefore(t, DASH, ph, k);
      if Before(t, DASH, k) {
        StaysGone(ReplaceAll(t, DASH + ph, ""), ph);
      } else {
        FormAlone(t, ph, k);
      }
    }
  }

  lemma {:induction false} FormAlone(t: string, ph: string, k: nat)
    requires IsPlaceholder(ph) && OnlyAt(t, ph, k) && k + |ph| <= |t|
    ensures ReplaceAll(t, ph, "") == CutOut(t, k, k + |ph|)
  {
    PlaceholderIsLong(ph);
    OnlyAtOccurs(t, ph, k);
    hide ReplaceAll, OnlyAt, Occurs, CutOut, IsPlaceholder;
    FormGoes(t, ph, ph, 0, k);
  }

  /** Once it is gone no form takes anything more. */
  lemma {:induction false} StaysGone(g: string, ph: string)
    requires ph != "" && !Contains(g, ph)
    ensures ReplaceAll(g, ph + DOT, "") == g && ReplaceAll(g, DOT + ph, "") == g
    ensures ReplaceAll(g, ph + DASH, "") == g && ReplaceAll(g, DASH + ph, "") == g
    ensures ReplaceAll(g, ph, "") == g
  {
    hide *;
    HoldsFirst(ph, DOT);
    HoldsLast(DOT, ph);
    HoldsFirst(ph, DASH);
    HoldsLast(DASH, ph);
    GoneStays(g, ph + DOT, ph, 0);
    GoneStays(g, DOT + ph, ph, |DOT|);
    GoneStays(g, ph + DASH, ph, 0);
    GoneStays(g, DASH + ph, ph, |DASH|);
    NothingToReplace(g, ph, "");
  }

  lemma {:induction false} NoBraceInSeparators()
    ensures '}' !in DOT && '}' !in DASH && '}' !in ""
    ensures DOT == " \U{B7} " && DASH == " - "
  {
  }

  lemma {:induction false} ThePlaceholders()
    ensures IsPlaceholder("{company}") && IsPlaceholder("{recipient}") && IsPlaceholder("{date}")
    ensures COMPANY == "{company}" && RECIPIENT == "{recipient}" && DATE == "{date}"
  {
  }

  /** The text before the values go in: an empty company and an empty date, and nothing else, are
      dropped. */
  lemma {:induction false} EmptyOnesAreDropped(t: string, company: string, date: string)
    ensures company != "" && date != "" ==> WithoutEmpty(t, company, date) == t
    ensures company == "" && date != "" ==> WithoutEmpty(t, company, date) == Dropped(t, "{company}")
    ensures company != "" && date == "" ==> WithoutEmpty(t, company, date) == Dropped(t, "{date}")
    ensures company == "" && date == "" ==> WithoutEmpty(t, company, date) == Dropped(Dropped(t, "{company}"), "{date}")
  {
    hide Dropped;
    ThePlaceholders();
  }

  // --- what a long line gives up ------------------------------------------------------------------------

  /** The line with the first n characters of the company and three dots. */
  function Cut(template: string, company: string, n: nat, recipient: string, date: string): string
    requires n <= |company|
  {
    Filled(template, TrimSpace(company[..n]) + "...", recipient, date)
  }

  lemma {:induction false} CutIsShort(template: string, company: string, n: nat, recipient: string, date: string)
    requires n <= |company|
    ensures Cut(template, company, n, recipient, date) == Filled(template, Short(company, n), recipient, date)
  {
    assert Short(company, n) == TrimSpace(company[..n]) + "...";
  }

  lemma {:induction false} LongestCutIsFirst(template: string, company: string, recipient: string, date: string,
      n: int, m: int, budget: int)
    requires 3 <= m <= n <= |company| && |Cut(template, company, m, recipient, date)| <= budget
    requires forall i :: m < i <= n ==> |Cut(template, company, i, recipient, date)| > budget
    ensures FirstShort(template, company, recipient, date, n, budget) ==
        Some(Cut(template, company, m, recipient, date))
    decreases n
  {
    hide Filled, TrimSpace;
    CutIsShort(template, company, n, recipient, date);
    if m < n {
      LongestCutIsFirst(template, company, recipient, date, n - 1, m, budget);
    }
  }

  lemma {:induction false} NoCutFits(template: string, company: string, recipient: string, date: string, n: int,
      budget: int)
    requires n <= |company| && forall i :: 3 <= i <= n ==> |Cut(template, company, i, recipient, date)| > budget
    ensures FirstShort(template, company, recipient, date, n, budget) == None
    decreases n
  {
    hide Filled, TrimSpace;
    if n >= 3 {
      CutIsShort(template, company, n, recipient, date);
      NoCutFits(template, company, recipient, date, n - 1, budget);
    }
  }

  /** A line that fits, or has no budget, is shown in full. */
  lemma {:induction false} FittingIsFull(template: string, company: string, recipient: string, date: string,
      budget: int)
    ensures var full := Filled(template, TrimSpace(company), recipient, date);
      budget <= 0 || |full| <= budget ==> RenderFit(template, company, recipient, date, budget) == full
  {
    hide Filled, TrimSpace;
  }

  /** A line that is too long and shows the company keeps the longest beginning of it, of at least
      three characters, with which it fits. */
  lemma {:induction false} LongestCompanyIsKept(template: string, company: string, recipient: string, date: string,
      budget: int, m: int)
    requires var co := TrimSpace(company);
      && co != "" && |Filled(template, co, recipient, date)| > budget > 0
      && |Filled(template, "", recipient, date)| < |Filled(template, co, recipient, date)|
      && 3 <= m < |co| && |Cut(template, co, m, recipient, date)| <= budget
      && forall i :: m < i < |co| ==> |Cut(template, co, i, recipient, date)| > budget
    ensures RenderFit(template, company, recipient, date, budget) ==
        Cut(template, TrimSpace(company), m, recipient, date)
  {
    hide Filled, TrimSpace, Ladder, Cut;
    var co := TrimSpace(company);
    FittedWithCompany(template, co, recipient, date, budget);
    LongestCutIsFirst(template, co, recipient, date, |co| - 1, m, budget);
  }

  /** If no beginning of the company fits, the company goes; if that is not enough, the date goes too
      - unless that gains nothing. */
  lemma {:induction false} CompanyThenDateGo(template: string, company: string, recipient: string, date: string,
      budget: int)
    requires var co := TrimSpace(company);
      && co != "" && |Filled(template, co, recipient, date)| > budget > 0
      && |Filled(template, "", recipient, date)| < |Filled(template, co, recipient, date)|
      && forall i :: 3 <= i < |co| ==> |Cut(template, co, i, recipient, date)| > budget
    ensures var without, bare := Filled(template, "", recipient, date), Filled(template, "", recipient, "");
      RenderFit(template, company, recipient, date, budget) ==
        if |without| <= budget then without else if |bare| < |without| then bare else without
  {
    hide Filled, TrimSpace, Ladder, Cut;
    var co := TrimSpace(company);
    FittedWithCompany(template, co, recipient, date, budget);
    NoCutFits(template, co, recipient, date, |co| - 1, budget);
  }

  /** Without a company on it, a line that is too long loses its date - unless that gains nothing. */
  lemma {:induction false} OnlyDateGoes(template: string, company: string, recipient: string, date: string, budget: int)
    requires var co := TrimSpace(company);
      && |Filled(template, co, recipient, date)| > budget > 0
      && (co == "" || |Filled(template, "", recipient, date)| >= |Filled(template, co, recipient, date)|)
    ensures var full, bare := Filled(template, TrimSpace(company), recipient, date),
        Filled(template, TrimSpace(company), recipient, "");
      RenderFit(template, company, recipient, date, budget) == if |bare| < |full| then bare else full
  {
    hide Filled, TrimSpace;
  }
}
