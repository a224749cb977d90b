// The recipient is never cut from the watermark text - and exactly for which recipients that is so.
module Recipient {
  import opened Text
  import opened WmOpts

  /** The template names the recipient, or is blank and the default one stands in. */
  ghost predicate Mentions(template: string) {
    Contains(template, RECIPIENT) || TrimSpace(template) == ""
  }

  /** A form being removed starts with a brace or a space and has no brace followed by r. */
  lemma FormsAreApart(p: string)
    requires p != "" && (p[0] == '{' || p[0] == ' ')
    requires forall k :: 0 <= k < |p| && p[k] == '{' ==> k + 1 < |p| && p[k + 1] != 'r'
    ensures Apart(RECIPIENT, p)
  {
    forall d | -|p| < d < |RECIPIENT| ensures !Agree(RECIPIENT, p, d) {
      if d >= 1 {
        assert RECIPIENT[d] != p[0];
      } else if p[-d] == '{' {
        assert RECIPIENT[1] != p[1 - d];
      } else {
        assert RECIPIENT[0] != p[-d];
      }
    }
  }

  lemma FormIsApart(ph: string, i: nat)
    requires ph in {COMPANY, DATE} && i < |Forms(ph)|
    ensures Apart(RECIPIENT, Forms(ph)[i])
  {
    FormsAreApart(Forms(ph)[i]);
  }

  lemma {:induction false} RemovingKeeps(t: string, words: seq<string>, w: string)
    requires "" !in words && w != "" && Contains(t, w) && forall i :: 0 <= i < |words| ==> Apart(w, words[i])
    ensures Contains(RemoveEach(t, words), w)
  {
    if words != [] {
      var n := |words| - 1;
      RemovingKeeps(t, words[..n], w);
      Kept(RemoveEach(t, words[..n]), words[n], "", w);
    }
  }

  lemma DroppingKeeps(t: string, ph: string)
    requires ph in {COMPANY, DATE} && Contains(t, RECIPIENT)
    ensures Contains(Dropped(t, ph), RECIPIENT)
  {
    forall i | 0 <= i < |Forms(ph)| ensures Apart(RECIPIENT, Forms(ph)[i]) {
      FormIsApart(ph, i);
    }
    RemovingKeeps(t, Forms(ph), RECIPIENT);
  }

  lemma ChosenMentions(template: string)
    requires Mentions(template)
    ensures Contains(Chosen(template), RECIPIENT)
  {
    hide TrimSpace, Contains;
    if TrimSpace(template) == "" {
      OccursFirst(RECIPIENT, DOT + DATE);
      assert RECIPIENT + DOT + DATE == RECIPIENT + (DOT + DATE);
    } else {
      TrimKeeps(template, RECIPIENT);
    }
  }

  /** The placeholder is still there when its turn comes. */
  lemma PlaceholderSurvives(template: string, company: string, date: string)
    requires Mentions(template)
    ensures Contains(ReplaceAll(WithoutEmpty(Chosen(template), company, date), COMPANY, company), RECIPIENT)
  {
    ChosenMentions(template);
    var t := Chosen(template);
    if company == "" {
      DroppingKeeps(t, COMPANY);
      t := Dropped(t, COMPANY);
    }
    if date == "" {
      DroppingKeeps(t, DATE);
      t := Dropped(t, DATE);
    }
    FormIsApart(COMPANY, 4);
    Kept(t, COMPANY, company, RECIPIENT);
  }

  /** No deletion or replacement can overlap a recipient that {date} cannot overlap. */
  lemma FilledKeeps(template: string, company: string, recipient: string, date: string)
    requires Mentions(template) && Trimmed(recipient) && Apart(recipient, DATE)
    ensures Contains(Filled(template, company, recipient, date), recipient)
  {
    hide ReplaceAll, TrimSpace, Contains;
    var t := ReplaceAll(WithoutEmpty(Chosen(template), company, date), COMPANY, company);
    PlaceholderSurvives(template, company, date);
    PutIn(t, RECIPIENT, recipient);
    Kept(ReplaceAll(t, RECIPIENT, recipient), DATE, date, recipient);
    TrimKeeps(ReplaceAll(ReplaceAll(t, RECIPIENT, recipient), DATE, date), recipient);
  }

  lemma {:induction false} ShortenedKeep(template: string, company: string, recipient: string, date: string, n: int)
    requires Mentions(template) && Trimmed(recipient) && Apart(recipient, DATE) && n <= |company|
    ensures forall t :: t in Shortened(template, company, recipient, date, n) ==> Contains(t, recipient)
  {
    hide Filled, Contains, Mentions, Apart;
    if n >= MIN_COMPANY_RUNES {
      FilledKeeps(template, Short(company, n), recipient, date);
      ShortenedKeep(template, company, recipient, date, n - 1);
    }
  }

  /** Every rung shows the whole recipient, so the result does, for every company - even one that
      holds placeholders - every date and every budget. */
  lemma RecipientSurvives(template: string, company: string, recipient: string, date: string, budget: int)
    requires Mentions(template) && Trimmed(recipient) && Apart(recipient, DATE)
    ensures Contains(RenderFit(template, company, recipient, date, budget), recipient)
  {
    hide Filled, Contains, Mentions, Apart, TrimSpace;
    var co := TrimSpace(company);
    FilledKeeps(template, co, recipient, date);
    FilledKeeps(template, "", recipient, date);
    FilledKeeps(template, "", recipient, "");
    FilledKeeps(template, co, recipient, "");
    ShortenedKeep(template, co, recipient, date, |co| - 1);
    forall t | t in Ladder(template, co, recipient, date) ensures Contains(t, recipient) {
    }
  }

  // --- for which recipients -------------------------------------------------------------------------

  /** The recipient holds {date}, or starts or ends in the middle of one. */
  ghost predicate Clashes(r: string) {
    || Contains(r, DATE)
    || (exists a :: 0 < a < |DATE| && DATE[a..] <= r)
    || (exists b :: 0 < b < |DATE| && b <= |r| && r[|r| - b..] == DATE[..b])
  }

  lemma ApartUnlessClashes(r: string)
    requires '@' in r && !Clashes(r)
    ensures Apart(r, DATE)
  {
    forall d | -|DATE| < d < |r| ensures !Agree(r, DATE, d) {
      if Agree(r, DATE, d) {
        AgreeingClashes(r, d);
      }
    }
  }

  lemma AgreeingClashes(r: string, d: int)
    requires '@' in r && -|DATE| < d < |r| && Agree(r, DATE, d)
    ensures Clashes(r)
  {
    if d >= 0 && d + |DATE| <= |r| {
      assert r[d..d + |DATE|] == DATE;
      assert Occurs(r, DATE, d);
    } else if d >= 0 {
      var b := |r| - d;
      assert r[|r| - b..] == DATE[..b];
    } else {
      var k :| 0 <= k < |r| && r[k] == '@';
      assert d + |DATE| <= k;
      var a := -d;
      assert DATE[a..] == r[..|DATE| - a];
    }
  }

  /** What time.Format and an e-mail address allow in a date. */
  predicate PlainDate(date: string) {
    date != "" && '{' !in date && '}' !in date
  }

  /** Whatever the template, company, date and budget, the text shows the whole recipient. */
  ghost predicate NeverCut(r: string) {
    forall template, company, date, budget :: Mentions(template) && PlainDate(date) ==>
      Contains(RenderFit(template, company, r, date, budget), r)
  }

  /** A template that puts the recipient into the middle of a {date}. */
  function Trap(a: nat, b: nat): string
    requires a < |DATE| && 0 < b <= |DATE|
  {
    DATE[..a] + RECIPIENT + DATE[b..]
  }

  lemma TrapFilled(a: nat, b: nat, r: string, date: string)
    requires a < |DATE| && 0 < b <= |DATE| && PlainDate(date)
    ensures Filled(Trap(a, b), "x", r, date) == TrimSpace(ReplaceAll(DATE[..a] + r + DATE[b..], DATE, date))
    ensures Mentions(Trap(a, b))
  {
    var t := Trap(a, b);
    TrimmedIsFixed(t);
    TrapHasNoCompany(a, b);
    NothingToReplace(t, COMPANY, "x");
    TrapReplaced(a, b, r);
    assert t[a..a + |RECIPIENT|] == RECIPIENT;
    assert Occurs(t, RECIPIENT, a);
    hide ReplaceAll, TrimSpace;
    assert WithoutEmpty(t, "x", date) == t;
  }

  lemma OccursStart(s: string, w: string, k: nat)
    requires |w| >= 2 && Occurs(s, w, k)
    ensures s[k] == w[0] && s[k + 1] == w[1]
  {
    assert s[k..k + |w|][0] == s[k] && s[k..k + |w|][1] == s[k + 1];
  }

  lemma TrapHasNoCompany(a: nat, b: nat)
    requires a < |DATE| && 0 < b <= |DATE|
    ensures !Contains(Trap(a, b), COMPANY)
  {
    var t := Trap(a, b);
    forall k: nat ensures !Occurs(t, COMPANY, k) {
      if Occurs(t, COMPANY, k) {
        OccursStart(t, COMPANY, k);
        assert false;
      }
    }
  }

  lemma TrapStartsLate(a: nat, b: nat, k: nat)
    requires a < |DATE| && 0 < b <= |DATE| && k < a
    ensures !Occurs(Trap(a, b), RECIPIENT, k)
  {
    var t := Trap(a, b);
    if Occurs(t, RECIPIENT, k) {
      OccursStart(t, RECIPIENT, k);
      assert false;
    }
  }

  lemma ReplacedOnce(w: string, rest: string, put: string)
    requires |rest| < |w|
    ensures ReplaceAll(w + rest, w, put) == put + rest
  {
    assert (w + rest)[0..|w|] == w && (w + rest)[|w|..] == rest;
    assert Occurs(w + rest, w, 0);
  }

  lemma TrapReplaced(a: nat, b: nat, r: string)
    requires a < |DATE| && 0 < b <= |DATE|
    ensures ReplaceAll(Trap(a, b), RECIPIENT, r) == DATE[..a] + r + DATE[b..]
  {
    var t := Trap(a, b);
    forall k: nat | k < a ensures !Occurs(t, RECIPIENT, k) {
      TrapStartsLate(a, b, k);
    }
    NoMatchInFront(t, RECIPIENT, r, a);
    ReplacedOnce(RECIPIENT, DATE[b..], r);
    hide ReplaceAll;
    assert t[..a] == DATE[..a] && t[a..] == RECIPIENT + DATE[b..];
  }

  /** Filling in the date takes a brace away from the recipient. */
  lemma BraceIsLost(a: nat, b: nat, r: string, date: string, c: char)
    requires a < |DATE| && 0 < b <= |DATE| && PlainDate(date) && c in {'{', '}'}
    requires Contains(DATE[..a] + r + DATE[b..], DATE)
    requires c !in DATE[..a] && c !in DATE[b..]
    ensures !Contains(Filled(Trap(a, b), "x", r, date), r)
  {
    var u := DATE[..a] + r + DATE[b..];
    CountFalls(u, DATE, date, c);
    CountConcat(DATE[..a] + r, DATE[b..], c);
    CountConcat(DATE[..a], r, c);
    CountAbsent(DATE[..a], c);
    CountAbsent(DATE[b..], c);
    BraceInDate(c);
    TrapFilled(a, b, r, date);
    var filled := ReplaceAll(u, DATE, date);
    if Contains(TrimSpace(filled), r) {
      TrimIsWithin(filled, r);
      CountWithin(filled, r, c);
    }
  }

  lemma BraceInDate(c: char)
    requires c in {'{', '}'}
    ensures Count(DATE, c) == 1
  {
    assert DATE == [DATE[0]] + DATE[1..5] + [DATE[5]];
    CountConcat([DATE[0]] + DATE[1..5], [DATE[5]], c);
    CountConcat([DATE[0]], DATE[1..5], c);
    CountAbsent(DATE[1..5], c);
  }

  lemma TrapCatches(r: string, a: nat, b: nat, c: char)
    requires a < |DATE| && 0 < b <= |DATE| && c in {'{', '}'}
    requires Contains(DATE[..a] + r + DATE[b..], DATE)
    requires c !in DATE[..a] && c !in DATE[b..]
    ensures !NeverCut(r)
  {
    hide Filled, TrimSpace, Contains, Mentions, Trap;
    BraceIsLost(a, b, r, "2", c);
    TrapFilled(a, b, r, "2");
    TrimmedIsFixed("x");
    assert RenderFit(Trap(a, b), "x", r, "2", 0) == Filled(Trap(a, b), "x", r, "2");
  }

  lemma HoldingIsCaught(r: string)
    requires Contains(r, DATE)
    ensures !NeverCut(r)
  {
    assert DATE[..0] + r + DATE[6..] == r;
    TrapCatches(r, 0, 6, '{');
  }

  /** An address the mail grammar allows, and the watermark text does not keep. */
  lemma BracedAddressIsCut()
    ensures !NeverCut("{date}@example.com")
  {
    var r := "{date}@example.com";
    assert r[0..|DATE|] == DATE;
    assert Occurs(r, DATE, 0);
    HoldingIsCaught(r);
  }

  lemma StartIsCaught(r: string, a: nat)
    requires 0 < a < |DATE| && DATE[a..] <= r
    ensures !NeverCut(r)
  {
    var u := DATE[..a] + r + DATE[6..];
    assert u[0..|DATE|] == DATE;
    assert Occurs(u, DATE, 0);
    TrapCatches(r, a, 6, '}');
  }

  lemma EndIsCaught(r: string, b: nat)
    requires 0 < b < |DATE| && b <= |r| && r[|r| - b..] == DATE[..b]
    ensures !NeverCut(r)
  {
    var u := DATE[..0] + r + DATE[b..];
    assert u == r[..|r| - b] + (r[|r| - b..] + DATE[b..]);
    assert DATE[..b] + DATE[b..] == DATE;
    assert u[|r| - b..|r| - b + |DATE|] == DATE;
    assert Occurs(u, DATE, |r| - b);
    TrapCatches(r, 0, b, '{');
  }

  lemma ClashIsCaught(r: string)
    requires Clashes(r)
    ensures !NeverCut(r)
  {
    hide NeverCut;
    if Contains(r, DATE) {
      HoldingIsCaught(r);
    } else if a :| 0 < a < |DATE| && DATE[a..] <= r {
      StartIsCaught(r, a);
    } else {
      var b :| 0 < b < |DATE| && b <= |r| && r[|r| - b..] == DATE[..b];
      EndIsCaught(r, b);
    }
  }

  /** A recipient - trimmed, with an @ - is never cut, whatever the template, company, date and
      budget, exactly when no {date} can overlap it. */
  lemma NeverCutIff(r: string)
    requires Trimmed(r) && '@' in r
    ensures NeverCut(r) <==> !Clashes(r)
  {
    if Clashes(r) {
      ClashIsCaught(r);
    } else {
      ApartUnlessClashes(r);
      forall template, company, date, budget | Mentions(template) && PlainDate(date)
        ensures Contains(RenderFit(template, company, r, date, budget), r)
      {
        RecipientSurvives(template, company, r, date, budget);
      }
    }
  }

  lemma ClashHasBrace(r: string)
    requires Clashes(r)
    ensures '{' in r || '}' in r
  {
    if k: nat :| Occurs(r, DATE, k) {
      OccursStart(r, DATE, k);
    } else if a :| 0 < a < |DATE| && DATE[a..] <= r {
      assert r[|DATE| - a - 1] == DATE[a..][|DATE| - a - 1] == '}';
    } else {
      var b :| 0 < b < |DATE| && b <= |r| && r[|r| - b..] == DATE[..b];
      assert r[|r| - b..][0] == r[|r| - b] == DATE[0];
    }
  }

  /** In particular, an address without braces is never cut. */
  lemma BracelessIsNeverCut(template: string, company: string, recipient: string, date: string, budget: int)
    requires Mentions(template) && Trimmed(recipient) && '@' in recipient && '{' !in recipient && '}' !in recipient
    ensures Contains(RenderFit(template, company, recipient, date, budget), recipient)
  {
    if Clashes(recipient) {
      ClashHasBrace(recipient);
    }
    ApartUnlessClashes(recipient);
    RecipientSurvives(template, company, recipient, date, budget);
  }
}
