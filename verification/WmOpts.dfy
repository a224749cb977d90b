// The watermark text ladder of internals/wmopts/wmopts.go: filling a template, and what a line that
// is too long gives up.
module WmOpts {
  import opened Basics
  import opened Text

  const COMPANY := "{company}"
  const RECIPIENT := "{recipient}"
  const DATE := "{date}"
  const DOT := " \U{B7} "
  const DASH := " - "
  const DEFAULT_TEMPLATE := RECIPIENT + DOT + DATE
  const ELLIPSIS := "..."
  const MIN_COMPANY_RUNES := 3

  /** A placeholder with the separator after or before it, then on its own. */
  function Forms(ph: string): seq<string> {
    [ph + DOT, DOT + ph, ph + DASH, DASH + ph, ph]
  }

  function RemoveEach(t: string, words: seq<string>): string
    requires "" !in words
  {
    if words == [] then t else ReplaceAll(RemoveEach(t, words[..|words| - 1]), words[|words| - 1], "")
  }

  function Dropped(t: string, ph: string): string
    requires ph != ""
  {
    RemoveEach(t, Forms(ph))
  }

  function Chosen(template: string): string {
    var t := TrimSpace(template);
    if t == "" then DEFAULT_TEMPLATE else t
  }

  function WithoutEmpty(t: string, company: string, date: string): string {
    var t := if company == "" then Dropped(t, COMPANY) else t;
    if date == "" then Dropped(t, DATE) else t
  }

  function Filled(template: string, company: string, recipient: string, date: string): string {
    var t := WithoutEmpty(Chosen(template), company, date);
    TrimSpace(ReplaceAll(ReplaceAll(ReplaceAll(t, COMPANY, company), RECIPIENT, recipient), DATE, date))
  }

  // --- the ladder -----------------------------------------------------------------------------------

  function Short(company: string, n: nat): string
    requires n <= |company|
  {
    TrimSpace(company[..n]) + ELLIPSIS
  }

  /** The text with the first n runes of the company, then n - 1, down to three. */
  function Shortened(template: string, company: string, recipient: string, date: string, n: int): seq<string>
    requires n <= |company|
  {
    if n < MIN_COMPANY_RUNES then []
    else [Filled(template, Short(company, n), recipient, date)] + Shortened(template, company, recipient, date, n - 1)
  }

  predicate ShowsCompany(template: string, company: string, recipient: string, date: string) {
    company != "" && |Filled(template, "", recipient, date)| < |Filled(template, company, recipient, date)|
  }

  /** Full text; company prefixes, longest first, and no company, if the template shows it; no date. */
  function Ladder(template: string, company: string, recipient: string, date: string): (r: seq<string>)
    ensures |r| >= 2
  {
    var full := Filled(template, company, recipient, date);
    if ShowsCompany(template, company, recipient, date) then
      [full] + Shortened(template, company, recipient, date, |company| - 1)
        + [Filled(template, "", recipient, date), Filled(template, "", recipient, "")]
    else [full, Filled(template, company, recipient, "")]
  }

  function FirstFit(rungs: seq<string>, budget: int): (i: nat)
    ensures i <= |rungs|
    ensures i < |rungs| ==> |rungs[i]| <= budget
    ensures forall k :: 0 <= k < i ==> |rungs[k]| > budget
  {
    if rungs == [] || |rungs[0]| <= budget then 0 else 1 + FirstFit(rungs[1..], budget)
  }

  /** The first rung that fits; if none does, the last unless dropping the date gained nothing. */
  function Fitted(rungs: seq<string>, budget: int): string
    requires |rungs| >= 2
  {
    var i, last := FirstFit(rungs, budget), |rungs| - 1;
    if budget <= 0 then rungs[0]
    else if i < |rungs| then rungs[i]
    else if |rungs[last]| < |rungs[last - 1]| then rungs[last]
    else rungs[last - 1]
  }

  function RenderFit(template: string, company: string, recipient: string, date: string, budget: int): string {
    Fitted(Ladder(template, TrimSpace(company), recipient, date), budget)
  }

  // --- the code -------------------------------------------------------------------------------------

  method DropPlaceholder(t: string, ph: string) returns (r: string)
    requires ph != ""
    ensures r == Dropped(t, ph)
  {
    r := t;
    var forms := [ph + " \U{B7} ", " \U{B7} " + ph, ph + " - ", " - " + ph, ph];
    assert forms == Forms(ph);
    for i := 0 to |forms|
      invariant r == RemoveEach(t, forms[..i])
    {
      assert forms[..i + 1][..i] == forms[..i];
      r := ReplaceAll(r, forms[i], "");
    }
    assert forms[..|forms|] == forms;
  }

  method Render(template: string, company: string, recipient: string, date: string) returns (r: string)
    ensures r == Filled(template, company, recipient, date)
  {
    var t := TrimSpace(template);
    if t == "" {
      t := DEFAULT_TEMPLATE;
    }
    if company == "" {
      t := DropPlaceholder(t, COMPANY);
    }
    if date == "" {
      t := DropPlaceholder(t, DATE);
    }
    t := ReplaceAll(t, COMPANY, company);
    t := ReplaceAll(t, RECIPIENT, recipient);
    t := ReplaceAll(t, DATE, date);
    r := TrimSpace(t);
  }

  lemma {:induction false} FirstFitAppend(a: seq<string>, b: seq<string>, budget: int)
    ensures var i := FirstFit(a, budget);
      FirstFit(a + b, budget) == if i < |a| then i else |a| + FirstFit(b, budget)
  {
    if a == [] {
      assert a + b == b;
    } else {
      assert (a + b)[1..] == a[1..] + b;
      FirstFitAppend(a[1..], b, budget);
    }
  }

  /** The first of the shortened texts that fits. */
  function FirstShort(template: string, company: string, recipient: string, date: string, n: int,
      budget: int): Option<string>
    requires n <= |company|
  {
    if n < MIN_COMPANY_RUNES then None
    else
      var t := Filled(template, Short(company, n), recipient, date);
      if |t| <= budget then Some(t) else FirstShort(template, company, recipient, date, n - 1, budget)
  }

  lemma {:induction false} FirstShortIsFirst(template: string, company: string, recipient: string, date: string,
      n: int, budget: int)
    requires n <= |company|
    ensures var rungs, t := Shortened(template, company, recipient, date, n),
        FirstShort(template, company, recipient, date, n, budget);
      var i := FirstFit(rungs, budget);
      if i < |rungs| then t == Some(rungs[i]) else t == None
  {
    hide Filled;
    if n >= MIN_COMPANY_RUNES {
      FirstShortIsFirst(template, company, recipient, date, n - 1, budget);
    }
  }

  lemma FittedInThree(first: string, middle: seq<string>, before: string, last: string, budget: int)
    requires |first| > budget > 0
    ensures var i, r := FirstFit(middle, budget), Fitted([first] + middle + [before, last], budget);
      r == if i < |middle| then middle[i] else if |before| <= budget then before
           else if |last| < |before| then last else before
  {
    hide FirstFit;
    var rungs := [first] + middle + [before, last];
    FirstFitAppend([first] + middle, [before, last], budget);
    FirstFitAppend([first], middle, budget);
    var i, j := FirstFit(middle, budget), FirstFit([before, last], budget);
    assert FirstFit([first], budget) == 1;
    assert FirstFit(rungs, budget) == if i < |middle| then 1 + i else 1 + |middle| + j;
    assert i < |middle| ==> rungs[1 + i] == middle[i];
    assert rungs[1 + |middle|] == before && rungs[2 + |middle|] == last;
  }

  lemma FittedWithCompany(template: string, company: string, recipient: string, date: string, budget: int)
    requires ShowsCompany(template, company, recipient, date)
    requires |Filled(template, company, recipient, date)| > budget > 0
    ensures var without, bare := Filled(template, "", recipient, date), Filled(template, "", recipient, "");
      var t := FirstShort(template, company, recipient, date, |company| - 1, budget);
      Fitted(Ladder(template, company, recipient, date), budget) ==
        if t.Some? then t.value else if |without| <= budget then without
        else if |bare| < |without| then bare else without
  {
    FirstShortIsFirst(template, company, recipient, date, |company| - 1, budget);
    FittedInThree(Filled(template, company, recipient, date),
        Shortened(template, company, recipient, date, |company| - 1),
                  Filled(template, "", recipient, date), Filled(template, "", recipient, ""), budget);
  }

  method RenderTextFit(template: string, company: string, recipient: string, date: string,
      budget: int) returns (r: string)
    ensures r == RenderFit(template, company, recipient, date, budget)
  {
    hide Filled, TrimSpace;
    var co := TrimSpace(company);
    var full := Render(template, co, recipient, date);
    if budget <= 0 || |full| <= budget {
      return full;
    }
    if co != "" {
      var without := Render(template, "", recipient, date);
      if |without| < |full| {
        FittedWithCompany(template, co, recipient, date, budget);
        var n := |co| - 1;
        while n >= MIN_COMPANY_RUNES
          invariant n < |co|
          invariant FirstShort(template, co, recipient, date, n, budget) ==
              FirstShort(template, co, recipient, date, |co| - 1, budget)
        {
          var short := TrimSpace(co[..n]) + ELLIPSIS;
          var t := Render(template, short, recipient, date);
          if |t| <= budget {
            return t;
          }
          n := n - 1;
        }
        if |without| <= budget {
          return without;
        }
        full, co := without, "";
      }
    }
    var t := Render(template, co, recipient, "");
    if |t| < |full| {
      return t;
    }
    r := full;
  }

  // --- fitting --------------------------------------------------------------------------------------

  /** The result fits a positive budget exactly when some rung does, and is then the first such. */
  lemma FitsIffSomeRungFits(template: string, company: string, recipient: string, date: string, budget: int)
    requires budget > 0
    ensures var rungs, r := Ladder(template, TrimSpace(company), recipient, date),
        RenderFit(template, company, recipient, date, budget);
      |r| <= budget <==> exists i :: 0 <= i < |rungs| && |rungs[i]| <= budget
  {
    hide Ladder, TrimSpace;
    var rungs := Ladder(template, TrimSpace(company), recipient, date);
    if i :| 0 <= i < |rungs| && |rungs[i]| <= budget {
      assert FirstFit(rungs, budget) <= i;
    }
  }

  /** Shortening never lengthens: the result is no longer than the full text. */
  lemma NeverLonger(template: string, company: string, recipient: string, date: string, budget: int)
    ensures |RenderFit(template, company, recipient, date, budget)|
            <= |Filled(template, TrimSpace(company), recipient, date)|
  {
    hide Filled, TrimSpace;
    var co := TrimSpace(company);
    var rungs := Ladder(template, co, recipient, date);
    assert rungs[0] == Filled(template, co, recipient, date);
    assert ShowsCompany(template, co, recipient, date) ==> rungs[|rungs| - 2] == Filled(template, "", recipient, date);
    assert FirstFit(rungs, budget) != 0 ==> |rungs[0]| > budget;
  }
}
