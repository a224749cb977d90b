// From the job to the line burned in: renderText (internals/worker/process.go), SanitizeText
// (internals/ffmpeg/filters.go) and fitText (internals/ffmpeg/textfit.go).
module BurnIn {
  import opened Basics
  import opened Text
  import opened WmOpts
  import opened TextFit
  import Recipient

  const MAX_TEXT_RUNES := 200

  /** unicode.IsControl. */
  predicate IsControl(c: char) {
    c <= '\U{1F}' || '\U{7F}' <= c <= '\U{9F}'
  }

  function Blank(c: char): char {
    if IsControl(c) then ' ' else c
  }

  function Blanked(s: string): string {
    seq(|s|, i requires 0 <= i < |s| => Blank(s[i]))
  }

  function Sanitized(s: string): string {
    TrimSpace(Blanked(if |s| <= MAX_TEXT_RUNES then s else s[..MAX_TEXT_RUNES]))
  }

  method SanitizeText(s: string) returns (r: string)
    ensures r == Sanitized(s)
  {
    var out := "";
    for i := 0 to |s|
      invariant i < MAX_TEXT_RUNES
      invariant out == Blanked(s[..i])
    {
      out := out + [Blank(s[i])];
      assert out == Blanked(s[..i + 1]);
      if |out| >= MAX_TEXT_RUNES {
        assert s[..i + 1] == s[..MAX_TEXT_RUNES];
        assert |s| == MAX_TEXT_RUNES ==> s[..i + 1] == s;
        return TrimSpace(out);
      }
    }
    assert s[..|s|] == s;
    r := TrimSpace(out);
  }

  /** Sanitising cannot cut a word without control characters out of a text within the cap. */
  lemma SanitizingKeeps(s: string, w: string)
    requires |s| <= MAX_TEXT_RUNES && Contains(s, w) && Trimmed(w) && forall c :: c in w ==> !IsControl(c)
    ensures Contains(Sanitized(s), w)
  {
    var k: nat :| Occurs(s, w, k);
    var b := Blanked(s);
    forall i | 0 <= i < |w| ensures b[k..k + |w|][i] == w[i] {
      assert s[k..k + |w|][i] == s[k + i];
    }
    assert b[k..k + |w|] == w;
    assert Occurs(b, w, k);
    TrimKeeps(b, w);
  }

  /** What is burned in holds no control character: every other character of the first 200 is kept, a
      control character becomes a blank, and the blanks at the ends go. */
  lemma NoControlIsBurnedIn(s: string) returns (a: string, b: string)
    ensures forall c :: c in Sanitized(s) ==> !(c <= '\U{1F}' || '\U{7F}' <= c <= '\U{9F}')
    ensures AllSpace(a) && AllSpace(b) && |a + Sanitized(s) + b| == if |s| <= 200 then |s| else 200
    ensures forall i :: 0 <= i < |a + Sanitized(s) + b| ==>
      (a + Sanitized(s) + b)[i] ==
        if s[i] <= '\U{1F}' || '\U{7F}' <= s[i] <= '\U{9F}' then ' ' else s[i]
  {
    a, b := SanitizedWithin(s);
    hide Sanitized;
    forall c | c in Sanitized(s) ensures !(c <= '\U{1F}' || '\U{7F}' <= c <= '\U{9F}') {
      var i :| 0 <= i < |Sanitized(s)| && Sanitized(s)[i] == c;
      assert (a + Sanitized(s) + b)[|a| + i] == c;
    }
  }

  lemma SanitizedWithin(s: string) returns (a: string, b: string)
    ensures AllSpace(a) && AllSpace(b) && |a + Sanitized(s) + b| == if |s| <= 200 then |s| else 200
    ensures forall i :: 0 <= i < |a + Sanitized(s) + b| ==>
      (a + Sanitized(s) + b)[i] ==
        if s[i] <= '\U{1F}' || '\U{7F}' <= s[i] <= '\U{9F}' then ' ' else s[i]
  {
    hide TrimSpace;
    var cut := if |s| <= MAX_TEXT_RUNES then s else s[..MAX_TEXT_RUNES];
    a, b := TrimCuts(Blanked(cut));
    assert a + Sanitized(s) + b == Blanked(cut);
  }

  /** The operator's own text comes first, then the brand's template, then the server's. */
  lemma OwnTextFirst(own: string, brandTemplate: string, serverTemplate: string, company: string,
                     recipient: string, date: string, budget: int)
    ensures var r := RenderText(own, brandTemplate, serverTemplate, company, recipient, date, budget);
      && (TrimSpace(own) != "" ==> r == TrimSpace(own))
      && (TrimSpace(own) == "" && brandTemplate != "" ==>
          r == RenderFit(brandTemplate, company, recipient, date, budget))
      && (TrimSpace(own) == "" && brandTemplate == "" ==>
          r == RenderFit(serverTemplate, company, recipient, date, budget))
  {
  }

  lemma SanitizingNeverLengthens(s: string)
    ensures |Sanitized(s)| <= |s|
  {
  }

  /** The operator's own text if there is any, else the brand's template, else the server's. */
  function RenderText(own: string, brandTemplate: string, serverTemplate: string, company: string,
                      recipient: string, date: string, budget: int): string {
    if TrimSpace(own) != "" then TrimSpace(own)
    else RenderFit(if brandTemplate == "" then serverTemplate else brandTemplate, company, recipient, date, budget)
  }

  /** End to end: with no text of the operator's own, a template that names the recipient shows
      the whole address in the line burned in, as long as the rendered text is within the cap. */
  lemma BurnedInWhole(own: string, brandTemplate: string, serverTemplate: string, company: string,
                      recipient: string, date: string, budget: int)
    requires TrimSpace(own) == ""
    requires Recipient.Mentions(if brandTemplate == "" then serverTemplate else brandTemplate)
    requires Trimmed(recipient) && '@' in recipient && !Recipient.Clashes(recipient)
    requires forall c :: c in recipient ==> !IsControl(c)
    requires |RenderText(own, brandTemplate, serverTemplate, company, recipient, date, budget)| <= MAX_TEXT_RUNES
    ensures Contains(Sanitized(RenderText(own, brandTemplate, serverTemplate, company, recipient, date, budget)),
        recipient)
  {
    hide RenderFit, TrimSpace, Contains, Recipient.Mentions, Recipient.Clashes, Sanitized;
    var template := if brandTemplate == "" then serverTemplate else brandTemplate;
    Recipient.ApartUnlessClashes(recipient);
    Recipient.RecipientSurvives(template, company, recipient, date, budget);
    SanitizingKeeps(RenderFit(template, company, recipient, date, budget), recipient);
  }

  /** The shortening ladder and the fitted font work together: whenever some rung is within the
      budget, the line burned in keeps MinPx (or the normal size) and, above the floor of 6 px,
      stays within the allowed share of the frame. */
  lemma FittedLine(frameW: int, pos: string, basePx: int, template: string, company: string, recipient: string,
                   date: string, i: nat)
    requires (Width(frameW) as real * Share(pos)).Floor - 2 * BOX_BORDER_PX >= 1
    requires var f := FitText(frameW, pos, basePx); f.availPx as real >= CHAR_WIDTH * f.minPx as real
    requires var rungs := Ladder(template, TrimSpace(company), recipient, date);
      i < |rungs| && |rungs[i]| <= Budget(FitText(frameW, pos, basePx))
    requires basePx >= ABS_MIN_PX
    ensures var f := FitText(frameW, pos, basePx);
      var n := |Sanitized(RenderFit(template, company, recipient, date, Budget(f)))|;
      n >= 1 ==>
        && FontPx(f, n) >= f.minPx
        && (FontPx(f, n) > ABS_MIN_PX ==>
              CHAR_WIDTH * FontPx(f, n) as real * n as real + (2 * BOX_BORDER_PX) as real
              <= Share(pos) * Width(frameW) as real)
  {
    hide RenderFit, TrimSpace, Sanitized, Ladder, FitText, FontPx, Budget;
    var f := FitText(frameW, pos, basePx);
    var text := RenderFit(template, company, recipient, date, Budget(f));
    FitsIffSomeRungFits(template, company, recipient, date, Budget(f));
    SanitizingNeverLengthens(text);
    var n := |Sanitized(text)|;
    if n >= 1 {
      WithinBudgetKeepsMinPx(f, n);
      LineIsWithinShare(frameW, pos, basePx, n);
      MinPxIsBelowBase(frameW, pos, basePx);
    }
  }

  lemma MinPxIsBelowBase(frameW: int, pos: string, basePx: int)
    requires basePx >= ABS_MIN_PX
    ensures FitText(frameW, pos, basePx).minPx <= basePx
  {
  }

  // --- the request, in place --------------------------------------------------------------------------

  /** textFor is the shortening ladder of this template. */
  ghost predicate IsLadder(textFor: int -> string, template: string, company: string, recipient: string, date: string) {
    forall budget :: textFor(budget) == RenderFit(template, company, recipient, date, budget)
  }

  ghost predicate SomeRungFits(f: Fit, template: string, company: string, recipient: string, date: string)
    requires f.minPx >= 1
  {
    exists i: nat :: i < |Ladder(template, TrimSpace(company), recipient, date)|
                     && |Ladder(template, TrimSpace(company), recipient, date)[i]| <= Budget(f)
  }

  /** The frame is wide enough for AvailPx not to be forced to 1 and for one character at MinPx. */
  predicate WideEnough(frameW: int, pos: string, basePx: int) {
    && basePx >= ABS_MIN_PX && (Width(frameW) as real * Share(pos)).Floor - 2 * BOX_BORDER_PX >= 1
    && FitText(frameW, pos, basePx).availPx as real >= CHAR_WIDTH * FitText(frameW, pos, basePx).minPx as real
  }

  /** n characters at this size keep MinPx and, above the floor, stay within the share of the frame. */
  predicate LineFits(frameW: int, pos: string, f: Fit, n: int, fontPx: int) {
    && fontPx >= f.minPx
    && (fontPx > ABS_MIN_PX ==>
          CHAR_WIDTH * fontPx as real * n as real + (2 * BOX_BORDER_PX) as real <= Share(pos) * Width(frameW) as real)
  }

  lemma LadderLineFits(frameW: int, pos: string, basePx: int, textFor: int -> string,
                       template: string, company: string, recipient: string, date: string, text: string)
    requires WideEnough(frameW, pos, basePx) && IsLadder(textFor, template, company, recipient, date)
    requires SomeRungFits(FitText(frameW, pos, basePx), template, company, recipient, date)
    requires text == Sanitized(textFor(Budget(FitText(frameW, pos, basePx)))) && text != ""
    ensures LineFits(frameW, pos, FitText(frameW, pos, basePx), |text|, FontPx(FitText(frameW, pos, basePx), |text|))
  {
    hide RenderFit, TrimSpace, Sanitized, Ladder, FontPx;
    var f := FitText(frameW, pos, basePx);
    assert textFor(Budget(f)) == RenderFit(template, company, recipient, date, Budget(f));
    var i: nat :| i < |Ladder(template, TrimSpace(company), recipient, date)|
                  && |Ladder(template, TrimSpace(company), recipient, date)[i]| <= Budget(f);
    FittedLine(frameW, pos, basePx, template, company, recipient, date, i);
  }

  /** A recipient {date} cannot overlap, as an address is: trimmed, with an @, no control character. */
  ghost predicate Whole(recipient: string) {
    Trimmed(recipient) && '@' in recipient && !Recipient.Clashes(recipient) 
    && forall c :: c in recipient ==> !IsControl(c)
  }

  lemma LadderShowsRecipient(textFor: int -> string, template: string, company: string, recipient: string, date: string,
                             budget: int, text: string)
    requires IsLadder(textFor, template, company, recipient, date) && Recipient.Mentions(template) && Whole(recipient)
    requires |textFor(budget)| <= MAX_TEXT_RUNES && text == Sanitized(textFor(budget))
    ensures Contains(text, recipient)
  {
    hide RenderFit, Contains, Recipient.Mentions, Recipient.Clashes, Sanitized;
    assert textFor(budget) == RenderFit(template, company, recipient, date, budget);
    Recipient.ApartUnlessClashes(recipient);
    Recipient.RecipientSurvives(template, company, recipient, date, budget);
    SanitizingKeeps(textFor(budget), recipient);
  }

  /** The part of ffmpeg.Request that fitText reads and writes, and the configured font size. */
  class Request {
    const frameWidth: int
    const position: string
    const configPx: int
    const text: string
    const textFor: Option<int -> string>
    var fontPx: int

    constructor (frameWidth: int, position: string, configPx: int, text: string, textFor: Option<int -> string>)
      ensures this.frameWidth == frameWidth && this.position == position && this.configPx == configPx
      ensures this.text == text && this.textFor == textFor && fontPx == 0
    {
      this.frameWidth, this.position, this.configPx := frameWidth, position, configPx;
      this.text, this.textFor, fontPx := text, textFor, 0;
    }

    /** look's font size: a size set before wins, then 2.2% of a known frame width, never below the
        configured size. */
    function BasePx(): (px: int)
      reads this
      ensures fontPx > 0 ==> px == fontPx
      // otherwise the largest size up to 2.2% of the frame's width, but not below the configured one
      ensures fontPx <= 0 ==> px >= configPx
      ensures fontPx <= 0 && px > configPx ==> frameWidth > 0 && 1000 * px <= 22 * frameWidth
      ensures fontPx <= 0 && frameWidth > 0 ==> 22 * frameWidth < 1000 * (px + 1)
    {
      if fontPx > 0 then fontPx
      else if frameWidth > 0 then Max(configPx, frameWidth * 22 / 1000)
      else configPx
    }

    /** Ask for text within the budget, sanitise it and size the font for what is left. When the text
        comes from the ladder, the recipient is in it whole, and the line keeps MinPx and stays
        within its share of the frame whenever some rung is within the budget. */
    method Fit() returns (line: string)
      modifies this
      ensures var fit := FitText(frameWidth, position, old(BasePx()));
        && line == Sanitized(if textFor.Some? then textFor.value(Budget(fit)) else text)
        && fontPx == FontPx(fit, |line|)
      ensures forall template, company, recipient, date ::
        textFor.Some? && IsLadder(textFor.value, template, company, recipient, date)
        && WideEnough(frameWidth, position, old(BasePx())) && line != ""
        && SomeRungFits(FitText(frameWidth, position, old(BasePx())), template, company, recipient, date) ==>
          LineFits(frameWidth, position, FitText(frameWidth, position, old(BasePx())), |line|, fontPx)
      ensures forall template, company, recipient, date ::
        textFor.Some? && IsLadder(textFor.value, template, company, recipient, date)
        && Recipient.Mentions(template) && Whole(recipient)
        && |textFor.value(Budget(FitText(frameWidth, position, old(BasePx()))))| <= MAX_TEXT_RUNES ==>
          Contains(line, recipient)
    {
      hide IsLadder, SomeRungFits, LineFits, WideEnough, Whole, Sanitized, FontPx, Contains, Recipient.Mentions,
          FitText, Budget;
      ghost var basePx := BasePx();
      var fit := FitText(frameWidth, position, BasePx());
      line := text;
      if textFor.Some? {
        line := textFor.value(Budget(fit));
      }
      line := SanitizeText(line);
      fontPx := FontPx(fit, |line|);
      forall template, company, recipient, date |
        textFor.Some? && IsLadder(textFor.value, template, company, recipient, date)
        && WideEnough(frameWidth, position, basePx) && line != ""
        && SomeRungFits(fit, template, company, recipient, date)
        ensures LineFits(frameWidth, position, fit, |line|, fontPx)
      {
        LadderLineFits(frameWidth, position, basePx, textFor.value, template, company, recipient, date, line);
      }
      forall template, company, recipient, date |
        textFor.Some? && IsLadder(textFor.value, template, company, recipient, date)
        && Recipient.Mentions(template) && Whole(recipient) && |textFor.value(Budget(fit))| <= MAX_TEXT_RUNES
        ensures Contains(line, recipient)
      {
        LadderShowsRecipient(textFor.value, template, company, recipient, date, Budget(fit), line);
      }
    }
  }
}
