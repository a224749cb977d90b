// The browser's copy of the text ladder (frontend/src/lib/format.ts), which splits and joins where
// the server replaces.
module Browser {
  import opened Text
  import opened WmOpts

  /** t.split(sep): the pieces between occurrences, found left to right without overlap. */
  function Split(t: string, sep: string): (r: seq<string>)
    requires sep != ""
    ensures r != []
  {
    if |t| < |sep| then [t]
    else if Occurs(t, sep, 0) then [""] + Split(t[|sep|..], sep)
    else
      var rest := Split(t[1..], sep);
      [[t[0]] + rest[0]] + rest[1..]
  }

  function Join(parts: seq<string>, put: string): string
    requires parts != []
  {
    if |parts| == 1 then parts[0] else parts[0] + put + Join(parts[1..], put)
  }

  lemma JoinLonger(c: char, parts: seq<string>, put: string)
    requires parts != []
    ensures Join([[c] + parts[0]] + parts[1..], put) == [c] + Join(parts, put)
  {
    assert ([[c] + parts[0]] + parts[1..])[1..] == parts[1..];
  }

  lemma JoinEmptyFirst(parts: seq<string>, put: string)
    requires parts != []
    ensures Join([""] + parts, put) == put + Join(parts, put)
  {
    assert ([""] + parts)[1..] == parts;
  }

  lemma JoinOne(t: string, put: string)
    ensures Join([t], put) == t
  {
  }

  /** Splitting and joining is replacing. */
  lemma {:induction false} SplitJoinReplaces(t: string, sep: string, put: string)
    requires sep != ""
    ensures Join(Split(t, sep), put) == ReplaceAll(t, sep, put)
  {
    hide Join, Occurs;
    if |t| < |sep| {
      JoinOne(t, put);
    } else if Occurs(t, sep, 0) {
      SplitJoinReplaces(t[|sep|..], sep, put);
      JoinEmptyFirst(Split(t[|sep|..], sep), put);
    } else {
      SplitJoinReplaces(t[1..], sep, put);
      JoinLonger(t[0], Split(t[1..], sep), put);
    }
  }

  /** Nothing is lost in splitting: joining with the separator gives the text back. */
  lemma {:induction false} SplitLosesNothing(t: string, sep: string)
    requires sep != ""
    ensures Join(Split(t, sep), sep) == t
  {
    SplitJoinReplaces(t, sep, sep);
    ReplacedByItself(t, sep);
  }

  lemma {:induction false} ReplacedByItself(t: string, p: string)
    requires p != ""
    ensures ReplaceAll(t, p, p) == t
  {
    if |t| < |p| {
    } else if Occurs(t, p, 0) {
      ReplacedByItself(t[|p|..], p);
      assert t == p + t[|p|..];
    } else {
      ReplacedByItself(t[1..], p);
    }
  }

  method SplitJoin(t: string, sep: string, put: string) returns (r: string)
    requires sep != ""
    ensures r == ReplaceAll(t, sep, put)
  {
    r := Join(Split(t, sep), put);
    SplitJoinReplaces(t, sep, put);
  }

  /** {company} and {date} with their values, in the browser's order. */
  function Optional(company: string, date: string): seq<(string, string)> {
    [(COMPANY, company), (DATE, date)]
  }

  function DroppedEmpty(t: string, pairs: seq<(string, string)>): string
    requires forall i :: 0 <= i < |pairs| ==> pairs[i].0 != ""
  {
    if pairs == [] then t
    else
      var n := |pairs| - 1;
      var before := DroppedEmpty(t, pairs[..n]);
      if pairs[n].1 == "" then Dropped(before, pairs[n].0) else before
  }

  lemma DroppedNone(t: string)
    ensures DroppedEmpty(t, []) == t
  {
  }

  lemma DroppedOneMore(t: string, pairs: seq<(string, string)>, i: nat)
    requires i < |pairs| && forall k :: 0 <= k < |pairs| ==> pairs[k].0 != ""
    ensures var before := DroppedEmpty(t, pairs[..i]);
      DroppedEmpty(t, pairs[..i + 1]) == if pairs[i].1 == "" then Dropped(before, pairs[i].0) else before
  {
    hide Dropped;
    assert pairs[..i + 1][..i] == pairs[..i];
  }

  lemma DroppedEmptyIs(t: string, company: string, date: string)
    ensures DroppedEmpty(t, Optional(company, date)) == WithoutEmpty(t, company, date)
  {
    hide Dropped;
    var first := [(COMPANY, company)];
    assert Optional(company, date)[..1] == first && first[..0] == [];
    assert DroppedEmpty(t, first) == if company == "" then Dropped(t, COMPANY) else t;
  }

  /** The browser fills a template as the server does. */
  method RenderParts(template: string, company: string, recipient: string, date: string) returns (r: string)
    ensures r == Filled(template, company, recipient, date)
  {
    hide ReplaceAll, Dropped, DroppedEmpty, TrimSpace, WithoutEmpty;
    var t := TrimSpace(template);
    if t == "" {
      t := "{recipient} \U{B7} {date}";
    }
    assert t == Chosen(template);
    var pairs := Optional(company, date);
    DroppedNone(t);
    for i := 0 to |pairs|
      invariant t == DroppedEmpty(Chosen(template), pairs[..i])
    {
      DroppedOneMore(Chosen(template), pairs, i);
      if pairs[i].1 == "" {
        t := DropForms(t, pairs[i].0);
      }
    }
    assert pairs[..2] == pairs;
    DroppedEmptyIs(Chosen(template), company, date);
    t := SplitJoin(t, COMPANY, company);
    t := SplitJoin(t, RECIPIENT, recipient);
    t := SplitJoin(t, DATE, date);
    r := TrimSpace(t);
  }

  /** The inner loop: each form of the placeholder is split away. */
  method DropForms(t: string, ph: string) returns (r: string)
    requires ph != ""
    ensures r == Dropped(t, ph)
  {
    r := t;
    var forms := Forms(ph);
    for i := 0 to |forms|
      invariant r == RemoveEach(t, forms[..i])
    {
      assert forms[..i + 1][..i] == forms[..i];
      r := SplitJoin(r, forms[i], "");
    }
    assert forms[..|forms|] == forms;
  }

  /** Given one notion of white space, the preview shows exactly what the server burns in. */
  method RenderWatermarkTextFit(template: string, company: string, recipient: string, date: string, budget: int)
    returns (r: string)
    ensures r == RenderFit(template, company, recipient, date, budget)
  {
    hide Filled, TrimSpace;
    var co := TrimSpace(company);
    var full := RenderParts(template, co, recipient, date);
    if budget <= 0 || |full| <= budget {
      return full;
    }
    var current, keptCompany := full, co;
    if co != "" {
      var without := RenderParts(template, "", recipient, date);
      if |without| < |full| {
        FittedWithCompany(template, co, recipient, date, budget);
        var n := |co| - 1;
        while n >= 3
          invariant n < |co|
          invariant FirstShort(template, co, recipient, date, n, budget) ==
              FirstShort(template, co, recipient, date, |co| - 1, budget)
        {
          var t := RenderParts(template, TrimSpace(co[..n]) + "...", recipient, date);
          if |t| <= budget {
            return t;
          }
          n := n - 1;
        }
        if |without| <= budget {
          return without;
        }
        current, keptCompany := without, "";
      }
    }
    var noDate := RenderParts(template, keptCompany, recipient, "");
    r := if |noDate| < |current| then noDate else current;
  }
}
