/**
 * The admin page for quotation rows: the title it builds on save, the
 * regular expression `/(Brief|Detailed)\s+Quote:\s*(.+)/i` it reads the
 * title back with when a row is opened for editing, and the form fields it
 * derives from a row and sends back.
 */
module AdminQuotations {
  import opened Wrappers
  import opened Js
  import opened Schema

  // ---------------------------------------------------------------------------
  // Title

  /** `quoteType === 'brief' ? 'Brief' : 'Detailed'`: any other text counts as detailed. */
  function TitleLabel(quoteType: string): string {
    if quoteType == "brief" then "Brief" else "Detailed"
  }

  /** `${label} Quote: ${model || 'Vehicle'}`. */
  function BuildTitle(quoteType: string, model: string): string {
    TitleLabel(quoteType) + " Quote: " + (if model == "" then "Vehicle" else model)
  }

  // ---------------------------------------------------------------------------
  // The regular expression, position by position

  /**
   * `t` begins with the lower-case `word` under the `i` flag. Without the
   * `u` flag, ECMAScript case folding never maps a character outside ASCII
   * onto an ASCII one, so only the ASCII capitals fold.
   */
  predicate StartsCi(t: string, word: string) {
    |word| <= |t| && Lower(t[..|word|]) == word
  }

  /** The length of the run of `\s` characters at the start of `t`. */
  function WhiteRun(t: string): (n: nat)
    ensures n <= |t|
    ensures forall i :: 0 <= i < n ==> IsWhite(t[i])
    ensures n < |t| ==> !IsWhite(t[n])
  {
    if t != [] && IsWhite(t[0]) then 1 + WhiteRun(t[1..]) else 0
  }

  /** Where a `.+` starting at `p` stops: the first line terminator at or after `p`, or the end. */
  function LineEnd(t: string, p: nat): (q: nat)
    requires p <= |t|
    ensures p <= q <= |t|
    ensures forall i :: p <= i < q ==> !IsLineTerminator(t[i])
    ensures q < |t| ==> IsLineTerminator(t[q])
    decreases |t| - p
  {
    if p < |t| && !IsLineTerminator(t[p]) then LineEnd(t, p + 1) else p
  }

  /**
   * Backtracking `\s*` from its longest match: the capture starts at the
   * last position, at or before `p`, holding a character `.` accepts.
   */
  function CaptureStart(t: string, p: nat): (r: Option<nat>)
    ensures r.Some? ==> r.value <= p && r.value < |t| && !IsLineTerminator(t[r.value])
    ensures r.Some? ==> forall q :: r.value < q <= p && q < |t| ==> IsLineTerminator(t[q])
    ensures r.None? ==> forall q :: 0 <= q <= p && q < |t| ==> IsLineTerminator(t[q])
  {
    if p < |t| && !IsLineTerminator(t[p]) then Some(p)
    else if p == 0 then None
    else CaptureStart(t, p - 1)
  }

  /** `\s*(.+)` at the start of `t`: the text of the capture group, if the pair matches. */
  function Capture(t: string): (r: Option<string>)
    ensures r.Some? ==> r.value != [] && forall i :: 0 <= i < |r.value| ==> !IsLineTerminator(r.value[i])
  {
    match CaptureStart(t, WhiteRun(t))
    case None => None
    case Some(p) => Some(t[p..LineEnd(t, p)])
  }

  /** `(Brief|Detailed)` under the `i` flag at the start of `t`. */
  function Keyword(t: string): (r: Option<QuoteType>)
    ensures r.Some? ==> StartsCi(t, r.value.Name())
    ensures r.None? ==> !StartsCi(t, "brief") && !StartsCi(t, "detailed")
  {
    if StartsCi(t, "brief") then Some(Brief)
    else if StartsCi(t, "detailed") then Some(Detailed)
    else None
  }

  /**
   * `\s+Quote:\s*(.+)` at the start of `u`. Since "Q" is not white space,
   * `\s+` can only end where the white run ends.
   */
  function AfterKeyword(u: string): (r: Option<string>)
    ensures r.Some? ==> WhiteRun(u) > 0 && StartsCi(u[WhiteRun(u)..], "quote:")
  {
    var w := WhiteRun(u);
    if w == 0 || !StartsCi(u[w..], "quote:") then None
    else Capture(u[w + 6..])
  }

  /** The whole pattern tried at the start of `t`: the quote type and the model group. */
  function MatchHere(t: string): (r: Option<(QuoteType, string)>)
    ensures r.Some? ==> StartsCi(t, r.value.0.Name())
  {
    match Keyword(t)
    case None => None
    case Some(k) =>
      match AfterKeyword(t[|k.Name()|..])
      case None => None
      case Some(g) => Some((k, g))
  }

  /** The unanchored search: the leftmost position where the pattern matches. */
  function FirstMatch(s: string, i: nat): (r: Option<(QuoteType, string)>)
    requires i <= |s|
    ensures r.None? ==> forall j :: i <= j < |s| ==> MatchHere(s[j..]).None?
    ensures r.Some? ==> exists j :: i <= j < |s| && MatchHere(s[j..]) == r && forall k :: i <= k < j ==> MatchHere(s[k..]).None?
    decreases |s| - i
  {
    if i == |s| then None
    else
      var m := MatchHere(s[i..]);
      if m.Some? then m else FirstMatch(s, i + 1)
  }

  /**
   * `model` and `quoteType` as the edit handler derives them from a title:
   * the trimmed group and the lower-cased keyword, or "" and "brief" when
   * the title is missing, empty or does not match.
   */
  function ParseTitle(title: Option<string>): (r: (string, string))
    ensures r.1 == "brief" || r.1 == "detailed"
    ensures IsTrimmed(r.0)
    ensures title.None? || FirstMatch(title.value, 0).None? ==> r == ("", "brief")
  {
    if title.None? then ("", "brief")
    else match FirstMatch(title.value, 0)
      case None => ("", "brief")
      case Some((k, g)) =>
        TrimIsTrimmed(g);
        (Trim(g), k.Name())
  }

  /** The keyword the label starts with, and no other: "Brief" never reads as "detailed". */
  lemma {:induction false} KeywordAtStart(k: QuoteType, rest: string)
    ensures var s := TitleLabel(k.Name()) + rest;
      && |TitleLabel(k.Name())| == |k.Name()|
      && StartsCi(s, k.Name())
      && (k == Detailed ==> !StartsCi(s, "brief"))
  {
    var lbl := TitleLabel(k.Name());
    var s := lbl + rest;
    assert s[..|lbl|] == lbl;
    if k == Detailed {
      assert s[..5][0] == 'D';
      assert Lower(s[..5])[0] == 'd';
    }
  }

  /** After the keyword, " Quote: " is one white character, the literal, and the model's leading blank. */
  lemma {:induction false} QuoteAfterKeyword(model: string)
    requires model != [] && !IsWhite(model[0])
    ensures var u := " Quote: " + model;
      && WhiteRun(u) == 1 && StartsCi(u[1..], "quote:") && u[7..] == " " + model
  {
    var u := " Quote: " + model;
    assert u[1..][0] == 'Q';
    assert u[1..][..6] == "Quote:";
    assert u[7..] == " " + model;
  }

  /** Where a line of text ends: at the end of the string or at a line terminator. */
  predicate LineBreakOrEnd(tail: string) {
    tail == [] || IsLineTerminator(tail[0])
  }

  /** Everything after the keyword of a built title matches, capturing the model's first line. */
  lemma AfterKeywordOfTitle(model: string, tail: string)
    requires model != [] && !IsWhite(model[0])
    requires forall i :: 0 <= i < |model| ==> !IsLineTerminator(model[i])
    requires LineBreakOrEnd(tail)
    ensures AfterKeyword(" Quote: " + (model + tail)) == Some(model)
  {
    QuoteAfterKeyword(model + tail);
    CaptureModel(model, tail);
  }

  /** `\s*(.+)` on a blank, a non-empty single line that starts with no blank, and a line break captures the line. */
  lemma {:induction false} CaptureModel(model: string, tail: string)
    requires model != [] && !IsWhite(model[0])
    requires forall i :: 0 <= i < |model| ==> !IsLineTerminator(model[i])
    requires LineBreakOrEnd(tail)
    ensures Capture(" " + (model + tail)) == Some(model)
  {
    var t := " " + (model + tail);
    assert t[1..] == model + tail;
    assert WhiteRun(t) == 1 by {
      assert t[1..][0] == model[0];
    }
    assert CaptureStart(t, 1) == Some(1);
    forall i | 1 <= i < 1 + |model|
      ensures !IsLineTerminator(t[i])
    {
      assert t[i] == model[i - 1];
    }
    if tail != [] {
      assert t[1 + |model|] == tail[0];
    }
    LineEndAt(t, 1, 1 + |model|);
    assert t[1..1 + |model|] == model;
  }

  lemma {:induction false} LineEndAt(t: string, p: nat, q: nat)
    requires p <= q <= |t|
    requires forall i :: p <= i < q ==> !IsLineTerminator(t[i])
    requires q < |t| ==> IsLineTerminator(t[q])
    ensures LineEnd(t, p) == q
    decreases q - p
  {
    if p < q {
      LineEndAt(t, p + 1, q);
    }
  }

  /** The pattern matches a built title at its first character, capturing the model's first line. */
  lemma MatchesBuiltTitle(k: QuoteType, model: string, tail: string)
    requires model != "" && !IsWhite(model[0])
    requires forall i :: 0 <= i < |model| ==> !IsLineTerminator(model[i])
    requires LineBreakOrEnd(tail)
    ensures MatchHere(TitleLabel(k.Name()) + " Quote: " + (model + tail)) == Some((k, model))
  {
    var u := " Quote: " + (model + tail);
    var s := TitleLabel(k.Name()) + u;
    assert s == TitleLabel(k.Name()) + " Quote: " + (model + tail);
    KeywordAtStart(k, u);
    assert Keyword(s) == Some(k);
    assert s[|k.Name()|..] == u;
    AfterKeywordOfTitle(model, tail);
  }

  /**
   * A title built from a non-empty, trimmed, single-line model reads back
   * as that model and its quote type; any quote type other than "brief"
   * reads back as "detailed".
   */
  lemma TitleRoundTrip(quoteType: string, model: string)
    requires model != "" && IsTrimmed(model)
    requires forall i :: 0 <= i < |model| ==> !IsLineTerminator(model[i])
    ensures ParseTitle(Some(BuildTitle(quoteType, model))) ==
      (model, if quoteType == "brief" then "brief" else "detailed")
  {
    var k := if quoteType == "brief" then Brief else Detailed;
    var s := BuildTitle(quoteType, model);
    assert model + [] == model;
    assert s == TitleLabel(k.Name()) + " Quote: " + (model + []);
    MatchesBuiltTitle(k, model, []);
    assert s[0..] == s;
    assert FirstMatch(s, 0) == Some((k, model));
    TrimmedIsFixed(model);
  }

  /**
   * `.` stops at a line break, so of a multi-line model only the first
   * line comes back: opening such a row and saving it drops the rest.
   */
  lemma FirstLineOnly(quoteType: string, first: string, rest: string)
    requires first != "" && IsTrimmed(first)
    requires forall i :: 0 <= i < |first| ==> !IsLineTerminator(first[i])
    ensures ParseTitle(Some(BuildTitle(quoteType, first + "\n" + rest))).0 == first
  {
    var k := if quoteType == "brief" then Brief else Detailed;
    var tail := "\n" + rest;
    var s := BuildTitle(quoteType, first + "\n" + rest);
    assert first + "\n" + rest == first + tail;
    assert s == TitleLabel(k.Name()) + " Quote: " + (first + tail);
    MatchesBuiltTitle(k, first, tail);
    assert s[0..] == s;
    assert FirstMatch(s, 0) == Some((k, first));
    TrimmedIsFixed(first);
  }

  /** A title saved with an empty model reads back with the model "Vehicle". */
  lemma EmptyModelReadsVehicle(quoteType: string)
    ensures ParseTitle(Some(BuildTitle(quoteType, ""))).0 == "Vehicle"
  {
    var v := "Vehicle";
    assert IsTrimmed(v);
    TitleRoundTrip(quoteType, v);
    assert BuildTitle(quoteType, "") == BuildTitle(quoteType, v);
  }

  // ---------------------------------------------------------------------------
  // The edit form

  datatype QuoteForm = QuoteForm(
    model: string, year: string, engine: string, chassis: string, quoteType: string,
    workshopId: string, amount: string, status: string, date: string)

  /** The price the form proposes for a quote type: "5" for brief, "15" otherwise. */
  function DefaultAmount(quoteType: string): string {
    if quoteType == "brief" then "5" else "15"
  }

  /** The form as the create button opens it. */
  function NewForm(today: string): (f: QuoteForm)
    ensures f.quoteType == "brief" && f.amount == DefaultAmount(f.quoteType)
    ensures f.status == "pending" && f.date == today && f.model == "" && f.workshopId == ""
  {
    QuoteForm("", "", "", "", "brief", "", "5", "pending", today)
  }

  /** Choosing a quote type also sets the amount to that type's price; nothing else changes. */
  function QuoteTypeChange(f: QuoteForm, quoteType: string): (r: QuoteForm)
    ensures r.quoteType == quoteType && r.amount == DefaultAmount(quoteType)
    ensures r.(quoteType := f.quoteType, amount := f.amount) == f
  {
    f.(quoteType := quoteType, amount := DefaultAmount(quoteType))
  }

  /** `date.split('T')[0]` when the date contains a 'T'. */
  function CutAtT(d: string): (r: string)
    ensures r <= d
    ensures forall i :: 0 <= i < |r| ==> r[i] != 'T'
    ensures |r| < |d| ==> d[|r|] == 'T'
  {
    if d == [] || d[0] == 'T' then [] else [d[0]] + CutAtT(d[1..])
  }

  /** An ISO timestamp is cut to its date part; a plain date is kept. */
  lemma {:induction false} CutIsoTimestamp(day: string, rest: string)
    requires forall i :: 0 <= i < |day| ==> day[i] != 'T'
    requires rest == [] || rest[0] == 'T'
    ensures CutAtT(day + rest) == day
    decreases |day|
  {
    if day != [] {
      assert (day + rest)[1..] == day[1..] + rest;
      CutIsoTimestamp(day[1..], rest);
    } else {
      assert day + rest == rest;
    }
  }

  /** The row as the admin list holds it; `None` is a missing or null value. */
  datatype QuoteRow = QuoteRow(
    title: Option<string>, year: Option<string>, engine: Option<string>, chassis: Option<string>,
    workshopId: Option<int>, amount: Option<string>, status: Option<string>, date: Option<string>)

  /** `String(n)` for any integer. */
  function IntString(n: int): string {
    if n >= 0 then DecimalString(n) else "-" + DecimalString(-n)
  }

  /** `x || fallback` on a text value that may be missing. */
  function OrElse(x: Option<string>, fallback: string): (r: string)
    ensures x.Some? && x.value != "" ==> r == x.value
    ensures x.None? || x.value == "" ==> r == fallback
  {
    if x.Some? && x.value != "" then x.value else fallback
  }

  /** The form the edit button opens for a row. */
  function EditForm(row: QuoteRow, today: string): (f: QuoteForm)
    ensures (f.model, f.quoteType) == ParseTitle(if row.title.Some? && row.title.value != "" then row.title else None)
    ensures row.amount.None? || row.amount.value == "" ==> f.amount == DefaultAmount(f.quoteType)
    ensures row.amount.Some? && row.amount.value != "" ==> f.amount == row.amount.value
    ensures f.year == OrElse(row.year, "") && f.engine == OrElse(row.engine, "") && f.chassis == OrElse(row.chassis, "")
    ensures f.status == OrElse(row.status, "pending")
    ensures f.workshopId == if row.workshopId.Some? then IntString(row.workshopId.value) else ""
    ensures f.date == OrElse(if row.date.Some? && row.date.value != "" then Some(CutAtT(row.date.value)) else row.date, today)
  {
    var (model, quoteType) := ParseTitle(if row.title.Some? && row.title.value != "" then row.title else None);
    var date := if row.date.Some? && row.date.value != "" then Some(CutAtT(row.date.value)) else row.date;
    QuoteForm(
      model, OrElse(row.year, ""), OrElse(row.engine, ""), OrElse(row.chassis, ""), quoteType,
      if row.workshopId.Some? then IntString(row.workshopId.value) else "",
      OrElse(row.amount, DefaultAmount(quoteType)),
      OrElse(row.status, "pending"),
      OrElse(date, today))
  }

  // ---------------------------------------------------------------------------
  // The payload

  datatype QuotePayload = QuotePayload(
    title: string, model: string, year: string, engine: string, chassis: string,
    quoteType: string, workshopId: Option<int>, amountText: string, status: string, date: string)

  /**
   * `workshopId ? parseInt(workshopId) : null`; a NaN or infinite result is
   * serialised by `JSON.stringify` as null as well.
   */
  function WorkshopIdValue(text: string): (r: Option<int>)
    ensures text == "" ==> r.None?
    ensures text != "" ==> (r.Some? <==> ParseInt(text, true).Int?)
    ensures r.Some? ==> ParseInt(text, true) == Int(r.value)
  {
    if text == "" then None
    else match ParseInt(text, true)
      case Int(v) => Some(v)
      case _ => None
  }

  function Payload(f: QuoteForm): (p: QuotePayload)
    ensures p.title == BuildTitle(f.quoteType, f.model)
    ensures p.workshopId == WorkshopIdValue(f.workshopId)
    ensures p.model == f.model && p.year == f.year && p.engine == f.engine && p.chassis == f.chassis
    ensures p.quoteType == f.quoteType && p.amountText == f.amount && p.status == f.status && p.date == f.date
  {
    QuotePayload(
      BuildTitle(f.quoteType, f.model), f.model, f.year, f.engine, f.chassis, f.quoteType,
      WorkshopIdValue(f.workshopId), f.amount, f.status, f.date)
  }

  /** A row's workshop id survives opening it for editing and saving it again. */
  lemma WorkshopIdRoundTrip(row: QuoteRow, today: string)
    requires row.workshopId.Some? && row.workshopId.value >= 0
    ensures Payload(EditForm(row, today)).workshopId == if row.workshopId.value < InfinityThreshold then row.workshopId else None
  {
    ParseDecimal(row.workshopId.value, true);
  }

  /** Opening a row whose title was built from a clean model and saving it unchanged rebuilds the same title. */
  lemma SaveUnchangedKeepsTitle(row: QuoteRow, today: string, quoteType: string, model: string)
    requires model != "" && IsTrimmed(model)
    requires forall i :: 0 <= i < |model| ==> !IsLineTerminator(model[i])
    requires quoteType == "brief" || quoteType == "detailed"
    requires row.title == Some(BuildTitle(quoteType, model))
    ensures Payload(EditForm(row, today)).title == row.title.value
  {
    TitleRoundTrip(quoteType, model);
  }
}
