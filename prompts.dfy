/**
  Prompt composition (app.py:51-103, 119-120): a fixed template per kind of
  financial statement, each with one `{data}` field, filled with the document
  text by `templates[template_key].format(data=data)`.
 */
module Prompts {
  import opened Wrappers

  /** The three kinds of financial statement, in the order the page handles them. */
  datatype Kind = BalanceSheet | ProfitLoss | CashFlow

  /** The key of the `templates` dictionary for a kind. */
  function Key(k: Kind): string {
    match k
    case BalanceSheet => "balance_sheet"
    case ProfitLoss => "profit_loss"
    case CashFlow => "cash_flow"
  }

  /** Dictionary lookup by key: `None` models the `KeyError` of an unknown key. */
  function KindOfKey(key: string): (r: Option<Kind>)
    ensures r.Some? ==> Key(r.value) == key
    ensures r.None? <==> forall k: Kind :: Key(k) != key
  {
    if key == "balance_sheet" then Some(BalanceSheet)
    else if key == "profit_loss" then Some(ProfitLoss)
    else if key == "cash_flow" then Some(CashFlow)
    else None
  }

  /** An f-string template as its formatter parses it: literal text and
      named replacement fields, in order. */
  datatype Piece = Text(text: string) | Field(name: string)

  /** Who the model is asked to be (the first line of each template). */
  function Role(k: Kind): string {
    match k
    case BalanceSheet => "professional financial analyst"
    case ProfitLoss => "financial expert"
    case CashFlow => "financial consultant"
  }

  /** What the model is asked to analyze. */
  function Subject(k: Kind): string {
    match k
    case BalanceSheet => "Balance Sheet"
    case ProfitLoss => "Profit & Loss statement"
    case CashFlow => "Cash Flow statement"
  }

  /** The four points the analysis must cover, one bullet line each. */
  function Points(k: Kind): string {
    match k
    case BalanceSheet =>
      "- Summary of financial position\n" + "- Key assets and liabilities\n"
      + "- Financial strengths and weaknesses\n" + "- Investment insights\n"
    case ProfitLoss =>
      "- Revenue trends\n" + "- Expense analysis\n"
      + "- Net profit evaluation\n" + "- Business performance insights\n"
    case CashFlow =>
      "- Operating cash flow analysis\n" + "- Investing and financing review\n"
      + "- Liquidity position\n" + "- Risk factors\n"
  }

  /** The heading under which the document text is placed. */
  function Label(k: Kind): string {
    match k
    case BalanceSheet => "Balance Sheet"
    case ProfitLoss => "Profit & Loss"
    case CashFlow => "Cash Flow"
  }

  /** The opening of every template: the source's triple-quoted literal starts
      with a newline. */
  const Opening: string := "\nYou are a "

  /** The template text after the role, up to the `{data}` field. */
  function Body(k: Kind): string {
    ".\n" + "\n" + "Analyze the following " + Subject(k) + " and provide:\n" + "\n"
    + Points(k) + "\n" + Label(k) + " Data:\n"
  }

  /** The template text before the `{data}` field. */
  function Prefix(k: Kind): string {
    Opening + Role(k) + Body(k)
  }

  /** The template text after the `{data}` field. */
  const Suffix: string := "\n"

  /** A parsed template made of a text, the one field `data`, and a text
      (`input_variables=["data"]`). */
  function Slotted(before: string, after: string): (t: seq<Piece>)
    ensures Field("data") in t
    ensures forall i | 0 <= i < |t| :: t[i].Field? ==> t[i].name == "data"
  {
    [Text(before), Field("data"), Text(after)]
  }

  /** The template of a kind (app.py:51-103), parsed: its text up to the
      field, the one field `data`, and the closing newline. */
  function Template(k: Kind): seq<Piece> {
    Slotted(Prefix(k), Suffix)
  }

  /** `format(**values)`: the literal texts in order, each field replaced by its
      value, which is inserted verbatim; `None` models the `KeyError` of a
      field without a value. */
  function Format(t: seq<Piece>, values: map<string, string>): (r: Option<string>)
    ensures r.Some? <==> forall i | 0 <= i < |t| :: t[i].Field? ==> t[i].name in values
    decreases |t|
  {
    if t == [] then Some("")
    else
      var head := match t[0]
        case Text(s) => Some(s)
        case Field(n) => if n in values then Some(values[n]) else None;
      match head
      case None => None
      case Some(s) =>
        match Format(t[1..], values)
        case None => None
        case Some(rest) => Some(s + rest)
  }

  /** The prompt sent for a document of kind `k` (app.py:120), or `None` if
      formatting raised. Formatting never raises here: the only field of
      every template is `data`, and it is given. */
  function Compose(k: Kind, data: string): (r: Option<string>)
    ensures r.Some?
  {
    Format(Template(k), map["data" := data])
  }

  /** A text, the field `data` and a text format to the first text, the
      value of `data` and the second text. */
  lemma FormatAroundField(p: string, q: string, data: string)
    ensures Format(Slotted(p, q), map["data" := data]) == Some(p + data + q)
  {
    var t := Slotted(p, q);
    var vs := map["data" := data];
    assert t[1..] == [Field("data"), Text(q)];
    assert t[1..][1..] == [Text(q)];
    assert t[1..][1..][1..] == [];
    assert Format([Text(q)], vs) == Some(q + "");
    assert q + "" == q;
    assert Format(t[1..], vs) == Some(data + q);
    assert p + (data + q) == p + data + q;
  }

  /** Formatting never fails here, and the composed prompt is the kind's
      template with its field replaced by the document text: the text appears
      in it verbatim, right after the part of the template that precedes the
      field. */
  lemma ComposeFillsField(k: Kind, data: string)
    ensures Compose(k, data) == Some(Prefix(k) + data + Suffix)
    ensures Compose(k, data).value[|Prefix(k)|..|Prefix(k)| + |data|] == data
  {
    FormatAroundField(Prefix(k), Suffix, data);
    var r := Prefix(k) + data + Suffix;
    assert r[|Prefix(k)|..|Prefix(k)| + |data|] == data;
  }

  /** The opening line already tells the kinds apart. */
  lemma RoleSignature(k1: Kind, k2: Kind)
    requires Role(k1)[0] == Role(k2)[0] && Role(k1)[10] == Role(k2)[10]
    ensures k1 == k2
  {
  }

  /** In a text made of the opening, a role of more than ten characters, a
      body, a value and a suffix, characters 11 and 21 are characters 0 and 10
      of the role, and the value lies right after the body. */
  lemma Layout(role: string, body: string, data: string, suffix: string)
    requires |role| > 10
    ensures var w := Opening + role + body + data + suffix;
      var n := |Opening + role + body|;
      w[11] == role[0] && w[21] == role[10] && w[n..n + |data|] == data
  {
    assert |Opening| == 11;
    var w := Opening + role + body + data + suffix;
    var n := |Opening + role + body|;
    assert w[n..n + |data|] == data;
  }

  /** Every role is longer than ten characters. */
  lemma RoleLength(k: Kind)
    ensures |Role(k)| > 10
  {
  }

  /** The composed prompt carries its role's signature characters, and the
      document text is what lies between the template's prefix and suffix. */
  lemma ComposeShape(k: Kind, data: string)
    ensures Compose(k, data).Some?
    ensures |Compose(k, data).value| == |Prefix(k)| + |data| + |Suffix|
    ensures |Role(k)| > 10
    ensures Compose(k, data).value[11] == Role(k)[0]
    ensures Compose(k, data).value[21] == Role(k)[10]
    ensures Compose(k, data).value[|Prefix(k)|..|Prefix(k)| + |data|] == data
  {
    ComposeFillsField(k, data);
    RoleLength(k);
    Layout(Role(k), Body(k), data, Suffix);
  }

  /** No cross-contamination: the composed prompt determines both the kind whose
      template was used and the document text. In particular the three
      templates are pairwise distinct. */
  lemma ComposeInjective(k1: Kind, d1: string, k2: Kind, d2: string)
    requires Compose(k1, d1) == Compose(k2, d2)
    ensures k1 == k2 && d1 == d2
  {
    ComposeShape(k1, d1);
    ComposeShape(k2, d2);
    RoleSignature(k1, k2);
  }

  /** The three keys are distinct. */
  lemma KeyInjective()
    ensures forall k1: Kind, k2: Kind :: Key(k1) == Key(k2) ==> k1 == k2
  {
    forall k1: Kind, k2: Kind | Key(k1) == Key(k2) ensures k1 == k2 {
      assert Key(k1)[0] == Key(k2)[0];
    }
  }

  /** `generate_summary` up to the model call (app.py:119-120): the prompt for a
      dictionary key, or `None` for the `KeyError` of an unknown key. */
  function SummaryPrompt(key: string, data: string): (r: Option<string>)
    ensures r.Some? <==> exists k: Kind :: Key(k) == key
    ensures forall k: Kind :: Key(k) == key ==> r == Some(Prefix(k) + data + Suffix)
  {
    match KindOfKey(key)
    case Some(k) =>
      KeyInjective();
      ComposeFillsField(k, data);
      Compose(k, data)
    case None => None
  }
}
