/**
  The report run behind the "Generate Financial Reports" button
  (app.py:110-122, 193-221): each uploaded document is read according to its
  file name, summarised by the language model from its composed prompt and
  charted from its numbers, in the fixed order balance sheet, profit & loss,
  cash flow. The CSV reader, the UTF-8 decoder and the model call are
  parameters; `None` from one of them is the exception it raised, which ends
  the run.
 */
module Pipeline {
  import opened Wrappers
  import opened Prompts
  import opened Chart

  /** An uploaded document: its file name and its raw bytes. */
  datatype UploadedFile = UploadedFile(name: string, bytes: seq<bv8>)

  /** The three upload slots of the sidebar; `None` is an empty slot. */
  datatype Uploads = Uploads(balanceSheet: Option<UploadedFile>,
                             profitLoss: Option<UploadedFile>,
                             cashFlow: Option<UploadedFile>)

  /** What lies outside the model: `pd.read_csv(...).to_string()`,
      `read().decode("utf-8")` and `llm.invoke`; `None` is a raised exception. */
  datatype Env = Env(readCsv: seq<bv8> -> Option<string>,
                     decodeUtf8: seq<bv8> -> Option<string>,
                     invoke: string -> Option<string>)

  /** The two ways `read_file` reads a document. */
  datatype Route = Csv | PlainText

  const CsvExtension: string := ".csv"

  /** `name.endswith(".csv")`: case-sensitive, on the last four characters. */
  function RouteOf(name: string): Route {
    if |name| >= |CsvExtension| && name[|name| - |CsvExtension|..] == CsvExtension
    then Csv else PlainText
  }

  /** Every name ending in `.csv` takes the CSV branch. */
  lemma CsvNameIsCsv(stem: string)
    ensures RouteOf(stem + CsvExtension) == Csv
  {
    var name := stem + CsvExtension;
    assert name[|name| - |CsvExtension|..] == CsvExtension;
  }

  /** Only names ending in `.csv` take the CSV branch. */
  lemma CsvRouteHasExtension(name: string)
    ensures RouteOf(name) == Csv ==>
      |name| >= 4 && name == name[..|name| - 4] + CsvExtension
  {
    if RouteOf(name) == Csv {
      assert name == name[..|name| - 4] + name[|name| - 4..];
    }
  }

  /** An upper-case extension is not recognised: such a file is decoded as text. */
  lemma UpperCaseExtensionIsText(stem: string)
    ensures RouteOf(stem + ".CSV") == PlainText
  {
    var name := stem + ".CSV";
    assert name[|name| - 3] == 'C';
  }

  /** `read_file` (app.py:110-116): the document text, or `None` if the
      chosen reader raised. */
  function ReadFile(f: UploadedFile, env: Env): Option<string> {
    match RouteOf(f.name)
    case Csv => env.readCsv(f.bytes)
    case PlainText => env.decodeUtf8(f.bytes)
  }

  /** The file name alone chooses the reader: a CSV-named file never reaches
      the text decoder, and any other file never reaches the CSV reader. */
  lemma ReadFileDispatch(f: UploadedFile, env1: Env, env2: Env)
    ensures RouteOf(f.name) == Csv && env1.readCsv(f.bytes) == env2.readCsv(f.bytes)
      ==> ReadFile(f, env1) == ReadFile(f, env2)
    ensures RouteOf(f.name) == PlainText && env1.decodeUtf8(f.bytes) == env2.decodeUtf8(f.bytes)
      ==> ReadFile(f, env1) == ReadFile(f, env2)
  {
  }

  /** `generate_summary` (app.py:119-122): the model's answer to the prompt
      composed for a template key, or `None` for an unknown key or a failed call. */
  function GenerateSummary(key: string, data: string, invoke: string -> Option<string>): (r: Option<string>)
    ensures forall k: Kind :: Key(k) == key ==> r == invoke(Prefix(k) + data + Suffix)
    ensures (forall k: Kind :: Key(k) != key) ==> r.None?
  {
    match SummaryPrompt(key, data)
    case None => None
    case Some(prompt) => invoke(prompt)
  }

  /** One section of the page: the header of its kind, the document text it
      was made from, the model's summary and the chart decision. */
  datatype Section = Section(kind: Kind, data: string, summary: string, visual: Visualization)

  /** A document whose processing raised; `headerShown` says whether its
      header was already written, that is whether reading succeeded. */
  datatype Failure = Failure(kind: Kind, headerShown: bool)

  /** The outcome of one document. */
  datatype Outcome = Done(section: Section) | Failed(failure: Failure)

  /** `s` is exactly the section the page shows for document `f`. */
  predicate Faithful(s: Section, f: UploadedFile, env: Env) {
    ReadFile(f, env) == Some(s.data)
    && env.invoke(Prefix(s.kind) + s.data + Suffix) == Some(s.summary)
    && s.visual == Visualize(s.data)
  }

  /** `f` of kind `k` fails exactly as `failure` says: reading raised, or
      reading succeeded (and the header was written) and the model call raised. */
  predicate FailsAs(failure: Failure, f: UploadedFile, env: Env) {
    match ReadFile(f, env)
    case None => !failure.headerShown
    case Some(data) => failure.headerShown && env.invoke(Prefix(failure.kind) + data + Suffix).None?
  }

  /** The body of one `if <kind>_file:` block (app.py:195-201): read, write the
      header, summarise, chart. */
  function Analyze(k: Kind, f: UploadedFile, env: Env): (r: Outcome)
    ensures r.Done? ==> r.section.kind == k && Faithful(r.section, f, env)
    ensures r.Failed? ==> r.failure.kind == k && FailsAs(r.failure, f, env)
  {
    match ReadFile(f, env)
    case None => Failed(Failure(k, false))
    case Some(data) =>
      match GenerateSummary(Key(k), data, env.invoke)
      case None => Failed(Failure(k, true))
      case Some(summary) => Done(Section(k, data, summary, Visualize(data)))
  }

  /** The page after a run: the sections shown, and the document whose
      exception ended the run, if any. */
  datatype Report = Report(sections: seq<Section>, aborted: Option<Failure>)

  /** The upload slot of a kind. */
  function UploadOf(u: Uploads, k: Kind): Option<UploadedFile> {
    match k
    case BalanceSheet => u.balanceSheet
    case ProfitLoss => u.profitLoss
    case CashFlow => u.cashFlow
  }

  /** One guarded block: skipped for an empty slot or after an exception. */
  function Step(r: Report, k: Kind, file: Option<UploadedFile>, env: Env): (r': Report)
    ensures r.aborted.Some? || file.None? ==> r' == r
    ensures r.sections <= r'.sections && |r'.sections| <= |r.sections| + 1
    ensures r'.aborted.Some? ==> r'.sections == r.sections
  {
    if r.aborted.Some? || file.None? then r
    else
      match Analyze(k, file.value, env)
      case Done(s) => Report(r.sections + [s], None)
      case Failed(f) => Report(r.sections, Some(f))
  }

  /** The three blocks in source order (app.py:193-221). */
  function Generate(u: Uploads, env: Env): Report {
    var r0 := Report([], None);
    var r1 := Step(r0, BalanceSheet, UploadOf(u, BalanceSheet), env);
    var r2 := Step(r1, ProfitLoss, UploadOf(u, ProfitLoss), env);
    Step(r2, CashFlow, UploadOf(u, CashFlow), env)
  }

  /** Position of a kind in the page order. */
  function Rank(k: Kind): nat {
    match k
    case BalanceSheet => 0
    case ProfitLoss => 1
    case CashFlow => 2
  }

  /** `[k]` if the slot of `k` is filled, else nothing. */
  function IfPresent(u: Uploads, k: Kind): seq<Kind> {
    if UploadOf(u, k).Some? then [k] else []
  }

  /** The kinds with an uploaded document, in page order. */
  function Present(u: Uploads): (ks: seq<Kind>)
    ensures forall k: Kind :: k in ks <==> UploadOf(u, k).Some?
  {
    IfPresent(u, BalanceSheet) + IfPresent(u, ProfitLoss) + IfPresent(u, CashFlow)
  }

  /** The kinds of a list of sections. */
  function KindsOf(ss: seq<Section>): (ks: seq<Kind>)
    ensures |ks| == |ss|
    ensures forall i | 0 <= i < |ss| :: ks[i] == ss[i].kind
  {
    seq(|ss|, i requires 0 <= i < |ss| => ss[i].kind)
  }

  /** `r` is what the blocks run so far produce, where `expected` lists the
      present kinds among those blocks: every section is faithful to its
      upload; without an exception the sections are those of `expected`, in
      order; after one, the sections are those before the failing document,
      which is the next present one. */
  ghost predicate Consistent(r: Report, u: Uploads, env: Env, expected: seq<Kind>) {
    (forall i | 0 <= i < |r.sections| ::
      UploadOf(u, r.sections[i].kind).Some?
      && Faithful(r.sections[i], UploadOf(u, r.sections[i].kind).value, env))
    && match r.aborted
       case None => KindsOf(r.sections) == expected
       case Some(f) =>
         KindsOf(r.sections) + [f.kind] <= expected
         && UploadOf(u, f.kind).Some? && FailsAs(f, UploadOf(u, f.kind).value, env)
  }

  /** After an exception the report stays consistent whatever is expected next. */
  lemma AbortedConsistent(r: Report, u: Uploads, env: Env, expected: seq<Kind>, more: seq<Kind>)
    requires Consistent(r, u, env, expected) && r.aborted.Some?
    ensures Consistent(r, u, env, expected + more)
  {
    assert KindsOf(r.sections) + [r.aborted.value.kind] <= expected + more;
  }

  /** A completed section for a filled slot extends a consistent report. */
  lemma AppendConsistent(r: Report, u: Uploads, env: Env, expected: seq<Kind>, s: Section)
    requires Consistent(r, u, env, expected) && r.aborted.None?
    requires UploadOf(u, s.kind).Some? && Faithful(s, UploadOf(u, s.kind).value, env)
    ensures Consistent(Report(r.sections + [s], None), u, env, expected + [s.kind])
  {
    assert KindsOf(r.sections + [s]) == KindsOf(r.sections) + [s.kind];
  }

  /** A failure of the next filled slot ends a consistent report consistently. */
  lemma FailConsistent(r: Report, u: Uploads, env: Env, expected: seq<Kind>, f: Failure)
    requires Consistent(r, u, env, expected) && r.aborted.None?
    requires UploadOf(u, f.kind).Some? && FailsAs(f, UploadOf(u, f.kind).value, env)
    ensures Consistent(Report(r.sections, Some(f)), u, env, expected + [f.kind])
  {
  }

  /** A block keeps the report consistent, extending what is expected by its
      own kind when its slot is filled. */
  lemma StepConsistent(r: Report, u: Uploads, env: Env, expected: seq<Kind>, k: Kind)
    requires Consistent(r, u, env, expected)
    ensures Consistent(Step(r, k, UploadOf(u, k), env), u, env, expected + IfPresent(u, k))
  {
    var file := UploadOf(u, k);
    if r.aborted.Some? {
      AbortedConsistent(r, u, env, expected, IfPresent(u, k));
    } else if file.None? {
      assert expected + IfPresent(u, k) == expected;
    } else {
      match Analyze(k, file.value, env)
      case Done(s) => AppendConsistent(r, u, env, expected, s);
      case Failed(f) => FailConsistent(r, u, env, expected, f);
    }
  }

  /** The sections appear for present documents only, in page order; a run
      without exceptions shows every present document; a run that raised
      shows the present documents before the one that raised. */
  lemma GenerateConsistent(u: Uploads, env: Env)
    ensures Consistent(Generate(u, env), u, env, Present(u))
  {
    var r0 := Report([], None);
    var r1 := Step(r0, BalanceSheet, UploadOf(u, BalanceSheet), env);
    var r2 := Step(r1, ProfitLoss, UploadOf(u, ProfitLoss), env);
    assert Consistent(r0, u, env, []);
    StepConsistent(r0, u, env, [], BalanceSheet);
    StepConsistent(r1, u, env, [] + IfPresent(u, BalanceSheet), ProfitLoss);
    StepConsistent(r2, u, env, [] + IfPresent(u, BalanceSheet) + IfPresent(u, ProfitLoss), CashFlow);
    assert [] + IfPresent(u, BalanceSheet) == IfPresent(u, BalanceSheet);
  }

  /** The present kinds are strictly increasing in page order. */
  lemma PresentOrdered(u: Uploads)
    ensures forall i, j | 0 <= i < j < |Present(u)| :: Rank(Present(u)[i]) < Rank(Present(u)[j])
  {
  }

  /** The whole run, stated on the report: sections in strictly increasing
      page order, each for a filled slot and faithful to its document, all of
      them when no exception was raised. */
  lemma GenerateReport(u: Uploads, env: Env)
    ensures var r := Generate(u, env);
      forall i | 0 <= i < |r.sections| ::
        UploadOf(u, r.sections[i].kind).Some?
        && Faithful(r.sections[i], UploadOf(u, r.sections[i].kind).value, env)
    ensures var r := Generate(u, env);
      forall i, j | 0 <= i < j < |r.sections| :: Rank(r.sections[i].kind) < Rank(r.sections[j].kind)
    ensures var r := Generate(u, env);
      r.aborted.None? ==> KindsOf(r.sections) == Present(u)
    ensures var r := Generate(u, env);
      r.aborted.Some? ==> KindsOf(r.sections) + [r.aborted.value.kind] <= Present(u)
  {
    var r := Generate(u, env);
    GenerateConsistent(u, env);
    PresentOrdered(u);
    var ks := KindsOf(r.sections);
    assert ks <= Present(u) by {
      if r.aborted.Some? {
        assert ks <= ks + [r.aborted.value.kind];
      }
    }
    forall i, j | 0 <= i < j < |r.sections|
      ensures Rank(r.sections[i].kind) < Rank(r.sections[j].kind)
    {
      assert ks[i] == Present(u)[i] && ks[j] == Present(u)[j];
    }
  }

  /** A document cannot fail when neither reader nor the model raises. */
  lemma NeverFailsWithoutErrors(failure: Failure, f: UploadedFile, env: Env)
    requires forall b :: env.readCsv(b).Some? && env.decodeUtf8(b).Some?
    requires forall p :: env.invoke(p).Some?
    ensures !FailsAs(failure, f, env)
  {
    assert env.readCsv(f.bytes).Some? && env.decodeUtf8(f.bytes).Some?;
  }

  /** A consistent report against readers and a model that never raise has
      no failing document. */
  lemma NoFailureWithoutErrors(r: Report, u: Uploads, env: Env, expected: seq<Kind>)
    requires Consistent(r, u, env, expected)
    requires forall b :: env.readCsv(b).Some? && env.decodeUtf8(b).Some?
    requires forall p :: env.invoke(p).Some?
    ensures r.aborted.None?
  {
    if r.aborted.Some? {
      var f := r.aborted.value;
      NeverFailsWithoutErrors(f, UploadOf(u, f.kind).value, env);
    }
  }

  /** If no reader and no model call raises, every uploaded document gets
      its section. */
  lemma CompleteWithoutErrors(u: Uploads, env: Env)
    requires forall b :: env.readCsv(b).Some? && env.decodeUtf8(b).Some?
    requires forall p :: env.invoke(p).Some?
    ensures Generate(u, env).aborted.None?
    ensures KindsOf(Generate(u, env).sections) == Present(u)
  {
    GenerateConsistent(u, env);
    NoFailureWithoutErrors(Generate(u, env), u, env, Present(u));
  }

  /** With no document uploaded the button produces an empty page. */
  lemma NothingUploaded(env: Env)
    ensures Generate(Uploads(None, None, None), env) == Report([], None)
  {
  }
}
