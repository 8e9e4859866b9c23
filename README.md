# Gemini Financial Decoder — verified model of the report logic

The Gemini Financial Decoder is a Streamlit page. It takes up to three
uploaded financial statements: a balance sheet, a profit & loss statement
and a cash-flow statement. For each one it reads the text, asks a language
model for a summary using a fixed prompt for that kind of statement, and
charts the first numbers found in the text. This project models that logic
in Dafny and proves what it does:

- `numbers.dfy` (module `NumberScan`) models the scan
  `re.findall(r"\b\d+(?:\.\d+)?\b", data)` as a single match attempt at
  each position and a left-to-right scan over the table of attempts. Each
  is proved equal to a description that does not use the scanner: the
  attempt finds the longest candidate at its position, and the scan returns
  the unique leftmost-first sequence of matches.
- `chart.dfy` (module `Chart`) gives each token its exact decimal value. It
  models the chart decision: a chart only when there is more than one
  number, and then only the first ten values.
- `prompts.dfy` (module `Prompts`) models the three prompt templates, parsed
  into text and fields, and the `format(data=...)` substitution. It proves
  that the document text is inserted verbatim, and that a prompt determines
  both the statement kind and the text.
- `pipeline.dfy` (module `Pipeline`) models `read_file`'s dispatch on the
  `.csv` extension, `generate_summary`, and the three guarded blocks run in
  the fixed order. The CSV reader, the UTF-8 decoder and the model call are
  function parameters. When one of them returns `None`, it raised an
  exception, and that ends the run.
- `wrappers.dfy` defines `Option`.

## Model

| member | source | states |
|---|---|---|
| NumberScan.DigitRunEnd | app.py:128 | The greedy `\d+` stops at the end of the maximal run: every character before the end is a digit, and the character at the end is not a digit (or the text ends). |
| NumberScan.MatchAt | app.py:128 | One attempt of the pattern at a position, with the engine's backtracking: a match ends after its start and within the text. MatchIsLongestCandidate shows it is the longest candidate at that position. |
| NumberScan.MatchIsLongestCandidate | app.py:128 | A match at a position is a numeral with a non-word character or the text edge on each side. Every such candidate is at most as long as the match, and a match exists whenever a candidate does. So the decimal form wins when a boundary follows its fraction, and otherwise the integer form wins when a boundary follows it. |
| NumberScan.Attempts | app.py:128 | The attempt at each position of the text is MatchAt there, and every successful attempt ends after its position and within the text, so the table is one the scan accepts. |
| NumberScan.Scan | app.py:128 | Over any table of match attempts, every span the scan returns is a successful attempt at its start, within the text, and the spans are increasing and non-overlapping. |
| NumberScan.ScanIsLeftmostFirst | app.py:128 | The scan misses no match: every position where an attempt succeeds lies inside some returned span. |
| NumberScan.LeftmostFirstUnique | app.py:128 | Exactly one sequence is made of ordered, non-overlapping successful attempts that cover every successful position, and it is the scan's result. |
| NumberScan.Spans | app.py:128 | Every span reported for a text is a match of the pattern at its start, inside the text, and the spans are increasing and non-overlapping. |
| NumberScan.SpansCharacterised | app.py:128 | The spans of a text answer the description of `findall`: each is a match, they are ordered and non-overlapping, and every match position is covered. They are the only sequence that does. |
| NumberScan.FindAll | app.py:128 | `findall` returns one token per span, each being the matched substring, and every token is an integer or decimal numeral with no sign, exponent or separator. |
| NumberScan.TokensAreBounded | app.py:128 | Every token has a non-word character or the text edge on both sides. Tokens are in strictly increasing position order, with at least one character between consecutive tokens. |
| NumberScan.ExampleDecimalNeedsBoundary | app.py:128 | `"1.5x"` yields `["1"]`: the decimal is given up when a letter follows it. |
| NumberScan.ExampleTwoPoints | app.py:128 | `"1.2.3"` yields `["1.2", "3"]`. |
| NumberScan.ExampleGluedToWord | app.py:128 | `"12abc"` and `"1_000"` yield no token, because the digits are glued to a word character. |
| NumberScan.NumeralPoint | app.py:128 | A numeral is all digits, or has its only point where its leading digit run ends. |
| NumberScan.DecimalPointIsRunEnd | app.py:128 | The point of a decimal numeral is where its leading digit run ends, so it is not all digits. |
| Chart.DigitsValue | app.py:129 | A run of n digits denotes a number below 10^n. |
| Chart.DigitsValueSnoc | app.py:129 | One more digit at the end multiplies the value by ten and adds that digit. |
| Chart.DigitsValueAppend | app.py:129 | Digits followed by more digits: the first part is shifted left by one decimal place per appended digit. |
| Chart.LeadingZero | app.py:129 | A leading zero does not change the value. |
| Chart.NumeralValue | app.py:129 | `float(n)` of a token, kept exact: the scale is below the token's length. IntegerValue and DecimalValue give the value of each form. |
| Chart.IntegerValue | app.py:129 | An integer token denotes the integer it spells, at scale 0. |
| Chart.DecimalValue | app.py:129 | A decimal token `i.f` denotes `i * 10^|f| + f` at scale `|f|`. |
| Chart.Numbers | app.py:128-129 | The values are those of the tokens, one per token and in the same order. |
| Chart.Visualize | app.py:131-145 | A chart is drawn exactly when the untruncated count of numbers is above one; otherwise only the notice is shown. Its series is the first `min(10, n)` values in scan order, so it has between 2 and 10 points. |
| Prompts.KindOfKey | app.py:51-103 | Looking up a key yields the kind with that key, and fails exactly for strings that are not one of the three keys. |
| Prompts.Prefix | app.py:51-103 | A template's text up to `{data}`: the opening, the role, the subject, the four points and the data heading, character for character. ComposeFillsField and ComposeInjective state what it contributes to the prompt. |
| Prompts.Slotted | app.py:51-103 | A parsed template of a text, a field and a text has `data` as its one field name, and that field occurs (`input_variables=["data"]`). |
| Prompts.Template | app.py:51-103 | The `templates` dict entry of a kind, parsed: built by Slotted from the kind's text before `{data}` and the closing newline, so its only field is `data`. |
| Prompts.Format | app.py:120 | Formatting succeeds exactly when every field of the template has a value. |
| Prompts.Compose | app.py:120 | `templates[k].format(data=data)` never raises, because every field is given. ComposeFillsField states the resulting text. |
| Prompts.FormatAroundField | app.py:120 | Formatting text, the `data` field and text yields the first text, the value verbatim, and the second text. |
| Prompts.ComposeFillsField | app.py:51-103 | For each kind, the prompt is that kind's template text before `{data}`, then the document text unchanged, then the text after it. The document text is found verbatim in the prompt. |
| Prompts.ComposeShape | app.py:51-103 | A step towards ComposeInjective, not a promise of app.py: two characters of the role line sit at fixed offsets of every composed prompt, and the document text lies between the template's prefix and suffix. |
| Prompts.ComposeInjective | app.py:51-103 | Equal prompts come from the same kind and the same document text, so the three templates are pairwise distinct. |
| Prompts.KeyInjective | app.py:51-103 | The three dictionary keys are distinct. |
| Prompts.SummaryPrompt | app.py:119-120 | The prompt for a key exists exactly when the key is one of the three, and then it is that kind's template filled with the text. |
| Pipeline.RouteOf | app.py:112 | `file.name.endswith(".csv")`. CsvNameIsCsv and CsvRouteHasExtension together show that it picks the CSV branch exactly for names ending in `.csv`, and UpperCaseExtensionIsText shows it is case-sensitive. |
| Pipeline.CsvNameIsCsv | app.py:112 | Every name ending in `.csv` takes the CSV branch. |
| Pipeline.CsvRouteHasExtension | app.py:112 | Only names ending in `.csv` take the CSV branch. |
| Pipeline.UpperCaseExtensionIsText | app.py:112-116 | A name ending in `.CSV` takes the text-decoding branch. |
| Pipeline.ReadFile | app.py:110-116 | `read_file`: the CSV reader for CSV-named files, the UTF-8 decoder otherwise. ReadFileDispatch shows that the result depends only on the reader the name selects. |
| Pipeline.ReadFileDispatch | app.py:110-116 | The name alone chooses the reader: a CSV-named file is read only by the CSV reader, and any other file only by the decoder. |
| Pipeline.GenerateSummary | app.py:119-122 | The summary is the model's answer to exactly the composed prompt of the kind with that key. An unknown key yields no summary. |
| Pipeline.Analyze | app.py:195-201 | A completed section has the document's kind, its text as read, the model's answer to its prompt, and the chart of that text. A failure records whether reading failed, or whether reading succeeded (header written) and the model call failed. |
| Pipeline.Step | app.py:194-221 | One `if <kind>_file:` block: a block for an empty slot, or after an exception, changes nothing. Sections already shown are never changed, at most one is added, and none is added by a block that raises. |
| Pipeline.Generate | app.py:193-221 | The three blocks in source order. GenerateReport states the result: sections faithful to their documents, in page order, all present documents without an exception, or those before the failing one. |
| Pipeline.Present | app.py:193-221 | A kind is listed exactly when its upload slot is filled. |
| Pipeline.AbortedConsistent | app.py:193-221 | After an exception, the report stays consistent whatever blocks follow. |
| Pipeline.AppendConsistent | app.py:194-201 | A completed section for a filled slot extends a consistent report. |
| Pipeline.FailConsistent | app.py:194-201 | A failure of the next filled slot ends a consistent report consistently. |
| Pipeline.StepConsistent | app.py:194-201 | One guarded block preserves the report invariant, and extends the expected sections by its own kind when its slot is filled. |
| Pipeline.GenerateConsistent | app.py:193-221 | The three blocks in order produce a report consistent with the present kinds. |
| Pipeline.PresentOrdered | app.py:193-221 | The present kinds are in strictly increasing page order. |
| Pipeline.GenerateReport | app.py:193-221 | Every section is for a filled slot and is faithful to its document. Sections are in strictly increasing page order: balance sheet, profit & loss, cash flow. Without an exception they are exactly the present documents; after one, they are the present documents before the one that raised. |
| Pipeline.NeverFailsWithoutErrors | app.py:110-122 | A document cannot fail when neither reader nor the model raises. |
| Pipeline.NoFailureWithoutErrors | app.py:193-221 | A consistent report has no failure when no reader and no model call raises. |
| Pipeline.CompleteWithoutErrors | app.py:193-221 | When nothing raises, every uploaded document gets its section, in page order. |
| Pipeline.NothingUploaded | app.py:193-221 | With no uploads the run shows no section, whatever the environment. |

## Left out

- The Streamlit page itself is not modelled: page configuration, sidebar uploaders, the button, the spinner, headers, `st.write`, `st.dataframe`, `st.pyplot`, `st.info` and the footer. The model records what each section holds and whether a header was written, not how it is displayed.
- Loading the `.env` file, the API-key check with `st.stop()` and `genai.configure` are not modelled. They are start-up I/O.
- Building the Gemini client and `llm.invoke` are not modelled. The model call is a parameter `Env.invoke`, and its answer is opaque.
- `pd.read_csv(file).to_string()` and `file.read().decode("utf-8")` are parameters (`Env.readCsv`, `Env.decodeUtf8`), because their output format belongs to those libraries. Only the choice between them is modelled.
- `float(n)` is modelled as an exact `Decimal`. Floating-point rounding is not captured, and neither is the overflow of a very long token to `inf`.
- Matplotlib plotting, the chart title and the axis labels are not modelled.
- `\w` and `\d` are the ASCII classes `[A-Za-z0-9_]` and `[0-9]`. Python's Unicode classes, which also accept other scripts' letters and digits, are not modelled, so for example `"café2024"` yields `["2024"]` here while Python finds no token.
- The templates are given already parsed into text and the one `data` field. LangChain's parsing of the f-string template is not modelled.
- An exception ends the run. Any sections already shown stay, and the header of the failing document is recorded (`Failure.headerShown`). Streamlit's error display is not modelled.
- Persona prompts, temperature modes and plotting of table columns do not appear in `app.py`, so they are not modelled.
- `app.py` has no warning for a run without uploads. The button then shows nothing (`Pipeline.NothingUploaded`), and the model follows `app.py` here.
