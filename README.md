# Financial statement analyzer: a Dafny model

This project models the computational core of a small Streamlit page that
analyses a balance sheet (`python.py`). The page does three things:

- **Statement analysis.** It reads a table of line items, each with a prior-year
  and a current-year value, and coerces both value columns to numbers (any value
  that is not a number becomes 0). It adds a growth percentage per row. It then
  locates the first "TỔNG CỘNG TÀI SẢN" (total assets) row and adds each row's
  share of total assets for both years. A zero denominator is replaced by 1e-9.
  When no total-assets row exists, the analysis stops with a structure error.
  A label column with no text at all stops it with a reading error.
- **Liquidity.** It computes the current ratio of each year: the first
  "TÀI SẢN NGẮN HẠN" (current assets) row over the first "NỢ NGẮN HẠN"
  (current liabilities) row. It also records the growth of current assets and
  the year-over-year delta of the ratio. A value that cannot be computed is
  "N/A".
- **Session bookkeeping.** It keeps a flag saying whether the chat with the
  language-model service has started, the chat transcript, the first narrative
  text and the name of the last uploaded file. A new file resets the chat. A
  successful start adds the first analysis to the transcript. Each chat turn
  appends the question and exactly one answer.

Files and modules:

- `wrappers.dfy`, module `Wrappers`: `Option` and `Result`.
- `matching.dfy`, module `Matching`: case-insensitive containment of a marker
  in a label, and the first-match row lookup (`df[mask].iloc[0]`).
- `statement.dfy`, module `Statement`: `process_financial_data` as the pure
  function `Process` over rows of real numbers, with its error case.
- `liquidity.dfy`, module `Liquidity`: the current-ratio block, and `Analyze`,
  which runs processing and then the ratio block.
- `session.dfy`, module `Session`: `st.session_state` as the class
  `SessionState`. Its methods are the upload reset, the chat start, the analyze
  button, the chat turn and one run of the page script. Calls to the
  language-model service become outcome parameters (`StartOutcome`,
  `SendOutcome`). The API key from the secret store becomes a parameter too.

Values are Dafny `real`s. A value cell is `Number(v)` or `Unparsable`: the
model takes a cell as already parsed, or as rejected by numeric coercion. A
label cell is `Text(s)` or `NotText`. `NotText` is a missing or non-string
label. In a label column that holds some text, such a cell never matches
(`na=False`). A nonempty label column with no text at all is rejected by the
string accessor itself (an AttributeError, not a ValueError). Processing then
fails with `LabelsNotText`, and the page shows the generic reading message
(lines 268-269) instead of the structure message.

Behaviour worth noting:

- The three markers are Vietnamese phrases: "TỔNG CỘNG TÀI SẢN" (line 40),
  "TÀI SẢN NGẮN HẠN" (line 157) and "NỢ NGẮN HẠN" (line 163).
- When several rows match a marker, the first one is used (`iloc[0]`). The code
  never checks that exactly one row matches.
- A liabilities value that is not a number gives a ratio of "N/A" only because
  coercion first turned it into 0 (lines 28-30 and 168-171).
- The analysis runs on a copy of the uploaded table (`df_raw.copy()`, line
  133). The uploaded table itself is never changed.
- When the current-assets row exists but the liabilities row does not, the
  current-assets growth is still recorded (line 160 runs before line 163).

## Model

| member | source | states |
|---|---|---|
| `Matching.FirstMatchCorrect` | python.py:40-46 | the lookup returns the index of the first row whose label contains the marker, and returns none exactly when no label contains it |
| `Matching.FirstMatchFinds` | python.py:157-165 | whenever k is the first matching index, the lookup yields exactly k |
| `Matching.FirstMatch` | python.py:40-46 | the row selection `df[mask].iloc[0]` over the label column; its own contract says a found index is a row of the table (the full statement is `FirstMatchCorrect`) |
| `Matching.FoldString` | python.py:40 | the `case=False` half of the test: the folded label has the label's length, and each of its characters is the fold of the character at the same position |
| `Matching.Contains` | python.py:40 | the substring test of `str.contains`, proved equal to its reference definition by `ContainsIffOccurs` (no contract of its own) |
| `Matching.Matches` | python.py:40 | `str.contains(marker, case=False, na=False)` on one label: the folded label contains the marker; a label that matches is always text, so a missing or non-string label never matches |
| `Matching.FoldsByCharacters` | python.py:40 | a label folds to a string when each of its characters folds to the character at the same position |
| `Matching.MatchesWhenFoldedEqual` | python.py:40 | a label that folds to a marker written in capitals matches that marker |
| `Matching.ContainsIffOccurs` | python.py:40 | the containment test agrees with its reference definition: the marker is a prefix of some suffix of the label |
| `Matching.MatchesIgnoresCase` | python.py:40 | matching ignores case: folding a label to capitals does not change whether it matches |
| `Matching.MatchesWithinLongerLabel` | python.py:157 | a label that matches still matches with any text added before or after it (substring semantics, e.g. a numbered heading) |
| `Statement.TotalAssetsMarkerFolded` | python.py:40 | the total-assets marker is written in capitals: case folding leaves it unchanged |
| `Statement.ToNumeric` | python.py:28-30 | one cell after `to_numeric(errors='coerce').fillna(0)`: a parsed number stays itself, anything else becomes 0 (no contract of its own; stated by `Coerce` and `ProcessKeepsRows`) |
| `Statement.Coerce` | python.py:28-30 | the coerced table has the same rows in the same order, each label kept and both value cells coerced |
| `Statement.GrowthPercent` | python.py:34-36 | the growth of one row, (current − prior) / prior × 100, with a zero prior replaced by 1e-9 (no contract of its own; stated by `GrowthPercentMeaning`) |
| `Statement.SharePercent` | python.py:53-54 | one value's share of a year's total, value / total × 100, with a zero total replaced by 1e-9 (no contract of its own; stated by `SharePercentMeaning`) |
| `Statement.Extend` | python.py:34-54 | the three derived columns: one output row per line, the line's item and values kept, its growth, and its share of each year's total (lines 34-36 and 53-54) |
| `Statement.Process` | python.py:24-56 | `process_financial_data`: a processed table has exactly one row per input row; a missing total-assets row or a label column without text is an error, and no table results |
| `Statement.ProcessKeepsRows` | python.py:28-30 | the processed table has the same number of rows, in the same order, with labels unchanged; an unparsable value cell becomes exactly 0 and a number stays itself |
| `Statement.ProcessGrowth` | python.py:34-36 | every row's growth is (current − prior) / prior × 100 when prior ≠ 0, and (current − prior) / 1e-9 × 100 when prior = 0; it is defined for every row |
| `Statement.GrowthPercentMeaning` | python.py:34-36 | with a nonzero prior, growth × prior = (current − prior) × 100; with a zero prior, growth = current × 10^11 |
| `Statement.ProcessFailsIffNoTotalAssets` | python.py:40-43 | processing fails, with no table, exactly when no label contains the total-assets marker; the error is the no-text error exactly when the table has rows but no text label, and the missing-total-assets error otherwise |
| `Statement.ProcessComposition` | python.py:45-54 | every row's share in each year is its value over that year's value in the first total-assets row, or over 1e-9 where that value is 0; the two years are decided independently |
| `Statement.TotalAssetsShare` | python.py:49-54 | the total-assets row's own share is 100 in a year where its value is nonzero, and 0 in a year where it is 0 |
| `Statement.SharePercentMeaning` | python.py:49-54 | share × total = value × 100 for a nonzero total; share = value × 10^11 for a zero total |
| `Statement.SafeDivisor` | python.py:49-50 | the divisor is never 0, and it equals the value itself whenever that value is nonzero |
| `Statement.ReprocessIsIdentity` | python.py:24-56 | processing the processed table's three input columns again yields the same table (the analysis is idempotent on its own output) |
| `Statement.CompositionExample` | python.py:45-54 | total assets of 1000 and 2000, and a row of 100 and 300, give that row shares of 10% and 15% and a growth of 200% |
| `Liquidity.CurrentAssetsMarkerFolded` | python.py:157 | the current-assets marker is written in capitals: case folding leaves it unchanged |
| `Liquidity.CurrentLiabilitiesMarkerFolded` | python.py:163 | the current-liabilities marker is written in capitals: case folding leaves it unchanged |
| `Liquidity.MarkersMatchThemselves` | python.py:40 | each of the three markers, those of lines 40, 157 and 163, matches a line item that is the marker itself |
| `Liquidity.LowerCaseTotalAssetsMatches` | python.py:40 | the line item "tổng cộng tài sản", all in lower case, matches the total-assets marker |
| `Liquidity.YearRatio` | python.py:168-171 | one year's current ratio: assets over liabilities when the liabilities are nonzero, otherwise "N/A" (no contract of its own; stated by `YearRatioMeaning`) |
| `Liquidity.YearRatioMeaning` | python.py:168-171 | a year's ratio exists exactly when that year's liabilities are nonzero, and then ratio × liabilities = assets |
| `Liquidity.CurrentRatios` | python.py:151-171 | the ratio block: when the warning is raised both ratios are "N/A", and a missing current-assets growth always comes with the warning |
| `Liquidity.RatiosWhenRowsPresent` | python.py:151-171 | with both rows present, each year's ratio is the first current-assets value over the first current-liabilities value when the latter is nonzero, and "N/A" otherwise; growth is recorded and no warning is raised |
| `Liquidity.RatiosWhenAssetsMissing` | python.py:155-159 | without a current-assets row, both ratios and the growth stay "N/A" and the warning is raised |
| `Liquidity.RatiosWhenLiabilitiesMissing` | python.py:157-165 | with a current-assets row but no liabilities row, both ratios stay "N/A" and the warning is raised, but the current-assets growth is already set |
| `Liquidity.WarningIffRowMissing` | python.py:187-188 | the missing-row warning appears exactly when one of the two rows is missing, and the growth is present exactly when the current-assets row is |
| `Liquidity.RatioDelta` | python.py:180 | the delta exists exactly when both ratios are numbers, and then prior ratio + delta = current ratio |
| `Liquidity.CurrentRatioExample` | python.py:168-171 | assets 500 and 600 over liabilities 250 and 0 give a prior-year ratio of 2, a current-year ratio of "N/A", and no delta |
| `Liquidity.Analyze` | python.py:133-185 | processing, then the ratio block: the analysis fails exactly when processing fails, with the same error, and otherwise reports the processed table together with the ratio block's figures computed from that table |
| `Liquidity.AnalyzeFailsIffNoTotalAssets` | python.py:133-135 | no ratios are computed for a table without a total-assets row: the analysis then fails, with the no-text error for a nonempty table without a text label and the missing-total-assets error otherwise |
| `Session.PageFor` | python.py:125-136 | the page for an upload: the upload prompt exactly when there is no file, and an analysis only for a readable table whose analysis succeeds, in which case it is that analysis |
| `Session.PageForTable` | python.py:125-136 | a readable table of three columns is shown exactly when it has a total-assets row; otherwise the page shows the generic message for a nonempty table without a text label (lines 40, 268-269), and the structure message in every other case (lines 266-267) |
| `Session.StartResultText` | python.py:102-109 | the text of a start: the reply on success; an API or other error is its prefix followed by the error's details; a missing key is the fixed key message; every failure text is nonempty |
| `Session.SendResultText` | python.py:253-260 | the assistant's message after a chat call: exactly the reply on success; on failure a text that starts with the chat-error prefix and ends with the retry suffix (its detail is stated by `FailureTextsCarryDetail`) |
| `Session.NarrativeShownAsWritten` | python.py:224-226 | the narrative box as written: shown exactly when the chat has started, and then with the stored narrative |
| `Session.FailedStartIsHidden` | python.py:216-226 | a failed start stores a nonempty error text as the narrative, but the page as written does not show it |
| `Session.NarrativeShown` | python.py:216-226 | the narrative box as intended: shown exactly when the chat has started or a narrative is stored, and then with that narrative |
| `Session.EveryStartIsShown` | python.py:216-226 | with the intended box, the text of every start, reply or error, is shown |
| `Session.FailureTextsCarryDetail` | python.py:259-262 | the assistant message for a failed chat call starts with the chat-error prefix and carries the error's details |
| `Session.TurnKeepsShape` | python.py:243-262 | a question and its answer appended to a started transcript keep it alternating: first analysis, then user and assistant pairs |
| `Session.EveryPromptAnswered` | python.py:240-262 | in a started transcript every user message is followed directly by an assistant message |
| `Session.SessionState.constructor` | python.py:15-20 | a new session has the chat not started, an empty transcript, an empty narrative and no recorded file name |
| `Session.SessionState.OnUpload` | python.py:119-123 | an upload whose name differs from the recorded one clears the flag, transcript and narrative and records the name; the same name, or no file, changes nothing |
| `Session.SessionState.InitializeChat` | python.py:59-109 | a successful start appends exactly one assistant message (the reply) and sets the flag; a failure (API, key or other error) returns its error text and leaves transcript and flag untouched |
| `Session.SessionState.RequestAnalysis` | python.py:195-221 | while the chat is not started and a key exists, the start's text (reply or error) becomes the narrative, which the intended narrative box then shows; after a failed start the stored text is nonempty yet the box as written shows nothing; without a key only the missing-key message results and nothing changes |
| `Session.SessionState.SubmitChat` | python.py:229-263 | once the chat has started, a nonempty prompt appends the user message and then exactly one assistant message (reply or error text): the transcript grows by exactly 2 and earlier entries are unchanged |
| `Session.SessionState.Rerun` | python.py:113-272 | one page run shows the page for the upload, records the file name, leaves the chat state as the upload reset left it unless an analysis is shown, and never removes transcript entries other than by that reset |

## Left out

- Rendering: `st.dataframe` with its number formats, `st.metric`, `st.columns`,
  `st.chat_message`, spinners and dividers. The ratio labels at line 177 are
  display only, so that mix-up is out of scope too.
- Spreadsheet reading and the column relabelling (lines 127-130). A sheet is
  given as rows already split into three fields (`Sheet.Table`), or as one of
  two failures. `MalformedSheet` is a ValueError, such as a column count other
  than three, and gets the structure message. `UnreadableFile` is any other
  error and gets the generic message.
- How pandas infers the type of the label column for the string accessor. The
  model reduces it to one rule: the accessor accepts an empty column or one with
  at least one text label, and rejects any other column. Byte-string labels are
  not modelled.
- `pd.to_numeric` string parsing: a cell is given as parsed (`Number`) or
  rejected (`Unparsable`).
- The language-model client (`genai.Client`, `chats.create`, `send_message`) and
  `st.secrets`. Each call is represented by its outcome, and the key by an
  optional parameter. The chat-session handle stored at line 83 is not modelled.
  Note that the upload reset does not clear it.
- `@st.cache_data` and the prompt text built with `to_markdown` (lines
  197-210), including the two-decimal formatting of the figures sent to the
  service.
- Unicode case folding beyond ASCII, Latin-1, the Vietnamese letters
  U+1EA0–U+1EF9 and Đ/đ. The regular-expression reading of the pattern is left
  out too; the markers contain no metacharacters.
- IEEE floating-point effects (rounding, infinities, NaN): values are exact
  reals.
- The `ZeroDivisionError` handler at line 189: `YearRatio` divides only by a
  nonzero value, which the verifier checks, so that handler is unreachable.
- Order of computation: the growth column is computed before the total-assets
  lookup. A failed analysis discards the copied table, so the order cannot be
  observed, and the model computes all three columns after the lookup.
- Session.SessionState.Rerun: its contract states the page, the recorded name,
  the whole chat state when no analysis is shown, and that the transcript only
  grows after the reset. It does not restate the new chat state of a page that
  shows an analysis; that state is given by the contracts of `RequestAnalysis`
  and `SubmitChat`, which `Rerun` calls.

## Findings

| source | as written | input that shows it | evidently intended | confidence | as-written member | corrected member |
|---|---|---|---|---|---|---|
| python.py:216-226 | after a failed start, line 218 stores the error text as the narrative and line 219 reruns the page, but lines 224-226 show the narrative only when the chat has started, so the error text is never shown | the analyze button with a working key and an API error from the service: the next run shows the button again and no message | the error text of lines 104-109 is shown after a failed start | medium, not executed | `Session.FailedStartIsHidden` over `Session.NarrativeShownAsWritten` | `Session.EveryStartIsShown` over `Session.NarrativeShown`, used by `Session.SessionState.RequestAnalysis` |
