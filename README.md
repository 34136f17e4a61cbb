# ProcessBoards in Dafny

A model of the transform stage of the Monday.com board export: the class
`ProcessBoards` that

- decides which boards hold deals from keyword rules on their lowercased names
  (`check_rules`);
- turns each item of a kept board into one record (`create_base`, `extract_columns`);
- pages through the board listing until the first empty page (`extract_deals`);
- reshapes the records into the published table (`convert_df`).

Layout:

- `process_boards.dfy`, module `ProcessBoards`:
  - Specification functions, one per step: `Base`, `RulesPass`, `ItemRecord`, `ExtractBoard`, `PageDeals`, `RunDeals`, `Reshape`.
  - The lemmas that say what each step promises.
  - The class `ProcessBoards`. It keeps the source's loops and its mutable page counter `pageNum`. Each method is proved against the specification functions.
- `strings.dfy`, module `Strings`: the Python string built-ins the source relies on, with their laws. These are `in` (substring), `lower`, `startswith`, `replace`, `split()`, `' '.join` and `str(int)`.
- `frame.dfy`, module `Frame`: the part of a pandas `DataFrame` that `convert_df` uses. The class `DataFrame` has a header and rows (maps from column name to optional string). Re-indexing, `fillna`, `drop`, column assignment and the `.loc` prefix mask are methods that update the rows in place.
- `query_monday.dfy`, module `QueryMonday`: the shape of the API response (boards, items, column values). The transport is an abstract function from query text to the boards it returns.
- `seqs.dfy`, module `Seqs`: `FlatMap`, the concatenation of per-element results.
- `wrappers.dfy`, module `Wrappers`: `Option` for unset cells.
- `scenario.dfy`, module `Scenario`: the board "CRM Direct Sellers" with the deal "Acme Corp" worked from the rule check to the published row.

The worked example in `scenario.dfy` configures the columns `source`, `account name`, `price per seat` and `trade price`, no exclude keywords, and one page holding the board "CRM Direct Sellers". Its one item is "Acme Corp", with a field titled `price per seat` holding "10" (`ScenarioEndToEnd` allows any title that lowercases to it). With include `["direct"]` the published table has the columns `source`, `account name`, `price per seat`, `type` and one row: "Direct Sellers", "Acme Corp", "10", "Direct". With include `["Direct"]` (capitalised) no board is selected at all: the code lowercases the board name before `check_rules` (ProcessBoards.py:166), so a keyword with an upper-case letter never matches. The model follows the code. `CapitalisedIncludeRejects` proves this in general, and `Scenario.ScenarioExample` for the example.

## Model

| member | source | states |
|---|---|---|
| ProcessBoards.ProcessBoards.constructor | ProcessBoards.py:27-38 | the parsed columns, include, exclude and query template are kept, and the page counter starts at 1 |
| ProcessBoards.ProcessBoards.CreateBase | ProcessBoards.py:54-59 | the record's keys are exactly the given columns and every value is unset |
| ProcessBoards.ProcessBoards.IncludeChecks | ProcessBoards.py:116-121 | one presence test per include keyword, in order; a single string gives one test, any other field gives none |
| ProcessBoards.ProcessBoards.ExcludeChecks | ProcessBoards.py:123-128 | one absence test per exclude keyword, in order; a single string gives one test, any other field gives none |
| ProcessBoards.ProcessBoards.CheckRules | ProcessBoards.py:114-130 | the result is true iff the name contains every include keyword and no exclude keyword |
| ProcessBoards.PresenceChecksAll | ProcessBoards.py:119-121 | all presence tests hold iff every keyword is a substring of the name |
| ProcessBoards.AbsenceChecksAll | ProcessBoards.py:126-128 | all absence tests hold iff no keyword is a substring of the name |
| ProcessBoards.AllChecksIffRulesPass | ProcessBoards.py:114-130 | `all(board_rules)` over the collected tests is exactly the rule predicate, in both directions |
| ProcessBoards.SingleKeywordIsList | ProcessBoards.py:117-128 | a single-string rule gives the same verdict as the one-element list holding it, for include and for exclude |
| ProcessBoards.EmptyRulesPassVacuously | ProcessBoards.py:117-128 | an empty list and a field that is neither a string nor a list add no tests; with both fields so, every name passes |
| ProcessBoards.AbsentExcludeIrrelevant | ProcessBoards.py:126-130 | adding an exclude keyword that the name does not contain never changes the verdict |
| ProcessBoards.CapitalisedIncludeRejects | ProcessBoards.py:166-167 | an include keyword with an upper-case letter rejects every lowercased board name |
| ProcessBoards.SourceNameCollapsed | ProcessBoards.py:83 | the source name has no leading, trailing or repeated whitespace and keeps every non-space character of the name with "CRM" removed, in order |
| ProcessBoards.SourceNameMayKeepCrm | ProcessBoards.py:83 | one pass of "CRM" removal can leave "CRM" behind: "CRCRMM" gives "CRM" |
| ProcessBoards.ApplyValuesKeys | ProcessBoards.py:87-92 | column values never add or remove keys of a record that already holds every configured column |
| ProcessBoards.ApplyValuesLast | ProcessBoards.py:87-92 | the text of the last column value whose lowercased title is a configured column decides that key |
| ProcessBoards.ApplyValuesUnselected | ProcessBoards.py:87-92 | a key that no column value selects keeps its presence and its value |
| ProcessBoards.ItemRecordKeys | ProcessBoards.py:82-92 | a record's keys are the configured columns plus `source` and `account name` |
| ProcessBoards.ItemRecordDefault | ProcessBoards.py:82-92 | without a selecting column value, `source` is the source name, `account name` the item name, and every other configured column unset |
| ProcessBoards.ItemRecordOverride | ProcessBoards.py:87-92 | otherwise the key holds the text of the last selecting column value |
| ProcessBoards.ApplyValuesKeepsSet | ProcessBoards.py:87-92 | a key that holds a value still holds one after the column values, which only write texts |
| ProcessBoards.ItemSourceSet | ProcessBoards.py:82-92 | every record holds a `source` value |
| ProcessBoards.ProcessBoards.ExtractColumns | ProcessBoards.py:78-96 | one record per item, in item order, each the item's record |
| ProcessBoards.PageDealsAppend | ProcessBoards.py:165-169 | the records of a page are those of its parts, concatenated in board order |
| ProcessBoards.ThroughNextBoard | ProcessBoards.py:165-169 | the records of a page's first i+1 boards are those of the first i, then those of board i |
| ProcessBoards.ProcessBoards.ExtractPage | ProcessBoards.py:165-169 | the records of every board whose lowercased name passes the rules, in board order, and none from the others |
| ProcessBoards.RunDealsSourceSet | ProcessBoards.py:153-173 | every record of a run of pages holds a `source` value |
| ProcessBoards.ProcessBoards.ExtractDeals | ProcessBoards.py:153-173 | the loop stops at the first page that returns no boards. The counter advances by one per non-empty page and ends on that empty page. Each page is fetched with the template for its own number. The results are the concatenation, in page order, of the pages' records |
| ProcessBoards.QuerySubstitutes | ProcessBoards.py:156 | the first `${page_num}` becomes the page number, the text before it is kept, and the rest is substituted in turn |
| ProcessBoards.QueryWithoutPlaceholder | ProcessBoards.py:156 | a template without `${page_num}` is sent unchanged |
| ProcessBoards.QueryInjective | ProcessBoards.py:156 | when the template contains `${page_num}`, different page numbers give different query texts |
| ProcessBoards.ReshapeColumns | ProcessBoards.py:191-198 | the table's columns are the configured ones without `trade price`, then `type`, in that order; there is one row per record; each row has exactly those keys |
| ProcessBoards.ReshapePrice | ProcessBoards.py:194 | a set `price per seat`, even the empty string, is kept; only an unset one takes the row's `trade price` |
| ProcessBoards.ReshapeType | ProcessBoards.py:198-199 | `type` is "Direct" exactly when `source` starts with the case-sensitive "Direct", otherwise "Independent Reseller" |
| ProcessBoards.ReshapeOtherCells | ProcessBoards.py:191 | other configured columns are copied, a missing key becomes unset, and keys outside the columns are dropped |
| ProcessBoards.ConvertedRowKeys | ProcessBoards.py:191-199 | the data frame steps keep exactly the published columns of a row |
| ProcessBoards.ConvertedRowCell | ProcessBoards.py:191-199 | each cell after the data frame steps is the published cell |
| ProcessBoards.ConvertedRowIsReshaped | ProcessBoards.py:191-199 | the five data frame steps, in the source's order, compose to the published row |
| ProcessBoards.ConvertedTable | ProcessBoards.py:191-201 | a table whose header and rows are the converted ones is the published table |
| ProcessBoards.ProcessBoards.ConvertDf | ProcessBoards.py:191-201 | the table that results from re-indexing, filling, dropping and typing the records is the published table |
| Frame.Without | ProcessBoards.py:195 | the dropped column is absent and every other column is kept; a column that is not there changes nothing |
| Frame.WithoutAppend | ProcessBoards.py:191-195 | dropping a column from a concatenation drops it from each part |
| Frame.Reindexed | ProcessBoards.py:191 | a re-indexed row has exactly the requested columns |
| Frame.DataFrame.FromRecords | ProcessBoards.py:191 | the header is the requested columns and row i is record i re-indexed to them |
| Frame.DataFrame.FillNa | ProcessBoards.py:194 | an unset target cell takes its row's fallback cell, and every other cell is unchanged |
| Frame.DataFrame.Drop | ProcessBoards.py:195 | the column leaves the header and every row, and nothing else changes |
| Frame.DataFrame.AssignAll | ProcessBoards.py:198 | every row's cell in the column becomes the value |
| Frame.DataFrame.AssignWhereStartsWith | ProcessBoards.py:199 | exactly the rows whose key cell starts with the prefix get the value in the column |
| Strings.Lower | ProcessBoards.py:88 | same length, and each character is lowercased |
| Strings.ContainsIff | ProcessBoards.py:118 | `sub in s` holds iff `sub` occurs in `s` at some position |
| Strings.UppercaseNeverInLower | ProcessBoards.py:166-167 | a keyword with an upper-case letter is never contained in a lowercased text |
| Strings.ReplaceAbsent | ProcessBoards.py:83 | a text without the pattern is unchanged by `replace` |
| Strings.ReplaceFirst | ProcessBoards.py:83 | `replace` substitutes the leftmost occurrence and goes on after it |
| Strings.Words | ProcessBoards.py:83 | `split()` gives non-empty words without whitespace |
| Strings.WordsKeepContent | ProcessBoards.py:83 | the words, concatenated, are the text's non-space characters, in order |
| Strings.WordsOfJoin | ProcessBoards.py:83 | splitting words joined with single spaces gives the words back |
| Strings.JoinCollapsed | ProcessBoards.py:83 | words joined with single spaces have no outer or repeated whitespace |
| Strings.CollapseSpec | ProcessBoards.py:83 | collapsing whitespace gives a collapsed text with the same non-space characters |
| Strings.CollapseIdempotent | ProcessBoards.py:83 | collapsing whitespace twice is collapsing it once |
| Strings.NatToString | ProcessBoards.py:156 | `str(n)` is a non-empty run of digits without a leading zero |
| Strings.NatToStringRoundTrip | ProcessBoards.py:156 | reading `str(n)` back gives `n` |
| Strings.ReplaceLengthMono | ProcessBoards.py:156 | a longer replacement never gives a shorter `replace` result |
| Strings.ReplaceInjective | ProcessBoards.py:156 | in a text containing the pattern, different replacements give different `replace` results |
| Seqs.FlatMapAppend | ProcessBoards.py:165-169 | concatenated per-element results distribute over concatenation |
| Seqs.FlatMapAll | ProcessBoards.py:165-169 | a property every per-element result's elements have holds of every element of the concatenation |
| Scenario.SourceOfScenarioBoard | ProcessBoards.py:83 | the board "CRM Direct Sellers" has the source "Direct Sellers" |
| Scenario.ScenarioBoardPasses | ProcessBoards.py:166-167 | its lowercased name contains "direct" |
| Scenario.ScenarioRecord | ProcessBoards.py:82-92 | the deal's record has `source` "Direct Sellers", `account name` "Acme Corp", `price per seat` "10" and `trade price` unset |
| Scenario.ScenarioRun | ProcessBoards.py:165-169 | include ["direct"] keeps the deal's record, and include ["Direct"] keeps nothing |
| Scenario.ScenarioTableShape | ProcessBoards.py:191-195 | the published table has the columns `source`, `account name`, `price per seat`, `type` and no `trade price` |
| Scenario.ScenarioRow | ProcessBoards.py:194-199 | the row keeps the source, name and price and is typed "Direct" |
| Scenario.ScenarioEndToEnd | ProcessBoards.py:155-199 | for any board whose source is "Direct Sellers" and whose lowercased name contains "direct", one page holding it gives a one-row table: "Direct Sellers", "Acme Corp", "10", "Direct" |
| Scenario.ScenarioExample | ProcessBoards.py:155-199 | the board "CRM Direct Sellers" gives that one-row table with include ["direct"], and no records with include ["Direct"] |

## Left out

- The transport (QueryMonday.py:37-39, ProcessBoards.py:152, 157-159): the HTTP POST, the API key and the JSON decoding are one abstract function from query text to boards. A response without `data.boards` (an API error) is not modelled.
- monday.py: the command-line entry point and the spreadsheet upload are I/O plumbing and not part of this model.
- File and YAML loading in the constructor (ProcessBoards.py:23-36): the constructor takes the already-parsed columns, rules and template.
- Rule values other than a string or a list of strings: a list holding non-strings would raise in Python. The model has a string, a list of strings, or an unrecognised field.
- Strings.Lower: lowercases only the ASCII letters A-Z, while Python's `str.lower` also maps other Unicode letters. The rule check and the title comparison are exact for ASCII names and titles only.
- ProcessBoards.ProcessBoards.ExtractDeals: it takes a ghost page number `last` whose query returns no boards, and uses it only for termination. A server that never returns an empty page, for which the source loops forever, is outside the model.
- ProcessBoards.ProcessBoards.ExtractPage, IncludeChecks and ExcludeChecks are methods the model adds. They hold the per-page board loop of `extract_deals` and the two halves of `check_rules`, so each loop has its own proof. The order of operations is the source's.
- ProcessBoards.ProcessBoards.ConvertDf: returns the table's header and rows as a value instead of the `DataFrame` object. With a column missing from the configuration, pandas raises a `KeyError`; the method requires `price per seat`, `trade price` and `source` to be configured. The prefix mask raises on an unset source; the method requires every record's source to be set, which every record of `extract_deals` satisfies (`RunDealsSourceSet`).
- pandas internals: NaN versus None and column dtypes are not modelled; an unset cell is `None`. A name configured twice (or `type` itself configured) gives pandas duplicate columns, while the model keeps one cell per name. The behaviour of the `.str` accessor on a table with no rows is not modelled; the model returns an empty table.
- Malformed responses: a board without `name` or `items`, an item without `name` or `column_values`, or a column value without `title` or `text` raises a `KeyError` in the source (ProcessBoards.py:79, 81, 84, 88, 91). A null board name or title raises at `.lower()` or `.replace` (ProcessBoards.py:83, 88, 166). The typed records of `query_monday.dfy` always hold these fields, so these failures are outside the model.
- A board or item text that the API returns as null is modelled as a string; the model has no null text.
