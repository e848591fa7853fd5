# Gold tools and to-do list: a Dafny model

This project models the sequential logic of two small desktop tools.

- **To-do list** (`ToDoList` module, `todo_list.dfy`). An ordered list of `[text, done]`
  tasks, kept as a field of a `TaskStore` class. The model covers:
  - loading a decoded JSON document, keeping it only if it is a list of two-element lists;
  - the first rendering at startup, which ends the program when a loaded text is not a string; the edits below act on the running window's list, whose texts are all strings;
  - adding a whitespace-stripped entry;
  - toggling the completion flag at the selected position;
  - deleting at the selected position;
  - rendering each task as a `"✓ "` or `"□ "` display line.
- **Quote parser** (`SinaQuotes` module, `gold_sina.dfy`).
  - It scans a quote response for `var hq_str_<word>="<payload>"` occurrences.
  - It splits each payload on commas into a quote record, with per-field fallbacks and the derived change, change percent and spread.
  - It collects the records into a symbol-keyed table where a later duplicate overwrites an earlier one. The collection loop is stated for any per-hit parser, and the model applies it to `parse_single`.
  - It selects the price of the table's first entry.
- **Gold ledger** (`GoldLedger` module, `gold_ledger.dfy`). A table of purchase records keyed by uuid, kept in a `Ledger` class. The model covers:
  - form validation and the profit rule;
  - modifying the first row with the selected uuid, or appending a row under a fresh uuid;
  - the summary: grams and buy price over unsold rows, profit over all rows, and the two averages, guarded against zero weight;
  - the value of the holdings at the live price.

`wrappers.dfy` holds the shared `Option` and `Result` types.

Every source of nondeterminism is a parameter:
- the uuid of a new row;
- today's date;
- Python's `float` on a text field, as a function `string -> Option<real>`, where `None` stands for `ValueError`;
- the outcome of the quote call, as a `PriceFeed`;
- the contents of the save files, as an already-decoded value.

Prices and weights are exact `real`s.

## Model

| member | source | states |
|---|---|---|
| ToDoList.Truthy | ToDoList/toDoList.py:56 | Python truthiness of a decoded JSON value, used by `not` and by the `if done` prefix choice at line 80. |
| ToDoList.ShapeOk | ToDoList/toDoList.py:21 | The load-time shape check: a list whose every element is a list of length 2. |
| ToDoList.Validated | ToDoList/toDoList.py:19-22 | A decoded document is kept exactly when it is a list whose every element is a list of length 2, with element types unchecked; otherwise the result is empty. |
| ToDoList.IsSpace | ToDoList/toDoList.py:40 | The code points Python's `str.isspace` accepts, which `str.strip()` removes. |
| ToDoList.LeadingSpaces | ToDoList/toDoList.py:40 | Returns the length of the maximal run of whitespace at the start of the text. |
| ToDoList.TrailingSpaces | ToDoList/toDoList.py:40 | Returns the length of the maximal run of whitespace at the end of the text. |
| ToDoList.Strip | ToDoList/toDoList.py:40 | The result is empty iff the text is all whitespace. Otherwise it is the contiguous slice after the leading whitespace, it neither starts nor ends with whitespace, and only whitespace follows it. |
| ToDoList.StripIdempotent | ToDoList/toDoList.py:40 | Stripping twice equals stripping once. |
| ToDoList.NewTask | ToDoList/toDoList.py:42 | A new task is a string text paired with a false flag. |
| ToDoList.Toggled | ToDoList/toDoList.py:56 | Only task i changes. Its text is kept and its flag becomes the boolean `not` of the old flag. The length and every other task are unchanged. |
| ToDoList.Removed | ToDoList/toDoList.py:68 | Removes exactly the element at i: the length drops by one, earlier tasks stay put and later ones shift down by one. |
| ToDoList.ToggleTwice | ToDoList/toDoList.py:56 | Toggling twice leaves the flag's truth value unchanged, and restores the list exactly when the flag was a JSON boolean. |
| ToDoList.RemovedKeepsOrder | ToDoList/toDoList.py:68 | Deleting keeps the relative order of any two surviving tasks. |
| ToDoList.EditsKeepWellTyped | ToDoList/toDoList.py:42-68 | Adding, toggling and deleting keep a list of `[string, bool]` tasks of that form. |
| ToDoList.DisplayLine | ToDoList/toDoList.py:80-81 | The line is `"✓ "` plus the text for a truthy flag, and `"□ "` plus the text otherwise. |
| ToDoList.TaskStore.constructor | ToDoList/toDoList.py:9 | The store starts empty. |
| ToDoList.TaskStore.Load | ToDoList/toDoList.py:16-24 | A loaded list keeps the two-element shape. A missing file leaves the list as it was, an unreadable file empties it, and a decoded document replaces it by `Validated` of that document. |
| ToDoList.TaskStore.Add | ToDoList/toDoList.py:36-47 | A non-blank entry appends exactly its stripped text with a false flag. A blank entry warns with the empty-input message and leaves the list unchanged. |
| ToDoList.TaskStore.ToggleComplete | ToDoList/toDoList.py:49-60 | A valid selection becomes `Toggled` at that index. No selection, or one out of range, silently leaves the list unchanged. |
| ToDoList.TaskStore.Delete | ToDoList/toDoList.py:62-72 | A valid selection becomes `Removed` at that index. Otherwise the list is unchanged and the no-selection warning is returned. |
| ToDoList.TaskStore.Render | ToDoList/toDoList.py:74-81 | Yields one line per task in list order, each equal to `DisplayLine`. It stops at the first task whose text is not a string, where the concatenation raises, and reports that it stopped; it completes iff every text is a string. |
| ToDoList.TaskStore.Start | ToDoList/toDoList.py:98-148 | Loads the store file, then renders once. The window comes up iff every loaded text is a string, and then the store is in its running state with one display line per task. |
| SinaQuotes.WordRun | gold_tools/gold_sina.py:57 | Returns the length of the maximal run of word characters (`\w`) at the front. |
| SinaQuotes.PayloadRun | gold_tools/gold_sina.py:57 | Returns the length of the maximal run of non-quote characters (`[^"]`) at the front. |
| SinaQuotes.MatchAt | gold_tools/gold_sina.py:57 | A match at the front has a non-empty word-character symbol and a non-empty quote-free payload, and consumes at least one character. |
| SinaQuotes.SourceSlices | gold_tools/gold_sina.py:57 | If the lead, symbol, `="`, payload and closing quote sit at the given positions, the matched prefix is exactly the pattern text of that hit. |
| SinaQuotes.MatchAtSpan | gold_tools/gold_sina.py:57 | A match consumes exactly the pattern text of the hit it reads, and that text is the front of the input. |
| SinaQuotes.MatchAtIntro | gold_tools/gold_sina.py:57 | With the lead, a non-empty word run followed by `="`, and a non-empty payload run followed by a quote, the pattern matches with those two runs as its groups. |
| SinaQuotes.WordRunStops | gold_tools/gold_sina.py:57 | Greedy `\w+` takes exactly a word-character run that ends before a non-word character. |
| SinaQuotes.PayloadRunStops | gold_tools/gold_sina.py:57 | Greedy `[^"]+` takes exactly a quote-free run that ends before a quote. |
| SinaQuotes.SourceLayout | gold_tools/gold_sina.py:57 | Gives the position of the lead, symbol, `="`, payload and closing quote in a hit's pattern text followed by any text. |
| SinaQuotes.RunsOfSource | gold_tools/gold_sina.py:57 | In a well-formed hit's pattern text, both greedy runs stop exactly at the ends of the groups. |
| SinaQuotes.FindAllAfterMatch | gold_tools/gold_sina.py:59 | After a match, the scan resumes right behind it. |
| SinaQuotes.FindAll | gold_tools/gold_sina.py:57-59 | Every hit is well formed: its symbol is word characters only, and its payload is non-empty and quote-free. |
| SinaQuotes.FindAllSound | gold_tools/gold_sina.py:59 | The pattern text of every hit occurs in the scanned text. |
| SinaQuotes.OccursLater | gold_tools/gold_sina.py:59 | A hit found in a suffix of the text also occurs in the whole text. |
| SinaQuotes.MatchAtSource | gold_tools/gold_sina.py:57 | A well-formed hit written out as pattern text is matched back exactly, whatever follows it. |
| SinaQuotes.SkipSeparator | gold_tools/gold_sina.py:59 | The `;` and newline between quote lines yield no hits. |
| SinaQuotes.FindAllFeed | gold_tools/gold_sina.py:57-59 | Scanning a response made of well-formed quote lines yields exactly those hits, in order. |
| SinaQuotes.Split | gold_tools/gold_sina.py:17 | A split yields at least one part, and no part contains the separator. |
| SinaQuotes.JoinSplit | gold_tools/gold_sina.py:17 | Joining the parts of a split with the separator gives back the text. |
| SinaQuotes.SplitPrefix | gold_tools/gold_sina.py:17 | A separator-free prefix is glued onto the first part of the split of the rest. |
| SinaQuotes.SplitJoin | gold_tools/gold_sina.py:17 | Splitting a join of separator-free parts gives back the parts. |
| SinaQuotes.NumberField | gold_tools/gold_sina.py:20-27 | A missing field is an index error. An empty field gives the fallback. Otherwise the result is the field's float, or a conversion error. |
| SinaQuotes.TextField | gold_tools/gold_sina.py:25 | A missing field is an index error. An empty field gives the fallback, and otherwise the result is the field itself. |
| SinaQuotes.ParseSingle | gold_tools/gold_sina.py:15-17 | The record built is filed under the symbol it was given. |
| SinaQuotes.ReadFields | gold_tools/gold_sina.py:20-52 | The record read from the split fields carries the symbol it was given. |
| SinaQuotes.ReadFieldsSucceeds | gold_tools/gold_sina.py:20-27 | Reading the fields succeeds iff there are at least 9 and fields 0, 2, 3, 4, 5, 7 and 8 are empty or numbers. |
| SinaQuotes.ReadFieldsValues | gold_tools/gold_sina.py:20-52 | A record read from the fields satisfies every per-field fallback and derived-value rule listed for `ParseSingleFields`. |
| SinaQuotes.ParseSingleSucceeds | gold_tools/gold_sina.py:15-27 | Parsing succeeds iff there are at least 9 comma-separated fields and fields 0, 2, 3, 4, 5, 7 and 8 are empty or numbers. |
| SinaQuotes.ParseSingleFields | gold_tools/gold_sina.py:15-52 | For a successful parse, an empty price gives 0. Other empty numerics give the price. An empty time gives `"00:00:00"`. The date is field 12 or today's date, and the name is field 13 or the symbol. The symbol is the key, change = price − prev close, change percent × prev close = change × 100 when prev close > 0 (else 0), and spread = ask − bid. |
| SinaQuotes.Store | gold_tools/gold_sina.py:62 | `results[symbol] = q`: an existing key keeps its place and gets the new record, a new key goes last. |
| SinaQuotes.Symbols | gold_tools/gold_sina.py:60 | The symbols of the hits, position by position. |
| SinaQuotes.FirstOccurrences | gold_tools/gold_sina.py:62 | Keeps exactly the same members without duplicates, ordered by the position of each one's first occurrence, so it starts with the first element. It models dict key order. |
| SinaQuotes.ParseHitKeepsSymbol | gold_tools/gold_sina.py:37-38 | `parse_single` applied to a hit files the record under the hit's symbol. |
| SinaQuotes.StoreValid | gold_tools/gold_sina.py:62 | Filing a record under its own symbol keeps the table valid. A new key goes last, and an existing key keeps its place. |
| SinaQuotes.Collect | gold_tools/gold_sina.py:59-62 | The loop as a function of the hits: each hit's parse is filed under its symbol in turn, and the first failing parse is the result. |
| SinaQuotes.CollectTable | gold_tools/gold_sina.py:56-62 | For a parser that keeps symbols, a successful collection is a valid table: distinct keys in first-insertion order, and each record's symbol equal to its key. |
| SinaQuotes.CollectSucceeds | gold_tools/gold_sina.py:59-62 | Collection succeeds iff every hit's payload parses. |
| SinaQuotes.CollectFailureSticks | gold_tools/gold_sina.py:59-62 | Once a parse fails, the loop's result is that failure, whatever follows. |
| SinaQuotes.CollectLastWins | gold_tools/gold_sina.py:62 | For a symbol that occurs more than once, the stored record is the parse of its last occurrence. |
| SinaQuotes.CollectPrefixStep | gold_tools/gold_sina.py:59-62 | One more hit either files its parse into the collection so far or ends it with its error. |
| SinaQuotes.ParseAll | gold_tools/gold_sina.py:54-64 | The loop over the matches returns the collection of all hits, or the first parse error. |
| SinaQuotes.FetchedTable | gold_tools/gold_sina.py:73-79 | The fetched table is valid. It is the parsed table when parsing succeeds, and the empty table when parsing raises. |
| SinaQuotes.FirstPrice | gold_tools/gold_sina.py:88-92 | None iff the table is empty; otherwise the price of the first key. |
| SinaQuotes.GetPrice | gold_tools/gold_sina.py:82-92 | Returns the first price of the fetched table. |
| SinaQuotes.PriceOfFirstSymbol | gold_tools/gold_sina.py:56-92 | The price is None iff there was no match or a parse failed. Otherwise it is the price stored under the first matched symbol. |
| GoldLedger.SpecWeight | gold_tools/gold.py:281-308 | The grams per piece of each of the 14 offered specs, and 0 for any other text. |
| GoldLedger.SpecWeightSign | gold_tools/gold.py:280-308 | Every offered spec has a positive weight, and any other spec weighs 0. |
| GoldLedger.HasRequired | gold_tools/gold.py:166 | Buy date, symbol, buy price and spec are all non-empty. |
| GoldLedger.Submitted | gold_tools/gold.py:158-176 | An empty buy date, symbol, buy price or spec is the missing-field error. Given those fields, an unparsable buy price, or a non-empty unparsable sell price, is the conversion error. With a sell price, profit = sell − buy; without one, the sell price and profit are both 0. |
| GoldLedger.NewRow | gold_tools/gold.py:205-209 | The appended row: the fresh uuid followed by the seven submitted columns. |
| GoldLedger.Overwritten | gold_tools/gold.py:191-197 | A modified row keeps its uuid and carries the submitted seven columns. |
| GoldLedger.FirstMatch | gold_tools/gold.py:187-190 | Returns the first index whose uuid matches, or None iff no row matches. |
| GoldLedger.Unsold | gold_tools/gold.py:279 | A row is held when its sell date is missing or empty. |
| GoldLedger.HeldWeight | gold_tools/gold.py:279-308 | A held row adds its spec's weight to the total grams, a sold one nothing. |
| GoldLedger.HeldCost | gold_tools/gold.py:279-309 | A held row adds its buy price to the total cost, a sold one nothing. |
| GoldLedger.RowProfit | gold_tools/gold.py:311 | Every row, held or sold, adds its profit. |
| GoldLedger.Sum | gold_tools/gold.py:278-311 | The sum of a per-row term over the table. |
| GoldLedger.TotalWeight | gold_tools/gold.py:278-308 | Total grams held: the sum of `HeldWeight`. |
| GoldLedger.TotalBuyPrice | gold_tools/gold.py:278-309 | Total buy price of held rows: the sum of `HeldCost`. |
| GoldLedger.TotalProfit | gold_tools/gold.py:278-311 | Total realised profit: the sum of `RowProfit`. |
| GoldLedger.SumStep | gold_tools/gold.py:278-311 | A sum over one more row adds that row's term. |
| GoldLedger.SumAppend | gold_tools/gold.py:278-311 | A summed column splits over concatenated tables. |
| GoldLedger.SumUpdate | gold_tools/gold.py:278-311 | Overwriting one row changes a sum by the difference of that row's terms. |
| GoldLedger.TotalWeightNonNegative | gold_tools/gold.py:278-308 | The total weight is never negative. |
| GoldLedger.TotalWeightZero | gold_tools/gold.py:278-319 | The total weight is 0 iff no unsold row has an offered spec, which is when both averages fall back to 0. |
| GoldLedger.Averages | gold_tools/gold.py:314-319 | Buy price per gram and buy price less profit per gram, both 0 without weight. |
| GoldLedger.AveragesScale | gold_tools/gold.py:314-319 | With positive weight, average × weight = total buy, and adjusted average × weight = total buy − total profit. Otherwise both are 0. |
| GoldLedger.RealTimeAsWritten | gold_tools/gold.py:325-333 | As written, the refresh fails exactly when the quote call returns None. Otherwise value = weight × price. |
| GoldLedger.NoQuoteBreaksRefresh | gold_tools/gold.py:327-333 | When the response has no match or a parse fails, the refresh as written fails. |
| GoldLedger.EmptyResponseBreaksRefresh | gold_tools/gold.py:327-333 | An empty response makes the refresh as written fail. |
| GoldLedger.LivePrice | gold_tools/gold.py:327-330 | The corrected price is the quote when there is one, and 0.0 when the call raised or returned None. |
| GoldLedger.LivePriceAgrees | gold_tools/gold.py:327-333 | Wherever the refresh as written succeeds, the corrected price and value agree with it. |
| GoldLedger.Ledger.constructor | gold_tools/gold.py:30-39 | Starts from the saved rows, or none without a save file, then computes the summary and the live value (corrected refresh, see ## Findings). |
| GoldLedger.Ledger.UpdateSummary | gold_tools/gold.py:272-319 | The loop leaves the totals equal to the weight and buy-price sums over unsold rows and the profit sum over all rows. The averages are `Averages` of those totals. Rows and price are untouched. |
| GoldLedger.Ledger.UpdateRealTime | gold_tools/gold.py:325-333 | The price becomes the live price, and the value becomes total weight × price. |
| GoldLedger.Ledger.AddOrModify | gold_tools/gold.py:157-229 | A refused form changes nothing. With no selection, one row with the fresh uuid is appended. With a selection, the first row with that uuid has its seven columns overwritten, or the rows are unchanged when none matches. In every accepted case the summary and the value are refreshed (corrected refresh, see ## Findings). |
| GoldLedger.ModifiedTotals | gold_tools/gold.py:191-197 | A modification changes each total by the new row's contribution minus the old row's contribution. |
| GoldLedger.AddedTotals | gold_tools/gold.py:204-209 | An appended row adds its weight and buy price only if its sell date is empty, and always adds its profit. |

## Left out

- Widgets, layout, event binding, message boxes, the always-on-top toggle and the ten-second `root.after` re-arm of the price refresh: these are user-interface and event-loop plumbing. Each timer tick is one `Ledger.UpdateRealTime` call.
- File I/O: `save_tasks`, `save_data`, `export_data` and the reading side of `load_data` and `load_tasks`. Only the decoded result is modelled, as a `StoredFile` value or an optional list of rows.
- The HTTP request, its encoding and its timeout. The response text is a parameter, and the call's outcome reaches the ledger as a `PriceFeed`.
- `uuid.uuid4()` and `datetime.now()` are parameters, because they are nondeterministic.
- Python's `float` parsing, IEEE rounding and the `:.2f` display formatting. Prices are exact reals, and `float` is a parameter function.
- The log line printed by `getPrice` and its up/down arrow: output only.
- Selecting a table row (`on_tree_select`), cancelling a selection, and keeping the tree widget in sync with the table. The selection reaches `Ledger.AddOrModify` as the selected row's uuid.
- SinaQuotes.WordRun: `\w` is modelled as ASCII letters, digits and underscore, whereas Python's `re` also accepts other Unicode letters and digits.
- GoldLedger.Ledger.UpdateSummary: a saved buy price or profit that is not a number makes `float` raise in the source. Saved rows here always hold numbers.
- After a failed startup (`ToDoList.TaskStore.Start` reports that the window does not come up) nothing else runs, so the edits are modelled only on the running state, where every text is a string and the re-render inside each handler cannot raise.
- The shown holdings value is kept as the field `currentValue`; the source only formats it into the label.

## Findings

| source | as written | input that shows it | evidently intended | confidence | as-written member | corrected member |
|---|---|---|---|---|---|---|
| gold_tools/gold.py:327-333 with gold_tools/gold_sina.py:73-92 | The refresh only guards against the quote call raising. But `getPrice` swallows network errors and parse errors into an empty table and then returns `None`, so `total_weight * None` raises `TypeError`. That also aborts the constructor and stops the periodic refresh. | An empty response text, or a response with no `var hq_str_…="…"` match (e.g. a symbol whose payload is empty) | No price is treated like a failed call: the price is 0.0 and the value 0 | not executed | GoldLedger.RealTimeAsWritten, GoldLedger.NoQuoteBreaksRefresh, GoldLedger.EmptyResponseBreaksRefresh | GoldLedger.LivePrice, GoldLedger.LivePriceAgrees, GoldLedger.Ledger.UpdateRealTime, GoldLedger.Ledger.constructor, GoldLedger.Ledger.AddOrModify |
