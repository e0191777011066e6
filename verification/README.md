# MTProto proxy checker — client pipeline in Dafny

This project models the browser side of the MTProto proxy checker
(`public/js/script.js`). The user pastes a list of proxy links. The page
does four things in order:

1. It parses each line with `parseLink`. A line becomes a descriptor
   (`server`, `port`, `secret`, `original`), is dropped silently, or is
   dropped and counted in `skippedCount` because its secret is a placeholder.
2. It stops with "no valid links" when nothing parses.
3. It sends the descriptors to the `/check` endpoint in batches of ten. A
   batch must settle completely before the next one is sent.
4. It folds every settled probe into the run. `completed` goes up by one.
   On success the proxy is appended to `workingProxies`, the list is stably
   re-sorted by ping, and the output text is rendered again. `finish` runs
   when `completed === total`.

Modules, one per concern:

- `Options` (`options.dfy`): the optional value standing in for `null`.
- `Seqs` (`seqs.dfy`): generic slicing and concatenation facts.
- `Strings` (`strings.dfy`): the ECMAScript string operations the script
  uses. These are `trim`, `includes`, `replace` with a string pattern (first
  occurrence only), `split` on `\n`, and `join`.
- `JsNumber` (`js_number.dfy`): `parseInt` without a radix, and the decimal
  text of a non-negative integer.
- `LinkParser` (`link_parser.dfy`): `parseLink`, the skip counter, and the
  map-then-filter over the input lines.
- `Batching` (`batching.dfy`): the `slice(i, i + 10)` partition.
- `Ranking` (`ranking.dfy`): the working list, its stable sort by ping, and
  the rendered text.
- `Run` (`run.dfy`): the run state machine, the batching loop and
  `startCheck`, plus the `updateUI` status line.

The browser's `URL` constructor and `URLSearchParams` are a parameter,
`query: string -> Option<seq<(string, string)>>`. It returns `None` when
`new URL` throws, and otherwise the ordered name/value list. `get` returns
the first value with a given name. A probe's result is an input: the run
receives the settled probes as a list `Settle(index, outcome)`, in the order
the promises settled. `outcome` is `Some(ping)` for `{ok: true, ping}` and
`None` for every failure.

Behaviour of the script that is easy to misread:

- Only the first `.&` is replaced, not every one.
- The port is read with `parseInt`, which accepts a prefix: `443abc` reads as
  443, and `0x1BB` reads as 443 because of the hexadecimal prefix. Port `0`
  and `NaN` are rejected by the `!port` test.
- On empty input the script returns before resetting `skippedCount`.
- On the "no valid links" path, `workingProxies` and the output keep their
  previous values.

## Model

| member | source | states |
|---|---|---|
| Strings.TrimSpec | public/js/script.js:85 | The trimmed line is the slice of the line between its first and last non-whitespace characters; every non-whitespace character lies inside it, and its ends are not whitespace. |
| Strings.TrimIdempotent | public/js/script.js:85 | Trimming an already trimmed line changes nothing. |
| Strings.ContainsSpec | public/js/script.js:86 | `includes` is true exactly when the pattern occurs at some position. |
| Strings.IndexFrom | public/js/script.js:85 | A position the search returns is at or after `from`, and the pattern occurs there. |
| Strings.IndexFromSpec | public/js/script.js:85 | The search skips no occurrence: when the pattern occurs at some `j >= from`, a position at or before `j` is returned. |
| Strings.ReplaceFirstSpec | public/js/script.js:85 | `replace` with a string pattern leaves a text without the pattern unchanged, and otherwise replaces exactly the first occurrence. |
| Strings.ReplaceFirstAfter | public/js/script.js:181-184 | When the pattern's first character does not occur before it, the replacement lands exactly at the placeholder. |
| Strings.ReplaceFirstKeepsOut | public/js/script.js:85 | A character absent from the text and the replacement is absent from the result. |
| Strings.SplitSpec | public/js/script.js:114 | No piece of `split('\n')` contains a line break. |
| Strings.JoinSplit | public/js/script.js:114 | Joining the pieces of `split('\n')` with `\n` gives back the input. |
| Strings.SplitJoin | public/js/script.js:114 | Splitting a `\n`-join of line-break-free parts gives back the parts. |
| JsNumber.ParseInt | public/js/script.js:92 | `parseInt` of a text with no decimal digit is `NaN`, as for a missing parameter read as "null". |
| JsNumber.DecimalStringDigits | public/js/script.js:191 | The decimal text of a ping is a non-empty run of digits with a leading zero only for 0. |
| JsNumber.DecimalStringValue | public/js/script.js:191 | The decimal text of a ping reads back, digit by digit, to the ping. |
| JsNumber.ParseIntOfDecimal | public/js/script.js:92 | `parseInt` reads back the decimal text of `n` followed by any non-digit text, except `0` followed by `x`, which it takes as a hexadecimal prefix. |
| LinkParser.Get | public/js/script.js:91-93 | `get` finds a value exactly when some pair has that name, and the value belongs to a pair with that name. |
| LinkParser.GetFirst | public/js/script.js:91-93 | A found value belongs to the first pair with that name, so with a repeated parameter the earliest value wins. |
| LinkParser.CleanLinkSpec | public/js/script.js:85 | `original` is the trimmed line with only its first `.&` turned into `&`. |
| LinkParser.CleanLinkSingleLine | public/js/script.js:85 | Cleaning a line without a line break cannot introduce one. |
| LinkParser.FieldsExtracted | public/js/script.js:88-97 | Fields that pass the presence and port checks are the `server`, `parseInt(port)` and `secret` the query string carries, non-empty and with the port in 1..65535. |
| LinkParser.ExtractedFields | public/js/script.js:88-97 | Conversely, carried values with a non-empty server and secret and a port in 1..65535 pass those checks as they are. |
| LinkParser.ParseLinkSpec | public/js/script.js:83-105 | A line whose cleaned form lacks `://` is rejected. Every descriptor has a non-empty server and secret, a port in 1..65535, an acceptable secret, `original` equal to the cleaned line, and fields equal to the extracted parameters. |
| LinkParser.ParseLinkValid | public/js/script.js:88-103 | A line yields descriptor `d` if and only if `d.original` is the cleaned line, `d`'s fields are the extracted `server`, `parseInt(port)` and `secret`, and they pass every check. |
| LinkParser.ParseLinkPlaceholder | public/js/script.js:95-101 | A line is rejected as a placeholder if and only if its extracted fields pass the presence and port checks while the secret is longer than 170 or contains twenty `A`s. |
| LinkParser.ParseLinkCounting | public/js/script.js:98-100 | `skippedCount` goes up by exactly one for a placeholder rejection and is unchanged on every other path; the kept list is the descriptor `parseLink` returns when it is not null, and empty otherwise. |
| LinkParser.ParseAll | public/js/script.js:115-116 | After the counter reset, mapping `parseLink` over the lines and dropping nulls yields the accepted descriptors in line order; the counter equals the number of placeholder lines, and the two together never exceed the number of lines. |
| LinkParser.AcceptedAppend | public/js/script.js:116 | Parsing a concatenation of line lists gives the concatenation of their parses: every line is judged on its own and order is kept. |
| LinkParser.PlaceholderCountAppend | public/js/script.js:99 | The skip count of a concatenation is the sum of the counts. |
| LinkParser.AcceptedFromLines | public/js/script.js:116 | Every accepted descriptor is the parse of one of the input lines. |
| LinkParser.AcceptedWellFormed | public/js/script.js:94-104 | Every descriptor that leaves the parser has a non-empty server and secret, a port in 1..65535 and an acceptable secret. |
| LinkParser.AcceptedSingleLine | public/js/script.js:114-116 | Descriptors parsed from the lines of the input have links without line breaks. |
| Batching.Batches | public/js/script.js:166-168 | The batches number ceil(n/10); batch `k` is the slice from `10k` to `min(10k+10, n)`, non-empty and at most ten long. |
| Batching.ConcatBatches | public/js/script.js:167-168 | The first `k` batches laid end to end are the first `min(10k, n)` valid descriptors. |
| Batching.ConcatAllBatches | public/js/script.js:166-170 | All batches laid end to end give back the valid list, in order. |
| Ranking.InsertMultiset | public/js/script.js:189 | Inserting adds exactly the new entry: the result has the old entries plus the new one as a multiset. |
| Ranking.InsertSorted | public/js/script.js:189 | Inserting into a sorted list keeps it sorted. |
| Ranking.InsertStable | public/js/script.js:189 | Inserting into a sorted list keeps every equal-ping group in insertion order, with the new entry last in its group. |
| Ranking.SortByPingSpec | public/js/script.js:189 | The sort's result is sorted by ping and a permutation of its input. |
| Ranking.SortStable | public/js/script.js:189 | The sort keeps entries with equal ping in their original order. |
| Ranking.SortSorted | public/js/script.js:189 | A list already sorted by ping is left unchanged by the sort. |
| Ranking.StableSortUnique | public/js/script.js:189 | Two sorted lists with the same equal-ping groups are equal, so sorted plus group order fully determines the sort's result. |
| Ranking.AddWorkingSpec | public/js/script.js:153-154 | After the append and re-sort, the list is sorted by ping, is the old list plus the new entry as a multiset, and keeps equal pings in insertion order. |
| Ranking.AddWorkingIncremental | public/js/script.js:153-154 | Re-sorting after every append gives the same list as one stable sort of all successes in completion order. |
| Ranking.AddWorkingInserts | public/js/script.js:153-154 | On a sorted list, the append and re-sort is an insertion after every entry with an equal or smaller ping. |
| Ranking.Render | public/js/script.js:190-192 | The output is empty for an empty list and the single entry text for a single entry. |
| Ranking.RenderLines | public/js/script.js:190-192 | When links have no line breaks, the output read line by line has entry `k` as `link # Ping: Nms` on line `2k` and a blank line between entries. |
| Ranking.EntryPingReadBack | public/js/script.js:191 | The ping can be read back from an entry's text with `parseInt`. |
| Run.StartState | public/js/script.js:126-134 | A run starts consistent, with nothing completed and an empty working list. |
| Run.Complete | public/js/script.js:152-163 | Each settled probe, success or failure, raises `completed` by exactly one. A failure leaves the list and the output alone; a success makes the list one longer. `finish` fires exactly when `completed` reaches `total`. |
| Run.CompleteAdds | public/js/script.js:153-154 | A success adds exactly its entry to the working list, which stays sorted by ping and rendered in the output. |
| Run.CompletePreserves | public/js/script.js:159-162 | While a probe is outstanding, a settle keeps `working <= completed <= total`, the list sorted and rendered, and `finish` called once exactly at the last probe. |
| Run.CompleteTracksSuccesses | public/js/script.js:152-154 | After each settle the working list is the stable sort of the successes so far, in completion order. |
| Run.AfterStart | public/js/script.js:126-134 | The freshly started run is the state determined by zero settles. |
| Run.AfterConsistent | public/js/script.js:133-163 | The state determined by any number of settles has `working <= completed <= total`, the list sorted and rendered, the button disabled while probes are outstanding, and `finish` fired once exactly when all have settled. |
| Run.AfterStep | public/js/script.js:152-163 | Folding the settle at position `t` into the state determined by the first `t` settles gives the state determined by the first `t + 1`. |
| Run.AfterAll | public/js/script.js:159-162 | Once every probe has settled, `completed == total`, `finish` has fired exactly once, the button is enabled, and the working list is the ranked successes. |
| Run.SettleBatch | public/js/script.js:169 | Settling the probes of one batch, in the order they settled, takes the state determined by the settles before the batch to the state determined by those up to its end. |
| Run.SettledDuringBatch | public/js/script.js:166-170 | In a browser schedule, while batch `k` is awaited every probe of the earlier batches has settled and no probe beyond batch `k` has, so only the batch's own probes, at most ten, are in flight. |
| Run.DispatchBatch | public/js/script.js:167-169 | One loop iteration dispatches the next slice and awaits it. While it is awaited the settled probes are all earlier ones plus some of this slice. When it returns, the settled probes are exactly the dispatched ones, and the run is the state determined by the settles up to the slice's end. |
| Run.RunBatches | public/js/script.js:133-170 | The loop starts from `completed = 0` and `total = validLinks.length`. It dispatches every valid descriptor once, in order, and the run ends in the state determined by all the settles. |
| Run.SuccessesSingleLine | public/js/script.js:153 | Working entries carry the links of dispatched descriptors, so they are single lines when those are. |
| Run.FinishedOutputLines | public/js/script.js:188-193 | After a run, the output read line by line lists the working proxies in ranked order, one per line, separated by blank lines. |
| Run.FinishNotice | public/js/script.js:203-207 | `finish` reports "none working" exactly when the working list is empty, and otherwise reports its length. |
| Run.StartCheck | public/js/script.js:107-122 | Empty input changes nothing. Otherwise the skip counter is recomputed from this input alone. With no valid line, nothing is dispatched and the working list and output are untouched. Otherwise every valid descriptor is dispatched, and the run ends idle with the ranked successes and their rendering. |
| Run.FillPlaceholders | public/js/script.js:181-184 | Replacing `{c}`, `{t}` and `{w}` in turn, when no `{` comes before the placeholder being replaced, puts each value in its placeholder's place. |
| Run.StatusLineFills | public/js/script.js:181-184 | A status template whose text around `{c}`, `{t}` and `{w}` holds no `{` gets exactly the three counters substituted. |
| Run.EnglishStatusLine | public/js/script.js:32 | The English status line reads `Status: c / t \| Working: w`. |

## Left out

- `app.js` is not part of this model. It holds the `/check` endpoint, the Telegram client handshake, the 8000 ms server-side race, and Express routing. A probe's outcome is an input to the run.
- The client's 10 s `AbortController` timeout and the HTTP round trip are left out. They are network and timer behaviour; every failure settles as `None`.
- Concurrency inside a batch is not modelled as such. `Promise.all` is replaced by settling the batch's probes one at a time, in any order the caller supplies. The caller's order must be a browser schedule (`Run.BrowserSchedule`): every probe settles exactly once, and each settle falls in its own batch. JavaScript runs each settle's handler to completion, so the steps do not interleave.
- The progress-bar percentage (lines 179-180) is left out because it is floating point.
- The DOM, translations, toasts, clipboard, `log`, `window.onerror`, `localStorage` and the button label are left out. The button's disabled state is the `running` flag; `finish`'s toast is `FinishNotice`.
- The `catch` around `startCheck` (lines 171-175) is left out. Only DOM calls can throw there.
- `URL` and `URLSearchParams` parsing (percent-decoding, `+` as space, scheme rules) is not modelled. It is the `query` parameter.
- JsNumber.ParseInt: the model does not distinguish `-0` from `0`, and does not round digit strings beyond 2^53 or overflow them to `Infinity`. None of this changes the accept/reject outcome for the 1..65535 check.
- Strings are sequences of Unicode scalar values, not UTF-16 code units. `secret.length > 170` counts a character outside the Basic Multilingual Plane once, where JavaScript counts it twice.
- Strings.ReplaceFirstSpec: `$` replacement patterns of `String.prototype.replace` are not modelled. None of the script's replacements (`&` and decimal numbers) contains `$`.
