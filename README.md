# Production-line dashboard: ingestion client and report shaping

The system collects Pass/Fail results from production machines and shows
them on a dashboard. Two programs do the work:

- `tcpclient.py` connects to a TCP server that streams free-form log lines.
  It cuts the stream into lines and parses each line into an optional device
  (`M1`, `S2`, `SN123`, ...) and an optional verdict. It remembers the last
  device it saw on the connection. For each verdict it stores a row in the
  `ProductionStatus` table and answers `ACK`. After any error it reconnects
  after a delay.
- `backend.py` is the dashboard's HTTP API. After each SQL query it turns
  the rows into fixed-shape series: 24 hourly buckets for a day, one entry
  per date for a calendar week of a month, one bucket per week of a month,
  twelve monthly buckets for a year, and a per-device summary for a day.

The model is split into modules:

- `Text` holds the Python string operations the parser uses.
- `LineParser` is `parse_line`. The function `Parse` is its specification.
  The method `ParseLine` follows the source's loops and is proved equal to
  `Parse`.
- `ParserProperties` and `ParserExamples` state what the parser promises,
  including the example lines of its documentation.
- `Framing` is the carry-over buffer and `str.splitlines`.
- `Session` is the per-connection state. It is a class `Connection` with
  the fields `buffer` and `currentDevice`, and its methods are proved
  against the functions `RouteLines` and `Run`. It also models the
  reconnect loop, over a finite list of connection attempts.
- `SessionProperties` and `SessionExamples` hold the session invariants and
  worked sessions.
- `Calendar` holds the month lengths, zero padding and ISO dates.
- `Reports` holds the device filter, the status guard and the four chart
  endpoints.
- `DailyLogs` holds the per-device daily summary.

Database inserts and socket writes are recorded as actions (`Update`,
`Insert`, `Ack`, `Skip`). Query results are inputs: sequences of rows, with
`None` where the database returns NULL.

Where the code and its documentation disagree, the model follows the code:

- `SN:123 Fail` gives device `123`, not `SN123`. The colon header heuristic
  removes the `SN:` prefix (`ParserExamples.SerialHeaderLine`).
- An `ACK` follows every insert attempt, not only successful ones.
  `insert_data` catches its own errors and returns nothing.
- A `):` that appears only inside a leading bracket group makes
  `split('):', 1)[1]` raise `IndexError`. The error ends the connection,
  and the buffer and the device are lost.
- `splitlines` also breaks on `\v`, `\f`, `\x1c`-`\x1e`, `\x85`, U+2028 and
  U+2029, but the end-of-buffer test only looks at `\n` and `\r`. When the
  last character received is one of these other breaks, the line it ends
  is pushed back into the buffer and merges with the next line
  (`Framing.VerticalTabMerges`). Such a break in the middle of the buffer
  separates lines as usual.
- The comments at tcpclient.py:58 and 61 speak of the *last* `):` or `:`,
  but `split('):', 1)` cuts at the first `):`, so `a): b): c` keeps
  `b): c` (`ParserProperties.CloseColonDropped`,
  `ParserExamples.FirstCloseColonWins`).

## Model

| member | source | states |
|---|---|---|
| LineParser.ParseLine | tcpclient.py:46-119 | The step-by-step parser returns exactly `Parse(line)`: the `(device, status)` pair, or the IndexError of the header split. |
| LineParser.StripBracketGroups | tcpclient.py:53-57 | The bracket loop leaves `StripBrackets(s)`: every leading complete `[...]` group and the whitespace after it are gone. |
| LineParser.BracketsGone | tcpclient.py:53-57 | What the bracket loop leaves never starts with a complete bracket group. |
| LineParser.BracketPrefixEnd | tcpclient.py:53-57 | The removed prefix ends in `]` or whitespace, never inside a `):`. |
| LineParser.DropBracketGroup | tcpclient.py:54-57 | One loop turn removes one group plus the whitespace after it, and stripping the rest gives the same result. |
| LineParser.ScanStatus | tcpclient.py:80-85 | The status scan returns the verdict of the first token equal to PASS or FAIL in any letter case, or None. |
| LineParser.ScanMachineCode | tcpclient.py:90-94 | The scan returns the first `[SM]\d+` token, upper-cased, or None. |
| LineParser.ScanSerial | tcpclient.py:96-106 | The scan returns the first SN token with `:` and `-` removed, upper-cased, or None. |
| LineParser.PlainLine | tcpclient.py:46-74 | A line with no surrounding whitespace, no leading `[` and no colon goes straight to tokenising. |
| LineParser.DropPunctuation | tcpclient.py:105 | The result is no longer than the input, holds no `:`, `-` or space, and every character comes from the input. |
| LineParser.FirstIndex | tcpclient.py:81-85 | The index found is the first token satisfying the test, or the length when no token does. |
| Text.Tokens | tcpclient.py:72 | Every token is a non-empty run of non-separator characters. |
| Text.TokensOfWord | tcpclient.py:72 | A single word is one token. |
| Text.TokensOfWordThen | tcpclient.py:72 | A word followed by a separator adds exactly itself as the next token. |
| Text.TokensSkipSeparator | tcpclient.py:72 | A leading separator adds no token. |
| Text.NoTokensInSeparators | tcpclient.py:72-74 | Text made only of separators gives no tokens. |
| Text.TwoTokens | tcpclient.py:72 | Two words with one separator between them give exactly those two tokens. |
| Text.StripTrimmed | tcpclient.py:49 | `strip()` leaves text that starts and ends with a non-space unchanged. |
| Text.StripLeadingSpace | tcpclient.py:64 | Stripping one leading space in front of trimmed text removes just that space. |
| Text.StripKeepsPair | tcpclient.py:49-64 | A `):` in a line is still in the stripped line. |
| Text.LeadingSpaces | tcpclient.py:49 | The length of the longest all-whitespace prefix. |
| Text.IndexOf | tcpclient.py:59-67 | The index is that of the first occurrence, or the length when there is none. |
| Text.IndexOfPair | tcpclient.py:63-64 | The index is where the first `):` starts, or the length when there is none. |
| ParserProperties.NoContent | tcpclient.py:46-74 | An empty line, or one made only of whitespace and `,;\|` and so yielding no tokens, parses to `(None, None)`. |
| ParserProperties.StatusFromFirstVerdict | tcpclient.py:80-85 | The status is Pass or Fail by the first PASS/FAIL token in any case, whatever tokens follow. |
| ParserProperties.NoVerdictNoStatus | tcpclient.py:80-85 | Without a PASS/FAIL token the status is None. |
| ParserProperties.MachineCodeWins | tcpclient.py:90-94 | The first `[SM]\d+` token, upper-cased, is the device, ahead of any SN token or fallback. |
| ParserProperties.SerialWinsNext | tcpclient.py:96-106 | Without a machine code, the first SN token decides the device, normalised. |
| ParserProperties.SerialDeviceShape | tcpclient.py:99-105 | A serial device is `SN` followed by capitals and digits only. |
| ParserProperties.FirstTokenLast | tcpclient.py:107-117 | Without a code or serial, a bare leading `SN` gives `SN`. Otherwise the first token is the device unless it is a verdict or an all-capitals word. |
| ParserProperties.FallbackGuard | tcpclient.py:112-117 | Once the earlier matchers fail, the fallback fires exactly when the first token is neither a verdict nor an all-capitals word. |
| ParserProperties.CapitalsStartingWithSN | tcpclient.py:116 | An all-capitals word starting with SN is the bare SN or a serial token. |
| ParserProperties.DeviceIsWord | tcpclient.py:88-119 | Every device found is one non-empty token with no separator inside. |
| ParserProperties.UpperCharShape | tcpclient.py:77 | Upper-casing maps letters to capitals, leaves other characters alone and keeps separators. |
| ParserProperties.OneBracketGroup | tcpclient.py:53-57 | `[inner] rest` loses exactly its bracket group and the space after it. |
| ParserProperties.HeaderDropped | tcpclient.py:59-69 | With no `):` in the line, a header of at most 80 characters is dropped through its colon when a letter follows. |
| ParserProperties.HeaderKept | tcpclient.py:66-69 | Without a letter after the colon the text is kept whole. |
| ParserProperties.CloseColonDropped | tcpclient.py:59-64 | When the raw line holds a `):` and the text is a colon-free header `h` followed by `):`, with that colon at index 80 or less (`h` may itself hold `)`), everything through that first `):` is dropped and the rest is stripped. |
| ParserProperties.HeaderSplitFails | tcpclient.py:63-64 | When the text has a header colon within its first 81 characters, a `):` in the raw line but none in the text raises the IndexError. The text may still hold a `)`. |
| ParserProperties.FailureNeedsBracket | tcpclient.py:53-64 | A parse error is only possible when a bracket group was removed. |
| ParserProperties.PlainWord | tcpclient.py:49-74 | A lone word with no colon and no leading `[` is parsed as that one token. |
| ParserProperties.PlainTwoWords | tcpclient.py:49-74 | Two such words separated by a space are parsed as those two tokens. |
| ParserProperties.HeaderTwoWords | tcpclient.py:59-74 | `h:w1 w2` with a letter in `w2` is parsed as the tokens `w1`, `w2`. |
| ParserProperties.HeaderKeptWord | tcpclient.py:59-74 | `h:b` with no letter in `b` stays one token, colon included. |
| ParserProperties.TimestampRemoved | tcpclient.py:49-57 | `[stamp] rest` is reduced to `rest`. |
| ParserProperties.TimestampPayload | tcpclient.py:49-69 | In `[stamp] h: w1 w2` both the bracket group and the header go, leaving `w1 w2`. |
| ParserProperties.BracketHeaderTwoWords | tcpclient.py:49-119 | `[stamp] h: w1 w2` is parsed as the tokens `w1`, `w2`. |
| ParserProperties.CloseColonInBracketFails | tcpclient.py:63-64 | A `):` inside the leading bracket group, with none in the text after the group, makes the parse fail with the IndexError when that text has a colon within its first 81 characters. |
| ParserExamples.CodeAndVerdict | tcpclient.py:33-119 | `M1 Pass` gives `(M1, Pass)`. |
| ParserExamples.SerialWithDashes | tcpclient.py:96-106 | `SN-AB-1` gives device `SNAB1` and no status. |
| ParserExamples.CapitalsAreNotDevices | tcpclient.py:112-117 | `INFO Pass` gives no device and Pass. |
| ParserExamples.MixedCaseIsDevice | tcpclient.py:112-117 | `Info Pass` gives device `Info` and Pass. |
| ParserExamples.SerialHeaderLine | tcpclient.py:59-69 | `SN:123 Fail` gives `(123, Fail)`: the header heuristic eats `SN:`. |
| ParserExamples.SerialOnlyLine | tcpclient.py:96-106 | `SN:123` alone gives `(SN123, None)`. |
| ParserExamples.TimestampLine | tcpclient.py:53-69 | `[2025-09-10 10:00] Info: M1 Pass` gives `(M1, Pass)`. |
| ParserExamples.CloseColonInsideBrackets | tcpclient.py:63-64 | `[12:00): x] M1: Pass` raises the IndexError. |
| ParserExamples.FirstCloseColonWins | tcpclient.py:63-64 | `a): b): c` is cut at its first `):`, leaving `b): c`. |
| Framing.SplitLines | tcpclient.py:149 | `splitlines` yields lines with no break inside, and yields none exactly for empty text. |
| Framing.Frame | tcpclient.py:148-154 | The lines handed on and the retained buffer never contain a line break. |
| Framing.FrameReconstructs | tcpclient.py:148-154 | For text whose only break is `\n`, the old buffer plus the chunk equals each emitted line plus `\n`, then the new buffer. |
| Framing.ChunkSplitInvariant | tcpclient.py:148-154 | When `buffer + t1` has no line break other than `\n`, framing `t1` and then `t2` emits the same lines and keeps the same buffer as framing `t1 + t2`. |
| Framing.JoinSplit | tcpclient.py:149 | For `\n`-only text, joining the split lines gives the text back. |
| Framing.SplitAfterLines | tcpclient.py:149 | Complete lines in front of any text are split off unchanged. |
| Framing.FrameAfterLines | tcpclient.py:148-154 | Framing text that starts with complete lines emits those lines, then frames the rest alone. |
| Framing.PartialLineHeld | tcpclient.py:151-152 | An unterminated piece is held back whole and nothing is emitted. |
| Framing.SplitOneLine | tcpclient.py:149 | One line followed by one break is that one line. |
| Framing.CrLfAcrossChunks | tcpclient.py:149-154 | A `\r\n` cut between chunks adds an empty line, which the same `\r\n` in one chunk does not. |
| Framing.VerticalTabMerges | tcpclient.py:149-154 | When the buffer ends in `\v`, the line it ends is pushed back into the buffer and merges with the next chunk's first line. |
| Session.Connection.constructor | tcpclient.py:135-136 | A new connection has an empty buffer and no device. |
| Session.Connection.OnChunk | tcpclient.py:146-188 | One chunk updates the buffer and device and returns the actions exactly as `Receive` says: framing, then routing. |
| Session.Connection.OnChunks | tcpclient.py:138-188 | The read loop over the received chunks matches `Run`, stopping at a parse error, and leaves the buffer and device `RunState` gives. |
| Session.Connection.TakeLines | tcpclient.py:148-154 | The framing step sets the buffer as `Frame` says and leaves the device alone. |
| Session.Connection.RouteAll | tcpclient.py:156-188 | The line loop matches `RouteLines` and leaves the buffer alone. |
| Session.Connection.HandleLine | tcpclient.py:157-188 | A line fails exactly when its parse fails, and then nothing changes. Otherwise the device and actions are those of `RouteLine`. |
| Session.Connection.RouteParsed | tcpclient.py:163-188 | The device update and actions are those of the routing rule `Route`. |
| Session.RunClient | tcpclient.py:126-197 | Over a finite list of attempts, the actions and sleeps are those of `Client`. |
| Session.Connect | tcpclient.py:128-197 | One attempt on a new connection gives the actions and sleep of `Attempted`. |
| Session.RouteLinesAt | tcpclient.py:156-188 | The line loop from index `i` is line `i` followed by the rest from where it left off, or stops at a failure. |
| Session.RunAt | tcpclient.py:138-188 | The chunk loop from index `j` is chunk `j` followed by the rest, or stops at a failure. |
| Session.ClientAt | tcpclient.py:126-197 | The reconnect loop from attempt `k` is attempt `k` followed by the rest. |
| SessionProperties.RouteDevice | tcpclient.py:163-177 | After a line the session device is the line's device if it has one, else the old device. |
| SessionProperties.RouteInserts | tcpclient.py:170-185 | A line inserts exactly when it has a verdict and a device, inline or remembered. It inserts at most once, names the session device and the verdict, and is followed by one ACK. |
| SessionProperties.VerdictWithoutDevice | tcpclient.py:175-177 | A verdict-only line with no remembered device is skipped, with no insert, no ACK and no state change. |
| SessionProperties.NothingToDo | tcpclient.py:186-188 | A line with neither device nor verdict changes nothing. |
| SessionProperties.BlankLineSkipped | tcpclient.py:157-159 | A blank line is skipped before parsing, with no actions and no change. |
| SessionProperties.RouteLineShape | tcpclient.py:156-188 | One line keeps the device set once it is set, pairs each insert with an ACK, names devices and inserts at most once. |
| SessionProperties.RouteLinesShape | tcpclient.py:156-188 | Over a chunk's lines the device, once set, is never reset to None. Every insert has exactly one ACK after it, and inserts never outnumber lines. |
| SessionProperties.RouteLinesAppend | tcpclient.py:156-188 | Routing two lists of lines is routing the first, then the second from the resulting device. |
| SessionProperties.RunOne | tcpclient.py:138-188 | A single chunk runs exactly as received. |
| SessionProperties.ReceiveSplit | tcpclient.py:146-188 | For `\n`-only text, splitting a chunk in two leaves the same buffer and device. |
| SessionProperties.ReceiveCompose | tcpclient.py:146-188 | When `buffer + t1` is `\n`-only, receiving `t1 + t2` at once gives the outcome of receiving `t1` then `t2`, and the same carried state unless `t1` raised. |
| SessionProperties.MergeFirstChunks | tcpclient.py:138-188 | Under the same condition, merging the first two chunks of a connection leaves its outcome unchanged. |
| SessionProperties.ChunkingIrrelevant | tcpclient.py:138-188 | For any cut of a stream into chunks `cs` where the carried buffer and every chunk but the last are `\n`-only, the connection's outcome (actions, device, stop on a parse error) equals that of receiving `Concat(cs)` as one chunk. |
| SessionProperties.RunShape | tcpclient.py:135-188 | Over all chunks of a connection the device stays set once set, inserts and ACKs are paired, and devices are named. |
| SessionProperties.RunStateDevice | tcpclient.py:136-174 | The device the connection is left with is the device its outcome reports. |
| SessionProperties.ClientShape | tcpclient.py:126-197 | Over any run of the reconnect loop, inserts and ACKs are paired and named. Each attempt sleeps at most once, for exactly `retry_delay`. |
| SessionProperties.ClientAppend | tcpclient.py:126-197 | Nothing carries over between connections: two lists of attempts run as each runs alone. |
| SessionProperties.AcksAfterInsertsAppend | tcpclient.py:179-185 | Joining two well-paired action lists keeps them well paired. |
| SessionProperties.InsertsAppend | tcpclient.py:179 | Insert counts add up over concatenation. |
| SessionExamples.DeviceOnlyWord | tcpclient.py:90-94 | `M1`, `M2` or `M3` alone names the device and carries no verdict. |
| SessionExamples.VerdictOnlyLine | tcpclient.py:80-85 | `Pass` or `Fail` alone carries the verdict and no device. |
| SessionExamples.VerdictRouted | tcpclient.py:170-185 | A verdict-only line is skipped without a device, and inserted with an ACK for the session device otherwise. |
| SessionExamples.VerdictNeedsDevice | tcpclient.py:170-185 | `Fail` is skipped with no device, and inserted for `M1` with an ACK when the session device is `M1`. |
| SessionExamples.DeviceThenVerdict | tcpclient.py:163-185 | `M3` then `Pass` gives an update, then an insert for M3 and an ACK. |
| SessionExamples.InlineDeviceSticks | tcpclient.py:171-185 | `M3 Fail` then `Pass` inserts both for M3: the inline device is remembered. |
| SessionExamples.OneLineConnection | tcpclient.py:135-188 | A connection that receives one line and is then closed by the peer does that line's actions and does not sleep. |
| SessionExamples.TwoAttempts | tcpclient.py:126-197 | Two attempts are the first followed by the second. |
| SessionExamples.ReconnectForgetsDevice | tcpclient.py:135-136 | A device set on one connection is forgotten on the next, so a later verdict-only line is skipped. |
| Calendar.DaysInMonth | backend.py:271 | A month has 28 to 31 days. |
| Calendar.YearLength | backend.py:271 | The month lengths add up to 365 days, or 366 in a leap year. |
| Calendar.Digits | backend.py:340 | `str(n)` is non-empty, all digits, with no leading zero. |
| Calendar.ZeroPad | backend.py:343 | Zero padding gives digits only, of the requested width or the number's own width if that is longer. |
| Calendar.ValueOfDigits | backend.py:340 | Reading back `str(n)` gives `n`. |
| Calendar.ValueOfZeroPad | backend.py:343 | Zero padding keeps the value. |
| Calendar.FixedWidth | backend.py:343 | A number below `10^w` pads to exactly `w` characters. |
| Calendar.IsoDateRoundTrip | backend.py:289 | The ISO string of a valid date is ten characters, `YYYY-MM-DD`, and reads back as that date. |
| Calendar.IsoDateInjective | backend.py:296 | Different dates have different ISO strings. |
| Reports.DeviceFilterShape | backend.py:142-145 | A missing or empty device gives `("", [])`. Otherwise the clause has exactly one placeholder and the one parameter is the device. |
| Reports.CheckStatusAccepts | backend.py:199-201 | A status is accepted exactly when it is 0 or 1, and is passed on unchanged. Otherwise it is an HTTP 400 with the code's message. |
| Reports.Latest | backend.py:292 | The row kept for a key is a row with that key. No row is kept only when no row has the key. |
| Reports.LatestFound | backend.py:368 | When several rows share a key, the last one wins. |
| Reports.LatestSnoc | backend.py:404 | A new row replaces only its own key. |
| Reports.DataDay | backend.py:255-262 | Hours are 0..23 and both series have 24 entries. Hour `h` holds the counts of the last row for `h` (NULL counts read as 0), or zeros. |
| Reports.HourAbsent | backend.py:255-261 | An hour no row names stays 0. |
| Reports.HourFound | backend.py:257-261 | The last row for an hour decides it, and a NULL hour counts as hour 0. |
| Reports.WeekRangeValid | backend.py:271-304 | A week's range exists exactly when the year is in 1..9999, the month in 1..12 and the week in 1..`(days+6)//7`, and then spans one to seven days, all in the month. The week is answered in all those cases except week 5 of December 9999, where the day loop's `timedelta` step past 9999-12-31 raises. |
| Reports.LastWeekOf9999 | backend.py:293-304 | Week 5 of December 9999 has the range 29..31, but answering it raises the date overflow. |
| Reports.DataWeek | backend.py:271-305 | An invalid month or week gives the error, and a week ending on 9999-12-31 gives the overflow that its day loop raises. Otherwise the range is `start to end` in ISO form, labels are the consecutive dates, and each date has its counts or zeros. |
| Reports.WeekLabelsDistinct | backend.py:295-304 | The labels of a week are distinct. |
| Reports.WeekBuckets | backend.py:331-338 | A week bucket exists exactly when some row falls in it, and holds the sums of that week's rows (NULL or 0 day read as day 1). |
| Reports.WeekTotalAbsent | backend.py:339-342 | A week with no rows sums to zero. |
| Reports.DataMonth | backend.py:315-343 | An illegal month gives the error. Otherwise there is one `Tuần w` label per calendar week, each with its week's sums, and the month text is `YYYY-MM`. |
| Reports.DayInSomeWeek | backend.py:334-339 | Every day of the month falls in a week from 1 to `max_week`. |
| Reports.WeekOfMatchesWeekRange | backend.py:272-273 | The week `data_month` files a day under is the week `data_week` lists it in. |
| Reports.MonthTotalsPreserved | backend.py:331-342 | When every day lies in the month, the week sums add up to the sums of all rows. |
| Reports.WeeksTotalSnoc | backend.py:332-338 | A new row adds its counts to its own week only. |
| Reports.DataYear | backend.py:368-372 | A NULL month raises. Otherwise there are 12 labels and two 12-entry series. |
| Reports.YearEntry | backend.py:368-371 | Month `m` holds the counts of the last row for month `m`. |
| Reports.YearEntryAbsent | backend.py:370-371 | A month no row names holds zeros. |
| DailyLogs.SortDevices | backend.py:415 | `sorted(set)` gives the set's elements in strictly increasing code-point order. |
| DailyLogs.SortedUnique | backend.py:415 | Two strictly sorted lists of the same ids are equal, so the order is the only one. |
| DailyLogs.LexIrreflexive | backend.py:415 | No id sorts before itself. |
| DailyLogs.LexTransitive | backend.py:415 | String order is transitive. |
| DailyLogs.LexTotal | backend.py:415 | Two different ids are ordered one way or the other. |
| DailyLogs.LeastExists | backend.py:415 | A non-empty set of ids has a least element. |
| DailyLogs.LogsDay | backend.py:410-427 | Rows are sorted by id with no repeats, one per device in the union of registered devices, stats and metrics (or only the filtered device). Each row has its counts or zeros, `total == pass + fail`, and its metric or `""`. |
| DailyLogs.FilteredIsSingle | backend.py:411-412 | With a device filter exactly one row comes back, for that device. |
| DailyLogs.RegisteredDevicesListed | backend.py:410 | Without a filter every registered device has a row. |
| DailyLogs.NoStatsZero | backend.py:416-418 | A device with no stats shows zero passes and fails. |

## Left out

- Sockets are not modelled: connecting, timeouts, `recv`, `sendall` and closing (tcpclient.py:129-144). A connection attempt is an input: refused, or some received chunks and then either a peer close or a read error. A failed `sendall` is caught at tcpclient.py:184 and does not end the connection. The model records the `Ack` attempt either way.
- The reconnect loop never ends. The model runs it over a finite list of attempts. `time.sleep` is recorded as a delay in the trace.
- No database work is modelled: `connect_db`, `insert_data`, `get_conn` and every SQL query, including its grouping and date conversion. An insert is a recorded `Insert` action. Query results are input rows.
- UTF-8 decoding of each received chunk (tcpclient.py:146) is left out. Chunks arrive as decoded text, so bytes dropped by `errors="ignore"` are not modelled.
- Regular expressions are written as predicates. `\d` and case-insensitive matching are ASCII only. `str.upper` maps ASCII letters only.
- All `print` logging and wall-clock timestamps are left out.
- The HTTP framework is left out: routing, CORS, static files, pydantic models and server startup. The `fromisoformat` check of `date_str` in `data_day` and `logs_day` is left out too. The echoed `date` field of `data_day` and the echoed `year` of `data_year` are plain copies of the input.
- `list_devices`, `add_device`, `delete_device` and `post_status` do database work only, so they are not modelled. Neither is the database part of `update_device_status`.
- `calendar.monthrange` is taken to accept any year, as it does from Python 3.8 on: its day count uses `isleap` of the year itself, which `Calendar.DaysInMonth` defines for every integer. `datetime.date` still limits a week's dates to years 1..9999, and the day loop of `data_week` cannot step past 9999-12-31.
- NULL device ids and names in `logs_day`, and NULL dates in `data_week`, are not modelled. These values are taken to be strings.
- SQL's own guarantee of one row per group is not assumed. When several rows share a key, the model keeps the last one, as the dict comprehensions do, or sums them where the code adds.
