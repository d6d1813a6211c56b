# Divination toolkit core, modelled in Dafny

This project models the computational core of two divination web apps,
`yixiangtai` and `zhouwenwang-divination`. It covers:

- **Sexagenary calendar** (`ganzhiUtils.ts`): the ten stems and twelve
  branches, the sixty-pillar cycle, the twelve double hours, the solar-term
  formula and the year, month, day and hour pillars. It also covers the
  late-子-hour rules of `getFourPillarsGanZhi`, the five phases and the
  zodiac animal.
- **Life K-line reply pipeline** (`lifekline/service.ts`):
  - the input validator;
  - the extraction of the JSON text from a model's reply;
  - the five character-scanning repair passes and `repairJson`;
  - the candidate ordering of `parseLifeKlineJson`;
  - the default-filling mapping of the parsed data into chart points and an
    analysis.
- **Qi Men chart** (`qimen/logic.ts`): the nine-palace table, the palace
  records built from a library chart, the key points, the palace colours
  and the good door and star tests.
- **Application store** (`core/store.ts`): a class whose fields are the
  store's state. Each action is a method that states the whole new state.
  It covers per-game divination sessions with their analysis status and
  abort controller, the capped history, the master selection, the settings
  update with its storage outcome, and the persisted part of the state
  with its rehydration.
- **Gemini configuration** (`masters/config.ts`): the key in effect, key
  format, MIME-type and file-size checks, and the request addresses.
- **Birth form** (`BaziForm.tsx`, `calculatePillars` and
  `daYunDirectionInfo`): the luck direction from the year stem and the
  gender, the 36 jie terms around the birth year, the bracketing search,
  the start age, the first luck pillar and the direction text.
- **Six-line divination** (`LiuYaoPage.tsx`): the traditional line names
  and the upper and lower trigrams of a hexagram.
- **Life chart preparation** (`NewLifeKLineChart.tsx`): candle bodies, the
  points where a new luck period begins, the highest point and the peak
  label.

Dates are modelled by their local calendar fields (`Clock.DateTime`). An
instant is a whole number of milliseconds since 1970-01-01 00:00 local
time, with a fixed UTC offset.

JavaScript's truncating `%` is written out (`Text.JsRem`). Lemmas show
that the source's corrections for negative remainders give the Euclidean
residue.

Functions the code calls but does not define become function parameters:
`JSON.parse`, `jsonrepair`, number printing and parsing, and
`saveSettings`.

Where loops update state the model has methods with loops, proved equal
to specification functions:
- `getTimeSlotByHour`, `getMonthGanZhi` and `getFourPillarsGanZhi`;
- the five scanners, `repairJson` and `parseLifeKlineJson`;
- `generateKeyPoints` and `generateQiMenChart`;
- the jie collection, the bracketing loop and `calculatePillars`;
- the store actions.

The properties the source promises are lemmas about those functions.

Where the code and what it evidently aims at disagree, the model follows
the code:
- `escapeNewlinesInStrings` writes three characters for a raw line break
  (two backslashes and the letter, `service.ts` lines 201-207), not the
  two-character JSON escape `\n`.
- `getActiveApiKey` prefers the user's key over the environment key,
  although its doc comment states the opposite priority.
- A quote that ends an object key is escaped by
  `escapeUnescapedQuotesInStrings`, because a `:` follows it.
  `JsonScan.KeyTerminatorEscaped` states this behaviour.

## Model

| member | source | states |
|---|---|---|
| GanZhi.PillarChars | yixiangtai/src/utils/ganzhiUtils.ts:7-10 | a pillar is two characters: the stem's, then the branch's |
| GanZhi.TablesDistinct | yixiangtai/src/utils/ganzhiUtils.ts:7-10 | stems and branches are single characters, pairwise distinct, and no stem is a branch |
| GanZhi.PillarInjective | yixiangtai/src/utils/ganzhiUtils.ts:134 | the pillar text determines its stem and branch indices |
| GanZhi.CycleEntries | yixiangtai/src/utils/ganzhiUtils.ts:314-321 | the cycle has 60 entries; entry i pairs stem i mod 10 with branch i mod 12 |
| GanZhi.CyclePosition | yixiangtai/src/utils/ganzhiUtils.ts:314-321 | a stem and a branch of the same parity occur at a position below 60 with those residues |
| GanZhi.CrtUnique | yixiangtai/src/utils/ganzhiUtils.ts:314-321 | two cycle positions with the same residues mod 10 and mod 12 are equal |
| GanZhi.PillarInCycle | yixiangtai/src/utils/ganzhiUtils.ts:314-321 | a pillar is in the cycle iff its stem and branch have the same parity |
| GanZhi.CycleIndexOf | yixiangtai/src/utils/ganzhiUtils.ts:314-321 | `indexOf` of entry i is i: the sixty entries are distinct |
| GanZhi.SlotFrom | yixiangtai/src/utils/ganzhiUtils.ts:65-74 | the first slot from k whose hours contain the hour, or slot 0 when none does |
| GanZhi.SlotShape | yixiangtai/src/utils/ganzhiUtils.ts:45-58 | slot k covers hours (2k+23) mod 24 and 2k and has branch index k |
| GanZhi.SlotOfHour | yixiangtai/src/utils/ganzhiUtils.ts:45-74 | each hour 0..23 lies in exactly one slot, slot ((h+1)/2) mod 12; other numbers fall back to 子 |
| GanZhi.TimeSlotByHour | yixiangtai/src/utils/ganzhiUtils.ts:65-74 | the loop with its early return yields the slot that `SlotFrom` specifies |
| GanZhi.ZhiOfHour | yixiangtai/src/utils/ganzhiUtils.ts:81-83 | the branch is ((h+1)/2) mod 12 for 0..23 and 子 otherwise |
| GanZhi.ZhiIndexByHour | yixiangtai/src/utils/ganzhiUtils.ts:81-83 | the returned branch index equals `ZhiOfHour` and lies in 0..11 |
| GanZhi.TermTableAscending | yixiangtai/src/utils/ganzhiUtils.ts:101-105 | the minute offsets of the 24 terms are strictly ascending and stay within one solar year |
| GanZhi.SolarTermOrder | yixiangtai/src/utils/ganzhiUtils.ts:100-111 | term instants increase with the year first, then with the index |
| GanZhi.SolarTermYearStep | yixiangtai/src/utils/ganzhiUtils.ts:108-110 | the same term one year later is exactly 525948.76 minutes later |
| GanZhi.PillarOfYear | yixiangtai/src/utils/ganzhiUtils.ts:127-134 | the corrected remainders give the stem (y-1984) mod 10 and the branch (y-1984) mod 12 |
| GanZhi.YearPillar | yixiangtai/src/utils/ganzhiUtils.ts:118-135 | the year pillar is the pillar of the basis year's stem and branch |
| GanZhi.YearPillarOf1984 | yixiangtai/src/utils/ganzhiUtils.ts:122-134 | a date whose basis year is 1984 is in a 甲子 year |
| GanZhi.YearPillarInCycle | yixiangtai/src/utils/ganzhiUtils.ts:118-135 | the year pillar is one of the sixty |
| GanZhi.MonthTerms | yixiangtai/src/utils/ganzhiUtils.ts:150-164 | the thirteen boundaries: last year's 大雪 for 子, then this year's terms 0, 2, …, 22 for branches 1, …, 11, 0 |
| GanZhi.MonthTermsAscending | yixiangtai/src/utils/ganzhiUtils.ts:150-164 | the boundaries are strictly increasing in time |
| GanZhi.LatestIndex | yixiangtai/src/utils/ganzhiUtils.ts:166-172 | the index of the latest boundary at or before t, or -1; every later boundary is after t |
| GanZhi.MonthBranchScan | yixiangtai/src/utils/ganzhiUtils.ts:166-172 | the backward loop with `break` yields the branch of the latest boundary at or before t, or 子 |
| GanZhi.LatestScanAgrees | yixiangtai/src/utils/ganzhiUtils.ts:166-172 | the boundary the scan stops at is the latest one at or before t |
| GanZhi.MonthBranch | yixiangtai/src/utils/ganzhiUtils.ts:142-172 | the month branch lies in 0..11 |
| GanZhi.MonthBranchBetweenTerms | yixiangtai/src/utils/ganzhiUtils.ts:150-172 | for branches 丑..亥 the month branch is z iff the date lies from the term opening month z up to the next one |
| GanZhi.LatestZhiOnlyAt | yixiangtai/src/utils/ganzhiUtils.ts:152-172 | branch z in 1..11 is found only between boundaries z and z+1 |
| GanZhi.MonthStem | yixiangtai/src/utils/ganzhiUtils.ts:179-183 | the month stem has the branch's parity, and the 寅 month's stem is the table entry of the year stem |
| GanZhi.StemOfPillar | yixiangtai/src/utils/ganzhiUtils.ts:175-176 | looking up a pillar's first character among the stems gives back its stem |
| GanZhi.MonthPillarFromPillar | yixiangtai/src/utils/ganzhiUtils.ts:175-185 | building the month pillar from the year pillar's text uses that pillar's stem |
| GanZhi.MonthPillar | yixiangtai/src/utils/ganzhiUtils.ts:142-186 | the month pillar pairs `MonthStem` of the year stem with the month branch |
| GanZhi.GetMonthGanZhi | yixiangtai/src/utils/ganzhiUtils.ts:142-186 | the method that pushes thirteen boundaries and scans them backwards returns `MonthPillar` |
| GanZhi.JiaJiYearYinMonth | yixiangtai/src/utils/ganzhiUtils.ts:179-183 | in a 甲 or 己 year the 寅 month is 丙寅 |
| GanZhi.MonthPillarInCycle | yixiangtai/src/utils/ganzhiUtils.ts:142-186 | the month pillar is one of the sixty |
| GanZhi.DayDiff | yixiangtai/src/utils/ganzhiUtils.ts:196-202 | the noon-to-noon day difference is the number of calendar days from 2000-01-01 |
| GanZhi.DayPillar | yixiangtai/src/utils/ganzhiUtils.ts:193-212 | the day pillar is the pillar of the corrected day stem and branch |
| GanZhi.DayPillarOfBase | yixiangtai/src/utils/ganzhiUtils.ts:196-198 | any time on 2000-01-01 falls on a 戊午 day |
| GanZhi.DayPillarNextDay | yixiangtai/src/utils/ganzhiUtils.ts:204-209 | one day later the day stem and the day branch each advance by one |
| GanZhi.DayPillarInCycle | yixiangtai/src/utils/ganzhiUtils.ts:193-212 | the day pillar is one of the sixty, before 2000 as after |
| GanZhi.HourStem | yixiangtai/src/utils/ganzhiUtils.ts:230-234 | the hour stem has the hour branch's parity, and the 子 hour's stem is the table entry of the day stem |
| GanZhi.HourPillarFromPillar | yixiangtai/src/utils/ganzhiUtils.ts:226-236 | building the hour pillar from the day pillar's text uses that pillar's stem |
| GanZhi.HourPillar | yixiangtai/src/utils/ganzhiUtils.ts:219-237 | the hour pillar pairs the stem counted from the day base's stem with the hour's branch |
| GanZhi.JiaJiDayZiHour | yixiangtai/src/utils/ganzhiUtils.ts:230-234 | on a 甲 or 己 day base the 子 hour is 甲子 |
| GanZhi.HourPillarInCycle | yixiangtai/src/utils/ganzhiUtils.ts:219-237 | the hour pillar is one of the sixty |
| GanZhi.ResolveZiRule | yixiangtai/src/utils/ganzhiUtils.ts:253-257 | `true` and 'traditional' give traditional; `false`, absent and 'modern' give modern; 'earlyLate' gives itself, each iff |
| GanZhi.GetFourPillarsGanZhi | yixiangtai/src/utils/ganzhiUtils.ts:265-289 | year and month use the date; at 23:00 traditional moves the day and hour base to the next day and earlyLate only the hour base; all four pillars are in the cycle |
| GanZhi.LateZiHourStem | yixiangtai/src/utils/ganzhiUtils.ts:273-287 | at 23:00 with the next day as base the hour stem follows the next day's stem, otherwise the same day's |
| GanZhi.Wuxing | yixiangtai/src/utils/ganzhiUtils.ts:296-298 | the mapped phase for a listed character, 土 for anything else |
| GanZhi.WuxingOfStems | yixiangtai/src/utils/ganzhiUtils.ts:16-29 | stems go by pairs through 木火土金水 and every branch is mapped to one of the five phases |
| GanZhi.ZodiacAnimal | yixiangtai/src/utils/ganzhiUtils.ts:305-311 | the animal at (year-1900) mod 12, with the negative remainder corrected |
| GanZhi.ZodiacMatchesYearBranch | yixiangtai/src/utils/ganzhiUtils.ts:305-311 | the animal of the basis year is the animal of the year pillar's branch |
| Clock.NextDay | yixiangtai/src/utils/ganzhiUtils.ts:259-263 | the next calendar day is a valid date with the same time of day |
| Clock.NextDayNumber | yixiangtai/src/utils/ganzhiUtils.ts:259-263 | the next day is one day number and exactly 86400000 ms later |
| Clock.AddDays | yixiangtai/src/utils/ganzhiUtils.ts:259-263 | adding n days gives a valid date n day numbers and n·86400000 ms later at the same hour |
| LifeKlineService.MissingFrom | yixiangtai/src/games/lifekline/service.ts:13-18 | the first required field that is falsy or blank, none iff all are present |
| LifeKlineService.NormalizePillar | yixiangtai/src/games/lifekline/service.ts:10 | succeeds iff the value is a string, with its trimmed text; otherwise the `trim` TypeError |
| LifeKlineService.BadPillarFrom | yixiangtai/src/games/lifekline/service.ts:27-32 | the first pillar not in the cycle, none iff all are in it |
| LifeKlineService.RequiredPresent | yixiangtai/src/games/lifekline/service.ts:13-18 | after the presence check the six fields read later all exist |
| LifeKlineService.CheckPillars | yixiangtai/src/games/lifekline/service.ts:20-32 | passes iff each of the four pillars is a string whose trimmed form is in the cycle |
| LifeKlineService.CheckFormats | yixiangtai/src/games/lifekline/service.ts:20-42 | passes iff every pillar and the first luck pillar are strings whose trimmed forms are in the cycle and the start age is a finite number in [1, 20] |
| LifeKlineService.ValidateAgainst | yixiangtai/src/games/lifekline/service.ts:12-43 | passes iff the input is acceptable; a missing field is reported first, by its name |
| LifeKlineService.ValidateLifeKlineInput | yixiangtai/src/games/lifekline/service.ts:12-43 | the validator against the sixty-pillar cycle: passes iff acceptable, missing fields reported first |
| LifeKlineService.AcceptsCyclePillars | yixiangtai/src/games/lifekline/service.ts:12-43 | an input carrying cycle pillars, a non-blank birth time and a start age in [1, 20] passes |
| LifeKlineService.ValidatorAcceptsComputedPillars | yixiangtai/src/games/lifekline/service.ts:12-43 | four pillars computed by the calendar, with a first luck pillar in the cycle, always pass the validator |
| LifeKlineService.TagEnd | yixiangtai/src/games/lifekline/service.ts:126 | the optional `json` tag after a fence is taken only when a fence follows it |
| LifeKlineService.CloseFence | yixiangtai/src/games/lifekline/service.ts:126 | the lazy capture ends at the first fence after its start |
| LifeKlineService.FencedBlockSpec | yixiangtai/src/games/lifekline/service.ts:126 | a block exists iff some fence starts three or more characters after the first; it spans from after the tag and whitespace to the next fence |
| LifeKlineService.BraceSlice | yixiangtai/src/games/lifekline/service.ts:130-134 | the slice from the first `{` to the last `}` when the last comes after the first, else the text itself |
| LifeKlineService.ExtractJsonContent | yixiangtai/src/games/lifekline/service.ts:124-137 | the trimmed first fenced block if there is one, else the brace slice of the trimmed input |
| LifeKlineService.ExtractBareObject | yixiangtai/src/games/lifekline/service.ts:124-137 | an unfenced reply whose trimmed form is `{…}` is returned trimmed |
| LifeKlineService.ExtractFencedJson | yixiangtai/src/games/lifekline/service.ts:124-137 | a reply wrapping a trimmed text in a `json` fence yields exactly that text |
| LifeKlineService.FencedReplyBlock | yixiangtai/src/games/lifekline/service.ts:126 | the capture of such a reply runs from after the tag's newline to the closing fence |
| JsonScan.LexConcat | yixiangtai/src/games/lifekline/service.ts:138-178 | the string lexer reads `a + b` as `a` then `b` |
| JsonScan.NormalizeJsonPunctuation | yixiangtai/src/games/lifekline/service.ts:138-178 | the loop's output equals the character-wise normalisation of the input |
| JsonScan.NormalizedAt | yixiangtai/src/games/lifekline/service.ts:138-178 | the output keeps the length and writes at each position the character for the lexer state before it |
| JsonScan.NormalizeChanges | yixiangtai/src/games/lifekline/service.ts:152-174 | position i changes iff it holds `，` or `：` outside a string, and then becomes `,` or `:` |
| JsonScan.NormalizedLex | yixiangtai/src/games/lifekline/service.ts:138-178 | the string literals of the output are where they were in the input |
| JsonScan.NormalizedIdempotent | yixiangtai/src/games/lifekline/service.ts:138-178 | normalising twice is normalising once |
| JsonScan.EscapeNewlinesInStrings | yixiangtai/src/games/lifekline/service.ts:179-215 | the loop's output equals the chunk-wise escape: a raw `\n` or `\r` inside a string becomes backslash, backslash, letter; everything else is copied |
| JsonScan.NewlinesEscapedConcat | yixiangtai/src/games/lifekline/service.ts:179-215 | escaping `a + b` escapes `a`, then `b` from the lexer state after `a` |
| JsonScan.NewlinesEscapedLex | yixiangtai/src/games/lifekline/service.ts:179-215 | the string literals of the output are where they were in the input |
| JsonScan.NewlinesEscapedIdempotent | yixiangtai/src/games/lifekline/service.ts:179-215 | no raw line break is left inside a string, so a second pass changes nothing |
| JsonScan.NewlinesEscapedNoBreaks | yixiangtai/src/games/lifekline/service.ts:179-215 | text without line breaks is copied unchanged |
| JsonScan.EscapeUnescapedQuotesInStrings | yixiangtai/src/games/lifekline/service.ts:216-257 | the loop with its look-ahead equals the specified pass: stray quotes inside strings get a backslash |
| JsonScan.EscapeQuoteAt | yixiangtai/src/games/lifekline/service.ts:221-254 | one character of the loop writes the chunk the specified pass writes there and moves the lexer as the pass does |
| JsonScan.SkipWhitespace | yixiangtai/src/games/lifekline/service.ts:234-237 | the look-ahead loop stops where `NextNonBlank` says: the first non-whitespace character after the quote, or the end |
| JsonScan.NextNonBlankMeaning | yixiangtai/src/games/lifekline/service.ts:234-237 | everything skipped is whitespace, and the stopping position, unless it is the end, is not |
| JsonScan.QuotesEscapedLex | yixiangtai/src/games/lifekline/service.ts:216-257 | the lexer reading the output sees exactly the strings the pass decided on |
| JsonScan.QuoteClosesOnlyBeforeDelimiter | yixiangtai/src/games/lifekline/service.ts:229-246 | a string is closed only by a quote whose next non-blank character is `,`, `}`, `]` or the end |
| JsonScan.KeyTerminatorEscaped | yixiangtai/src/games/lifekline/service.ts:229-246 | the quote ending a key is followed by `:`, so it is escaped and the string runs on |
| JsonScan.InnerQuoteEscaped | yixiangtai/src/games/lifekline/service.ts:229-246 | an inner quote followed by text is escaped, and the one before `]` closes the string |
| JsonScan.QuotesEscapedOnlyBackslashes | yixiangtai/src/games/lifekline/service.ts:216-257 | deleting backslashes from output and input gives the same text: the pass only inserts backslashes |
| JsonScan.InsertMissingCommasInArrays | yixiangtai/src/games/lifekline/service.ts:258-328 | the loop with its container stack equals the specified comma pass in array context |
| JsonScan.InsertMissingCommasInObjects | yixiangtai/src/games/lifekline/service.ts:329-389 | the loop with its container stack equals the specified comma pass in object context |
| JsonScan.CommaAt | yixiangtai/src/games/lifekline/service.ts:277-322 | one character of either comma pass writes the specified text, a comma first exactly when one is missing, and takes one scan step |
| JsonScan.CommasOnlyInserted | yixiangtai/src/games/lifekline/service.ts:258-389 | deleting commas from output and input gives the same text: only commas are inserted |
| JsonScan.ScanLex | yixiangtai/src/games/lifekline/service.ts:258-389 | the comma passes track strings exactly as the lexer does |
| JsonScan.CommasKeepStrings | yixiangtai/src/games/lifekline/service.ts:258-389 | every inserted comma lies outside string literals |
| JsonScan.CommasSkipSpaces | yixiangtai/src/games/lifekline/service.ts:258-389 | outside strings, layout whitespace is copied and leaves the state alone |
| JsonScan.KeyAfterValueGetsComma | yixiangtai/src/games/lifekline/service.ts:329-389 | in an object, a key after a value (past whitespace) gets a comma before its quote |
| JsonScan.ValueAfterValueGetsComma | yixiangtai/src/games/lifekline/service.ts:258-328 | in an array, a value start after a value (past whitespace) gets a comma before it |
| JsonScan.RemoveBomRemovesAll | yixiangtai/src/games/lifekline/service.ts:392 | no byte-order mark is left, and every other character that occurs still does |
| JsonScan.RemoveBomShell | yixiangtai/src/games/lifekline/service.ts:392 | removing byte-order marks changes nothing but whitespace |
| JsonScan.DropTrailingCommasShell | yixiangtai/src/games/lifekline/service.ts:393 | dropping commas before a closing bracket removes only commas and whitespace |
| JsonScan.JoinAdjacentShell | yixiangtai/src/games/lifekline/service.ts:394-395 | joining adjacent containers changes only commas and whitespace |
| JsonScan.DoubleTrailingCommaSurvives | yixiangtai/src/games/lifekline/service.ts:393 | the one-pass replacement turns `,,}` into `,}` |
| LifeKlineService.RepairJson | yixiangtai/src/games/lifekline/service.ts:390-401 | the method that reassigns `output` step by step equals the composition of the nine steps in the source's order |
| LifeKlineService.RepairedEmpty | yixiangtai/src/games/lifekline/service.ts:390-401 | repairing the empty text gives the empty text, so it is never a candidate |
| LifeKlineService.Candidates | yixiangtai/src/games/lifekline/service.ts:411-417 | at most three candidates, none of them empty |
| LifeKlineService.NonEmpty | yixiangtai/src/games/lifekline/service.ts:417 | keeps exactly the non-empty texts |
| LifeKlineService.Attempt | yixiangtai/src/games/lifekline/service.ts:420-428 | succeeds iff the text parses to data with a non-empty `chartPoints`, with that data |
| LifeKlineService.FirstAcceptedMeaning | yixiangtai/src/games/lifekline/service.ts:418-431 | the result is the first accepted candidate; when none is accepted, the error carries the last attempt's message, or the fallback when there was no candidate |
| LifeKlineService.ParseLifeKlineJson | yixiangtai/src/games/lifekline/service.ts:410-432 | the loop over candidates returns `FirstAccepted` of the candidates of the extracted content |
| LifeKlineService.MapPoint | yixiangtai/src/games/lifekline/service.ts:458-469 | mapping fails (reading a property of `null`) iff the point is `null` |
| LifeKlineService.NumberOr | yixiangtai/src/games/lifekline/service.ts:459-467 | a given number is kept; an absent or `null` field gives the default |
| LifeKlineService.TextOrEmpty | yixiangtai/src/games/lifekline/service.ts:461-468 | a given string is kept; an absent or `null` field gives the empty text |
| LifeKlineService.MapPoints | yixiangtai/src/games/lifekline/service.ts:458-469 | succeeds iff no point is `null`, with one mapped point per entry, in order |
| JsValue.ItemTexts | yixiangtai/src/games/lifekline/service.ts:470 | one text per array item |
| LifeKlineService.TextOr | yixiangtai/src/games/lifekline/service.ts:476-495 | a truthy field's text, otherwise the fallback |
| LifeKlineService.ScoreOr | yixiangtai/src/games/lifekline/service.ts:477-493 | a truthy score is kept, otherwise 5 |
| LifeKlineService.BuildResult | yixiangtai/src/games/lifekline/service.ts:456-497 | succeeds iff no chart point is `null`, with as many chart points as entries |
| LifeKlineService.MapPointRoundTrip | yixiangtai/src/games/lifekline/service.ts:458-469 | a point with every field written out reads back as itself at any index: defaults never override a given field |
| LifeKlineService.MapPointDefaults | yixiangtai/src/games/lifekline/service.ts:458-469 | an empty point gets its index plus one as age, zeros, empty texts and no luck pillar |
| LifeKlineService.MapAnalysisDefaults | yixiangtai/src/games/lifekline/service.ts:470-496 | data without analysis fields gets every default text and the score 5 |
| QiMen.Positions | yixiangtai/src/games/qimen/logic.ts:4-14 | the table's positions in order |
| QiMen.NinePalacesExact | yixiangtai/src/games/qimen/logic.ts:4-14 | the table lists each of the positions 1..9 exactly once |
| QiMen.FindMeta | yixiangtai/src/games/qimen/logic.ts:58-60 | the first entry from k with the position, found iff one exists |
| QiMen.GetPalaceMeta | yixiangtai/src/games/qimen/logic.ts:58-60 | an entry is found iff the position is in 1..9, and it has that position |
| QiMen.NormalizeGate | yixiangtai/src/games/qimen/logic.ts:62 | 无门 becomes empty, any other door is kept |
| QiMen.NormalizeDeity | yixiangtai/src/games/qimen/logic.ts:63 | 无神 becomes empty, any other deity is kept |
| QiMen.NormalizeIdempotent | yixiangtai/src/games/qimen/logic.ts:62-63 | normalising twice is normalising once |
| QiMen.GeneratePalaces | yixiangtai/src/games/qimen/logic.ts:70-85 | one record per library palace, in order |
| QiMen.GeneratePalacesFields | yixiangtai/src/games/qimen/logic.ts:70-85 | each record keeps the position, has `isCenter` iff position 5, normalised door and deity, and the table's name and direction or the fallbacks |
| QiMen.GoodDoorsAndStars | yixiangtai/src/games/qimen/logic.ts:193-206 | good doors are exactly 开门, 休门, 生门; good stars exactly 天辅, 天心, 天任; the normalised empty door is not good |
| QiMen.FindCenter | yixiangtai/src/games/qimen/logic.ts:99 | found iff some palace is the centre, and it is one |
| QiMen.GoodPalaces | yixiangtai/src/games/qimen/logic.ts:106-107 | exactly the palaces whose door is good |
| QiMen.KeyPointsShape | yixiangtai/src/games/qimen/logic.ts:92-113 | the bureau and duty lines come first; the centre line appears iff there is a centre palace, and the good-door line ends the list iff some door is good |
| QiMen.GenerateKeyPoints | yixiangtai/src/games/qimen/logic.ts:92-113 | the conditional pushes produce `KeyPoints` |
| QiMen.GenerateQiMenChart | yixiangtai/src/games/qimen/logic.ts:120-154 | every field of the chart comes from the library chart, the palaces are `GeneratePalaces`, and the key points are computed from the chart itself |
| QiMen.GetPalaceColor | yixiangtai/src/games/qimen/logic.ts:172-186 | the listed colour for positions 1..9, the fallback otherwise |
| QiMen.PalaceColorFallback | yixiangtai/src/games/qimen/logic.ts:172-186 | the colour is the fallback's iff the position is 6 or outside 1..9 |
| Store.Controller.Abort | yixiangtai/src/core/store.ts:242-244 | aborting marks the controller aborted |
| Store.EmptySession | yixiangtai/src/core/store.ts:106-116 | no data, idle status, empty text, no error, times or controller |
| Store.MergeNothing | yixiangtai/src/core/store.ts:224-228 | an empty patch changes nothing |
| Store.MergeIdempotent | yixiangtai/src/core/store.ts:224-228 | applying a patch twice is applying it once |
| Store.MergeSequence | yixiangtai/src/core/store.ts:224-228 | two patches in turn are their overlay |
| Store.FindMaster | yixiangtai/src/core/store.ts:189-190 | the first master with the id, none iff no master has it |
| Store.Fallback | yixiangtai/src/core/store.ts:190 | the available `zhouwenwang` entry, or the built-in default when there is none |
| Store.DefaultSelection | yixiangtai/src/core/store.ts:184-193 | a selection always exists; it is kept unless absent or missing from a non-empty list, else the fallback |
| Store.DefaultSelectionIdempotent | yixiangtai/src/core/store.ts:184-193 | initialising twice is initialising once |
| Store.DefaultSelectionAvailable | yixiangtai/src/core/store.ts:184-193 | when `zhouwenwang` is available the selection is an available master |
| Store.Updated | yixiangtai/src/core/store.ts:147-149 | each provided field replaces the current one, the others are kept, and the legacy key is dropped |
| Store.UpdatedIdempotent | yixiangtai/src/core/store.ts:147-149 | updating twice with one patch is updating once |
| Store.UpdatedNothing | yixiangtai/src/core/store.ts:147-149 | an empty patch only drops the legacy key |
| Store.Toggled | yixiangtai/src/core/store.ts:135-141 | only the collapsed flag changes, to its negation |
| Store.ToggledInvolution | yixiangtai/src/core/store.ts:135-141 | toggling twice restores the settings |
| Store.Reported | yixiangtai/src/core/store.ts:152-165 | a returned result is passed on; a thrown error gives failure with its message, or 更新设置失败 without one |
| Store.Pushed | yixiangtai/src/core/store.ts:199-202 | the record first, then the most recent earlier records, at most 100 in all |
| Store.PushedKeepsRecent | yixiangtai/src/core/store.ts:199-202 | a record stays in the history, at index k, while fewer than 100 records follow it |
| Store.PushAllLast | yixiangtai/src/core/store.ts:199-202 | pushing a list is pushing its prefix, then its last record |
| Store.PushAllLength | yixiangtai/src/core/store.ts:199-202 | the history grows by one per push until the cap of 100 |
| Store.SessionOrEmpty | yixiangtai/src/core/store.ts:207-246 | the stored session, or an empty one for an unknown game |
| Store.Restored | yixiangtai/src/core/store.ts:269-285 | settings and history are kept; a missing selection becomes the default master and a present one is kept |
| Store.RestoredIdempotent | yixiangtai/src/core/store.ts:277-285 | rehydrating twice is rehydrating once |
| Store.AppStore.constructor | yixiangtai/src/core/store.ts:124-206 | the initial state: default settings, not loading, no error, the default master, no masters, no game, empty history and sessions |
| Store.AppStore.SetSessionData | yixiangtai/src/core/store.ts:207-216 | only game g's session changes: its data is replaced and its analysis is the old or empty one |
| Store.AppStore.SetSessionAnalysis | yixiangtai/src/core/store.ts:217-232 | only game g's analysis changes, field by field as the patch provides |
| Store.AppStore.ResetSession | yixiangtai/src/core/store.ts:233-239 | only game g's session changes, to an empty one |
| Store.AppStore.StopSession | yixiangtai/src/core/store.ts:240-262 | the stored controller is aborted; g's analysis becomes stopped, without controller, completed now; nothing else changes |
| Store.AppStore.AddToHistory | yixiangtai/src/core/store.ts:199-202 | the history becomes `Pushed`, the record first and at most 100 entries; nothing else changes |
| Store.AppStore.ClearHistory | yixiangtai/src/core/store.ts:203 | the history becomes empty; nothing else changes |
| Store.AppStore.SetSelectedMaster | yixiangtai/src/core/store.ts:179-182 | only the selected master changes |
| Store.AppStore.SetAvailableMasters | yixiangtai/src/core/store.ts:183 | only the available masters change |
| Store.AppStore.InitializeDefaultMaster | yixiangtai/src/core/store.ts:184-193 | the selection becomes `DefaultSelection`; nothing else changes |
| Store.AppStore.SetApiKey | yixiangtai/src/core/store.ts:127-130 | only the settings' key changes |
| Store.AppStore.SetSidebarCollapsed | yixiangtai/src/core/store.ts:131-134 | only the settings' collapsed flag changes |
| Store.AppStore.ToggleSidebar | yixiangtai/src/core/store.ts:135-141 | the collapsed flag is negated; nothing else changes |
| Store.AppStore.ResetSettings | yixiangtai/src/core/store.ts:142-143 | the settings become the defaults; nothing else changes |
| Store.AppStore.UpdateSettings | yixiangtai/src/core/store.ts:144-167 | the merged settings are saved; the store takes them iff saving reports success, and the result is the reported outcome |
| Store.AppStore.SetError | yixiangtai/src/core/store.ts:173 | only the error changes |
| Store.AppStore.ClearError | yixiangtai/src/core/store.ts:174 | the error becomes absent; nothing else changes |
| Store.AppStore.SetLoading | yixiangtai/src/core/store.ts:172 | only the loading flag changes |
| Store.AppStore.SetCurrentGame | yixiangtai/src/core/store.ts:198 | only the current game changes |
| Store.AppStore.Rehydrate | yixiangtai/src/core/store.ts:269-285 | the persisted part becomes `Restored` of the stored one, nothing else changes, and the history bound holds afterwards iff the stored history is within it |
| MasterConfig.ActiveApiKey | yixiangtai/src/masters/config.ts:129-142 | the user's trimmed key when not blank, else the trimmed environment key (empty when that is blank) |
| MasterConfig.ActiveApiKeyTrimmed | yixiangtai/src/masters/config.ts:129-142 | the key in effect has no surrounding whitespace |
| MasterConfig.HasValidApiKey | yixiangtai/src/masters/config.ts:149-152 | holds iff the key in effect is non-empty, iff the user's or the environment key is not blank |
| MasterConfig.IsValidApiKeyFormat | yixiangtai/src/masters/config.ts:100-103 | holds iff the trimmed key has at least 20 characters (code points, see Left out) and starts with `AIza` |
| MasterConfig.ApiKeyFormatIgnoresBlanks | yixiangtai/src/masters/config.ts:100-103 | surrounding whitespace does not affect the format check |
| MasterConfig.WellFormedKeyIsActive | yixiangtai/src/masters/config.ts:100-142 | a well-formed user key is the key in effect, whatever the environment holds |
| MasterConfig.IsSupportedImageType | yixiangtai/src/masters/config.ts:110-112 | holds iff the type is JPEG, PNG, WebP or GIF; every accepted type starts with `image/` |
| MasterConfig.IsValidFileSize | yixiangtai/src/masters/config.ts:119-121 | holds iff 0 < size ≤ 2097152 |
| MasterConfig.BuildGeminiApiUrl | yixiangtai/src/masters/config.ts:78-84 | the address starts with the base, the model and `:`, and has the combined length |
| MasterConfig.BuildModelsListUrl | yixiangtai/src/masters/config.ts:91-93 | the list address followed by `?key=` and the key |
| MasterConfig.GeminiApiUrlRoundTrip | yixiangtai/src/masters/config.ts:78-84 | for a model without `:` and an endpoint without `?` the address reads back as model, endpoint and key |
| MasterConfig.ModelsListUrlRoundTrip | yixiangtai/src/masters/config.ts:91-93 | the model-list address reads back as its key |
| BaziForm.YangStemsAreEven | zhouwenwang-divination/src/games/lifekline/components/BaziForm.tsx:112-129 | the yang list holds exactly the even stems and the yin list exactly the odd ones |
| BaziForm.ForwardByStem | zhouwenwang-divination/src/games/lifekline/components/BaziForm.tsx:33-36 | forward iff (male iff the year stem is even) |
| BaziForm.JieTerms | zhouwenwang-divination/src/games/lifekline/components/BaziForm.tsx:39-47 | 36 terms: the even-index terms of the years y-1, y, y+1 |
| BaziForm.JieTermsAscending | zhouwenwang-divination/src/games/lifekline/components/BaziForm.tsx:44-48 | the collected list is strictly ascending, so sorting it by time leaves it as it is |
| BaziForm.CollectJieTerms | zhouwenwang-divination/src/games/lifekline/components/BaziForm.tsx:44-47 | the nested loops push exactly `JieTerms` |
| BaziForm.PushYearJie | zhouwenwang-divination/src/games/lifekline/components/BaziForm.tsx:46 | the inner loop appends year `y`'s twelve jie, so the list stays the prefix of `JieTerms` |
| BaziForm.FirstBracket | zhouwenwang-divination/src/games/lifekline/components/BaziForm.tsx:52-58 | the first i from `from` with all[i] ≤ t < all[i+1], none iff there is no such i |
| BaziForm.FindBracket | zhouwenwang-divination/src/games/lifekline/components/BaziForm.tsx:50-58 | the loop with `break` yields the first bracket, or the first and last terms |
| BaziForm.BracketExistsIff | zhouwenwang-divination/src/games/lifekline/components/BaziForm.tsx:50-58 | on an ascending list a bracket exists iff the first term ≤ t < the last term |
| BaziForm.BracketMeaning | zhouwenwang-divination/src/games/lifekline/components/BaziForm.tsx:50-58 | a bracketing pair is the result; outside the range the defaults are the first and last terms |
| BaziForm.StartAge | zhouwenwang-divination/src/games/lifekline/components/BaziForm.tsx:61-65 | at least 1, and the distance in three-day units rounded half up |
| BaziForm.LuckOffsetDays | zhouwenwang-divination/src/games/lifekline/components/BaziForm.tsx:71-72 | the floor of the distance in days times 365.25/3 |
| BaziForm.NextLuckPillar | zhouwenwang-divination/src/games/lifekline/components/BaziForm.tsx:75-83 | empty when the month pillar is not in the cycle, a cycle entry otherwise |
| BaziForm.LuckPillarReverses | zhouwenwang-divination/src/games/lifekline/components/BaziForm.tsx:78-83 | the backward step undoes the forward step and vice versa |
| BaziForm.CycleIndexes | yixiangtai/src/utils/ganzhiUtils.ts:314-321 | the cycle's entries are distinct, as the reverse step needs |
| BaziForm.CalculatedFields | zhouwenwang-divination/src/games/lifekline/components/BaziForm.tsx:26-96 | the four pillars and the first luck pillar are in the cycle, the opposite step from the luck pillar gives the month pillar, and the start age is the text of an integer ≥ 1 |
| BaziForm.MeasureToJie | zhouwenwang-divination/src/games/lifekline/components/BaziForm.tsx:39-61 | collecting, bracketing and measuring give the distance to the target jie |
| BaziForm.Form.constructor | zhouwenwang-divination/src/games/lifekline/components/BaziForm.tsx:11-24 | the form starts with the initial fields |
| BaziForm.Form.CalculatePillars | zhouwenwang-divination/src/games/lifekline/components/BaziForm.tsx:26-96 | an invalid date leaves the form unchanged; otherwise the form becomes `Calculated` from the traditional pillars |
| BaziForm.DaYunDirectionInfo | zhouwenwang-divination/src/games/lifekline/components/BaziForm.tsx:112-129 | the placeholder for an empty year pillar; otherwise forward text iff (male iff the trimmed first character is not a yin stem) |
| BaziForm.DirectionInfoAgrees | zhouwenwang-divination/src/games/lifekline/components/BaziForm.tsx:33-129 | when the first character is a stem, the text shows the direction `calculatePillars` uses |
| BaziForm.CalculatedDirectionShown | zhouwenwang-divination/src/games/lifekline/components/BaziForm.tsx:26-129 | after a calculation the direction text agrees with the direction used |
| LiuYao.YaoName | zhouwenwang-divination/src/games/liuyao/LiuYaoPage.tsx:73-83 | 初 and 上 before the numeral for lines 1 and 6; numeral then 二..五 for lines 2..5 |
| LiuYao.Numeral | zhouwenwang-divination/src/games/liuyao/LiuYaoPage.tsx:73-83 | one character, 九 iff yang |
| LiuYao.YaoNameInjective | zhouwenwang-divination/src/games/liuyao/LiuYaoPage.tsx:73-83 | a name for positions 1..6 determines both the position and the line type |
| LiuYao.YaoNamesDistinct | zhouwenwang-divination/src/games/liuyao/LiuYaoPage.tsx:73-83 | for a fixed type the six names are pairwise distinct |
| LiuYao.ToBinary | zhouwenwang-divination/src/games/liuyao/LiuYaoPage.tsx:100-102 | one character per line, `1` iff the value is 7 or 9 |
| LiuYao.ToBinarySlice | zhouwenwang-divination/src/games/liuyao/LiuYaoPage.tsx:100-109 | rendering as bits commutes with slicing |
| LiuYao.TrigramTableComplete | zhouwenwang-divination/src/games/liuyao/LiuYaoPage.tsx:88-97 | every three-character `0`/`1` pattern is in the table |
| LiuYao.TrigramNamesDistinct | zhouwenwang-divination/src/games/liuyao/LiuYaoPage.tsx:88-97 | different patterns name different trigrams |
| LiuYao.StructureOfSixLines | zhouwenwang-divination/src/games/liuyao/LiuYaoPage.tsx:104-111 | for six lines the lower trigram is that of lines 1-3, the upper that of lines 4-6, and neither is 未知 |
| LiuYao.StructureIgnoresMoving | zhouwenwang-divination/src/games/liuyao/LiuYaoPage.tsx:100-111 | moving and static lines of the same kind give the same structure |
| KLineChart.Transform | zhouwenwang-divination/src/games/lifekline/components/NewLifeKLineChart.tsx:136-140 | the point is kept, the body's ends are open and close with low ≤ high, and the label point is the high |
| KLineChart.BodyFollowsTrend | zhouwenwang-divination/src/games/lifekline/components/NewLifeKLineChart.tsx:71-73 | an up year's body runs from open to close iff it is up; a down year's from close to open |
| KLineChart.TransformedData | zhouwenwang-divination/src/games/lifekline/components/NewLifeKLineChart.tsx:136-140 | one row per point, in order, each keeping its point with low ≤ high |
| KLineChart.ChangesFrom | zhouwenwang-divination/src/games/lifekline/components/NewLifeKLineChart.tsx:142-145 | the kept points from an index on are no more than the points left |
| KLineChart.DaYunChanges | zhouwenwang-divination/src/games/lifekline/components/NewLifeKLineChart.tsx:142-145 | no longer than the data, and it starts with the first point when there is one |
| KLineChart.ChangesAreChangeIndices | zhouwenwang-divination/src/games/lifekline/components/NewLifeKLineChart.tsx:142-145 | the kept points are the points at ascending change indices, and every change index is among them |
| KLineChart.FirstChangeDiffers | zhouwenwang-divination/src/games/lifekline/components/NewLifeKLineChart.tsx:142-145 | the next kept point differs in luck period from the point before the search started |
| KLineChart.ChangesFromAlternate | zhouwenwang-divination/src/games/lifekline/components/NewLifeKLineChart.tsx:142-145 | consecutive kept points belong to different luck periods |
| KLineChart.DaYunChangesMeaning | zhouwenwang-divination/src/games/lifekline/components/NewLifeKLineChart.tsx:142-145 | the changes are the first point and each point whose luck period differs from the previous one, in order; neighbours differ |
| KLineChart.HighestOf | zhouwenwang-divination/src/games/lifekline/components/NewLifeKLineChart.tsx:147 | at least every high and equal to some high |
| KLineChart.MaxHigh | zhouwenwang-divination/src/games/lifekline/components/NewLifeKLineChart.tsx:147 | 100 for no data; otherwise at least every high and equal to one |
| KLineChart.PeakLabelPlacement | zhouwenwang-divination/src/games/lifekline/components/NewLifeKLineChart.tsx:109-147 | a non-empty chart shows the peak mark on some point, and only on points no other point exceeds |

## Left out

- Network and model I/O are not modelled: the axios call and response
  handling (`service.ts` lines 45-121, 434-454 and 498-514), the prompt
  text, and the 3meta `QimenChart.byDatetime` call, whose chart is an
  input.
- `JSON.parse`, `jsonrepair`, `String(number)`, `Number(string)` and
  `saveSettings` are function parameters, because their code is not part
  of this model.
- Reading the clock is not modelled: `Date.now()` and the timestamp of a
  chart are parameters.
- `new Date(dateTimeStr)` is a parameter as well: the parsed fields, or
  none when the text is not a date.
- Daylight-saving time is not modelled: local time has a fixed UTC offset.
- Floating point is not modelled; numbers are exact integers or reals.
  - The solar-term formula is exact in milliseconds: 525948.76 minutes is
    31556925600 ms.
  - BaziForm.StartAge rounds the exact distance half up; it does not model
    the rounding of the floating-point division.
  - BaziForm.LuckOffsetDays is the exact floor of the distance in days
    times 365.25/3.
  - NaN is not a chart value.
- Clock.AddDays is defined for a non-negative number of days only; the
  source only adds one day.
- The array sort in `calculatePillars` is not modelled as an algorithm.
  `BaziForm.JieTermsAscending` proves that the collected terms are already
  strictly ascending, so the sort leaves them in place.
- The unused `luckStartDate` (BaziForm.tsx line 68) is not modelled.
- `toLocaleDateString` is modelled as the Chinese long form
  `Y年M月D日`.
- The remaining form and page code is not modelled: `handleChange`,
  `handleSubmit`, the `useEffect` trigger, `selectionPreview` and the JSX.
- `getTimeRangeByHour`, `isValidDate` and `formatDateTime` are text
  formatting only, and are not modelled.
- The store's zustand persistence plumbing is not modelled: JSON storage,
  partial-state merging on load and logging. `partialize` and the
  rehydration callback are modelled.
- Store.AppStore.UpdateSettings runs synchronously. The source's async
  wrapper awaits nothing before the outcome is known.
- Store.Updated treats a field explicitly set to `undefined` in the patch
  as absent.
- The `Settings` and `Master` types are not part of this model. Their
  fields are those of the defaults in `store.ts`; the legacy
  `openaiApiKey` is an optional extra field.
- MasterConfig.IsValidApiKeyFormat counts the key's length in Unicode code
  points, where `.length` counts UTF-16 code units: a key with characters
  outside the Basic Multilingual Plane is judged by a smaller length (for
  example `AIza` and eight U+1F600 has length 20 in the source, 12 here).
  The same holds for `length` and indices throughout the model.
- GanZhi.Wuxing returns 土 for every text that is not a listed stem or
  branch. In the source a key inherited from `Object.prototype`
  (`toString`, `constructor`, ...) yields that function, which is truthy;
  the callers pass only stems and branches.
- LifeKlineService.NormalizePillar reports a non-string pillar with a
  fixed TypeError message; the exact text of the engine's message is not
  modelled.
- The life chart's rendering is not modelled: tooltip, candle geometry,
  colours and animation. The `isUp` rule behind them is modelled.
- LiuYao.YaoName appends the text `undefined` for a position outside
  1..6, as string concatenation in the source would. Callers pass only
  1..6.
