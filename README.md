# Icebreaker analytics: a verified model of the scrapers' decisions and the matchup score

`icebreaker_analytics.py` predicts the winner of an NHL game between two teams. For each team it
collects twelve statistics from four web pages and one JSON API. It combines them into a weighted
team score and then compares the two scores. This project models the decisions the program makes
once the pages are in hand:

- which element, cell, row or entry each extractor reads;
- which fallback it takes;
- what it records or leaves out;
- how the five results are merged into a team record;
- when the score formula is applied;
- how the winner and the win probability are chosen.

Fetching is not modelled. Each loaded page becomes a plain datatype of the texts the extractor looks
at: `Edge.EdgePage`, `SavePct.SvPage`, `TeamStats.StatsPage`, `Wins.StandingsTable` and
`LastTen.ApiResponse`. A page that failed to load is `None`. The program's `try/except` makes that
case yield an empty dictionary.

Modules, one per file:

- `Base`: `Option`, `Result`, and `FirstWhere`, the index of the first element satisfying a predicate.
- `Strings`: the Python string operations the program uses, over `seq<char>`: `strip`, `in`,
  `startswith`, `isdigit`, `replace`, `split`, `upper`, the first match of `\d+`, `float` (as
  `ParseDecimal`) and `int` (as `ParseInt`).
- `Fields`: the keys of a team record, with the keys each extractor may produce.
- `Edge`, `SavePct`, `TeamStats`, `Wins`, `LastTen`: the five extractors. Each has a pure
  function saying what the extractor yields. Each also has a method that follows the source's
  loops, `break`s and `return`s statement by statement and is proved equal to that function.
- `Team`: `scrape_team`, the case-insensitive lookup and the merge.
- `Scoring`: `calculate_team_score`, its guard and its formula over exact reals.
- `Compare`: `compare_teams`, winner selection and the win probability.

## Model

| member | source | states |
|---|---|---|
| Edge.GamesPlayedText | icebreaker_analytics.py:51-63 | Games played is the stripped text of the first of the first five candidates whose second ancestor mentions "GP" or "Games". It is absent exactly when none of those five does. |
| Edge.GamesPlayedIgnoresLater | icebreaker_analytics.py:53 | Candidates after the fifth never change the result. |
| Edge.PickGamesPlayed | icebreaker_analytics.py:51-63 | The candidate loop with its `break` and its skipped lookups computes GamesPlayedText. |
| Edge.ZoneValues | icebreaker_analytics.py:69-74 | Every collected zone text qualifies (non-empty, holds `%` or is digits once `.` is removed), and there are no more of them than elements. |
| Edge.ZoneValuesAppend | icebreaker_analytics.py:70-74 | Collection keeps page order: the values of a concatenation are each part's values, one after the other. |
| Edge.ZoneValuesComplete | icebreaker_analytics.py:70-74 | Every element whose stripped text qualifies is collected. |
| Edge.ZoneValuesSound | icebreaker_analytics.py:70-74 | Every collected value is the stripped text of some element. |
| Edge.CollectZoneValues | icebreaker_analytics.py:69-74 | The collecting loop computes ZoneValues. |
| Edge.StripPercent | icebreaker_analytics.py:80-83 | Both branches of the `%` test amount to removing every `%`. |
| Edge.ScanKeepsFound | icebreaker_analytics.py:118-127 | The text-search fallback never overwrites a low-slot or crease count it already has. |
| Edge.ScanFillsLowSlotFromFirst | icebreaker_analytics.py:118-125 | A missing low-slot count is filled from the first node mentioning "Low Slot" whose parent holds a digit. The count is that parent's first digit run. |
| Edge.ScanLabelNodes | icebreaker_analytics.py:118-127 | The fallback loop, including nodes whose parent lookup raised, computes Scan. |
| Edge.DirectLookupWins | icebreaker_analytics.py:99-125 | A count found by the direct id lookup is the one used, whatever the fallback sees. |
| Edge.CountHighDanger | icebreaker_analytics.py:96-127 | Direct lookups first, and the fallback only when one of them failed, compute HighDangerCounts. |
| Edge.EdgeFields | icebreaker_analytics.py:41-142 | The panel yields only games played, the two zone times and high-danger shots. A page that failed to load yields nothing. |
| Edge.EdgeGamesPlayed | icebreaker_analytics.py:51-63 | Games played is recorded exactly when a candidate qualified, with that candidate's text. |
| Edge.EdgeZoneTimes | icebreaker_analytics.py:77-90 | Both zone times are recorded exactly when at least three values qualified. Defensive is the 1st value and offensive the 3rd, each with `%` removed. The neutral 2nd value is skipped. |
| Edge.EdgeHighDanger | icebreaker_analytics.py:129-130 | High-danger shots are recorded exactly when both counts were found, and read back as their sum. |
| Edge.ScrapeEdge | icebreaker_analytics.py:41-142 | The three sections run in turn and compute EdgeFields. |
| SavePct.FirstPlausible | icebreaker_analytics.py:166-173 | A cell taken from a row starts with `.`, has at most five characters and reads as a number in [0.800, 0.950]. |
| SavePct.Fallback | icebreaker_analytics.py:162-177 | The fallback value, when there is one, is plausible in the same sense. |
| SavePct.FallbackNone | icebreaker_analytics.py:162-177 | The fallback finds nothing exactly when no cell of any row is plausible. |
| SavePct.FallbackFirst | icebreaker_analytics.py:163-177 | The value comes from the first row holding a plausible cell, and is that row's first plausible cell. |
| SavePct.SortedCellDecides | icebreaker_analytics.py:156-161 | When the sorted cell exists the rows are never consulted. The value is recorded exactly when the cell's stripped text starts with `.` or `0.`, and what is recorded is that stripped text. |
| SavePct.SavePctShape | icebreaker_analytics.py:156-177 | A recorded value always starts like a fraction. One from the fallback also reads as a number in [0.8, 0.95]. |
| SavePct.ScanRow | icebreaker_analytics.py:166-175 | The cell loop with its `break` computes FirstPlausible. |
| SavePct.ScanRows | icebreaker_analytics.py:162-177 | The row loop, which stops once the key is present, computes Fallback. |
| SavePct.SavePctFields | icebreaker_analytics.py:145-184 | The extractor yields only the save percentage, and nothing for a page that failed to load. |
| SavePct.ScrapeSavePct | icebreaker_analytics.py:145-184 | The extractor computes SavePctFields. |
| TeamStats.Classify | icebreaker_analytics.py:203-212 | The `elif` chain gives a header at most one key, and only one of the five statistics keys. A key is chosen only when no earlier test in the chain matched. A header gets no key exactly when it holds none of the six fragments. |
| TeamStats.IndicesPresent | icebreaker_analytics.py:202-212 | A key has a column exactly when some header names it. |
| TeamStats.IndicesLast | icebreaker_analytics.py:202-212 | A key's column is the last header naming it. |
| TeamStats.DistinctColumns | icebreaker_analytics.py:202-212 | Two different keys never share a column. |
| TeamStats.BuildIndices | icebreaker_analytics.py:201-212 | The header loop computes Indices. |
| TeamStats.RowFieldsValue | icebreaker_analytics.py:218-227 | A key is read from a row exactly when it has a column inside the row. Its value is that cell, stripped. |
| TeamStats.ReadRow | icebreaker_analytics.py:218-227 | The five guarded assignments compute RowFields. |
| TeamStats.StatsFieldsValue | icebreaker_analytics.py:214-228 | The extractor's fields come from the first row with data cells, at each key's column. |
| TeamStats.LaterRowsIgnored | icebreaker_analytics.py:215-228 | Rows after the first row with data cells never matter. |
| TeamStats.StatsFields | icebreaker_analytics.py:187-239 | A page that failed to load yields nothing. |
| TeamStats.ScrapeTeamStats | icebreaker_analytics.py:187-239 | The extractor computes StatsFields. |
| Wins.WinsColumn | icebreaker_analytics.py:258-262 | The wins column is the first header that reads exactly `W` or `Wins` once stripped. It is absent exactly when no header does. |
| Wins.FindWinsColumn | icebreaker_analytics.py:258-262 | The header loop computes WinsColumn. |
| Wins.FindRow | icebreaker_analytics.py:264-272 | The team's row is the first whose text holds the initials or the first word of the name. Every earlier row matches neither. "Not found" means no row matches. An error is raised only when the name has no first word. |
| Wins.WinsFields | icebreaker_analytics.py:242-279 | The extractor yields only wins, and nothing for a page that failed to load. |
| Wins.WinsAreCounts | icebreaker_analytics.py:269-271 | A recorded win count is a digit string, and `float` reads it back as the number it spells. |
| Wins.WinsFromMatchedRow | icebreaker_analytics.py:264-272 | A recorded count is the stripped cell of the matched row in the wins column. Conversely, when the matched row has a wins cell whose stripped text is all digits, the count is recorded. |
| Wins.SharedFirstWordPicksOtherTeam | icebreaker_analytics.py:266 | Matching on the first word of the name picks another team's row when the initials are absent. For example, "New York" with initials "NYR" takes the "New Jersey" row listed before it. |
| Wins.ScrapeWins | icebreaker_analytics.py:242-279 | The row loop, with the short-circuit `or`, the `break` and the raised error, computes WinsFields. |
| LastTen.FindEntry | icebreaker_analytics.py:299-303 | The entry found has exactly the initials as abbreviation. None is found exactly when no entry has them. |
| LastTen.LastTenRecord | icebreaker_analytics.py:306-311 | The record is the display value of the first "Last Ten Games" statistic whose value is non-empty and holds `-`. None is found exactly when no such statistic exists. |
| LastTen.LastTenIsCount | icebreaker_analytics.py:312-313 | The extractor yields only the last-ten wins. They form a digit string that `float` reads back, because the part before the first `-` of a usable record cannot be negative. |
| LastTen.RecordWins | icebreaker_analytics.py:311-313 | A record "n-rest" yields n itself. |
| LastTen.LaterGroupsIgnored | icebreaker_analytics.py:293-318 | Once a group holds the team, later groups never matter. |
| LastTen.ReadLastTen | icebreaker_analytics.py:304-318 | The statistics loop, with its early `return`s and the error from `int`, computes RecordFields. |
| LastTen.SearchEntries | icebreaker_analytics.py:299-303 | The entry loop of one group computes FindEntry. |
| LastTen.FindTeamEntry | icebreaker_analytics.py:293-303 | The group loop, skipping groups without standings or entries, finds the first entry of the team in response order. |
| LastTen.LastTenFields | icebreaker_analytics.py:282-325 | A failed request yields nothing. |
| LastTen.ScrapeLastTen | icebreaker_analytics.py:282-325 | The extractor computes LastTenFields. |
| Team.FieldsFromOwnExtractor | icebreaker_analytics.py:344-351 | The extractors own disjoint keys, so the `update`s lose nothing. Every field of the record is exactly what its own extractor found. |
| Team.LookupIgnoresCase | icebreaker_analytics.py:330-334 | Initials are upper-cased before the lookup, so their case never matters. Unknown initials give no record. The record carries the upper-cased initials. |
| Team.CountsAreDigits | icebreaker_analytics.py:344-351 | Wins and last-ten wins in the merged record are digit strings. |
| Team.ScrapeTeam | icebreaker_analytics.py:328-373 | The lookup and the five extractors in order compute TeamRecordOf. |
| Scoring.SavePctBranchesAgree | icebreaker_analytics.py:398-402 | Both branches of the `startswith('.')` test read the same number. A missing save percentage reads as 0. |
| Scoring.ScoreGuard | icebreaker_analytics.py:378-413 | The formula is used exactly when all twelve inputs read and games played, goals against and defensive zone time are all nonzero; otherwise the score is 0.0. In particular it is 0.0 whenever one of those three is zero or missing from the record. |
| Scoring.MissingReadsAsZero | icebreaker_analytics.py:380-398 | A missing field scores as if it held "0". |
| Scoring.MoreWinsScoreHigher | icebreaker_analytics.py:405 | More wins over the same games played raise the score by the wins term's share. |
| Scoring.MoreGoalsAgainstScoreLower | icebreaker_analytics.py:406 | More goals against, with goals for positive, lower the score. |
| Scoring.ScoreNonNegative | icebreaker_analytics.py:405-407 | With non-negative inputs and positive divisors the score is non-negative. |
| Compare.WinnerSelection | icebreaker_analytics.py:446-469 | The winner never scores below the loser. The first team wins only on a strictly higher score, and a tie goes to the second team. The win probability is the winner's score over the loser's, times 100, minus 50, so the mirrored ratio at lines 467-469 is never used. Over the unrounded scores of this model, the comparison fails by division by zero exactly when the losing score is zero. |
| Compare.ProbabilityAtLeastFifty | icebreaker_analytics.py:463-469 | With a positive losing score the win probability is at least 50, and exactly 50 on a tie. |
| Compare.OrderIrrelevantUnlessTied | icebreaker_analytics.py:446-461 | Swapping the two teams changes nothing unless their scores are equal. |
| Compare.UnknownTeamNoResult | icebreaker_analytics.py:424-433 | The comparison reports an unknown team exactly when either team's initials are unknown. |
| Compare.SelectWinner | icebreaker_analytics.py:446-469 | The assignments of the two branches, then the ratio, compute Decide. |
| Compare.CompareTeams | icebreaker_analytics.py:416-469 | Both passes, both scores and the winner selection compute CompareOutcome. |
| Strings.FirstDigitRun | icebreaker_analytics.py:101-103 | The first match of `\d+` is absent exactly when the text holds no digit. |
| Strings.FirstDigitRunValue | icebreaker_analytics.py:101-103 | When present, the first match of `\d+` is the number spelled by the maximal digit run that starts at the first digit of the text. |
| Strings.Upper | icebreaker_analytics.py:330 | `upper` keeps the length, maps each character, and leaves no lower-case ASCII letter. |
| Strings.BeforeFirst | icebreaker_analytics.py:312 | `split("-")[0]` is the longest prefix without `-`. |
| Strings.ParseIntOfNat | icebreaker_analytics.py:312-313 | `int` reads back the decimal text of any count. |

## Left out

- Browser and HTTP work is not modelled: `setup_driver`, `driver.get`, the sleeps, the waits, CSS and XPath selectors, `requests.get` and JSON decoding. Each page is the datatype of texts the extractor reads, and a page that failed to load is `None`. A timing-dependent page is one fixed value.
- `load_team_data` (the Excel workbook), `main`, `input` and every `print` are I/O and are not modelled. The team table is a `map` parameter.
- Edge.EdgeFields: an exception raised inside one section after some fields were written is not modelled. The element texts are given, so the only failures modelled are the lookups the source wraps one by one.
- Scoring.TeamScore: `round(score, 2)` is not modelled, and the score is an exact `real` rather than an IEEE double.
- Compare.Decide: `round(final_score, 2)` is not modelled. Because the team scores are not rounded, two scores equal after rounding count as different here, so the tie rule can pick differently.
- Compare.WinnerSelection: division by zero is promised only for a losing score of exactly zero. In the program `calculate_team_score` rounds to two decimals, so any losing score below 0.005 in magnitude also rounds to 0.0 and raises `ZeroDivisionError`. Here the same scores give a finite, very large probability.
- Strings.ParseDecimal: `float` is modelled for an optional sign, ASCII digits, at most one `.` and surrounding whitespace. Exponents, `inf`, `nan`, underscores and non-ASCII digits are not accepted.
- Strings.ParseInt: `int` is modelled for an optional sign and ASCII digits. Underscores and non-ASCII digits are not accepted.
- Strings.IsDigits: `isdigit` is modelled for ASCII digits only.
- Strings.FirstDigitRun: `\d` in Python 3 matches every Unicode decimal digit, and `int` reads them. Here only ASCII digits form a run, so a count written in other digits is not found.
- Strings.Upper: `upper` is modelled for ASCII letters only. Python also maps non-ASCII letters, and can change the length ('ß' becomes 'SS').
- JSON values of an unexpected type (a `displayValue` that is not a string, say) are not modelled. A missing `abbreviation`, `name` or `displayValue` reads as "".
- `scrape_team` puts `team` and `initials` into the same dictionary as the statistics. Here they are fields of `Team.TeamRecord`; no extractor produces those keys, so nothing is lost.
- The extra scraping, browser sessions and printing in `compare_teams` are side effects that are not modelled. The outcome is a `Result`: `None` becomes `Err(TeamNotFound)` and the uncaught `ZeroDivisionError` becomes `Err(ZeroDivision)`.
- The crease half of the high-danger fallback has no lemma of its own matching Edge.ScanFillsLowSlotFromFirst. It is covered by Edge.ScanKeepsFound and by the method's equality with Edge.Scan.
