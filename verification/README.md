# League of Legends pick-rate data assembly, modelled in Dafny

The project models the pipeline that builds one flat modelling table. Its inputs are per-champion
lists (names, release dates, skin counts, last-changed patches) and three per-champion-per-day
rate tables (win, ban and pick rates). The table it builds has six columns, and the pick rate is
the modelling target.

The model has three parts:

- **The processing step** (`ProcessLeagueData`, `process.dfy`):
  - the patch count since each champion's last change, counted against the newest-first list of
    47 patches from 9.18 back to 7.22;
  - the side-by-side combination of the date, win, ban and pick columns;
  - the stacking of the static table once per day;
  - the champion age in whole days.
- **The assembly script** (`Pipeline`, `pipeline.dfy`):
  - `num_days`;
  - the renamed static table, repeated day by day;
  - the column-wise join with the rates;
  - the added `champion_age` column;
  - the six-column projection.

  The script is modelled as two methods for its two halves, `LeagueData` and `TidyData`, and one
  method, `AssembleTidyData`, that runs both. Every exception the script can raise is a
  `Failure`, in the order the script would raise it. On success, row `k` of the table holds
  champion `k mod R` (for `R` champions) on the day of rate row `k`: its age that day, its patch
  count, its skin count, and that row's three rates.
- **The pure string handling of the scraper** (`ScrapeLeagueData`, `scrape.dfy`):
  - the zero-padded scrape date;
  - the file stem made from that date;
  - champion-name trimming;
  - the four-character patch token cut out of a link;
  - the two in-place loops that strip `v` and spaces from the scraped patches.

Supporting modules:

- `Frames` holds a column-oriented model of the pandas frames. It has an index, column names and
  columns, and only the operations the pipeline uses.
- `Dates` holds proleptic Gregorian day numbers.
- `Strings` holds Python's `str.split(sep)[0]`, `str.replace(c, '')`, slicing and `str(n)`.
- `Lists` holds `list.index` and repeated lists.
- `Arith` holds one fact about multiplication and one about division.
- `Outcomes` holds `Option` and `Result`.

Exceptions become `Result` values. The `Error` cases are:

- `MissingColumn`: a `KeyError`;
- `UnknownPatch`: the `ValueError` of `list.index`;
- `NothingToConcatenate`: the `ValueError` of `pd.concat([])`;
- `UnparseableDate`: a date parse error;
- `DivisionByZero`: a `ZeroDivisionError`.

The clock reading in `get_scrape_date` becomes the `year`, `month` and `day` parameters.

## Model

| member | source | states |
|---|---|---|
| Lists.FirstIndex | src/process_league_data.py:36 | `list.index`: none exactly when the value is absent; otherwise a position holding the value with no earlier occurrence |
| Lists.CycleAt | src/process_league_data.py:92-97 | element `k` of `n` stacked copies of a list is element `k mod len` of the list |
| ProcessLeagueData.PatchesNewestFirst | src/process_league_data.py:30-33 | the patch list has 47 entries, each released after every entry that follows it, and none repeated |
| ProcessLeagueData.CountsSinceChange | src/process_league_data.py:36 | succeeds exactly when every patch is listed; then gives one count per patch, in order, each one more than the patch's first position (so 1..47); otherwise fails naming the first unlisted patch |
| ProcessLeagueData.PatchesSinceChange | src/process_league_data.py:30-36 | `get_patches_since_change` succeeds exactly when every patch is in the 47-entry list; then each champion gets a count `c` in 1..47 with entry `c` of the list being its patch; otherwise it raises `ValueError` for a patch of the input that is not listed |
| ProcessLeagueData.CountOfPosition | src/process_league_data.py:36 | in a list without repetitions, the entry at position `i` counts `i + 1` |
| ProcessLeagueData.PatchCount | src/process_league_data.py:30-36 | the patch at position `i` of the list counts `i + 1` |
| ProcessLeagueData.CurrentPatchCountsOne | src/process_league_data.py:30-36 | patch 9.18 counts 1 |
| ProcessLeagueData.NewerCountsFewer | src/process_league_data.py:36 | in any vocabulary ordered newest first, a newer identifier counts strictly fewer than an older one |
| ProcessLeagueData.NewerPatchCountsFewer | src/process_league_data.py:30-36 | of two listed patches, the newer one has the strictly smaller count |
| ProcessLeagueData.SameCountSamePatch | src/process_league_data.py:30-36 | two champions have equal counts exactly when they were last changed in the same patch |
| ProcessLeagueData.CombineRateData | src/process_league_data.py:62-68 | fails with the first missing column of `date`, `winrate`, `banrate`, `pickrate`; otherwise gives those four columns, in that order, on the win table's index, with row `i` taken from row `i` of each source table |
| ProcessLeagueData.CombineUsesOnlyRateColumns | src/process_league_data.py:62-68 | changing anything in the ban or pick tables other than their rate columns, their dates included, leaves the combined table unchanged |
| ProcessLeagueData.RepeatEachDay | src/process_league_data.py:92-97 | fails exactly when `num_days <= 0`, because the list of copies is empty; otherwise keeps the column names, relabels rows 0.., has `num_days * R` rows, and makes each column `num_days` copies of the static column, so row `k` is static row `k mod R` |
| ProcessLeagueData.ToDatetimes | src/process_league_data.py:121-122 | succeeds exactly when every cell is a date, giving the date of each cell; otherwise names the first cell that is not a date |
| ProcessLeagueData.ChampAge | src/process_league_data.py:121-125 | succeeds exactly when both lists hold dates; position `i` is the data date's day number minus the release date's; when both lists are bad, the release-date error is the one raised |
| ProcessLeagueData.ToDatetime | src/process_league_data.py:121-122 | one cell is a date exactly when it is text that parses as an existing date, and the date it gives is valid |
| ProcessLeagueData.AgeOnReleaseDay | src/process_league_data.py:125 | a champion is 0 days old on its release date |
| ProcessLeagueData.AgeSwapNegates | src/process_league_data.py:125 | swapping the two date lists negates every age |
| ProcessLeagueData.AgeOnNextDay | src/process_league_data.py:125 | data from the day after the release gives age 1 |
| ProcessLeagueData.ParseExample2016 | src/process_league_data.py:121-122 | '2016-01-01' and '2016-01-11' read as those dates |
| ProcessLeagueData.AgeExamples | src/process_league_data.py:121-125 | ages are not clamped: 10 days one way and -10 the other |
| Dates.ParseIsoDate | src/process_league_data.py:121-122 | a parsed string has the shape YYYY-MM-DD and names an existing date; which date it names is pinned by `ScrapeLeagueData.ParsedDateRoundTrip` and `ScrapeDateRoundTrip` |
| Dates.ParseRejectsMissingDay | src/process_league_data.py:121-122 | '2019-02-30' is refused although it has the right shape |
| Dates.ParseRejectsMonth13 | src/process_league_data.py:121-122 | '2019-13-01' is refused |
| Dates.ParseLeapDay | src/process_league_data.py:121-122 | '2020-02-29' reads as 29 February 2020 |
| Dates.DayNumber | src/process_league_data.py:125 | a date's day number lies within its own year's range of day numbers; with `NextDay` and `DayNumberOrder`, differences of day numbers count whole days |
| Dates.NextDay | src/process_league_data.py:125 | the day after a valid date is valid and has the next day number |
| Dates.DayNumberOrder | src/process_league_data.py:125 | a later date has a strictly larger day number, so ages order dates correctly |
| Frames.Get | src/process_league_data.py:62-65 | `df[name]` fails with `KeyError` exactly when the name is not a column; otherwise gives that column on the frame's index |
| Frames.ConcatSeries | main.py:96 | `pd.concat(series, axis=1)` gives one column per series, in order, on the shared index |
| Frames.Rename | main.py:97-100 | assigning `columns` changes the names only |
| Frames.Join | main.py:106 | `pd.concat([a, b], axis=1)` on one index gives the columns of `a` and then those of `b` |
| Frames.StackRows | src/process_league_data.py:97 | `pd.concat(frames, ignore_index=True)` fails exactly on an empty list; otherwise the index is relabelled 0.. and each column is the frames' columns one after the other |
| Frames.StackCopiesColumn | src/process_league_data.py:92-97 | stacking `n` copies of one frame gives `n` copies of each column |
| Frames.SetColumn | main.py:110 | `df[name] = values` appends a new name as the last column, or overwrites an existing name's column where it stands; every other column is unchanged, and `df[name]` then reads the new values |
| Frames.Select | main.py:119 | `df[list]` fails exactly when a label is missing, naming a missing label; otherwise gives the listed columns, in the listed order, on the same index |
| Frames.SelectDistinct | main.py:113-119 | with unique names, `df[list]` takes for each label the column at that label's position |
| Pipeline.NumDays | main.py:86 | fails with `ZeroDivisionError` exactly when there are no champions; otherwise `q * R <= rows < (q + 1) * R`, it is exact when `R` divides the row count, and `q >= 1` exactly when there is at least one row per champion |
| Pipeline.StaticTable | main.py:95-100 | the static table has the columns champion, release_date, num_skins, patches_since_change, in that order, with one row per champion |
| Pipeline.StaticPerDay | main.py:95-103 | the static table repeated for each day has `num_days * R` rows, relabelled 0.., and each column is the per-champion list repeated once per day; no days is the empty-concat error |
| Pipeline.LeagueData | main.py:86-106 | fails exactly as the script's first half would, in its order; otherwise the eight columns are the four repeated per-champion lists followed by the date and the three rates, on the rate tables' index |
| Pipeline.TidyData | main.py:109-119 | fails exactly when the release dates or the data dates hold a non-date, reporting the release dates first; otherwise the table is exactly the age, patches, skins, win, ban and pick columns |
| Pipeline.AssembleTidyData | main.py:86-119 | the whole script: each error in the order the script raises it; on success six named columns on the rate tables' index, and every row matches champion `k mod R` on day row `k` |
| Pipeline.TidyRows | main.py:103-119 | the six columns, built from repeated per-champion lists and rate columns, match row by row |
| Pipeline.AgeAt | main.py:109 | row `k` of the ages is champion `k mod R`'s age on the date of row `k` |
| Pipeline.RepeatedCountAt | main.py:103 | row `k` of a repeated per-champion count is champion `k mod R`'s count |
| Pipeline.DynamicColumns | main.py:89 | when all four rate columns are present, the combined table is exactly those four columns |
| Pipeline.LeagueColumns | main.py:109 | in the joined table, `df['release_date']` and `df['date']` are the 2nd and 5th columns, and `champion_age` is not yet a column |
| Pipeline.TidyColumns | main.py:110-119 | after adding the age, `df[model_data]` is the age, patches, skins, win, ban and pick columns |
| Pipeline.ToDatetimesAppend | main.py:109 | parsing two lists one after the other succeeds exactly when both parse, and a bad cell in the first list is the one reported |
| Pipeline.RepeatedDates | main.py:103-109 | a date list repeated on `n >= 1` days parses exactly when the list does, with the same first bad cell |
| Strings.DecimalRoundTrip | src/scrape_league_data.py:33-35 | `str(n)` is all digits and reads back as `n` |
| Strings.DecimalString | src/scrape_league_data.py:33-35 | `str(n)` is all digits, has one digit exactly when `n < 10`, and has no leading zero |
| Strings.DigitsRoundTrip | src/scrape_league_data.py:33-35 | every numeral without a leading zero is `str` of its own value, the converse of `DecimalRoundTrip` |
| Strings.SplitHead | src/scrape_league_data.py:72-73 | `s.split(sep)[0]` is a prefix of `s` with no occurrence of `sep` inside it, and ends where `s` ends or where `sep` first occurs; `SplitHeadFirst` shows these clauses fix the result |
| Strings.SplitHeadFirst | src/scrape_league_data.py:72-73 | any prefix that ends at the end of `s` or at an occurrence of `sep`, with no occurrence inside it, is `s.split(sep)[0]`: the text before the first separator is unique |
| Strings.RemoveAll | src/scrape_league_data.py:223 | `s.replace(c, '')` holds no `c` and is no longer than `s` |
| Strings.RemoveAllCounts | src/scrape_league_data.py:427 | `s.replace(c, '')` drops every `c` and keeps every other character as often as it occurs |
| Strings.RemoveSeparators | src/scrape_league_data.py:223 | removing the separator from `y-m-d` gives `ymd` when the parts hold none |
| Strings.Slice | src/scrape_league_data.py:419 | a Python slice is never longer than the string |
| ScrapeLeagueData.PaddedPart | src/scrape_league_data.py:38-41 | a padded month or day is all digits, reads back as the number, has two characters below 100, and is left alone from 10 up |
| ScrapeLeagueData.ZeroPad | src/scrape_league_data.py:38-41 | padding a non-empty part gives at least two characters, and padding a numeral keeps its value |
| ScrapeLeagueData.ZeroPadRoundTrip | src/scrape_league_data.py:38-41 | a two-digit month or day naming 1..99, read and padded again, is the same two characters |
| ScrapeLeagueData.ScrapeDate | src/scrape_league_data.py:31-44 | for a four-digit year, month 1..12 and day 1..31: ten characters, dashes at 4 and 7, the year, then the padded month and day |
| ScrapeLeagueData.ScrapeDateRoundTrip | src/scrape_league_data.py:31-44 | reading the scrape date back gives the day it was made |
| ScrapeLeagueData.ParsedDateRoundTrip | src/scrape_league_data.py:31-44 | text that parses as a date with a four-digit year is exactly the text `get_scrape_date` writes for that date, so formatting and parsing are inverse |
| ScrapeLeagueData.FileStem | src/scrape_league_data.py:223 | the file stem holds no dash and is no longer than the date |
| ScrapeLeagueData.ScrapeFileStem | src/scrape_league_data.py:223 | the stem of a scrape date is exactly YYYYMMDD: eight digits |
| ScrapeLeagueData.TrimName | src/scrape_league_data.py:72-73 | the trimmed name is a prefix of the name |
| ScrapeLeagueData.TrimNameCut | src/scrape_league_data.py:72-73 | the trimmed name holds no comma and no title, and stops at the end, at the first comma, or at the first non-breaking space followed by 'the' |
| ScrapeLeagueData.TrimNames | src/scrape_league_data.py:71-73 | every name of the column is trimmed, in order |
| ScrapeLeagueData.PatchToken | src/scrape_league_data.py:419 | `str(link)[-8:-4]` has at most four characters: the four before the last four, fewer for a short link, none for four or fewer |
| ScrapeLeagueData.NormalisePatch | src/scrape_league_data.py:426-429 | the normalised patch holds no `v` and no space, and is no longer |
| ScrapeLeagueData.NormaliseCounts | src/scrape_league_data.py:426-429 | every character other than `v` and space is kept as often as it occurs |
| ScrapeLeagueData.NormaliseIdempotent | src/scrape_league_data.py:426-429 | normalising twice is normalising once |
| ScrapeLeagueData.NormaliseKeepsOrder | src/scrape_league_data.py:426-429 | normalisation works piece by piece and keeps any other character, so the kept characters stay in order |
| ScrapeLeagueData.PatchTokenVersionExample | src/scrape_league_data.py:419-427 | a '>v9.18</a>' link gives 9.18 |
| ScrapeLeagueData.PatchTokenSpaceExample | src/scrape_league_data.py:419-429 | a 'Patch 9.9</a>' link gives 9.9 |
| ScrapeLeagueData.HotfixPatchesNeverScraped | src/scrape_league_data.py:419-429 | a scraped patch has at most four characters, so it is never the hotfix entries 8.24b or 7.24b of the patch list |
| ScrapeLeagueData.NormalisePatches | src/scrape_league_data.py:426-429 | the two loops overwrite every entry of the list with its normalised patch |

## Left out

- The scraping itself is not modelled: the browser automation, `pd.read_html`, waits and clicks. It is network and browser I/O.
- CSV reading and writing is not modelled, and neither are the loaders main.py calls. Their results are the method parameters.
- `datetime.now()` is not modelled. `ScrapeDate` takes the year, month and day as parameters.
- src/get_league_data.py and src/get_champion_names.py are older revisions that main.py no longer imports; they are not part of this model.
- src/model_functions.py (`adjusted_r2`) and the percentage-to-float rounding of the rates are floating-point code. Rates are carried through the tables as opaque `Float` cells.
- Pipeline.AssembleTidyData: requires every table on one index, the win table's being 0..n-1. With unequal indexes, pandas `concat(axis=1)` outer-joins and pads with NaN. That padding is not modelled.
- Pipeline.AssembleTidyData: requires the rate rows to be whole days (a multiple of the champion count). With a partial day, `int(rows / R)` drops the remainder and the join pads the static columns with NaN. That case is not modelled.
- Pipeline.LeagueData: requires the same single index and whole days as `AssembleTidyData`, for the same reason.
- ProcessLeagueData.CombineRateData: requires the three tables to share one index. That is the positional alignment the script relies on, and NaN padding is not modelled.
- Pipeline.NumDays: models `int(rows / R)` as exact integer division. Float rounding of the true division could only matter for row counts far beyond any table here.
- Dates.ParseIsoDate: reads only the 'YYYY-MM-DD' layout documented for the release and data dates (src/process_league_data.py:108-110). pandas reads '2019-2-3' as 3 February 2019, and accepts other layouts too; the model refuses them.
- ProcessLeagueData.ToDatetimes: reads only 'YYYY-MM-DD' text. pandas also accepts other layouts, and it rejects years outside 1677..2262, which the model allows.
- ProcessLeagueData.ChampAge: the age is a difference of proleptic Gregorian day numbers. Time of day and time zones do not arise, because the dates have none.
- ScrapeLeagueData.PatchToken: the link is given as text. Choosing the first matching link in the page history (`history[0]`) is page parsing. An empty history's `IndexError` is not modelled.
- ScrapeLeagueData.NormalisePatches: models the list as an array of strings overwritten in place. The Python loops also rebind `patch` from `enumerate`, which has no effect on the result.
- ScrapeLeagueData.TrimName: no concrete names are evaluated. The properties are stated for all names.
- Frames: the series names that pandas carries into the static table are not modelled. The champion-name series read from CSV is named 0 and the patch series has no name; the column rename at main.py:97-100 discards them all. The in-place column assignment at main.py:110 is modelled as rebinding the frame, because `league_df` is not shared.
