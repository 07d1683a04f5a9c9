/** The assembly script: from the per-champion lists and the daily rate tables to the six-column
    modelling table. */
module Pipeline {
  import opened Outcomes
  import opened Lists
  import opened Arith
  import opened Frames
  import opened ProcessLeagueData

  /** The columns of the static table, after renaming. */
  const STATIC_COLUMNS: seq<string> := ["champion", "release_date", "num_skins", "patches_since_change"]

  /** The columns kept for modelling, in order; the pick rate is the target. */
  const MODEL_COLUMNS: seq<string> :=
    ["champion_age", "patches_since_change", "num_skins", "winrate", "banrate", "pickrate"]

  /** `int(rows / num_champs)`: the number of days of rates, with true division truncated toward
      zero; no champions raises `ZeroDivisionError`. */
  function NumDays(rows: nat, numChamps: nat): (r: Result<int, Error>)
    ensures r.Failure? <==> numChamps == 0
    ensures r.Failure? ==> r.error == DivisionByZero
    ensures r.Success? ==> 0 <= r.value && r.value * numChamps <= rows < (r.value + 1) * numChamps
    ensures r.Success? && rows % numChamps == 0 ==> r.value * numChamps == rows
    ensures r.Success? ==> (r.value >= 1 <==> rows >= numChamps)
  {
    if numChamps == 0 then Failure(DivisionByZero)
    else
      var q := rows / numChamps;
      assert rows == q * numChamps + rows % numChamps;
      assert (q + 1) * numChamps == q * numChamps + numChamps;
      assert q >= 1 ==> q * numChamps >= numChamps by {
        if q >= 1 {
          MulAtLeast(q, numChamps);
        }
      }
      Success(q)
  }

  function StrCells(s: seq<string>): (c: seq<Cell>)
    ensures |c| == |s| && forall i :: 0 <= i < |s| ==> c[i] == Str(s[i])
  {
    seq(|s|, i requires 0 <= i < |s| => Str(s[i]))
  }

  function IntCells(s: seq<int>): (c: seq<Cell>)
    ensures |c| == |s| && forall i :: 0 <= i < |s| ==> c[i] == Int(s[i])
  {
    seq(|s|, i requires 0 <= i < |s| => Int(s[i]))
  }

  /** The static table: the champion names, release dates, skin counts and patch counts side by
      side, one row per champion, with the columns renamed. */
  function StaticTable(champNames: seq<string>, releaseDates: seq<string>, numSkins: seq<int>,
                       patchesSinceChange: seq<int>): (f: Frame)
    requires |releaseDates| == |champNames| && |numSkins| == |champNames| && |patchesSinceChange| == |champNames|
    ensures Valid(f) && f.names == STATIC_COLUMNS && f.index == RangeIndex(|champNames|)
    ensures f.columns == [StrCells(champNames), StrCells(releaseDates), IntCells(numSkins), IntCells(patchesSinceChange)]
  {
    var index := RangeIndex(|champNames|);
    var staticFeatures := [Series("", index, StrCells(champNames)), Series("", index, StrCells(releaseDates)),
                           Series("", index, IntCells(numSkins)), Series("", index, IntCells(patchesSinceChange))];
    var staticDf := ConcatSeries(staticFeatures);
    Rename(staticDf, STATIC_COLUMNS)
  }

  /** The three rate tables hold the columns `combine_rate_data` reads. */
  predicate RatesPresent(win: Frame, ban: Frame, pick: Frame) {
    "date" in win.names && "winrate" in win.names && "banrate" in ban.names && "pickrate" in pick.names
  }

  /** The cells of the column `name`. */
  function Column(f: Frame, name: string): (c: seq<Cell>)
    requires Valid(f) && name in f.names
    ensures |c| == |f.index|
  {
    Get(f, name).value.values
  }

  /** The four per-champion columns, each repeated `days` times. */
  function RepeatedStatic(champNames: seq<string>, releaseDates: seq<string>, numSkins: seq<int>,
                          patchesSinceChange: seq<int>, days: nat): (columns: seq<seq<Cell>>)
    requires |releaseDates| == |champNames| && |numSkins| == |champNames| && |patchesSinceChange| == |champNames|
    ensures |columns| == 4 && forall j :: 0 <= j < 4 ==> |columns[j]| == days * |champNames|
  {
    [Cycle(StrCells(champNames), days), Cycle(StrCells(releaseDates), days),
     Cycle(IntCells(numSkins), days), Cycle(IntCells(patchesSinceChange), days)]
  }

  /** The static table built from the four per-champion lists and renamed, then repeated for
      each of `numDays` days; no days leaves `pd.concat` nothing to join. */
  method StaticPerDay(champNames: seq<string>, releaseDates: seq<string>, numSkins: seq<int>,
                      patchesSinceChange: seq<int>, numDays: int)
    returns (staticDf: Result<Frame, Error>)
    requires |releaseDates| == |champNames| && |numSkins| == |champNames| && |patchesSinceChange| == |champNames|
    ensures staticDf.Failure? <==> numDays <= 0
    ensures staticDf.Failure? ==> staticDf.error == NothingToConcatenate
    ensures staticDf.Success? ==>
              Valid(staticDf.value) && staticDf.value.names == STATIC_COLUMNS
              && staticDf.value.index == RangeIndex(numDays * |champNames|)
              && staticDf.value.columns == RepeatedStatic(champNames, releaseDates, numSkins, patchesSinceChange, numDays)
  {
    var perChampion := StaticTable(champNames, releaseDates, numSkins, patchesSinceChange);
    staticDf := RepeatEachDay(perChampion, numDays);
    if staticDf.Success? {
      assert staticDf.value.columns[0] == Cycle(StrCells(champNames), numDays);
      assert staticDf.value.columns[1] == Cycle(StrCells(releaseDates), numDays);
      assert staticDf.value.columns[2] == Cycle(IntCells(numSkins), numDays);
      assert staticDf.value.columns[3] == Cycle(IntCells(patchesSinceChange), numDays);
    }
  }

  /** The first half of the script, from `num_days` to `league_df`: the static table repeated
      once per day beside the combined rates. Errors are raised in the order the script reaches
      them. The rate tables share a default index and hold whole days of rates. */
  method LeagueData(champNames: seq<string>, releaseDates: seq<string>, numSkins: seq<int>,
                    lastPatch: seq<string>, winRates: Frame, banRates: Frame, pickRates: Frame)
    returns (leagueDf: Result<Frame, Error>)
    requires |releaseDates| == |champNames| && |numSkins| == |champNames| && |lastPatch| == |champNames|
    requires Valid(winRates) && Valid(banRates) && Valid(pickRates)
    requires winRates.index == RangeIndex(|winRates.index|)
    requires banRates.index == winRates.index && pickRates.index == winRates.index
    requires |champNames| > 0 ==> |winRates.index| % |champNames| == 0
    ensures leagueDf.Success? <==>
              (|champNames| > 0 && RatesPresent(winRates, banRates, pickRates)
               && PatchesSinceChange(lastPatch).Success? && |winRates.index| >= |champNames|)
    ensures |champNames| == 0 ==> leagueDf == Failure(DivisionByZero)
    ensures |champNames| > 0 && !RatesPresent(winRates, banRates, pickRates) ==>
              leagueDf == Failure(CombineRateData(winRates, banRates, pickRates).error)
    ensures |champNames| > 0 && RatesPresent(winRates, banRates, pickRates) && PatchesSinceChange(lastPatch).Failure? ==>
              leagueDf == Failure(PatchesSinceChange(lastPatch).error)
    ensures |champNames| > 0 && RatesPresent(winRates, banRates, pickRates) && PatchesSinceChange(lastPatch).Success?
            && |winRates.index| < |champNames| ==>
              leagueDf == Failure(NothingToConcatenate)
    ensures leagueDf.Success? ==> Valid(leagueDf.value) && leagueDf.value.names == LEAGUE_COLUMNS
                                  && leagueDf.value.index == winRates.index
    ensures leagueDf.Success? ==>
              leagueDf.value.columns
              == RepeatedStatic(champNames, releaseDates, numSkins, PatchesSinceChange(lastPatch).value,
                                NumDays(|winRates.index|, |champNames|).value)
                 + CombineRateData(winRates, banRates, pickRates).value.columns
  {
    var numChamps := |champNames|;
    var numDays :- NumDays(|winRates.index|, numChamps);
    var dynamic :- CombineRateData(winRates, banRates, pickRates);
    var patchesSinceChange :- PatchesSinceChange(lastPatch);
    var staticDf :- StaticPerDay(champNames, releaseDates, numSkins, patchesSinceChange, numDays);
    assert numDays * numChamps == |winRates.index|;
    leagueDf := Success(Join(staticDf, dynamic));
  }

  /** The second half of the script: `get_champ_age` on the release dates and the data dates
      becomes the column `champion_age`, and `df[model_data]` keeps the age, the patch count,
      the skin count and the three rates. A release date that is not a date is reported first. */
  method TidyData(leagueDf: Frame) returns (tidyData: Result<Frame, Error>)
    requires Valid(leagueDf) && leagueDf.names == LEAGUE_COLUMNS
    ensures tidyData.Success? <==> AllDates(leagueDf.columns[1]) && AllDates(leagueDf.columns[4])
    ensures !AllDates(leagueDf.columns[1]) ==> tidyData == Failure(ToDatetimes(leagueDf.columns[1]).error)
    ensures AllDates(leagueDf.columns[1]) && !AllDates(leagueDf.columns[4]) ==>
              tidyData == Failure(ToDatetimes(leagueDf.columns[4]).error)
    ensures tidyData.Success? ==>
              tidyData.value
              == Frame(leagueDf.index, MODEL_COLUMNS,
                       [IntCells(ChampAge(leagueDf.columns[1], leagueDf.columns[4]).value), leagueDf.columns[3],
                        leagueDf.columns[2], leagueDf.columns[5], leagueDf.columns[6], leagueDf.columns[7]])
  {
    LeagueColumns(leagueDf);
    var releaseColumn := Get(leagueDf, "release_date").value;
    var dateColumn := Get(leagueDf, "date").value;
    var champAge :- ChampAge(releaseColumn.values, dateColumn.values);
    var withAge := SetColumn(leagueDf, "champion_age", IntCells(champAge));
    TidyColumns(leagueDf, IntCells(champAge));
    tidyData := Select(withAge, MODEL_COLUMNS);
  }

  /** The script from `num_days` to `tidy_data`: every step's error is raised in the order the
      script reaches it, and on success row `k` holds champion `k mod num_champs` on the day of
      rate row `k`. The rate tables share a default index and hold whole days of rates. */
  method AssembleTidyData(champNames: seq<string>, releaseDates: seq<string>, numSkins: seq<int>,
                          lastPatch: seq<string>, winRates: Frame, banRates: Frame, pickRates: Frame)
    returns (tidyData: Result<Frame, Error>)
    requires |releaseDates| == |champNames| && |numSkins| == |champNames| && |lastPatch| == |champNames|
    requires Valid(winRates) && Valid(banRates) && Valid(pickRates)
    requires winRates.index == RangeIndex(|winRates.index|)
    requires banRates.index == winRates.index && pickRates.index == winRates.index
    requires |champNames| > 0 ==> |winRates.index| % |champNames| == 0
    ensures tidyData.Success? <==>
              (|champNames| > 0 && RatesPresent(winRates, banRates, pickRates)
               && PatchesSinceChange(lastPatch).Success? && |winRates.index| >= |champNames|
               && AllDates(StrCells(releaseDates)) && AllDates(Column(winRates, "date")))
    ensures |champNames| == 0 ==> tidyData == Failure(DivisionByZero)
    ensures |champNames| > 0 && !RatesPresent(winRates, banRates, pickRates) ==>
              tidyData == Failure(CombineRateData(winRates, banRates, pickRates).error)
    ensures |champNames| > 0 && RatesPresent(winRates, banRates, pickRates) && PatchesSinceChange(lastPatch).Failure? ==>
              tidyData == Failure(PatchesSinceChange(lastPatch).error)
    ensures |champNames| > 0 && RatesPresent(winRates, banRates, pickRates) && PatchesSinceChange(lastPatch).Success?
            && |winRates.index| < |champNames| ==>
              tidyData == Failure(NothingToConcatenate)
    ensures |champNames| > 0 && RatesPresent(winRates, banRates, pickRates) && PatchesSinceChange(lastPatch).Success?
            && |winRates.index| >= |champNames| && !AllDates(StrCells(releaseDates)) ==>
              tidyData == Failure(ToDatetimes(StrCells(releaseDates)).error)
    ensures |champNames| > 0 && RatesPresent(winRates, banRates, pickRates) && PatchesSinceChange(lastPatch).Success?
            && |winRates.index| >= |champNames| && AllDates(StrCells(releaseDates))
            && !AllDates(Column(winRates, "date")) ==>
              tidyData == Failure(ToDatetimes(Column(winRates, "date")).error)
    ensures tidyData.Success? ==> Valid(tidyData.value) && tidyData.value.names == MODEL_COLUMNS
                                  && tidyData.value.index == winRates.index
    ensures tidyData.Success? ==>
              RowsMatch(tidyData.value.columns, releaseDates, numSkins, PatchesSinceChange(lastPatch).value,
                        Column(winRates, "date"), Column(winRates, "winrate"), Column(banRates, "banrate"),
                        Column(pickRates, "pickrate"))
  {
    var leagueDf :- LeagueData(champNames, releaseDates, numSkins, lastPatch, winRates, banRates, pickRates);
    ghost var numDays := NumDays(|winRates.index|, |champNames|).value;
    assert numDays >= 1 && numDays * |champNames| == |winRates.index|;
    DynamicColumns(winRates, banRates, pickRates);
    RepeatedDates(StrCells(releaseDates), numDays);
    tidyData := TidyData(leagueDf);
    if tidyData.Success? {
      TidyRows(tidyData.value.columns, releaseDates, numSkins, PatchesSinceChange(lastPatch).value,
               Column(winRates, "date"), Column(winRates, "winrate"), Column(banRates, "banrate"),
               Column(pickRates, "pickrate"), numDays, ChampAge(leagueDf.columns[1], leagueDf.columns[4]).value);
    }
  }

  /** The six columns and the per-champion lists they are built from have matching lengths, and
      every release date and data date is a date. */
  ghost predicate RowsShape(columns: seq<seq<Cell>>, releaseDates: seq<string>, numSkins: seq<int>,
                            patches: seq<int>, dates: seq<Cell>, winrate: seq<Cell>, banrate: seq<Cell>,
                            pickrate: seq<Cell>)
  {
    |releaseDates| > 0 && |numSkins| == |releaseDates| && |patches| == |releaseDates|
    && AllDates(StrCells(releaseDates)) && AllDates(dates)
    && |winrate| == |dates| && |banrate| == |dates| && |pickrate| == |dates|
    && |columns| == 6 && forall j :: 0 <= j < 6 ==> |columns[j]| == |dates|
  }

  /** Row `k` of the modelling table describes champion `k mod R` (for `R` champions) on the
      day of rate row `k`: its age on that day, its patch count, its skin count, and that row's
      win, ban and pick rates. */
  ghost predicate RowMatches(columns: seq<seq<Cell>>, releaseDates: seq<string>, numSkins: seq<int>,
                             patches: seq<int>, dates: seq<Cell>, winrate: seq<Cell>, banrate: seq<Cell>,
                             pickrate: seq<Cell>, k: nat)
    requires RowsShape(columns, releaseDates, numSkins, patches, dates, winrate, banrate, pickrate)
    requires k < |dates|
  {
    var c := k % |releaseDates|;
    columns[0][k] == Int(DaysBetween(StrCells(releaseDates)[c], dates[k]))
    && columns[1][k] == Int(patches[c]) && columns[2][k] == Int(numSkins[c])
    && columns[3][k] == winrate[k] && columns[4][k] == banrate[k] && columns[5][k] == pickrate[k]
  }

  /** Every row of the modelling table matches, as `RowMatches` says. */
  ghost predicate RowsMatch(columns: seq<seq<Cell>>, releaseDates: seq<string>, numSkins: seq<int>,
                            patches: seq<int>, dates: seq<Cell>, winrate: seq<Cell>, banrate: seq<Cell>,
                            pickrate: seq<Cell>)
  {
    RowsShape(columns, releaseDates, numSkins, patches, dates, winrate, banrate, pickrate)
    && forall k: nat :: k < |dates| ==>
         RowMatches(columns, releaseDates, numSkins, patches, dates, winrate, banrate, pickrate, k)
  }

  /** The six columns, each a per-champion list repeated once per day or a rate column, line up
      row by row as `RowsMatch` says. */
  lemma TidyRows(columns: seq<seq<Cell>>, releaseDates: seq<string>, numSkins: seq<int>, patches: seq<int>,
                 dates: seq<Cell>, winrate: seq<Cell>, banrate: seq<Cell>, pickrate: seq<Cell>,
                 numDays: nat, ages: seq<int>)
    requires |releaseDates| > 0 && |numSkins| == |releaseDates| && |patches| == |releaseDates|
    requires numDays >= 1 && |dates| == numDays * |releaseDates|
    requires |winrate| == |dates| && |banrate| == |dates| && |pickrate| == |dates|
    requires ChampAge(Cycle(StrCells(releaseDates), numDays), dates) == Success(ages)
    requires columns == [IntCells(ages), Cycle(IntCells(patches), numDays), Cycle(IntCells(numSkins), numDays),
                         winrate, banrate, pickrate]
    ensures RowsMatch(columns, releaseDates, numSkins, patches, dates, winrate, banrate, pickrate)
  {
    TidyShape(columns, releaseDates, numSkins, patches, dates, winrate, banrate, pickrate, numDays, ages);
    forall k: nat | k < |dates|
      ensures RowMatches(columns, releaseDates, numSkins, patches, dates, winrate, banrate, pickrate, k)
    {
      TidyRowAt(columns, releaseDates, numSkins, patches, dates, winrate, banrate, pickrate, numDays, ages, k);
    }
  }

  /** The lengths line up, and the repeated release dates are dates exactly when the list is. */
  lemma TidyShape(columns: seq<seq<Cell>>, releaseDates: seq<string>, numSkins: seq<int>, patches: seq<int>,
                 dates: seq<Cell>, winrate: seq<Cell>, banrate: seq<Cell>, pickrate: seq<Cell>,
                 numDays: nat, ages: seq<int>)
    requires |releaseDates| > 0 && |numSkins| == |releaseDates| && |patches| == |releaseDates|
    requires numDays >= 1 && |dates| == numDays * |releaseDates|
    requires |winrate| == |dates| && |banrate| == |dates| && |pickrate| == |dates|
    requires ChampAge(Cycle(StrCells(releaseDates), numDays), dates) == Success(ages)
    requires columns == [IntCells(ages), Cycle(IntCells(patches), numDays), Cycle(IntCells(numSkins), numDays),
                         winrate, banrate, pickrate]
    ensures RowsShape(columns, releaseDates, numSkins, patches, dates, winrate, banrate, pickrate)
  {
    RepeatedDates(StrCells(releaseDates), numDays);
  }

  /** One row of the six columns. */
  lemma TidyRowAt(columns: seq<seq<Cell>>, releaseDates: seq<string>, numSkins: seq<int>, patches: seq<int>,
                 dates: seq<Cell>, winrate: seq<Cell>, banrate: seq<Cell>, pickrate: seq<Cell>,
                 numDays: nat, ages: seq<int>, k: nat)
    requires |releaseDates| > 0 && |numSkins| == |releaseDates| && |patches| == |releaseDates|
    requires numDays >= 1 && |dates| == numDays * |releaseDates|
    requires |winrate| == |dates| && |banrate| == |dates| && |pickrate| == |dates|
    requires ChampAge(Cycle(StrCells(releaseDates), numDays), dates) == Success(ages)
    requires columns == [IntCells(ages), Cycle(IntCells(patches), numDays), Cycle(IntCells(numSkins), numDays),
                         winrate, banrate, pickrate]
    requires RowsShape(columns, releaseDates, numSkins, patches, dates, winrate, banrate, pickrate)
    requires k < |dates|
    ensures RowMatches(columns, releaseDates, numSkins, patches, dates, winrate, banrate, pickrate, k)
  {
    var n := |releaseDates|;
    AgeAt(releaseDates, numDays, dates, ages, k);
    assert columns[1] == Cycle(IntCells(patches), numDays) && columns[2] == Cycle(IntCells(numSkins), numDays);
    RepeatedCountAt(patches, numDays, n, k);
    RepeatedCountAt(numSkins, numDays, n, k);
  }

  /** Row `k` of the ages is the age of champion `k mod R` on the day of date row `k`. */
  lemma AgeAt(releaseDates: seq<string>, numDays: nat, dates: seq<Cell>, ages: seq<int>, k: nat)
    requires |releaseDates| > 0 && |dates| == numDays * |releaseDates| && k < |dates|
    requires ChampAge(Cycle(StrCells(releaseDates), numDays), dates) == Success(ages)
    ensures ToDatetime(StrCells(releaseDates)[k % |releaseDates|]).Some? && ToDatetime(dates[k]).Some?
    ensures ages[k] == DaysBetween(StrCells(releaseDates)[k % |releaseDates|], dates[k])
  {
    CycleAt(StrCells(releaseDates), numDays, k);
  }

  /** Row `k` of a per-champion count repeated once per day is champion `k mod R`'s count. */
  lemma RepeatedCountAt(counts: seq<int>, numDays: nat, n: nat, k: nat)
    requires n == |counts| && k < numDays * n
    ensures Cycle(IntCells(counts), numDays)[k] == Int(counts[k % n])
  {
    CycleAt(IntCells(counts), numDays, k);
  }

  /** The combined rate table's columns are the four columns it reads. */
  lemma DynamicColumns(win: Frame, ban: Frame, pick: Frame)
    requires Valid(win) && Valid(ban) && Valid(pick)
    requires ban.index == win.index && pick.index == win.index
    requires RatesPresent(win, ban, pick)
    ensures CombineRateData(win, ban, pick).Success?
    ensures CombineRateData(win, ban, pick).value.columns
            == [Column(win, "date"), Column(win, "winrate"), Column(ban, "banrate"), Column(pick, "pickrate")]
  {
    var r := CombineRateData(win, ban, pick).value;
    assert r.columns[0] == Column(win, "date");
    assert r.columns[1] == Column(win, "winrate");
    assert r.columns[2] == Column(ban, "banrate");
    assert r.columns[3] == Column(pick, "pickrate");
  }

  /** The columns of the joined table, and of the table once `champion_age` is added. */
  const LEAGUE_COLUMNS: seq<string> := STATIC_COLUMNS + RATE_COLUMNS

  /** In the joined table, `df['release_date']` and `df['date']` are the second and fifth columns. */
  lemma LeagueColumns(f: Frame)
    requires Valid(f) && f.names == LEAGUE_COLUMNS
    ensures Get(f, "release_date") == Success(Series("release_date", f.index, f.columns[1]))
    ensures Get(f, "date") == Success(Series("date", f.index, f.columns[4]))
    ensures "champion_age" !in f.names
  {
    LeagueColumnsDistinct();
    GetUnique(f, 1);
    GetUnique(f, 4);
  }

  /** No column name of the joined table is repeated, and `champion_age` is new. */
  lemma LeagueColumnsDistinct()
    ensures Distinct(LEAGUE_COLUMNS) && Distinct(LEAGUE_COLUMNS + ["champion_age"])
  {
  }

  /** Once `champion_age` is appended to the joined table, `df[model_data]` picks the new
      column, then the fourth, third, sixth, seventh and eighth columns. */
  lemma TidyColumns(f: Frame, ages: seq<Cell>)
    requires Valid(f) && f.names == LEAGUE_COLUMNS && |ages| == |f.index|
    ensures Select(SetColumn(f, "champion_age", ages), MODEL_COLUMNS)
            == Success(Frame(f.index, MODEL_COLUMNS, [ages, f.columns[3], f.columns[2], f.columns[5], f.columns[6], f.columns[7]]))
  {
    LeagueColumnsDistinct();
    var g := SetColumn(f, "champion_age", ages);
    assert g.names == LEAGUE_COLUMNS + ["champion_age"] && g.columns[8] == ages;
    assert forall j :: 0 <= j < 8 ==> g.columns[j] == f.columns[j];
    SelectDistinct(g, MODEL_COLUMNS, [8, 3, 2, 5, 6, 7], [ages, f.columns[3], f.columns[2], f.columns[5], f.columns[6], f.columns[7]]);
  }

  /** `pd.to_datetime` on one list after another: both must hold dates, and a bad cell in the
      first list is the one reported. */
  lemma {:induction false} ToDatetimesAppend(a: seq<Cell>, b: seq<Cell>)
    ensures AllDates(a + b) <==> AllDates(a) && AllDates(b)
    ensures !AllDates(a) ==> ToDatetimes(a + b).error == ToDatetimes(a).error
  {
    if a != [] {
      ToDatetimesAppend(a[1..], b);
      assert (a + b)[1..] == a[1..] + b;
      assert AllDates(a) <==> ToDatetime(a[0]).Some? && AllDates(a[1..]) by {
        assert forall i :: 1 <= i < |a| ==> a[i] == a[1..][i - 1];
      }
      assert AllDates(a + b) <==> ToDatetime(a[0]).Some? && AllDates(a[1..] + b) by {
        assert (a + b)[0] == a[0];
        assert forall i :: 1 <= i < |a + b| ==> (a + b)[i] == (a[1..] + b)[i - 1];
        if AllDates(a + b) {
          forall i | 0 <= i < |a[1..] + b| ensures ToDatetime((a[1..] + b)[i]).Some? {
            assert (a[1..] + b)[i] == (a + b)[i + 1];
          }
        }
      }
    } else {
      assert a + b == b;
    }
  }

  /** A list repeated `n >= 1` times holds dates exactly when the list does, and its first bad
      cell is the list's own. */
  lemma {:induction false} RepeatedDates(s: seq<Cell>, n: int)
    requires n >= 1
    ensures AllDates(Cycle(s, n)) <==> AllDates(s)
    ensures !AllDates(s) ==> ToDatetimes(Cycle(s, n)).error == ToDatetimes(s).error
  {
    if n == 1 {
      assert Cycle(s, 1) == s;
    } else {
      var fewer := Cycle(s, n - 1);
      assert Cycle(s, n) == fewer + s;
      RepeatedDates(s, n - 1);
      ToDatetimesAppend(fewer, s);
      if !AllDates(s) {
        assert !AllDates(fewer);
        assert ToDatetimes(fewer + s).error == ToDatetimes(fewer).error;
      }
    }
  }

}
