/** The four transformations of the processing step: patch recency, rate combination, day
    replication and champion age. */
module ProcessLeagueData {
  import opened Outcomes
  import opened Lists
  import opened Strings
  import opened Dates
  import opened Frames

  /** The patches from the current one, 9.18, back to 7.22, newest first, one literal per line
      of the source's patch string. */
  const PATCHES: seq<string> :=
    ["9.18", "9.17", "9.16", "9.15", "9.14", "9.13", "9.12", "9.11", "9.10", "9.9", "9.8", "9.7", "9.6"]
    + ["9.5", "9.4", "9.3", "9.2", "9.1", "8.24b", "8.24", "8.23", "8.22", "8.21", "8.20", "8.19", "8.18"]
    + ["8.17", "8.16", "8.15", "8.14", "8.13", "8.12", "8.11", "8.10", "8.9", "8.8", "8.7", "8.6", "8.5"]
    + ["8.4", "8.3", "8.2", "8.1", "7.24b", "7.24", "7.23", "7.22"]

  /** Where a patch identifier `M.m` or `M.mb` falls in release order: by major version, then
      minor version, with a `b` hotfix after its patch. Used only to state that PATCHES runs
      from newest to oldest. */
  function ReleaseOrder(p: string): int {
    if |p| < 3 || !IsDigit(p[0]) || !IsDigit(p[2]) then 0
    else
      var minor := if |p| >= 4 && IsDigit(p[3]) then 10 * DigitValue(p[2]) + DigitValue(p[3]) else DigitValue(p[2]);
      var hotfix := if p[|p| - 1] == 'b' then 1 else 0;
      1000 * DigitValue(p[0]) + 10 * minor + hotfix
  }

  /** Each patch in PATCHES was released after the one that follows it. The 46 neighbouring
      pairs are checked in eight groups of at most six, `PatchesNewestFirstFrom0` to
      `PatchesNewestFirstFrom41`, because one lemma over all of them is more than the solver
      proves within its resource budget; `PatchesNewestFirst` puts them together. */
  lemma PatchesNewestFirstFrom0()
    ensures |PATCHES| == 47
    ensures forall i :: 0 <= i < 6 ==> ReleaseOrder(PATCHES[i]) > ReleaseOrder(PATCHES[i + 1])
  {
    assert ReleaseOrder(PATCHES[0]) > ReleaseOrder(PATCHES[1]);
    assert ReleaseOrder(PATCHES[1]) > ReleaseOrder(PATCHES[2]);
    assert ReleaseOrder(PATCHES[2]) > ReleaseOrder(PATCHES[3]);
    assert ReleaseOrder(PATCHES[3]) > ReleaseOrder(PATCHES[4]);
    assert ReleaseOrder(PATCHES[4]) > ReleaseOrder(PATCHES[5]);
    assert ReleaseOrder(PATCHES[5]) > ReleaseOrder(PATCHES[6]);
  }

  lemma PatchesNewestFirstFrom6()
    ensures |PATCHES| == 47
    ensures forall i :: 6 <= i < 12 ==> ReleaseOrder(PATCHES[i]) > ReleaseOrder(PATCHES[i + 1])
  {
    assert ReleaseOrder(PATCHES[6]) > ReleaseOrder(PATCHES[7]);
    assert ReleaseOrder(PATCHES[7]) > ReleaseOrder(PATCHES[8]);
    assert ReleaseOrder(PATCHES[8]) > ReleaseOrder(PATCHES[9]);
    assert ReleaseOrder(PATCHES[9]) > ReleaseOrder(PATCHES[10]);
    assert ReleaseOrder(PATCHES[10]) > ReleaseOrder(PATCHES[11]);
    assert ReleaseOrder(PATCHES[11]) > ReleaseOrder(PATCHES[12]);
  }

  lemma PatchesNewestFirstFrom12()
    ensures |PATCHES| == 47
    ensures forall i :: 12 <= i < 18 ==> ReleaseOrder(PATCHES[i]) > ReleaseOrder(PATCHES[i + 1])
  {
    assert ReleaseOrder(PATCHES[12]) > ReleaseOrder(PATCHES[13]);
    assert ReleaseOrder(PATCHES[13]) > ReleaseOrder(PATCHES[14]);
    assert ReleaseOrder(PATCHES[14]) > ReleaseOrder(PATCHES[15]);
    assert ReleaseOrder(PATCHES[15]) > ReleaseOrder(PATCHES[16]);
    assert ReleaseOrder(PATCHES[16]) > ReleaseOrder(PATCHES[17]);
    assert ReleaseOrder(PATCHES[17]) > ReleaseOrder(PATCHES[18]);
  }

  lemma PatchesNewestFirstFrom18()
    ensures |PATCHES| == 47
    ensures forall i :: 18 <= i < 24 ==> ReleaseOrder(PATCHES[i]) > ReleaseOrder(PATCHES[i + 1])
  {
    assert ReleaseOrder(PATCHES[18]) > ReleaseOrder(PATCHES[19]);
    assert ReleaseOrder(PATCHES[19]) > ReleaseOrder(PATCHES[20]);
    assert ReleaseOrder(PATCHES[20]) > ReleaseOrder(PATCHES[21]);
    assert ReleaseOrder(PATCHES[21]) > ReleaseOrder(PATCHES[22]);
    assert ReleaseOrder(PATCHES[22]) > ReleaseOrder(PATCHES[23]);
    assert ReleaseOrder(PATCHES[23]) > ReleaseOrder(PATCHES[24]);
  }

  lemma PatchesNewestFirstFrom24()
    ensures |PATCHES| == 47
    ensures forall i :: 24 <= i < 30 ==> ReleaseOrder(PATCHES[i]) > ReleaseOrder(PATCHES[i + 1])
  {
    assert ReleaseOrder(PATCHES[24]) > ReleaseOrder(PATCHES[25]);
    assert ReleaseOrder(PATCHES[25]) > ReleaseOrder(PATCHES[26]);
    assert ReleaseOrder(PATCHES[26]) > ReleaseOrder(PATCHES[27]);
    assert ReleaseOrder(PATCHES[27]) > ReleaseOrder(PATCHES[28]);
    assert ReleaseOrder(PATCHES[28]) > ReleaseOrder(PATCHES[29]);
    assert ReleaseOrder(PATCHES[29]) > ReleaseOrder(PATCHES[30]);
  }

  lemma PatchesNewestFirstFrom30()
    ensures |PATCHES| == 47
    ensures forall i :: 30 <= i < 36 ==> ReleaseOrder(PATCHES[i]) > ReleaseOrder(PATCHES[i + 1])
  {
    assert ReleaseOrder(PATCHES[30]) > ReleaseOrder(PATCHES[31]);
    assert ReleaseOrder(PATCHES[31]) > ReleaseOrder(PATCHES[32]);
    assert ReleaseOrder(PATCHES[32]) > ReleaseOrder(PATCHES[33]);
    assert ReleaseOrder(PATCHES[33]) > ReleaseOrder(PATCHES[34]);
    assert ReleaseOrder(PATCHES[34]) > ReleaseOrder(PATCHES[35]);
    assert ReleaseOrder(PATCHES[35]) > ReleaseOrder(PATCHES[36]);
  }

  lemma PatchesNewestFirstFrom36()
    ensures |PATCHES| == 47
    ensures forall i :: 36 <= i < 41 ==> ReleaseOrder(PATCHES[i]) > ReleaseOrder(PATCHES[i + 1])
  {
    assert ReleaseOrder(PATCHES[36]) > ReleaseOrder(PATCHES[37]);
    assert ReleaseOrder(PATCHES[37]) > ReleaseOrder(PATCHES[38]);
    assert ReleaseOrder(PATCHES[38]) > ReleaseOrder(PATCHES[39]);
    assert ReleaseOrder(PATCHES[39]) > ReleaseOrder(PATCHES[40]);
    assert ReleaseOrder(PATCHES[40]) > ReleaseOrder(PATCHES[41]);
  }

  lemma PatchesNewestFirstFrom41()
    ensures |PATCHES| == 47
    ensures forall i :: 41 <= i < 46 ==> ReleaseOrder(PATCHES[i]) > ReleaseOrder(PATCHES[i + 1])
  {
    assert ReleaseOrder(PATCHES[41]) > ReleaseOrder(PATCHES[42]);
    assert ReleaseOrder(PATCHES[42]) > ReleaseOrder(PATCHES[43]);
    assert ReleaseOrder(PATCHES[43]) > ReleaseOrder(PATCHES[44]);
    assert ReleaseOrder(PATCHES[44]) > ReleaseOrder(PATCHES[45]);
    assert ReleaseOrder(PATCHES[45]) > ReleaseOrder(PATCHES[46]);
  }

  /** PATCHES is in strictly decreasing release order, so no patch appears twice. */
  lemma {:induction false} PatchesNewestFirst()
    ensures |PATCHES| == 47
    ensures forall i, j :: 0 <= i < j < |PATCHES| ==> ReleaseOrder(PATCHES[i]) > ReleaseOrder(PATCHES[j])
    ensures Distinct(PATCHES)
  {
    PatchesNewestFirstFrom0();
    PatchesNewestFirstFrom6();
    PatchesNewestFirstFrom12();
    PatchesNewestFirstFrom18();
    PatchesNewestFirstFrom24();
    PatchesNewestFirstFrom30();
    PatchesNewestFirstFrom36();
    PatchesNewestFirstFrom41();
    forall i, j | 0 <= i < j < |PATCHES| ensures ReleaseOrder(PATCHES[i]) > ReleaseOrder(PATCHES[j]) {
      var k := i;
      while k < j - 1
        invariant i <= k < j
        invariant ReleaseOrder(PATCHES[i]) >= ReleaseOrder(PATCHES[k])
      {
        k := k + 1;
      }
    }
  }

  /** `c` is one more than the position where `p` first appears in `vocabulary`. */
  predicate IsCount(vocabulary: seq<string>, p: string, c: int) {
    1 <= c <= |vocabulary| && vocabulary[c - 1] == p && p !in vocabulary[..c - 1]
  }

  /** `1 + vocabulary.index(p)` for each `p`, in order; the first identifier missing from the
      vocabulary raises `ValueError`. */
  function CountsSinceChange(vocabulary: seq<string>, lastPatch: seq<string>): (r: Result<seq<int>, Error>)
    ensures r.Success? <==> forall i :: 0 <= i < |lastPatch| ==> lastPatch[i] in vocabulary
    ensures r.Success? ==> |r.value| == |lastPatch|
    ensures r.Success? ==> forall i :: 0 <= i < |lastPatch| ==> IsCount(vocabulary, lastPatch[i], r.value[i])
    ensures r.Failure? ==> exists i :: (0 <= i < |lastPatch| && lastPatch[i] !in vocabulary
                                        && r.error == UnknownPatch(lastPatch[i])
                                        && forall j :: 0 <= j < i ==> lastPatch[j] in vocabulary)
  {
    if lastPatch == [] then Success([])
    else match FirstIndex(vocabulary, lastPatch[0])
      case None => Failure(UnknownPatch(lastPatch[0]))
      case Some(k) =>
        var rest :- CountsSinceChange(vocabulary, lastPatch[1..]);
        assert forall i :: 1 <= i < |lastPatch| ==> lastPatch[i] == lastPatch[1..][i - 1];
        Success([k + 1] + rest)
  }

  /** `get_patches_since_change`: how many patches back from 9.18 each champion's last change
      was, counting 9.18 itself as 1. */
  function PatchesSinceChange(lastPatch: seq<string>): (r: Result<seq<int>, Error>)
    ensures r.Success? <==> forall i :: 0 <= i < |lastPatch| ==> lastPatch[i] in PATCHES
    ensures r.Success? ==> |r.value| == |lastPatch|
    ensures r.Success? ==> forall i :: 0 <= i < |lastPatch| ==>
              1 <= r.value[i] <= 47 && PATCHES[r.value[i] - 1] == lastPatch[i]
    ensures r.Failure? ==> r.error.UnknownPatch? && r.error.patch in lastPatch && r.error.patch !in PATCHES
  {
    CountsSinceChange(PATCHES, lastPatch)
  }

  /** In a vocabulary without repetitions, the identifier at position `i` counts `i + 1`. */
  lemma CountOfPosition(vocabulary: seq<string>, i: nat)
    requires Distinct(vocabulary) && i < |vocabulary|
    ensures CountsSinceChange(vocabulary, [vocabulary[i]]) == Success([i + 1])
  {
    FirstIndexOfDistinct(vocabulary, i);
    var single := [vocabulary[i]];
    assert single[1..] == [];
    var r := CountsSinceChange(vocabulary, single);
    assert r.Success? && |r.value| == 1;
    assert r.value[0] == i + 1;
    assert r.value == [i + 1];
  }

  /** The patch at position `i` of PATCHES counts `i + 1`. */
  lemma PatchCount(i: nat)
    requires i < |PATCHES|
    ensures PatchesSinceChange([PATCHES[i]]) == Success([i + 1])
  {
    PatchesNewestFirst();
    CountOfPosition(PATCHES, i);
  }

  /** The current patch, 9.18, counts 1. */
  lemma CurrentPatchCountsOne()
    ensures PatchesSinceChange(["9.18"]) == Success([1])
  {
    PatchCount(0);
  }

  /** In a vocabulary listed newest first, a newer identifier counts strictly fewer. */
  lemma NewerCountsFewer(vocabulary: seq<string>, p: string, q: string)
    requires forall i, j :: 0 <= i < j < |vocabulary| ==> ReleaseOrder(vocabulary[i]) > ReleaseOrder(vocabulary[j])
    requires p in vocabulary && q in vocabulary
    requires ReleaseOrder(p) > ReleaseOrder(q)
    ensures CountsSinceChange(vocabulary, [p, q]).Success?
    ensures CountsSinceChange(vocabulary, [p, q]).value[0] < CountsSinceChange(vocabulary, [p, q]).value[1]
  {
    var pair := [p, q];
    assert pair[0] in vocabulary && pair[1] in vocabulary;
    var r := CountsSinceChange(vocabulary, pair);
    assert IsCount(vocabulary, pair[0], r.value[0]) && IsCount(vocabulary, pair[1], r.value[1]);
    var i, j := r.value[0] - 1, r.value[1] - 1;
    assert 0 <= i < |vocabulary| && 0 <= j < |vocabulary| && vocabulary[i] == p && vocabulary[j] == q;
    if j <= i {
      assert false;
    }
  }

  /** Of two listed patches, the newer one counts strictly fewer patches since the change. */
  lemma NewerPatchCountsFewer(p: string, q: string)
    requires p in PATCHES && q in PATCHES
    requires ReleaseOrder(p) > ReleaseOrder(q)
    ensures PatchesSinceChange([p, q]).Success?
    ensures PatchesSinceChange([p, q]).value[0] < PatchesSinceChange([p, q]).value[1]
  {
    PatchesNewestFirst();
    NewerCountsFewer(PATCHES, p, q);
  }

  /** Two champions get the same count exactly when their last-changed patches are the same. */
  lemma SameCountSamePatch(lastPatch: seq<string>, a: nat, b: nat)
    requires PatchesSinceChange(lastPatch).Success?
    requires a < |lastPatch| && b < |lastPatch|
    ensures PatchesSinceChange(lastPatch).value[a] == PatchesSinceChange(lastPatch).value[b]
            <==> lastPatch[a] == lastPatch[b]
  {
  }

  /** The names of the combined rate table's columns, in order. */
  const RATE_COLUMNS: seq<string> := ["date", "winrate", "banrate", "pickrate"]

  /** `combine_rate_data`: the win table's dates and win rates, the ban table's ban rates and the
      pick table's pick rates, side by side. The tables must share one index, as the caller
      guarantees by listing champions in the same order in every table. */
  function CombineRateData(win: Frame, ban: Frame, pick: Frame): (r: Result<Frame, Error>)
    requires Valid(win) && Valid(ban) && Valid(pick)
    requires ban.index == win.index && pick.index == win.index
    ensures r.Success? <==> ("date" in win.names && "winrate" in win.names
                            && "banrate" in ban.names && "pickrate" in pick.names)
    ensures r.Failure? ==> r.error == MissingColumn(
              if "date" !in win.names then "date"
              else if "winrate" !in win.names then "winrate"
              else if "banrate" !in ban.names then "banrate"
              else "pickrate")
    ensures r.Success? ==> Valid(r.value) && r.value.names == RATE_COLUMNS && r.value.index == win.index
    ensures r.Success? ==> forall i :: 0 <= i < |win.index| ==>
              r.value.columns[0][i] == Get(win, "date").value.values[i]
              && r.value.columns[1][i] == Get(win, "winrate").value.values[i]
              && r.value.columns[2][i] == Get(ban, "banrate").value.values[i]
              && r.value.columns[3][i] == Get(pick, "pickrate").value.values[i]
  {
    var date :- Get(win, "date");
    var winrates :- Get(win, "winrate");
    var banrates :- Get(ban, "banrate");
    var pickrates :- Get(pick, "pickrate");
    Success(ConcatSeries([date, winrates, banrates, pickrates]))
  }

  /** Only the win table's dates are used: changing any other column of the ban or pick
      tables, their dates included, leaves the combined table as it was. */
  lemma CombineUsesOnlyRateColumns(win: Frame, ban: Frame, pick: Frame, ban2: Frame, pick2: Frame)
    requires Valid(win) && Valid(ban) && Valid(pick) && Valid(ban2) && Valid(pick2)
    requires ban.index == win.index && pick.index == win.index
    requires ban2.index == win.index && pick2.index == win.index
    requires Get(ban2, "banrate") == Get(ban, "banrate") && Get(pick2, "pickrate") == Get(pick, "pickrate")
    ensures CombineRateData(win, ban2, pick2) == CombineRateData(win, ban, pick)
  {
  }

  /** `repeat_each_day`: `num_days` copies of the static table stacked and relabelled 0, 1, ...,
      so row `k` is static row `k mod R`; with no copies `pd.concat` raises `ValueError`. */
  method RepeatEachDay(staticDf: Frame, numDays: int) returns (r: Result<Frame, Error>)
    requires Valid(staticDf)
    ensures r.Failure? <==> numDays <= 0
    ensures r.Failure? ==> r.error == NothingToConcatenate
    ensures r.Success? ==> Valid(r.value) && r.value.names == staticDf.names
    ensures r.Success? ==> r.value.index == RangeIndex(numDays * |staticDf.index|)
    ensures r.Success? ==> forall j :: 0 <= j < |staticDf.names| ==> r.value.columns[j] == Cycle(staticDf.columns[j], numDays)
    ensures r.Success? ==> forall j, k :: 0 <= j < |staticDf.names| && 0 <= k < numDays * |staticDf.index| ==>
              r.value.columns[j][k] == staticDf.columns[j][k % |staticDf.index|]
  {
    var staticCopies: seq<Frame> := [];
    var copyNumber := 0;
    while copyNumber < numDays
      invariant 0 <= copyNumber <= if numDays < 0 then 0 else numDays
      invariant staticCopies == seq(copyNumber, _ => staticDf)
    {
      staticCopies := staticCopies + [staticDf];
      copyNumber := copyNumber + 1;
    }
    StackCopiesRows(staticDf, copyNumber);
    r := StackRows(staticCopies);
    if r.Success? {
      forall j | 0 <= j < |staticDf.names| ensures r.value.columns[j] == Cycle(staticDf.columns[j], numDays) {
        StackCopiesColumn(staticDf, numDays, j);
      }
      forall j, k | 0 <= j < |staticDf.names| && 0 <= k < numDays * |staticDf.index|
        ensures r.value.columns[j][k] == staticDf.columns[j][k % |staticDf.index|]
      {
        StackCopiesColumn(staticDf, numDays, j);
        CycleAt(staticDf.columns[j], numDays, k);
      }
    }
  }

  /** `pd.to_datetime` on one cell: a 'YYYY-MM-DD' string names a date; anything else fails. */
  function ToDatetime(c: Cell): (r: Option<Date>)
    ensures r.Some? <==> c.Str? && ParseIsoDate(c.s).Some?
    ensures r.Some? ==> ValidDate(r.value)
  {
    match c
    case Str(s) => ParseIsoDate(s)
    case _ => None
  }

  predicate AllDates(cells: seq<Cell>) {
    forall i :: 0 <= i < |cells| ==> ToDatetime(cells[i]).Some?
  }

  /** `pd.to_datetime` on a series: every cell's date, or an error naming the first cell that
      is not one. */
  function ToDatetimes(cells: seq<Cell>): (r: Result<seq<Date>, Error>)
    ensures r.Success? <==> AllDates(cells)
    ensures r.Success? ==> |r.value| == |cells|
                           && forall i :: 0 <= i < |cells| ==> ToDatetime(cells[i]) == Some(r.value[i])
    ensures r.Failure? ==> exists i :: (0 <= i < |cells| && ToDatetime(cells[i]).None?
                                        && r.error == UnparseableDate(cells[i])
                                        && forall j :: 0 <= j < i ==> ToDatetime(cells[j]).Some?)
  {
    if cells == [] then Success([])
    else match ToDatetime(cells[0])
      case None => Failure(UnparseableDate(cells[0]))
      case Some(d) =>
        var rest :- ToDatetimes(cells[1..]);
        assert forall i :: 1 <= i < |cells| ==> cells[i] == cells[1..][i - 1];
        Success([d] + rest)
  }

  /** The whole days from `release` to `data`, for two cells that hold dates. */
  function DaysBetween(release: Cell, data: Cell): int
    requires ToDatetime(release).Some? && ToDatetime(data).Some?
  {
    DayNumber(ToDatetime(data).value) - DayNumber(ToDatetime(release).value)
  }

  /** `get_champ_age`: for each position, the whole days from the release date to the day the
      data was collected, negative when the data predates the release; an unparseable date
      (release dates are read first) raises. */
  function ChampAge(releaseDates: seq<Cell>, dataDates: seq<Cell>): (r: Result<seq<int>, Error>)
    requires |releaseDates| == |dataDates|
    ensures r.Success? <==> AllDates(releaseDates) && AllDates(dataDates)
    ensures r.Failure? && !AllDates(releaseDates) ==> r.error == ToDatetimes(releaseDates).error
    ensures r.Failure? && AllDates(releaseDates) ==> r.error == ToDatetimes(dataDates).error
    ensures r.Success? ==> |r.value| == |releaseDates|
    ensures r.Success? ==> forall i :: 0 <= i < |releaseDates| ==>
              r.value[i] == DaysBetween(releaseDates[i], dataDates[i])
  {
    var released :- ToDatetimes(releaseDates);
    var collected :- ToDatetimes(dataDates);
    Success(seq(|releaseDates|, i requires 0 <= i < |releaseDates| => DayNumber(collected[i]) - DayNumber(released[i])))
  }

  /** A champion is 0 days old on its release date. */
  lemma AgeOnReleaseDay(dates: seq<Cell>)
    requires AllDates(dates)
    ensures ChampAge(dates, dates) == Success(seq(|dates|, _ => 0))
  {
    var r := ChampAge(dates, dates);
    assert r.value == seq(|dates|, _ => 0);
  }

  /** Swapping the two date columns negates every age. */
  lemma AgeSwapNegates(releaseDates: seq<Cell>, dataDates: seq<Cell>)
    requires |releaseDates| == |dataDates|
    requires ChampAge(releaseDates, dataDates).Success?
    ensures ChampAge(dataDates, releaseDates).Success?
    ensures forall i :: 0 <= i < |releaseDates| ==>
              ChampAge(dataDates, releaseDates).value[i] == -ChampAge(releaseDates, dataDates).value[i]
  {
  }

  /** Data collected on the day after the release gives age 1. */
  lemma AgeOnNextDay(release: Cell, data: Cell)
    requires ToDatetime(release).Some? && ToDatetime(data) == Some(NextDay(ToDatetime(release).value))
    ensures ChampAge([release], [data]) == Success([1])
  {
    var d := ToDatetime(release).value;
    assert DayNumber(NextDay(d)) == DayNumber(d) + 1;
    assert DaysBetween(release, data) == 1;
    assert AllDates([release]) && AllDates([data]);
    var r := ChampAge([release], [data]);
    assert r.Success? && |r.value| == 1 && r.value[0] == 1;
    assert r.value == [1];
  }

  /** The two dates of the examples below, read as pandas reads them. */
  lemma ParseExample2016()
    ensures ParseIsoDate("2016-01-01") == Some(Date(2016, 1, 1))
    ensures ParseIsoDate("2016-01-11") == Some(Date(2016, 1, 11))
  {
    assert DigitsValue("2016") == 2016 by {
      assert "2016"[..3] == "201" && "201"[..2] == "20" && "20"[..1] == "2" && "2"[..0] == "";
    }
    assert DigitsValue("01") == 1 by {
      assert "01"[..1] == "0" && "0"[..0] == "";
    }
    assert DigitsValue("11") == 11 by {
      assert "11"[..1] == "1" && "1"[..0] == "";
    }
    assert "2016-01-01"[..4] == "2016" && "2016-01-01"[5..7] == "01" && "2016-01-01"[8..] == "01";
    assert "2016-01-11"[..4] == "2016" && "2016-01-11"[5..7] == "01" && "2016-01-11"[8..] == "11";
  }

  /** Ages are not clamped: 2016-01-01 to 2016-01-11 is 10 days, and the other way round -10. */
  lemma AgeExamples()
    ensures ChampAge([Str("2016-01-01")], [Str("2016-01-11")]) == Success([10])
    ensures ChampAge([Str("2016-01-11")], [Str("2016-01-01")]) == Success([-10])
  {
    var early, late := Str("2016-01-01"), Str("2016-01-11");
    ParseExample2016();
    assert ToDatetime(early) == Some(Date(2016, 1, 1));
    assert ToDatetime(late) == Some(Date(2016, 1, 11));
    assert AllDates([early]) && AllDates([late]);
    var r1, r2 := ChampAge([early], [late]), ChampAge([late], [early]);
    assert r1.Success? && |r1.value| == 1 && r1.value[0] == 10;
    assert r2.Success? && |r2.value| == 1 && r2.value[0] == -10;
    assert r1.value == [10] && r2.value == [-10];
  }
}
