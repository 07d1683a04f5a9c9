/** The pure string handling of the scraping step: the scrape date and the file stem made from
    it, the trimming of champion names, and the patch identifiers cut out of patch-history links. */
module ScrapeLeagueData {
  import opened Outcomes
  import opened Strings
  import opened Dates

  /** A month or day part as `get_scrape_date` writes it: '0' is put in front of a
      one-character part. */
  function ZeroPad(part: string): (padded: string)
    ensures |part| >= 1 ==> |padded| >= 2
    ensures AllDigits(part) ==> AllDigits(padded) && DigitsValue(padded) == DigitsValue(part)
  {
    if |part| == 1 then
      assert AllDigits(part) ==> AllDigits("0" + part) && DigitsValue("0" + part) == DigitsValue(part) by {
        if AllDigits(part) { LeadingZeroValue(part); }
      }
      "0" + part
    else part
  }

  /** A two-digit part naming 1..99 is the padded `str` of its value: reading a month or day
      and writing it back gives the same two characters. */
  lemma ZeroPadRoundTrip(part: string)
    requires |part| == 2 && AllDigits(part) && DigitsValue(part) >= 1
    ensures ZeroPad(DecimalString(DigitsValue(part))) == part
  {
    if part[0] == '0' {
      var unit := part[1..];
      assert part == "0" + unit;
      LeadingZeroValue(unit);
      assert unit[0] != '0' by {
        assert DigitsValue(unit) == DigitsValue(unit[..0]) * 10 + DigitValue(unit[0]);
        assert unit[..0] == [];
      }
      DigitsRoundTrip(unit);
    } else {
      DigitsRoundTrip(part);
    }
  }

  /** `str(n)` after padding: two digits for 1..99, and the same number read back. */
  lemma PaddedPart(n: nat)
    ensures AllDigits(ZeroPad(DecimalString(n)))
    ensures DigitsValue(ZeroPad(DecimalString(n))) == n
    ensures n < 100 ==> |ZeroPad(DecimalString(n))| == 2
    ensures n >= 10 ==> ZeroPad(DecimalString(n)) == DecimalString(n)
  {
    DecimalRoundTrip(n);
    DecimalLength(n);
    if n < 10 {
      LeadingZeroValue(DecimalString(n));
    }
  }

  /** `get_scrape_date` for the clock reading `year`, `month`, `day`: the year, a dash, the
      padded month, a dash and the padded day. */
  function ScrapeDate(year: nat, month: nat, day: nat): (date: string)
    ensures 1000 <= year < 10000 && 1 <= month <= 12 && 1 <= day <= 31 ==>
              |date| == 10 && date[4] == '-' && date[7] == '-'
              && date[..4] == DecimalString(year)
              && date[5..7] == ZeroPad(DecimalString(month))
              && date[8..] == ZeroPad(DecimalString(day))
  {
    var yearScraped := DecimalString(year);
    var monthScraped := ZeroPad(DecimalString(month));
    var dayScraped := ZeroPad(DecimalString(day));
    DecimalLength(year);
    PaddedPart(month);
    PaddedPart(day);
    yearScraped + "-" + monthScraped + "-" + dayScraped
  }

  /** For a four-digit year, reading the scrape date back as a date gives the day it was made. */
  lemma ScrapeDateRoundTrip(year: nat, month: nat, day: nat)
    requires 1000 <= year < 10000 && ValidDate(Date(year, month, day))
    ensures ParseIsoDate(ScrapeDate(year, month, day)) == Some(Date(year, month, day))
  {
    var date := ScrapeDate(year, month, day);
    DecimalRoundTrip(year);
    PaddedPart(month);
    PaddedPart(day);
    assert DigitsValue(date[..4]) == year && DigitsValue(date[5..7]) == month && DigitsValue(date[8..]) == day;
  }

  /** A parsed date with a four-digit year is written back by `get_scrape_date` as the very
      text it was read from: with `ScrapeDateRoundTrip`, the two are inverse. */
  lemma ParsedDateRoundTrip(s: string)
    requires ParseIsoDate(s).Some? && ParseIsoDate(s).value.year >= 1000
    ensures var d := ParseIsoDate(s).value; ScrapeDate(d.year, d.month, d.day) == s
  {
    var d := ParseIsoDate(s).value;
    var y, m, dd := s[..4], s[5..7], s[8..];
    assert d == Date(DigitsValue(y), DigitsValue(m), DigitsValue(dd));
    if s[0] == '0' {
      assert y == "0" + y[1..];
      LeadingZeroValue(y[1..]);
      ThreeDigitsBelow1000(y[1..]);
      assert false;
    }
    DigitsRoundTrip(y);
    ZeroPadRoundTrip(m);
    ZeroPadRoundTrip(dd);
    assert s == y + "-" + m + "-" + dd;
  }

  /** Three digits are worth less than 1000. */
  lemma ThreeDigitsBelow1000(t: string)
    requires |t| == 3 && AllDigits(t)
    ensures DigitsValue(t) < 1000
  {
    assert t[..2][..1][..0] == [];
    assert DigitsValue(t[..2][..1]) < 10;
    assert DigitsValue(t[..2]) < 100;
  }

  /** `date.replace('-', '')`: the stem of the file the day's rates are written to. */
  function FileStem(date: string): (stem: string)
    ensures '-' !in stem && |stem| <= |date|
  {
    RemoveAll(date, '-')
  }

  /** The file stem of a scrape date is the eight digits YYYYMMDD. */
  lemma ScrapeFileStem(year: nat, month: nat, day: nat)
    requires 1000 <= year < 10000 && 1 <= month <= 12 && 1 <= day <= 31
    ensures FileStem(ScrapeDate(year, month, day))
            == DecimalString(year) + ZeroPad(DecimalString(month)) + ZeroPad(DecimalString(day))
    ensures |FileStem(ScrapeDate(year, month, day))| == 8
    ensures AllDigits(FileStem(ScrapeDate(year, month, day)))
  {
    var y, m, d := DecimalString(year), ZeroPad(DecimalString(month)), ZeroPad(DecimalString(day));
    DecimalLength(year);
    PaddedPart(month);
    PaddedPart(day);
    assert '-' !in y && '-' !in m && '-' !in d by {
      assert !IsDigit('-');
    }
    RemoveSeparators(y, m, d, '-');
    var stem := y + m + d;
    assert AllDigits(stem) by {
      forall i | 0 <= i < |stem| ensures IsDigit(stem[i]) {
        if i < |y| { assert stem[i] == y[i]; }
        else if i < |y| + |m| { assert stem[i] == m[i - |y|]; }
        else { assert stem[i] == d[i - |y| - |m|]; }
      }
    }
  }

  /** The non-breaking space and 'the' that introduce a champion's title. */
  const TITLE_SEPARATOR: string := "\U{00A0}the"

  /** A champion name from the wiki cut to the name proper: the text before the first comma,
      then before the first non-breaking space followed by 'the'. */
  function TrimName(name: string): (trimmed: string)
    ensures trimmed <= name
  {
    SplitHead(SplitHead(name, ","), TITLE_SEPARATOR)
  }

  /** A title cannot run across a comma. */
  lemma CommaBreaksTitle(name: string, i: int, k: int)
    requires 0 <= i <= k < |name| && k < i + |TITLE_SEPARATOR| && name[k] == ','
    ensures !OccursAt(name, TITLE_SEPARATOR, i)
  {
  }

  /** The trimmed name holds no comma and no title, and it stops where the name ends, at the
      first comma, or at the first title. */
  lemma TrimNameCut(name: string)
    ensures ',' !in TrimName(name)
    ensures forall i :: 0 <= i < |TrimName(name)| ==> !OccursAt(name, TITLE_SEPARATOR, i)
    ensures var t := TrimName(name);
            t == name || name[|t|] == ',' || OccursAt(name, TITLE_SEPARATOR, |t|)
  {
    var beforeComma := SplitHead(name, ",");
    var trimmed := SplitHead(beforeComma, TITLE_SEPARATOR);
    forall i | 0 <= i < |trimmed| ensures trimmed[i] != ',' {
      OccursAtChar(name, ',', i);
    }
    if beforeComma != name {
      OccursAtChar(name, ',', |beforeComma|);
    }
    forall i | 0 <= i < |trimmed| ensures !OccursAt(name, TITLE_SEPARATOR, i) {
      if i + |TITLE_SEPARATOR| <= |beforeComma| {
        OccursInPrefix(beforeComma, name, TITLE_SEPARATOR, i);
      } else if beforeComma != name {
        CommaBreaksTitle(name, i, |beforeComma|);
      }
    }
    if trimmed != beforeComma {
      OccursInPrefix(beforeComma, name, TITLE_SEPARATOR, |trimmed|);
    }
  }

  /** The name column of the champion list, every name trimmed. */
  function TrimNames(names: seq<string>): (trimmed: seq<string>)
    ensures |trimmed| == |names|
    ensures forall k :: 0 <= k < |names| ==> trimmed[k] == TrimName(names[k])
  {
    seq(|names|, k requires 0 <= k < |names| => TrimName(names[k]))
  }

  /** The patch identifier cut out of a patch-history link: `str(link)[-8:-4]`, the four
      characters before the last four. */
  function PatchToken(link: string): (token: string)
    ensures |token| <= 4
    ensures |link| >= 8 ==> token == link[|link| - 8..|link| - 4]
    ensures 4 < |link| < 8 ==> token == link[..|link| - 4]
    ensures |link| <= 4 ==> token == []
  {
    Slice(link, -8, -4)
  }

  /** `patch.replace('v', '').replace(' ', '')`: the identifier without a version mark or spaces. */
  function NormalisePatch(patch: string): (p: string)
    ensures 'v' !in p && ' ' !in p
    ensures |p| <= |patch|
  {
    RemoveAllKeepsAbsent(RemoveAll(patch, 'v'), ' ', 'v');
    RemoveAll(RemoveAll(patch, 'v'), ' ')
  }

  /** Every character other than 'v' and ' ' is kept as often as it occurs. */
  lemma NormaliseCounts(patch: string)
    ensures forall c :: c != 'v' && c != ' ' ==> multiset(NormalisePatch(patch))[c] == multiset(patch)[c]
  {
    RemoveAllCounts(patch, 'v');
    RemoveAllCounts(RemoveAll(patch, 'v'), ' ');
  }

  /** Normalising twice changes nothing more. */
  lemma NormaliseIdempotent(patch: string)
    ensures NormalisePatch(NormalisePatch(patch)) == NormalisePatch(patch)
  {
    var p := NormalisePatch(patch);
    RemoveAllAbsent(p, 'v');
    RemoveAllAbsent(p, ' ');
  }

  /** Normalisation works piecewise and keeps every other character, so the characters that
      stay keep their order. */
  lemma NormaliseKeepsOrder(a: string, b: string, c: char)
    ensures NormalisePatch(a + b) == NormalisePatch(a) + NormalisePatch(b)
    ensures c != 'v' && c != ' ' ==> NormalisePatch([c]) == [c]
  {
    RemoveAllConcat(a, b, 'v');
    RemoveAllConcat(RemoveAll(a, 'v'), RemoveAll(b, 'v'), ' ');
    if c != 'v' && c != ' ' {
      RemoveAllAbsent([c], 'v');
      RemoveAllAbsent([c], ' ');
    }
  }

  /** A '>v9.18</a>' link gives the four characters 9.18, already normal. */
  lemma PatchTokenVersionExample()
    ensures NormalisePatch(PatchToken(">v9.18</a>")) == "9.18"
  {
    assert PatchToken(">v9.18</a>") == "9.18";
    RemoveAllAbsent("9.18", 'v');
    RemoveAllAbsent("9.18", ' ');
  }

  /** A 'Patch 9.9</a>' link gives ' 9.9', and the space is dropped. */
  lemma PatchTokenSpaceExample()
    ensures NormalisePatch(PatchToken("Patch 9.9</a>")) == "9.9"
  {
    assert PatchToken("Patch 9.9</a>") == " 9.9";
    RemoveAllAbsent(" 9.9", 'v');
    RemoveAllAbsent("9.9", ' ');
    assert " 9.9"[1..] == "9.9";
  }

  /** A normalised token has at most four characters, so the five-character hotfix patches
      8.24b and 7.24b are never produced by the scraper. */
  lemma HotfixPatchesNeverScraped(link: string)
    ensures |NormalisePatch(PatchToken(link))| <= 4
    ensures NormalisePatch(PatchToken(link)) != "8.24b" && NormalisePatch(PatchToken(link)) != "7.24b"
  {
  }

  /** The two normalisation loops over the scraped patches: the first drops every 'v', the
      second every space, each overwriting the list entry by entry. */
  method NormalisePatches(lastPatch: array<string>)
    modifies lastPatch
    ensures forall i :: 0 <= i < lastPatch.Length ==> lastPatch[i] == NormalisePatch(old(lastPatch[i]))
  {
    ghost var scraped := lastPatch[..];
    for idx := 0 to lastPatch.Length
      invariant forall i :: 0 <= i < idx ==> lastPatch[i] == RemoveAll(scraped[i], 'v')
      invariant forall i :: idx <= i < lastPatch.Length ==> lastPatch[i] == scraped[i]
    {
      lastPatch[idx] := RemoveAll(lastPatch[idx], 'v');
    }
    for idx := 0 to lastPatch.Length
      invariant forall i :: 0 <= i < idx ==> lastPatch[i] == NormalisePatch(scraped[i])
      invariant forall i :: idx <= i < lastPatch.Length ==> lastPatch[i] == RemoveAll(scraped[i], 'v')
    {
      lastPatch[idx] := RemoveAll(lastPatch[idx], ' ');
    }
  }
}
