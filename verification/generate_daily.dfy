/**
 * scripts/GenerateDaily.js: the content-creator script that writes
 * daily.json entries by cycling through each region's birds, and checks a
 * bird id against a published hash.  The calendar arithmetic that turns the
 * start date and a day offset into a date string is left to the caller:
 * `dates[i]` is the string for day i, so numDays is |dates|.
 */
module GenerateDaily {
  import opened Text
  import opened Wrappers
  import opened Seqs
  import opened Birds
  import opened DailyBirdUtils

  /** `birds && birds.length > 0` for `birds = mockBirds[region]`. */
  predicate HasBirds(catalog: Catalog, region: JsString) {
    region in catalog && catalog[region] != []
  }

  /** The entry for day i in a region with birds: its birds are used in turn. */
  function EntryFor(date: JsString, i: nat, region: JsString, catalog: Catalog): DailyEntry
    requires HasBirds(catalog, region)
  {
    var birds := catalog[region];
    GenerateDailyEntry(date, region, birds[i % |birds|].id)
  }

  /** The regions that get an entry: the regions with birds, in the order of `regions`. */
  function ActiveRegions(regions: seq<JsString>, catalog: Catalog): (r: seq<JsString>)
    ensures forall j :: 0 <= j < |r| ==> HasBirds(catalog, r[j])
    ensures |r| <= |regions|
  {
    if regions == [] then []
    else
      var init := regions[..|regions| - 1];
      var last := regions[|regions| - 1];
      ActiveRegions(init, catalog) + (if HasBirds(catalog, last) then [last] else [])
  }

  /** HasBirds as a value, for Seqs.Filter. */
  function WithBirds(catalog: Catalog): JsString -> bool {
    (region: JsString) => HasBirds(catalog, region)
  }

  /**
   * The regions that get an entry are exactly the regions with birds, each
   * as often as it is listed, and they keep the order of `regions`.
   */
  lemma ActiveRegionsSelects(regions: seq<JsString>, catalog: Catalog)
    ensures IsSubsequence(ActiveRegions(regions, catalog), regions)
    ensures forall x :: x in ActiveRegions(regions, catalog) <==> x in regions && HasBirds(catalog, x)
    ensures ActiveRegions(regions, catalog) == Filter(WithBirds(catalog), regions)
    ensures forall x :: multiset(ActiveRegions(regions, catalog))[x] == if HasBirds(catalog, x) then multiset(regions)[x] else 0
  {
    ActiveRegionsFilter(regions, catalog);
    FilterIsSubsequence(WithBirds(catalog), regions);
    FilterMembers(WithBirds(catalog), regions);
    FilterCounts(WithBirds(catalog), regions);
  }

  /** ActiveRegions, which takes regions from the back, is Seqs.Filter, which takes them from the front. */
  lemma {:induction false} ActiveRegionsFilter(regions: seq<JsString>, catalog: Catalog)
    ensures ActiveRegions(regions, catalog) == Filter(WithBirds(catalog), regions)
  {
    if regions != [] {
      var init := regions[..|regions| - 1];
      var last := regions[|regions| - 1];
      ActiveRegionsFilter(init, catalog);
      assert regions == init + [last];
      FilterSnoc(WithBirds(catalog), init, last);
    }
  }

  /** The entries the inner loop (lines 30-42) pushes for day i. */
  function DayEntries(date: JsString, i: nat, regions: seq<JsString>, catalog: Catalog): seq<DailyEntry> {
    if regions == [] then []
    else
      var last := regions[|regions| - 1];
      DayEntries(date, i, regions[..|regions| - 1], catalog)
        + (if HasBirds(catalog, last) then [EntryFor(date, i, last, catalog)] else [])
  }

  /** The block of entries of each day. */
  function Days(dates: seq<JsString>, regions: seq<JsString>, catalog: Catalog): (d: seq<seq<DailyEntry>>)
    ensures |d| == |dates|
  {
    seq(|dates|, i requires 0 <= i < |dates| => DayEntries(dates[i], i, regions, catalog))
  }

  /** What generateDailyEntries returns: the days' blocks one after another. */
  function DailyEntries(dates: seq<JsString>, regions: seq<JsString>, catalog: Catalog): seq<DailyEntry> {
    Concat(Days(dates, regions, catalog))
  }

  /** generateDailyEntries, lines 22-46, over `catalog` (mockBirds in the script). */
  method GenerateDailyEntries(dates: seq<JsString>, regions: seq<JsString>, catalog: Catalog)
    returns (entries: seq<DailyEntry>)
    ensures entries == DailyEntries(dates, regions, catalog)
  {
    entries := [];
    ghost var days := Days(dates, regions, catalog);
    for i := 0 to |dates|
      invariant entries == Concat(days[..i])
    {
      var dateStr := dates[i];
      ghost var before := entries;
      for r := 0 to |regions|
        invariant entries == before + DayEntries(dateStr, i, regions[..r], catalog)
      {
        var region := regions[r];
        assert regions[..r + 1][..r] == regions[..r];
        if region in catalog && |catalog[region]| > 0 {
          var birds := catalog[region];
          var birdIndex := i % |birds|;
          var selectedBird := birds[birdIndex];
          var answerHash := HashBirdId(selectedBird.id);
          var entry := DailyEntry(dateStr, region, Some(answerHash));
          entries := entries + [entry];
        }
      }
      assert regions[..|regions|] == regions;
      ConcatSnoc(days, i);
    }
    assert days[..|dates|] == days;
  }

  /** Day i's entries are one per region with birds, in the order of `regions`. */
  lemma {:induction false} DayEntriesShape(date: JsString, i: nat, regions: seq<JsString>, catalog: Catalog)
    ensures var d := DayEntries(date, i, regions, catalog);
      var act := ActiveRegions(regions, catalog);
      && |d| == |act|
      && forall j :: 0 <= j < |d| ==> d[j] == EntryFor(date, i, act[j], catalog)
  {
    if regions != [] {
      DayEntriesShape(date, i, regions[..|regions| - 1], catalog);
    }
  }

  /** Every day's block has one entry per region with birds. */
  lemma DayBlockSizes(dates: seq<JsString>, regions: seq<JsString>, catalog: Catalog)
    ensures var days := Days(dates, regions, catalog);
      forall b :: 0 <= b < |days| ==> |days[b]| == |ActiveRegions(regions, catalog)|
  {
    var days := Days(dates, regions, catalog);
    forall b | 0 <= b < |days|
      ensures |days[b]| == |ActiveRegions(regions, catalog)|
    {
      DayEntriesShape(dates[b], b, regions, catalog);
    }
  }

  /** daily.json holds |dates| × (regions with birds) entries. */
  lemma EntriesCount(dates: seq<JsString>, regions: seq<JsString>, catalog: Catalog)
    ensures |DailyEntries(dates, regions, catalog)| == |dates| * |ActiveRegions(regions, catalog)|
  {
    var a := |ActiveRegions(regions, catalog)|;
    DayBlockSizes(dates, regions, catalog);
    ConcatLength(Days(dates, regions, catalog), a);
    OffsetIsProduct(|dates|, a);
  }

  /**
   * The layout of daily.json, day after day: the entry of day i for the
   * j-th region with birds sits at i * (number of such regions) + j and
   * names that day's date, the region, and the hash of bird i mod n of the
   * region.
   */
  lemma EntriesLayout(dates: seq<JsString>, regions: seq<JsString>, catalog: Catalog)
    ensures forall i, j :: 0 <= i < |dates| && 0 <= j < |ActiveRegions(regions, catalog)| ==>
      Placed(DailyEntries(dates, regions, catalog), dates, ActiveRegions(regions, catalog), catalog, i, j)
  {
    forall i, j | 0 <= i < |dates| && 0 <= j < |ActiveRegions(regions, catalog)|
      ensures Placed(DailyEntries(dates, regions, catalog), dates, ActiveRegions(regions, catalog), catalog, i, j)
    {
      EntryAt(dates, regions, catalog, i, j);
    }
  }

  /** Entry i * |act| + j of e is day i's entry for region act[j]. */
  predicate Placed(e: seq<DailyEntry>, dates: seq<JsString>, act: seq<JsString>, catalog: Catalog, i: nat, j: nat)
    requires i < |dates| && j < |act| && HasBirds(catalog, act[j])
  {
    i * |act| + j < |e| && e[i * |act| + j] == EntryFor(dates[i], i, act[j], catalog)
  }

  /** One position of the layout above. */
  lemma EntryAt(dates: seq<JsString>, regions: seq<JsString>, catalog: Catalog, i: nat, j: nat)
    requires i < |dates| && j < |ActiveRegions(regions, catalog)|
    ensures Placed(DailyEntries(dates, regions, catalog), dates, ActiveRegions(regions, catalog), catalog, i, j)
  {
    var a := |ActiveRegions(regions, catalog)|;
    var days := Days(dates, regions, catalog);
    DayBlockSizes(dates, regions, catalog);
    ConcatLayout(days, a, i, j);
    OffsetIsProduct(i, a);
    DayEntriesShape(dates[i], i, regions, catalog);
  }

  /** verifyBirdHash (lines 61-66) without the console output. */
  method VerifyBirdHash(birdId: JsString, expectedHash: JsString) returns (matches: bool)
    ensures matches <==> BirdHash(birdId) == ToLowerAscii(expectedHash)
  {
    var actualHash := HashBirdId(birdId);
    matches := actualHash == ToLowerAscii(expectedHash);
  }

  /**
   * A generated entry passes the check for the bird it was made for, also
   * when upper-cased, and passes for another bird exactly when their hashes
   * collide.
   */
  lemma VerifyGeneratedHash(date: JsString, region: JsString, birdId: JsString, otherId: JsString)
    ensures var h := GenerateDailyEntry(date, region, birdId).answerHash.value;
      && BirdHash(birdId) == ToLowerAscii(h)
      && BirdHash(birdId) == ToLowerAscii(ToUpperAscii(h))
      && (BirdHash(otherId) == ToLowerAscii(h) <==> BirdHash(otherId) == BirdHash(birdId))
  {
    LowerOfBirdHash(birdId);
    LowerOfUpper(BirdHash(birdId));
  }

  /**
   * Every generated entry leads the browser back to the bird chosen for it,
   * unless a bird listed before it in the region has the same hash.
   */
  lemma GeneratedEntriesFindTheirBirds(dates: seq<JsString>, regions: seq<JsString>, catalog: Catalog, i: nat, j: nat)
    requires i < |dates| && j < |ActiveRegions(regions, catalog)|
    requires var region := ActiveRegions(regions, catalog)[j];
      var birds := catalog[region];
      forall p :: 0 <= p < i % |birds| ==> BirdHash(birds[p].id) != BirdHash(birds[i % |birds|].id)
    ensures var act := ActiveRegions(regions, catalog);
      var e := DailyEntries(dates, regions, catalog);
      var birds := catalog[act[j]];
      var n := i * |act| + j;
      && n < |e| && e[n].region == act[j] && e[n].date == dates[i]
      && FindByHash(Some(birds), e[n].answerHash) == Some(birds[i % |birds|])
  {
    var act := ActiveRegions(regions, catalog);
    EntryAt(dates, regions, catalog, i, j);
    var birds := catalog[act[j]];
    GeneratedEntryFindsBird(dates[i], act[j], birds, i % |birds|);
  }
}
