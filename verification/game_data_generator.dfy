/**
 * scripts/game-data-generator.py: build a region's list in birds.json from
 * the (filtered) eBird taxonomy and the scraped audio URLs.  Loading and
 * saving the JSON files is left out; their parsed content is a parameter.
 */
module CatalogGenerator {
  import opened Text
  import opened Wrappers
  import opened Seqs
  import opened TaxonomyFilter

  /** `d.get(key, '')` for a string field. */
  function OrEmpty(field: Option<string>): string {
    if field.Some? then field.value else ""
  }

  /** `create_bird_id`, lines 43-45: the first four characters of the code. */
  function CreateBirdId(speciesCode: string): (id: string)
    ensures |id| == Min(4, |speciesCode|) && id == speciesCode[..|id|]
  {
    if |speciesCode| >= 4 then speciesCode[..4] else speciesCode
  }

  /** Codes of at most four characters keep their identity. */
  lemma ShortCodesKeepIdentity(a: string, b: string)
    requires |a| <= 4 && |b| <= 4
    ensures CreateBirdId(a) == CreateBirdId(b) <==> a == b
  {
  }

  /** Two species of the taxonomy whose codes share the first four characters get one id. */
  lemma CreateBirdIdCollides()
    ensures "amerob" != "amered" && CreateBirdId("amerob") == CreateBirdId("amered") == "amer"
  {
    assert "amerob"[..4] == "amer" && "amered"[..4] == "amer";
  }

  // ---------------------------------------------------------------------
  // group_urls_by_code (lines 48-59)

  /** An entry of the URL file; a missing key reads as "". */
  datatype UrlRecord = UrlRecord(code: Option<string>, audioUrl: Option<string>)

  /** Line 56: both the code and the URL are non-empty. */
  predicate UsableUrl(r: UrlRecord) {
    OrEmpty(r.code) != "" && OrEmpty(r.audioUrl) != ""
  }

  /** The URLs recorded for `code`, in input order. */
  function UrlsFor(urls: seq<UrlRecord>, code: string): seq<string> {
    if urls == [] then []
    else
      var last := urls[|urls| - 1];
      UrlsFor(urls[..|urls| - 1], code)
        + (if UsableUrl(last) && OrEmpty(last.code) == code then [OrEmpty(last.audioUrl)] else [])
  }

  /** The dictionary the loop builds after the given records. */
  function GroupsOf(urls: seq<UrlRecord>): map<string, seq<string>> {
    if urls == [] then map[]
    else
      var groups := GroupsOf(urls[..|urls| - 1]);
      var last := urls[|urls| - 1];
      if UsableUrl(last) then
        var code := OrEmpty(last.code);
        groups[code := (if code in groups then groups[code] else []) + [OrEmpty(last.audioUrl)]]
      else groups
  }

  /** `group_urls_by_code`: the `defaultdict` loop. */
  method GroupUrlsByCode(urlsData: seq<UrlRecord>) returns (urlGroups: map<string, seq<string>>)
    ensures urlGroups == GroupsOf(urlsData)
  {
    urlGroups := map[];
    for i := 0 to |urlsData|
      invariant urlGroups == GroupsOf(urlsData[..i])
    {
      assert urlsData[..i + 1][..i] == urlsData[..i];
      var code := OrEmpty(urlsData[i].code);
      var audioUrl := OrEmpty(urlsData[i].audioUrl);
      if code != "" && audioUrl != "" {
        var existing := if code in urlGroups then urlGroups[code] else [];
        urlGroups := urlGroups[code := existing + [audioUrl]];
      }
    }
    assert urlsData[..|urlsData|] == urlsData;
  }

  /**
   * Each code maps to its URLs in input order, and a code is a key exactly
   * when it has at least one: no key maps to an empty list, and "" is never
   * a key.
   */
  lemma {:induction false} GroupsOfMeaning(urls: seq<UrlRecord>)
    ensures forall code :: code in GroupsOf(urls) <==> UrlsFor(urls, code) != []
    ensures forall code :: code in GroupsOf(urls) ==> GroupsOf(urls)[code] == UrlsFor(urls, code)
    ensures "" !in GroupsOf(urls)
  {
    if urls != [] {
      GroupsOfMeaning(urls[..|urls| - 1]);
    }
  }

  /** A URL is listed under a code exactly when some usable record pairs them. */
  lemma {:induction false} UrlsForMembers(urls: seq<UrlRecord>, code: string)
    ensures forall u :: u in UrlsFor(urls, code) <==>
      exists r :: r in urls && UsableUrl(r) && OrEmpty(r.code) == code && OrEmpty(r.audioUrl) == u
  {
    if urls != [] {
      var init := urls[..|urls| - 1];
      UrlsForMembers(init, code);
      assert urls == init + [urls[|urls| - 1]];
      assert forall r :: r in urls <==> r in init || r == urls[|urls| - 1];
    }
  }

  // ---------------------------------------------------------------------
  // process_taxonomy_data (lines 62-89)

  /** An entry of birds.json as the generator writes it (lines 81-86). */
  datatype CatalogEntry = CatalogEntry(id: string, name: string, scientificName: string, audioUrl: seq<string>)

  /** Lines 73-80: all three names present and at least one URL. */
  predicate KeepForCatalog(t: Taxon, urlGroups: map<string, seq<string>>) {
    && OrEmpty(t.speciesCode) != "" && OrEmpty(t.comName) != "" && OrEmpty(t.sciName) != ""
    && OrEmpty(t.speciesCode) in urlGroups && urlGroups[OrEmpty(t.speciesCode)] != []
  }

  function EntryOf(t: Taxon, urlGroups: map<string, seq<string>>): CatalogEntry
    requires KeepForCatalog(t, urlGroups)
  {
    CatalogEntry(CreateBirdId(OrEmpty(t.speciesCode)), OrEmpty(t.comName), OrEmpty(t.sciName),
                 urlGroups[OrEmpty(t.speciesCode)])
  }

  /** The birds list: kept taxonomy entries, in taxonomy order. */
  function CatalogFrom(taxonomy: seq<Taxon>, urlGroups: map<string, seq<string>>): (r: seq<CatalogEntry>)
    ensures |r| <= |taxonomy|
  {
    if taxonomy == [] then []
    else
      (if KeepForCatalog(taxonomy[0], urlGroups) then [EntryOf(taxonomy[0], urlGroups)] else [])
        + CatalogFrom(taxonomy[1..], urlGroups)
  }

  lemma CatalogCons(taxonomy: seq<Taxon>, urlGroups: map<string, seq<string>>)
    requires taxonomy != []
    ensures CatalogFrom(taxonomy, urlGroups)
      == (if KeepForCatalog(taxonomy[0], urlGroups) then [EntryOf(taxonomy[0], urlGroups)] else [])
         + CatalogFrom(taxonomy[1..], urlGroups)
  {
  }

  /** The body of the loop of lines 67-87 for one taxonomy entry. */
  method ProcessTaxon(bird: Taxon, urlGroups: map<string, seq<string>>) returns (birdEntry: Option<CatalogEntry>)
    ensures birdEntry == if KeepForCatalog(bird, urlGroups) then Some(EntryOf(bird, urlGroups)) else None
  {
    var speciesCode := OrEmpty(bird.speciesCode);
    var comName := OrEmpty(bird.comName);
    var sciName := OrEmpty(bird.sciName);
    if speciesCode == "" || comName == "" || sciName == "" {
      return None;
    }
    var audioUrls := if speciesCode in urlGroups then urlGroups[speciesCode] else [];
    if audioUrls != [] {
      return Some(CatalogEntry(CreateBirdId(speciesCode), comName, sciName, audioUrls));
    }
    return None;
  }

  /** `process_taxonomy_data`: the loop that appends to `birds`. */
  method ProcessTaxonomyData(taxonomyData: seq<Taxon>, urlGroups: map<string, seq<string>>)
    returns (birds: seq<CatalogEntry>)
    ensures birds == CatalogFrom(taxonomyData, urlGroups)
  {
    birds := [];
    for i := 0 to |taxonomyData|
      invariant birds + CatalogFrom(taxonomyData[i..], urlGroups) == CatalogFrom(taxonomyData, urlGroups)
    {
      assert taxonomyData[i..][1..] == taxonomyData[i + 1..];
      CatalogCons(taxonomyData[i..], urlGroups);
      ghost var rest := CatalogFrom(taxonomyData[i + 1..], urlGroups);
      var birdEntry := ProcessTaxon(taxonomyData[i], urlGroups);
      if birdEntry.Some? {
        assert (birds + [birdEntry.value]) + rest == birds + ([birdEntry.value] + rest);
        birds := birds + [birdEntry.value];
      } else {
        assert [] + rest == rest;
      }
    }
    assert taxonomyData[|taxonomyData|..] == [];
  }

  /**
   * An entry is in the list exactly when a kept taxonomy entry produced it:
   * its names are copied and its URLs are the non-empty group of its code.
   */
  lemma {:induction false} CatalogMembers(taxonomy: seq<Taxon>, urlGroups: map<string, seq<string>>)
    ensures forall e :: e in CatalogFrom(taxonomy, urlGroups) <==>
      exists t :: t in taxonomy && KeepForCatalog(t, urlGroups) && e == EntryOf(t, urlGroups)
  {
    if taxonomy != [] {
      CatalogMembers(taxonomy[1..], urlGroups);
      assert forall t :: t in taxonomy <==> t == taxonomy[0] || t in taxonomy[1..];
    }
  }

  /** Every written bird has audio and an id of at most four characters. */
  lemma CatalogEntriesHaveAudio(taxonomy: seq<Taxon>, urlGroups: map<string, seq<string>>)
    ensures forall e :: e in CatalogFrom(taxonomy, urlGroups) ==> e.audioUrl != [] && 1 <= |e.id| <= 4
  {
    CatalogMembers(taxonomy, urlGroups);
  }

  /**
   * Two species whose codes share a prefix (American Robin "amerob" and
   * American Redstart "amered") end up as two birds with one id.
   */
  lemma CatalogIdsCollide(robin: Taxon, redstart: Taxon, urlGroups: map<string, seq<string>>)
    requires robin.speciesCode == Some("amerob") && redstart.speciesCode == Some("amered")
    requires KeepForCatalog(robin, urlGroups) && KeepForCatalog(redstart, urlGroups)
    ensures var birds := CatalogFrom([robin, redstart], urlGroups);
      |birds| == 2 && birds[0].id == birds[1].id == "amer"
  {
    CreateBirdIdCollides();
    assert [robin, redstart][1..] == [redstart];
    assert [redstart][1..] == [];
    assert CatalogFrom([robin, redstart], urlGroups) == [EntryOf(robin, urlGroups), EntryOf(redstart, urlGroups)];
  }

  // ---------------------------------------------------------------------
  // main (lines 131-133)

  /**
   * `output_data[args.region.lower()] = birds`.  `lower()` is modelled on
   * ASCII letters.
   */
  function UpdateRegion(outputData: map<string, seq<CatalogEntry>>, region: string, birds: seq<CatalogEntry>)
    : (r: map<string, seq<CatalogEntry>>)
    ensures r.Keys == outputData.Keys + {LowerChars(region)}
  {
    outputData[LowerChars(region) := birds]
  }

  /** Only the region's key changes; running again for the same region in any letter case replaces it. */
  lemma UpdateRegionOnlyTouchesRegion(outputData: map<string, seq<CatalogEntry>>, region: string, region2: string,
                                      birds: seq<CatalogEntry>, birds2: seq<CatalogEntry>)
    ensures var r := UpdateRegion(outputData, region, birds);
      && r[LowerChars(region)] == birds
      && forall k :: k in outputData && k != LowerChars(region) ==> r[k] == outputData[k]
    ensures LowerChars(region) == LowerChars(region2) ==>
      UpdateRegion(UpdateRegion(outputData, region, birds), region2, birds2) == UpdateRegion(outputData, region2, birds2)
  {
  }

  /** One run of the generator, lines 123-133, on already loaded files. */
  method GenerateCatalog(region: string, taxonomyData: seq<Taxon>, urlsData: seq<UrlRecord>,
                         outputData: map<string, seq<CatalogEntry>>)
    returns (updated: map<string, seq<CatalogEntry>>)
    ensures updated == UpdateRegion(outputData, region, CatalogFrom(taxonomyData, GroupsOf(urlsData)))
  {
    var urlGroups := GroupUrlsByCode(urlsData);
    var birds := ProcessTaxonomyData(taxonomyData, urlGroups);
    var regionKey := LowerChars(region);
    updated := outputData[regionKey := birds];
  }
}
