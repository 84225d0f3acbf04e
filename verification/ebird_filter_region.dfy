/**
 * scripts/ebird-filter-region.py: cut the full eBird taxonomy down to the
 * species of one region.  Reading and writing the JSON files is left out;
 * the region's code list and the taxonomy are parameters, and paths are
 * lists of components.
 */
module TaxonomyFilter {
  import opened Wrappers
  import opened Seqs

  /**
   * An entry of the eBird taxonomy; a field the JSON object lacks is None
   * (`entry.get(...)` returns None).
   */
  datatype Taxon = Taxon(speciesCode: Option<string>, comName: Option<string>,
                         sciName: Option<string>, category: Option<string>)

  /** The condition of the comprehension, lines 30-31. */
  predicate KeepTaxon(entry: Taxon, regionCodes: set<string>, excludeHybrids: bool) {
    && entry.speciesCode.Some? && entry.speciesCode.value in regionCodes
    && (!excludeHybrids || entry.category != Some("hybrid"))
  }

  /**
   * `filtered_taxonomy`, lines 28-32: an order-preserving sublist of the
   * taxonomy; an entry is kept exactly when its code is one of the region's
   * and, with `exclude_hybrids`, it is not a hybrid, and a kept entry
   * keeps every one of its occurrences.
   */
  function FilterTaxonomy(fullTaxonomy: seq<Taxon>, regionCodes: set<string>, excludeHybrids: bool): (r: seq<Taxon>)
    ensures IsSubsequence(r, fullTaxonomy)
    ensures forall e :: e in r <==> e in fullTaxonomy && KeepTaxon(e, regionCodes, excludeHybrids)
    ensures forall e :: multiset(r)[e] == if KeepTaxon(e, regionCodes, excludeHybrids) then multiset(fullTaxonomy)[e] else 0
  {
    FilterIsSubsequence(Keep(regionCodes, excludeHybrids), fullTaxonomy);
    FilterMembers(Keep(regionCodes, excludeHybrids), fullTaxonomy);
    FilterCounts(Keep(regionCodes, excludeHybrids), fullTaxonomy);
    Filter(Keep(regionCodes, excludeHybrids), fullTaxonomy)
  }

  function Keep(regionCodes: set<string>, excludeHybrids: bool): Taxon -> bool {
    (e: Taxon) => KeepTaxon(e, regionCodes, excludeHybrids)
  }

  /** What the filter promises, one case at a time. */
  lemma FilterTaxonomyCases(fullTaxonomy: seq<Taxon>, regionCodes: set<string>, excludeHybrids: bool)
    ensures var r := FilterTaxonomy(fullTaxonomy, regionCodes, excludeHybrids);
      && (forall e :: e in r ==> e.speciesCode.Some? && e.speciesCode.value in regionCodes)
      && (excludeHybrids ==> forall e :: e in r ==> e.category != Some("hybrid"))
      && (!excludeHybrids ==> forall e :: e in fullTaxonomy && e.speciesCode.Some? && e.speciesCode.value in regionCodes ==> e in r)
      && (regionCodes == {} ==> r == [])
  {
    if regionCodes == {} {
      FilterNone(Keep(regionCodes, excludeHybrids), fullTaxonomy);
    }
  }

  /** A relative path as its list of components; `.` is the empty list. */
  datatype Path = Path(parts: seq<string>)

  /** `path.name`: the last component, "" for `.`. */
  function Name(p: Path): string {
    if p.parts == [] then "" else p.parts[|p.parts| - 1]
  }

  /** `path.parent`: all components but the last. */
  function Parent(p: Path): Path {
    if p.parts == [] then p else Path(p.parts[..|p.parts| - 1])
  }

  /** `parent / name` for a single component name. */
  function Join(p: Path, name: string): Path {
    Path(p.parts + [name])
  }

  /** The index of the last '.' in s, or -1 (`str.rfind('.')`). */
  function LastDot(s: string): (i: int)
    ensures -1 <= i < |s|
    ensures i >= 0 ==> s[i] == '.'
    ensures forall k :: i < k < |s| ==> s[k] != '.'
  {
    if s == [] then -1
    else if s[|s| - 1] == '.' then |s| - 1
    else LastDot(s[..|s| - 1])
  }

  /**
   * `path.stem` (pathlib): the name without its final suffix; a leading or
   * trailing dot does not start a suffix.
   */
  function Stem(name: string): (stem: string)
    ensures |stem| <= |name| && stem == name[..|stem|]
    ensures stem == name || (|stem| > 0 && name[|stem|] == '.')
  {
    var i := LastDot(name);
    if 0 < i < |name| - 1 then name[..i] else name
  }

  /** `region_file.parent / f"{region_name}-taxonomy.json"`, lines 8-9. */
  function OutputPath(regionFile: Path): (out: Path)
    ensures Parent(out) == Parent(regionFile) || regionFile.parts == []
    ensures Name(out) == Stem(Name(regionFile)) + "-taxonomy.json"
  {
    var out := Join(Parent(regionFile), Stem(Name(regionFile)) + "-taxonomy.json");
    assert out.parts[..|out.parts| - 1] == Parent(regionFile).parts;
    out
  }

  /** The output file sits next to the region file and never replaces it. */
  lemma OutputBesideInput(regionFile: Path)
    requires regionFile.parts != []
    ensures Parent(OutputPath(regionFile)) == Parent(regionFile)
    ensures OutputPath(regionFile) != regionFile
  {
    var name := Name(regionFile);
    var stem := Stem(name);
    var outName := Name(OutputPath(regionFile));
    if stem == name {
      assert |outName| > |name|;
    } else {
      assert outName[|stem|] == '-' && name[|stem|] == '.';
    }
    assert outName != name;
  }

  /** The example of lines 7-8: `us.json` gives `us-taxonomy.json`. */
  lemma UsExample(dir: seq<string>)
    ensures OutputPath(Path(dir + ["us.json"])) == Path(dir + ["us-taxonomy.json"])
  {
    assert "us.json"[..6] == "us.jso" && "us.jso"[..5] == "us.js";
    assert "us.js"[..4] == "us.j" && "us.j"[..3] == "us.";
    assert LastDot("us.") == 2;
    assert LastDot("us.json") == 2;
    assert "us.json"[..2] == "us";
    assert Stem("us.json") == "us";
    var p := Path(dir + ["us.json"]);
    assert Name(p) == "us.json";
    assert p.parts[..|p.parts| - 1] == dir;
    assert Parent(p) == Path(dir);
    assert "us" + "-taxonomy.json" == "us-taxonomy.json";
  }
}
