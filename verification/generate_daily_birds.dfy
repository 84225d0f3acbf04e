/**
 * scripts/generate-daily-birds.py: the nightly job that picks each region's
 * bird, avoiding recent answers, publishes its salted hash to daily.json and
 * records the pick in history.json.  Python strings are Dafny strings (code
 * points); dates are day numbers, since the script only compares and
 * subtracts them.
 */
module DailyBirdGenerator {
  import opened Text
  import opened Wrappers
  import opened Seqs
  import opened HashUtils
  import opened Birds
  import opened DailyBirdUtils

  /** SECRET_SALT (line 19). */
  const SALT: string := "birdle-salt-2025"

  /** `f"{bird_id}-{SECRET_SALT}"` (line 25). */
  function PySaltedKey(birdId: string): string {
    birdId + "-" + SALT
  }

  /**
   * One iteration of lines 29-34.  Python integers are unbounded, so the
   * shift is an exact multiplication by 32; `& 0xFFFFFFFF` is the
   * non-negative residue modulo 2^32 (also for a negative left operand).
   */
  function PyHashStep(h: int, c: char): int {
    var v := ((h * 32) - h) + c as int;
    var masked := v % 0x1_0000_0000;
    if masked >= 0x8000_0000 then masked - 0x1_0000_0000 else masked
  }

  /** The loop of lines 28-34 from the running value h. */
  function PyHashFold(h: int, s: string): (r: int)
    ensures IsInt32(h) || s != [] ==> IsInt32(r)
    decreases |s|
  {
    if s == [] then h else PyHashFold(PyHashStep(h, s[0]), s[1..])
  }

  /** The step is the JavaScript step: signed32(31 * h + code). */
  lemma PyStepIsJsStep(h: int, c: char)
    requires IsInt32(h) && c as int < 0x1_0000
    ensures PyHashStep(h, c) == HashStep(h, c as int)
  {
    StepIsPolynomial(h, c as int);
    assert ((h * 32) - h) + c as int == 31 * h + c as int;
  }

  /** Over text in the Basic Multilingual Plane both scripts compute the same running value. */
  lemma {:induction false} PyFoldIsJsFold(h: int, s: string)
    requires IsInt32(h) && IsBmp(s)
    ensures PyHashFold(h, s) == HashFold(h, Utf16(s))
    decreases |s|
  {
    if s != [] {
      var u := Utf16(s);
      assert u == EncodeChar(s[0]) + Utf16(s[1..]);
      assert u[0] == s[0] as int && u[1..] == Utf16(s[1..]);
      PyStepIsJsStep(h, s[0]);
      assert IsBmp(s[1..]) by {
        forall i | 0 <= i < |s[1..]| ensures s[1..][i] as int < 0x1_0000 { assert s[1..][i] == s[i + 1]; }
      }
      PyFoldIsJsFold(HashStep(h, s[0] as int), s[1..]);
    }
  }

  /** `hash_value` after the loop. */
  function PyRunningHash(birdId: string): (v: int)
    ensures IsInt32(v)
  {
    PyHashFold(0, PySaltedKey(birdId))
  }

  /** Lines 37-38 as written: `format(v & 0xFFFFFFFF, '08x')[:8]`. */
  function FormatAsWritten(v: int): (r: string)
    ensures |r| == 8 && IsLowerHex(r) && HexValue(r) == v % 0x1_0000_0000
  {
    var u := v % 0x1_0000_0000;
    HexLength(u, 8);
    Pow16Values();
    assert PadHex8(u)[..8] == PadHex8(u);
    PadHex8(u)[..8]
  }

  /**
   * Lines 37-38 as the JavaScript reader needs them: the magnitude in
   * unpadded hex, `format(abs(v), 'x')[:8]`.
   */
  function FormatFixed(v: int): (r: string)
    requires IsInt32(v)
    ensures 1 <= |r| <= 8 && IsLowerHex(r)
    ensures r == HexDigits(if v < 0 then -v else v)
  {
    var digits := HexDigits(if v < 0 then -v else v);
    HexLength(if v < 0 then -v else v, 8);
    Pow16Values();
    digits[..Min(8, |digits|)]
  }

  /** What `hash_bird_id` returns as written. */
  function HashAsWritten(birdId: string): string {
    FormatAsWritten(PyRunningHash(birdId))
  }

  /** What `hash_bird_id` must return to match `hashBirdId` in the browser. */
  function HashFixed(birdId: string): string {
    FormatFixed(PyRunningHash(birdId))
  }

  /** The running value the loop of `hash_bird_id` (lines 28-34) leaves. */
  method RunHashLoop(combined: string) returns (hashValue: int)
    ensures hashValue == PyHashFold(0, combined)
  {
    hashValue := 0;
    for i := 0 to |combined|
      invariant PyHashFold(hashValue, combined[i..]) == PyHashFold(0, combined)
    {
      assert combined[i..][1..] == combined[i + 1..];
      var charCode := combined[i] as int;
      hashValue := ((hashValue * 32) - hashValue) + charCode;
      hashValue := hashValue % 0x1_0000_0000;
      if hashValue >= 0x8000_0000 {
        hashValue := hashValue - 0x1_0000_0000;
      }
    }
    assert combined[|combined|..] == [];
  }

  /** `hash_bird_id`, lines 21-38, as written. */
  method HashBirdIdAsWritten(birdId: string) returns (hexHash: string)
    ensures hexHash == HashAsWritten(birdId)
  {
    var hashValue := RunHashLoop(PySaltedKey(birdId));
    hexHash := FormatAsWritten(hashValue);
  }

  /** `hash_bird_id` with the rendering of `hashBirdId`, for the corrected script. */
  method HashBirdIdFixed(birdId: string) returns (hexHash: string)
    ensures hexHash == HashFixed(birdId)
  {
    var hashValue := RunHashLoop(PySaltedKey(birdId));
    hexHash := FormatFixed(hashValue);
  }

  lemma BmpAppend(a: string, b: string)
    requires IsBmp(a) && IsBmp(b)
    ensures IsBmp(a + b)
  {
    forall i | 0 <= i < |a + b| ensures (a + b)[i] as int < 0x1_0000 {
      if i >= |a| { assert (a + b)[i] == b[i - |a|]; }
    }
  }

  /** The salted key the script hashes is the one the browser hashes. */
  lemma SaltedKeysAgree(birdId: string)
    requires IsBmp(birdId)
    ensures IsBmp(PySaltedKey(birdId))
    ensures Utf16(PySaltedKey(birdId)) == SaltedKey(Utf16(birdId))
  {
    assert IsBmp("-") && IsBmp(SALT);
    BmpAppend(birdId, "-");
    BmpAppend(birdId + "-", SALT);
    Utf16Append(birdId + "-", SALT);
    Utf16Append(birdId, "-");
    JsIsUtf16("-");
    JsIsUtf16(SALT);
  }

  /** For ids in the Basic Multilingual Plane the running value is the browser's. */
  lemma RunningHashesAgree(birdId: string)
    requires IsBmp(birdId)
    ensures PyRunningHash(birdId) == RunningHash(SaltedKey(Utf16(birdId)))
  {
    SaltedKeysAgree(birdId);
    PyFoldIsJsFold(0, PySaltedKey(birdId));
  }

  /** The corrected hash is the one the browser computes (`hashBirdId`). */
  lemma FixedHashMatchesBrowser(birdId: string)
    requires IsBmp(birdId)
    ensures Utf16(HashFixed(birdId)) == BirdHash(Utf16(birdId))
  {
    RunningHashesAgree(birdId);
    var v := PyRunningHash(birdId);
    LowerHexIsBmp(HashFixed(birdId));
    JsIsUtf16(HashFixed(birdId));
  }

  /**
   * The two renderings of a signed 32-bit value v agree exactly when v is
   * in [0x10000000, 0x7FFFFFFF] or is -2^31: a smaller non-negative value
   * loses its leading zeros in the browser, and a negative one is negated
   * there but reinterpreted as unsigned here.
   */
  lemma FormatsAgreeIff(v: int)
    requires IsInt32(v)
    ensures FormatAsWritten(v) == FormatFixed(v) <==> 0x1000_0000 <= v || v == -0x8000_0000
  {
    if v >= 0 {
      NonNegativeFormats(v);
    } else {
      NegativeFormats(v);
    }
  }

  lemma NonNegativeFormats(v: int)
    requires 0 <= v < 0x8000_0000
    ensures FormatAsWritten(v) == FormatFixed(v) <==> 0x1000_0000 <= v
  {
    Pow16Values();
    HexLength(v, 7);
    assert v % 0x1_0000_0000 == v;
    if 0x1000_0000 <= v {
      EightDigits(v);
    } else {
      assert |FormatFixed(v)| <= 7 < |FormatAsWritten(v)|;
    }
  }

  lemma NegativeFormats(v: int)
    requires -0x8000_0000 <= v < 0
    ensures FormatAsWritten(v) == FormatFixed(v) <==> v == -0x8000_0000
  {
    var u := v + 0x1_0000_0000;
    assert v % 0x1_0000_0000 == u;
    EightDigits(u);
    assert FormatAsWritten(v) == HexDigits(u);
    assert FormatFixed(v) == HexDigits(-v);
    if HexDigits(u) == HexDigits(-v) {
      HexRoundTrip(u);
      HexRoundTrip(-v);
    }
  }

  /** From 16^7 on, padding to eight digits adds nothing. */
  lemma EightDigits(u: int)
    requires 0x1000_0000 <= u < 0x1_0000_0000
    ensures |HexDigits(u)| == 8 && PadHex8(u) == HexDigits(u) && FormatAsWritten(u) == HexDigits(u)
  {
    Pow16Values();
    HexLength(u, 7);
    HexLength(u, 8);
    assert PadHex8(u) == Zeros(0) + HexDigits(u);
    assert Zeros(0) + HexDigits(u) == HexDigits(u);
    assert u % 0x1_0000_0000 == u;
  }

  /** A value that shows the mismatch: -1 is "ffffffff" here and "1" in the browser. */
  lemma MinusOneMismatch()
    ensures FormatAsWritten(-1) == "ffffffff"
    ensures FormatFixed(-1) == "1"
  {
    FormatsAgreeIff(-1);
    assert HexDigits(1) == "1";
    var r := FormatAsWritten(-1);
    assert HexValue(r) == 0xFFFF_FFFF;
    FfffffffDigits(r);
  }

  /** The only eight-digit numeral of 2^32 - 1 is "ffffffff". */
  lemma FfffffffDigits(r: string)
    requires |r| == 8 && IsLowerHex(r) && HexValue(r) == 0xFFFF_FFFF
    ensures r == "ffffffff"
  {
    AllF(r, 8);
  }

  lemma {:induction false} AllF(r: string, k: nat)
    requires |r| == k && IsLowerHex(r) && HexValue(r) == Pow16(k) - 1
    ensures forall i :: 0 <= i < k ==> r[i] == 'f'
  {
    if k > 0 {
      var init := r[..k - 1];
      assert IsLowerHex(init) by { assert forall i :: 0 <= i < k - 1 ==> init[i] == r[i]; }
      var d := DigitValue(r[k - 1]);
      assert HexValue(r) == HexValue(init) * 16 + d;
      HexValueBelow(init, k - 1);
      assert HexValue(init) == Pow16(k - 1) - 1 && d == 15;
      AllF(init, k - 1);
      assert r == init + [r[k - 1]];
    }
  }

  lemma {:induction false} HexValueBelow(s: string, k: nat)
    requires |s| == k && IsLowerHex(s)
    ensures HexValue(s) < Pow16(k)
  {
    if k > 0 {
      var init := s[..k - 1];
      assert IsLowerHex(init) by { assert forall i :: 0 <= i < k - 1 ==> init[i] == s[i]; }
      HexValueBelow(init, k - 1);
    }
  }

  /**
   * The published hash as written is what the browser looks for exactly
   * when the id's running value is in the agreeing range.
   */
  lemma AsWrittenMatchesBrowserIff(birdId: string)
    requires IsBmp(birdId)
    ensures var v := RunningHash(SaltedKey(Utf16(birdId)));
      Utf16(HashAsWritten(birdId)) == BirdHash(Utf16(birdId)) <==> 0x1000_0000 <= v || v == -0x8000_0000
  {
    RunningHashesAgree(birdId);
    FixedHashMatchesBrowser(birdId);
    FormatsAgreeIff(PyRunningHash(birdId));
    LowerHexIsBmp(HashAsWritten(birdId));
    LowerHexIsBmp(HashFixed(birdId));
    if Utf16(HashAsWritten(birdId)) == BirdHash(Utf16(birdId)) {
      JsInjective(HashAsWritten(birdId), HashFixed(birdId));
    }
  }

  lemma JsInjective(a: string, b: string)
    requires IsBmp(a) && IsBmp(b) && Utf16(a) == Utf16(b)
    ensures a == b
  {
    assert |a| == |b|;
    forall i | 0 <= i < |a| ensures a[i] == b[i] {
      assert Utf16(a)[i] == Utf16(b)[i];
    }
  }

  // ---------------------------------------------------------------------
  // Recent answers, candidate birds and the pick (lines 57-128)

  /** A bird of birds.json as the script reads it. */
  datatype PyBird = PyBird(id: string, name: string)

  /** One record of history.json; `day` is its parsed 'date'. */
  datatype HistoryEntry = HistoryEntry(day: int, id: string, name: string, subregion: Option<string>)

  /** history.json: region id to the region's past picks. */
  type History = map<string, seq<HistoryEntry>>

  /** `history.get(region, [])`. */
  function RegionHistory(history: History, region: string): seq<HistoryEntry> {
    if region in history then history[region] else []
  }

  /** The ids of the entries dated strictly after `cutoff`, gathered front to back. */
  function RecentIds(entries: seq<HistoryEntry>, cutoff: int): set<string> {
    if entries == [] then {}
    else
      var last := entries[|entries| - 1];
      RecentIds(entries[..|entries| - 1], cutoff) + (if last.day > cutoff then {last.id} else {})
  }

  /** An id is recent exactly when some entry dated after the cutoff carries it. */
  lemma {:induction false} RecentIdsMembers(entries: seq<HistoryEntry>, cutoff: int)
    ensures forall id :: id in RecentIds(entries, cutoff) <==>
      exists e :: e in entries && e.day > cutoff && e.id == id
  {
    if entries != [] {
      var init := entries[..|entries| - 1];
      RecentIdsMembers(init, cutoff);
      assert entries == init + [entries[|entries| - 1]];
      assert forall e :: e in entries <==> e in init || e == entries[|entries| - 1];
    }
  }

  /** `get_recent_answers`, lines 57-68; `currentDay - days` is `cutoff_date`. */
  method GetRecentAnswers(history: History, region: string, days: int, currentDay: int)
    returns (recentAnswers: set<string>)
    ensures recentAnswers == RecentIds(RegionHistory(history, region), currentDay - days)
  {
    recentAnswers := {};
    var cutoffDay := currentDay - days;
    var regionHistory := if region in history then history[region] else [];
    for i := 0 to |regionHistory|
      invariant recentAnswers == RecentIds(regionHistory[..i], cutoffDay)
    {
      assert regionHistory[..i + 1][..i] == regionHistory[..i];
      var entry := regionHistory[i];
      if entry.day > cutoffDay {
        recentAnswers := recentAnswers + {entry.id};
      }
    }
    assert regionHistory[..|regionHistory|] == regionHistory;
  }

  /** An unknown region has no recent answers. */
  lemma UnknownRegionHasNoRecentAnswers(history: History, region: string, cutoff: int)
    requires region !in history
    ensures RecentIds(RegionHistory(history, region), cutoff) == {}
  {
  }

  /** `filter_birds_by_subregion`, lines 100-106: an empty id set filters nothing. */
  function FilterBySubregion(birds: seq<PyBird>, subregionIds: set<string>): (r: seq<PyBird>)
    ensures subregionIds == {} ==> r == birds
  {
    if subregionIds == {} then birds else Filter((b: PyBird) => b.id in subregionIds, birds)
  }

  /**
   * With a non-empty id set the result is the order-preserving sublist of
   * the birds whose ids are in the set.
   */
  lemma FilterBySubregionKeeps(birds: seq<PyBird>, subregionIds: set<string>)
    requires subregionIds != {}
    ensures IsSubsequence(FilterBySubregion(birds, subregionIds), birds)
    ensures forall b :: b in FilterBySubregion(birds, subregionIds) <==> b in birds && b.id in subregionIds
  {
    FilterIsSubsequence((b: PyBird) => b.id in subregionIds, birds);
    FilterMembers((b: PyBird) => b.id in subregionIds, birds);
  }

  /**
   * The birds `select_bird_for_region` draws from before excluding recent
   * answers: the subregion's birds when an id set is given (a falsy one,
   * None or empty, is ignored), else all of them.
   */
  function Candidates(birds: seq<PyBird>, subregionIds: Option<set<string>>): seq<PyBird> {
    if subregionIds.Some? && subregionIds.value != {} then FilterBySubregion(birds, subregionIds.value)
    else birds
  }

  /** Every candidate is a bird of the region. */
  lemma CandidatesAreBirds(birds: seq<PyBird>, subregionIds: Option<set<string>>)
    ensures forall b :: b in Candidates(birds, subregionIds) ==> b in birds
  {
    if subregionIds.Some? && subregionIds.value != {} {
      FilterBySubregionKeeps(birds, subregionIds.value);
    }
  }

  /** The candidates whose ids were not recent answers. */
  function NotRecent(birds: seq<PyBird>, recentAnswers: set<string>): seq<PyBird> {
    Filter((b: PyBird) => b.id !in recentAnswers, birds)
  }

  /**
   * `select_bird_for_region`, lines 108-128.  `random.choice` is any element
   * of its list.  An empty subregion result returns None at once (line
   * 116), which is what the general rule below gives too: there are no
   * candidates.
   */
  method SelectBirdForRegion(birds: seq<PyBird>, recentAnswers: set<string>, subregionIds: Option<set<string>>)
    returns (selected: Option<PyBird>)
    ensures selected.None? <==> Candidates(birds, subregionIds) == []
    ensures selected.Some? ==> selected.value in Candidates(birds, subregionIds)
    ensures selected.Some? && selected.value.id in recentAnswers ==>
      forall b :: b in Candidates(birds, subregionIds) ==> b.id in recentAnswers
  {
    var pool := birds;
    if subregionIds.Some? && subregionIds.value != {} {
      pool := FilterBySubregion(pool, subregionIds.value);
      if |pool| == 0 {
        return None;
      }
    }
    var availableBirds := NotRecent(pool, recentAnswers);
    FilterMembers((b: PyBird) => b.id !in recentAnswers, pool);
    if |availableBirds| == 0 {
      availableBirds := pool;
    }
    if |availableBirds| == 0 {
      return None;
    }
    assert availableBirds[0] in availableBirds;
    var choice :| choice in availableBirds;
    selected := Some(choice);
  }

  // ---------------------------------------------------------------------
  // One run of main (lines 199-287)

  /** An entry of the new daily.json (lines 254-262). */
  datatype DailyRecord = DailyRecord(date: string, region: string, answerHash: string, subregion: Option<string>)

  /** What `get_subregion_for_date` chose for a region: its name and its bird ids. */
  datatype Subregion = Subregion(name: string, birdIds: set<string>)

  /** The list comprehension of lines 284-287: keep the entries dated after the cutoff. */
  function Prune(entries: seq<HistoryEntry>, cutoff: int): seq<HistoryEntry> {
    Filter((e: HistoryEntry) => e.day > cutoff, entries)
  }

  /** Lines 267-287: append today's pick, then keep twice the avoidance window. */
  function RecordPick(history: History, regionId: string, entry: HistoryEntry, targetDay: int, days: int): History {
    history[regionId := Prune(RegionHistory(history, regionId) + [entry], targetDay - days * 2)]
  }

  /**
   * After recording, the region's history holds exactly the old entries and
   * the new one that are dated after target - 2·days, in order; other
   * regions are untouched.  With days <= 0 today's pick itself is dropped.
   */
  lemma RecordPickKeeps(history: History, regionId: string, entry: HistoryEntry, targetDay: int, days: int)
    requires entry.day == targetDay
    ensures var h := RecordPick(history, regionId, entry, targetDay, days);
      && (forall r :: r != regionId ==> (r in h <==> r in history) && (r in history ==> h[r] == history[r]))
      && IsSubsequence(h[regionId], RegionHistory(history, regionId) + [entry])
      && (forall e :: e in h[regionId] <==> (e in RegionHistory(history, regionId) || e == entry) && e.day > targetDay - days * 2)
      && (entry in h[regionId] <==> days > 0)
  {
    var all := RegionHistory(history, regionId) + [entry];
    FilterIsSubsequence((e: HistoryEntry) => e.day > targetDay - days * 2, all);
    FilterMembers((e: HistoryEntry) => e.day > targetDay - days * 2, all);
    assert forall e :: e in all <==> e in RegionHistory(history, regionId) || e == entry;
  }

  /**
   * Pruning at twice the window never changes what a later run (on the
   * target day or after) sees as recent: every entry it would count is
   * kept.
   */
  lemma PruneKeepsRecentAnswers(entries: seq<HistoryEntry>, targetDay: int, days: int, laterDay: int)
    requires days >= 0 && laterDay >= targetDay
    ensures RecentIds(Prune(entries, targetDay - days * 2), laterDay - days) == RecentIds(entries, laterDay - days)
  {
    var pruned := Prune(entries, targetDay - days * 2);
    FilterMembers((e: HistoryEntry) => e.day > targetDay - days * 2, entries);
    RecentIdsMembers(pruned, laterDay - days);
    RecentIdsMembers(entries, laterDay - days);
  }

  /**
   * How line 249's hash is rendered: `AsWritten` is the script as it stands,
   * `Fixed` the rendering the browser expects (see FormatsAgreeIff).
   */
  datatype HashFormat = AsWritten | Fixed

  function HashWith(format: HashFormat, birdId: string): string {
    match format
    case AsWritten => HashAsWritten(birdId)
    case Fixed => HashFixed(birdId)
  }

  /** The daily.json entry for the pick b. */
  function RecordFor(format: HashFormat, b: PyBird, regionId: string, targetDate: string, subregionName: Option<string>): DailyRecord {
    DailyRecord(targetDate, regionId, HashWith(format, b.id), subregionName)
  }

  /** The subregion `main` uses: a chosen one whose name is truthy. */
  function ActiveSubregion(subregion: Option<Subregion>): Option<Subregion> {
    if subregion.Some? && subregion.value.name != "" then subregion else None
  }

  /** The subregion name a record carries: the active subregion's, if any (lines 261-262). */
  function ActiveName(subregion: Option<Subregion>): (name: Option<string>)
    ensures name.Some? <==> subregion.Some? && subregion.value.name != ""
    ensures name.Some? ==> name.value == subregion.value.name
  {
    var sub := ActiveSubregion(subregion);
    if sub.Some? then Some(sub.value.name) else None
  }

  /** Every record names a bird of its region by its hash. */
  predicate Published(records: seq<DailyRecord>, birdsData: map<string, seq<PyBird>>, targetDate: string,
                      format: HashFormat) {
    forall k :: 0 <= k < |records| ==>
      && records[k].date == targetDate
      && records[k].region in birdsData
      && exists b :: b in birdsData[records[k].region] && records[k].answerHash == HashWith(format, b.id)
  }

  /** Every record is backed by an entry of the target day in its region's history. */
  predicate Recorded(records: seq<DailyRecord>, history: History, targetDay: int, format: HashFormat) {
    forall k :: 0 <= k < |records| ==>
      exists e :: e in RegionHistory(history, records[k].region)
        && e.day == targetDay && HashWith(format, e.id) == records[k].answerHash
  }

  /** The regions of the records, in order. */
  function RegionsOf(records: seq<DailyRecord>): (r: seq<string>)
    ensures |r| == |records| && forall k :: 0 <= k < |records| ==> r[k] == records[k].region
  {
    seq(|records|, k requires 0 <= k < |records| => records[k].region)
  }

  /**
   * Recording one more pick keeps every record of the day backed by its
   * history entry, the new record included, as long as the window is
   * positive (with days <= 0 the pruning drops today's entries).
   */
  lemma RecordedAfterPick(records: seq<DailyRecord>, history: History, regionId: string, entry: HistoryEntry,
                          targetDay: int, days: int, format: HashFormat, targetDate: string, name: Option<string>)
    requires days > 0 && entry.day == targetDay
    requires Recorded(records, history, targetDay, format)
    ensures Recorded(records + [DailyRecord(targetDate, regionId, HashWith(format, entry.id), name)],
                     RecordPick(history, regionId, entry, targetDay, days), targetDay, format)
  {
    var h := RecordPick(history, regionId, entry, targetDay, days);
    var rs := records + [DailyRecord(targetDate, regionId, HashWith(format, entry.id), name)];
    RecordPickKeeps(history, regionId, entry, targetDay, days);
    forall k | 0 <= k < |rs|
      ensures exists e :: e in RegionHistory(h, rs[k].region) && e.day == targetDay && HashWith(format, e.id) == rs[k].answerHash
    {
      if k == |records| {
        assert entry in RegionHistory(h, regionId);
      } else {
        var e :| e in RegionHistory(history, records[k].region) && e.day == targetDay
          && HashWith(format, e.id) == records[k].answerHash;
        assert e in RegionHistory(h, records[k].region);
      }
    }
  }

  /** `subregion_map.get(region_id)` in effect: the subregion chosen for a region, if any. */
  function SubregionOf(subregionOf: map<string, Subregion>, regionId: string): Option<Subregion> {
    if regionId in subregionOf then Some(subregionOf[regionId]) else None
  }

  /**
   * The birds a region's pick is drawn from (lines 203-243): the region's
   * birds, narrowed to the active subregion when there is one.
   */
  function RegionCandidates(regionId: string, birdsData: map<string, seq<PyBird>>, subregion: Option<Subregion>): seq<PyBird> {
    var regionBirds := if regionId in birdsData then birdsData[regionId] else [];
    var sub := ActiveSubregion(subregion);
    Candidates(regionBirds, if sub.Some? then Some(sub.value.birdIds) else None)
  }

  /** A region whose pick has something to draw from. */
  function HasCandidates(birdsData: map<string, seq<PyBird>>, subregionOf: map<string, Subregion>): string -> bool {
    (r: string) => RegionCandidates(r, birdsData, SubregionOf(subregionOf, r)) != []
  }

  /** A pick among `cands` that was a recent answer only because every candidate was. */
  predicate AvoidsRecent(pick: PyBird, cands: seq<PyBird>, recent: set<string>) {
    pick.id in recent ==> forall b :: b in cands ==> b.id in recent
  }

  /** picks[k] is a candidate of record k's region, and record k carries its hash. */
  predicate PicksFit(records: seq<DailyRecord>, picks: seq<PyBird>, birdsData: map<string, seq<PyBird>>,
                     subregionOf: map<string, Subregion>, format: HashFormat) {
    && |picks| == |records|
    && forall k :: 0 <= k < |records| ==>
      && records[k].answerHash == HashWith(format, picks[k].id)
      && picks[k] in RegionCandidates(records[k].region, birdsData, SubregionOf(subregionOf, records[k].region))
  }

  /** Every pick avoids the answers recent in `history` for its region, as far as it can. */
  predicate PicksAvoidRecent(records: seq<DailyRecord>, picks: seq<PyBird>, history: History,
                             birdsData: map<string, seq<PyBird>>, subregionOf: map<string, Subregion>,
                             targetDay: int, days: int) {
    && |picks| == |records|
    && forall k :: 0 <= k < |records| ==>
      AvoidsRecent(picks[k], RegionCandidates(records[k].region, birdsData, SubregionOf(subregionOf, records[k].region)),
                   RecentIds(RegionHistory(history, records[k].region), targetDay - days))
  }

  /** Record k is the record of picks[k]: today's date, its region, its hash and the active subregion's name. */
  predicate RecordsOfPicks(records: seq<DailyRecord>, picks: seq<PyBird>, subregionOf: map<string, Subregion>,
                           targetDate: string, format: HashFormat) {
    && |picks| == |records|
    && forall k :: 0 <= k < |records| ==>
      records[k] == RecordFor(format, picks[k], records[k].region, targetDate,
                              ActiveName(SubregionOf(subregionOf, records[k].region)))
  }

  /** The history after RecordPick of each record's pick, in the order of the records. */
  function RecordAll(history: History, records: seq<DailyRecord>, picks: seq<PyBird>, targetDay: int, days: int): History
    requires |picks| == |records|
    decreases |records|
  {
    if records == [] then history
    else
      var k := |records| - 1;
      RecordPick(RecordAll(history, records[..k], picks[..k], targetDay, days), records[k].region,
                 HistoryEntry(targetDay, picks[k].id, picks[k].name, records[k].subregion), targetDay, days)
  }

  /** A region none of the records names keeps its history through RecordAll. */
  lemma {:induction false} RecordAllKeeps(history: History, records: seq<DailyRecord>, picks: seq<PyBird>,
                                          targetDay: int, days: int, r: string)
    requires |picks| == |records| && r !in RegionsOf(records)
    ensures var h := RecordAll(history, records, picks, targetDay, days);
      (r in h <==> r in history) && RegionHistory(h, r) == RegionHistory(history, r)
  {
    if records != [] {
      var k := |records| - 1;
      assert RegionsOf(records)[k] == records[k].region;
      assert RegionsOf(records[..k]) == RegionsOf(records)[..k];
      RecordAllKeeps(history, records[..k], picks[..k], targetDay, days, r);
    }
  }

  /**
   * When no region has two records, each region with a record ends with its
   * old history plus its pick, pruned at target - 2·days, as lines 267-287
   * leave it.
   */
  lemma {:induction false} RecordAllRegion(history: History, records: seq<DailyRecord>, picks: seq<PyBird>,
                                           targetDay: int, days: int, k: int)
    requires |picks| == |records| && NoRepeats(RegionsOf(records)) && 0 <= k < |records|
    ensures RegionHistory(RecordAll(history, records, picks, targetDay, days), records[k].region)
      == Prune(RegionHistory(history, records[k].region)
               + [HistoryEntry(targetDay, picks[k].id, picks[k].name, records[k].subregion)], targetDay - days * 2)
  {
    var n := |records| - 1;
    var regions := RegionsOf(records);
    assert RegionsOf(records[..n]) == regions[..n];
    var before := RecordAll(history, records[..n], picks[..n], targetDay, days);
    if k == n {
      forall j | 0 <= j < n
        ensures regions[..n][j] != records[n].region
      {
        assert regions[j] != regions[n];
      }
      RecordAllKeeps(history, records[..n], picks[..n], targetDay, days, records[n].region);
    } else {
      assert regions[k] != regions[n];
      assert NoRepeats(regions[..n]) by {
        forall i, j | 0 <= i < j < n ensures regions[..n][i] != regions[..n][j] {
          assert regions[i] != regions[j];
        }
      }
      RecordAllRegion(history, records[..n], picks[..n], targetDay, days, k);
      assert records[..n][k] == records[k] && picks[..n][k] == picks[k];
    }
  }

  /** The state `main` builds up: history.json and the new daily.json. */
  class DailyRun {
    var history: History
    var newDaily: seq<DailyRecord>

    constructor(history: History)
      ensures this.history == history && newDaily == []
    {
      this.history := history;
      newDaily := [];
    }

    /**
     * The body of the region loop, lines 203-287.  `subregion` is what
     * `get_subregion_for_date` returned for the region (None without
     * subregion data); `format` is the hash rendering, `AsWritten` for the
     * script as it stands.  The ghost `picked` names the bird `random.choice`
     * drew.
     */
    method ProcessRegion(regionId: string, birdsData: map<string, seq<PyBird>>, subregion: Option<Subregion>,
                         targetDay: int, targetDate: string, days: int, format: HashFormat)
      returns (ghost picked: Option<PyBird>)
      modifies this
      ensures var cands := RegionCandidates(regionId, birdsData, subregion);
        var recent := RecentIds(RegionHistory(old(history), regionId), targetDay - days);
        && (picked.None? <==> cands == [])
        && (picked.Some? ==> regionId in birdsData && picked.value in birdsData[regionId])
        && (picked.None? ==> history == old(history) && newDaily == old(newDaily))
        && (picked.Some? ==>
             && picked.value in cands
             && AvoidsRecent(picked.value, cands, recent)
             && var name := ActiveName(subregion);
             && newDaily == old(newDaily) + [RecordFor(format, picked.value, regionId, targetDate, name)]
             && history == RecordPick(old(history), regionId,
                  HistoryEntry(targetDay, picked.value.id, picked.value.name, name), targetDay, days))
    {
      var regionBirds := if regionId in birdsData then birdsData[regionId] else [];
      if |regionBirds| == 0 {
        return None;
      }
      var selectedSubregion := None;
      var subregionBirdIds := {};
      if subregion.Some? {
        selectedSubregion := Some(subregion.value.name);
        subregionBirdIds := subregion.value.birdIds;
      }
      var useSubregion := selectedSubregion.Some? && selectedSubregion.value != "";
      var recentAnswers := GetRecentAnswers(history, regionId, days, targetDay);
      var selectedBird := SelectBirdForRegion(regionBirds, recentAnswers, if useSubregion then Some(subregionBirdIds) else None);
      if selectedBird.None? {
        return None;
      }
      var bird := selectedBird.value;
      CandidatesAreBirds(regionBirds, if useSubregion then Some(subregionBirdIds) else None);
      var birdHash;
      if format.AsWritten? {
        birdHash := HashBirdIdAsWritten(bird.id);
      } else {
        birdHash := HashBirdIdFixed(bird.id);
      }
      var name := if useSubregion then selectedSubregion else None;
      assert name == ActiveName(subregion);
      newDaily := newDaily + [DailyRecord(targetDate, regionId, birdHash, name)];
      var regionHistory := if regionId in history then history[regionId] else [];
      regionHistory := regionHistory + [HistoryEntry(targetDay, bird.id, bird.name, name)];
      ghost var recorded := RecordPick(history, regionId, HistoryEntry(targetDay, bird.id, bird.name, name), targetDay, days);
      history := history[regionId := Prune(regionHistory, targetDay - days * 2)];
      assert history == recorded;
      picked := Some(bird);
    }

    /**
     * The region loop of `main`, lines 202-287, for the regions of
     * regions.json in order.  Exactly the regions with candidates get a
     * record, one per occurrence in `regionIds` and in its order; the ghost
     * `picks` are the birds drawn, one per new record, and each record is
     * the record of its pick.  The history ends as RecordAll of the picks:
     * each appended to its region's history and pruned in turn.  With a
     * positive window each record is backed by today's entry in its
     * region's history; regions outside `regionIds` keep their history.
     */
    method Run(regionIds: seq<string>, birdsData: map<string, seq<PyBird>>, subregionOf: map<string, Subregion>,
               targetDay: int, targetDate: string, days: int, format: HashFormat)
      returns (ghost picks: seq<PyBird>)
      modifies this
      requires Published(newDaily, birdsData, targetDate, format)
      ensures Published(newDaily, birdsData, targetDate, format)
      ensures |old(newDaily)| <= |newDaily| <= |old(newDaily)| + |regionIds|
      ensures newDaily[..|old(newDaily)|] == old(newDaily)
      ensures forall k :: |old(newDaily)| <= k < |newDaily| ==> newDaily[k].region in regionIds
      ensures IsSubsequence(RegionsOf(newDaily[|old(newDaily)|..]), regionIds)
      ensures days > 0 ==> Recorded(newDaily[|old(newDaily)|..], history, targetDay, format)
      ensures forall r :: r !in regionIds ==>
        (r in history <==> r in old(history)) && RegionHistory(history, r) == RegionHistory(old(history), r)
      ensures RegionsOf(newDaily[|old(newDaily)|..]) == Filter(HasCandidates(birdsData, subregionOf), regionIds)
      ensures PicksFit(newDaily[|old(newDaily)|..], picks, birdsData, subregionOf, format)
      ensures RecordsOfPicks(newDaily[|old(newDaily)|..], picks, subregionOf, targetDate, format)
      ensures history == RecordAll(old(history), newDaily[|old(newDaily)|..], picks, targetDay, days)
      ensures NoRepeats(regionIds) ==>
        PicksAvoidRecent(newDaily[|old(newDaily)|..], picks, old(history), birdsData, subregionOf, targetDay, days)
    {
      var settings := RunSettings(birdsData, subregionOf, targetDay, targetDate, days, format);
      ghost var start := newDaily;
      ghost var startHistory := history;
      ghost var unseen := NoRepeats(regionIds);
      ProgressStart(newDaily, history, settings, unseen);
      ghost var added;
      added, picks := RunRegions(regionIds, settings, start, startHistory, unseen);
      ProgressDone(regionIds, settings, start, startHistory, added, picks, newDaily, history);
    }

    /** The for loop of Run, over every region of `regionIds`, keeping Progress. */
    method RunRegions(regionIds: seq<string>, settings: RunSettings, ghost start: seq<DailyRecord>,
                      ghost startHistory: History, ghost unseen: bool)
      returns (ghost added: seq<DailyRecord>, ghost picks: seq<PyBird>)
      modifies this
      requires Progress(newDaily, history, [], settings, start, startHistory, [], [], unseen)
      requires unseen ==> NoRepeats(regionIds)
      ensures Progress(newDaily, history, regionIds, settings, start, startHistory, added, picks, unseen)
      ensures |added| <= |regionIds|
    {
      added, picks := [], [];
      for i := 0 to |regionIds|
        invariant |added| <= i
        invariant Progress(newDaily, history, regionIds[..i], settings, start, startHistory, added, picks, unseen)
      {
        PrefixSnoc(regionIds, i);
        if unseen {
          NoRepeatsFresh(regionIds, i);
        }
        added, picks := RunRegion(regionIds[..i], regionIds[i], settings, start, startHistory, added, picks, unseen);
      }
      assert regionIds[..|regionIds|] == regionIds;
    }

    /**
     * One pass of the loop of Run: ProcessRegion for one more region, with
     * Progress carried from the regions `seen` so far to `seen` and this
     * one; `unseen` says this region is not among `seen`.
     */
    method RunRegion(seen: seq<string>, regionId: string, settings: RunSettings,
                     ghost start: seq<DailyRecord>, ghost startHistory: History,
                     ghost added: seq<DailyRecord>, ghost picks: seq<PyBird>, ghost unseen: bool)
      returns (ghost added': seq<DailyRecord>, ghost picks': seq<PyBird>)
      modifies this
      requires Progress(newDaily, history, seen, settings, start, startHistory, added, picks, unseen)
      requires unseen ==> regionId !in seen
      ensures Progress(newDaily, history, seen + [regionId], settings, start, startHistory, added', picks', unseen)
      ensures |added'| <= |added| + 1
    {
      ghost var dailyBefore := newDaily;
      ghost var historyBefore := history;
      var subregion := SubregionOf(settings.subregionOf, regionId);
      var picked := ProcessRegion(regionId, settings.birdsData, subregion, settings.targetDay, settings.targetDate,
                                  settings.days, settings.format);
      if picked.Some? {
        ghost var name := ActiveName(subregion);
        ghost var record := RecordFor(settings.format, picked.value, regionId, settings.targetDate, name);
        ProgressPick(seen, regionId, settings, start, startHistory, added, picks, unseen,
                     dailyBefore, historyBefore, picked.value, record);
        added' := added + [record];
        picks' := picks + [picked.value];
      } else {
        ProgressSkip(seen, regionId, settings, start, startHistory, added, picks, unseen, newDaily, history);
        added' := added;
        picks' := picks;
      }
    }
  }

  /** The fixed inputs of one run of the region loop. */
  datatype RunSettings = RunSettings(birdsData: map<string, seq<PyBird>>, subregionOf: map<string, Subregion>,
                                     targetDay: int, targetDate: string, days: int, format: HashFormat)

  /**
   * What DailyRun.Run keeps after the regions `seen`: the records `added`
   * since `start` are published, one per region of `seen` with candidates
   * and in its order, backed by the history, drawn as `picks` from their
   * regions' candidates; the regions not yet seen keep their history.
   */
  ghost predicate Progress(daily: seq<DailyRecord>, history: History, seen: seq<string>, settings: RunSettings,
                           start: seq<DailyRecord>, startHistory: History, added: seq<DailyRecord>,
                           picks: seq<PyBird>, unseen: bool)
  {
    && Kept(daily, history, seen, settings, start, startHistory, added)
    && Drawn(seen, settings, startHistory, added, picks, unseen)
    && Logged(history, settings, startHistory, added, picks)
  }

  /** The records' exact shape and the history they leave, of Progress. */
  ghost predicate Logged(history: History, settings: RunSettings, startHistory: History,
                         added: seq<DailyRecord>, picks: seq<PyBird>)
  {
    && RecordsOfPicks(added, picks, settings.subregionOf, settings.targetDate, settings.format)
    && history == RecordAll(startHistory, added, picks, settings.targetDay, settings.days)
  }

  /** The records and the history of Progress. */
  ghost predicate Kept(daily: seq<DailyRecord>, history: History, seen: seq<string>, settings: RunSettings,
                       start: seq<DailyRecord>, startHistory: History, added: seq<DailyRecord>)
  {
    var RunSettings(birdsData, subregionOf, targetDay, targetDate, days, format) := settings;
    && daily == start + added
    && Published(daily, birdsData, targetDate, format)
    && (forall k :: 0 <= k < |added| ==> added[k].region in seen)
    && IsSubsequence(RegionsOf(added), seen)
    && (days > 0 ==> Recorded(added, history, targetDay, format))
    && (forall r :: r !in seen ==>
         (r in history <==> r in startHistory) && RegionHistory(history, r) == RegionHistory(startHistory, r))
  }

  /** The regions and the picks of Progress. */
  ghost predicate Drawn(seen: seq<string>, settings: RunSettings, startHistory: History, added: seq<DailyRecord>,
                        picks: seq<PyBird>, unseen: bool)
  {
    var RunSettings(birdsData, subregionOf, targetDay, targetDate, days, format) := settings;
    && RegionsOf(added) == Filter(HasCandidates(birdsData, subregionOf), seen)
    && PicksFit(added, picks, birdsData, subregionOf, format)
    && (unseen ==> PicksAvoidRecent(added, picks, startHistory, birdsData, subregionOf, targetDay, days))
  }

  /** Before the first region nothing has been added. */
  lemma ProgressStart(daily: seq<DailyRecord>, history: History, settings: RunSettings, unseen: bool)
    requires Published(daily, settings.birdsData, settings.targetDate, settings.format)
    ensures Progress(daily, history, [], settings, daily, history, [], [], unseen)
  {
    assert daily + [] == daily;
  }

  /** After the last region, Progress is what DailyRun.Run promises. */
  lemma ProgressDone(regionIds: seq<string>, settings: RunSettings, start: seq<DailyRecord>, startHistory: History,
                     added: seq<DailyRecord>, picks: seq<PyBird>, daily: seq<DailyRecord>, history: History)
    requires Progress(daily, history, regionIds, settings, start, startHistory, added, picks, NoRepeats(regionIds))
    requires |added| <= |regionIds|
    ensures var RunSettings(birdsData, subregionOf, targetDay, targetDate, days, format) := settings;
      && Published(daily, birdsData, targetDate, format)
      && |start| <= |daily| <= |start| + |regionIds|
      && daily[..|start|] == start
      && (forall k :: |start| <= k < |daily| ==> daily[k].region in regionIds)
      && IsSubsequence(RegionsOf(daily[|start|..]), regionIds)
      && (days > 0 ==> Recorded(daily[|start|..], history, targetDay, format))
      && (forall r :: r !in regionIds ==>
           (r in history <==> r in startHistory) && RegionHistory(history, r) == RegionHistory(startHistory, r))
      && RegionsOf(daily[|start|..]) == Filter(HasCandidates(birdsData, subregionOf), regionIds)
      && PicksFit(daily[|start|..], picks, birdsData, subregionOf, format)
      && RecordsOfPicks(daily[|start|..], picks, subregionOf, targetDate, format)
      && history == RecordAll(startHistory, daily[|start|..], picks, targetDay, days)
      && (NoRepeats(regionIds) ==>
           PicksAvoidRecent(daily[|start|..], picks, startHistory, birdsData, subregionOf, targetDay, days))
  {
    assert daily[..|start|] == start && daily[|start|..] == added;
    forall k | |start| <= k < |daily|
      ensures daily[k].region in regionIds
    {
      assert daily[k] == added[k - |start|];
    }
  }

  /** A region with a pick: its record joins the published ones and its entry the history. */
  lemma ProgressPick(seen: seq<string>, regionId: string, settings: RunSettings,
                     start: seq<DailyRecord>, startHistory: History, added: seq<DailyRecord>, picks: seq<PyBird>,
                     unseen: bool, daily: seq<DailyRecord>, history: History, pick: PyBird, record: DailyRecord)
    requires Progress(daily, history, seen, settings, start, startHistory, added, picks, unseen)
    requires unseen ==> regionId !in seen
    requires regionId in settings.birdsData && pick in settings.birdsData[regionId]
    requires record.region == regionId && record.date == settings.targetDate
    requires record.answerHash == HashWith(settings.format, pick.id)
    requires record == RecordFor(settings.format, pick, regionId, settings.targetDate,
                                 ActiveName(SubregionOf(settings.subregionOf, regionId)))
    requires var cands := RegionCandidates(regionId, settings.birdsData, SubregionOf(settings.subregionOf, regionId));
      && pick in cands
      && AvoidsRecent(pick, cands, RecentIds(RegionHistory(history, regionId), settings.targetDay - settings.days))
    ensures Progress(daily + [record],
                     RecordPick(history, regionId, HistoryEntry(settings.targetDay, pick.id, pick.name, record.subregion),
                                settings.targetDay, settings.days),
                     seen + [regionId], settings, start, startHistory, added + [record], picks + [pick], unseen)
  {
    KeptPick(seen, regionId, settings, start, startHistory, added, daily, history, pick, record);
    if unseen {
      assert RegionHistory(history, regionId) == RegionHistory(startHistory, regionId);
    }
    DrawnPick(seen, regionId, settings, startHistory, added, picks, unseen, history, pick, record);
    LoggedPick(regionId, settings, startHistory, added, picks, history, pick, record);
  }

  /** The records-and-history-fold half of ProgressPick. */
  lemma LoggedPick(regionId: string, settings: RunSettings, startHistory: History, added: seq<DailyRecord>,
                   picks: seq<PyBird>, history: History, pick: PyBird, record: DailyRecord)
    requires Logged(history, settings, startHistory, added, picks)
    requires record == RecordFor(settings.format, pick, regionId, settings.targetDate,
                                 ActiveName(SubregionOf(settings.subregionOf, regionId)))
    ensures Logged(RecordPick(history, regionId, HistoryEntry(settings.targetDay, pick.id, pick.name, record.subregion),
                              settings.targetDay, settings.days),
                   settings, startHistory, added + [record], picks + [pick])
  {
    assert (added + [record])[..|added|] == added;
    assert (picks + [pick])[..|picks|] == picks;
  }

  /** The records and history half of ProgressPick. */
  lemma KeptPick(seen: seq<string>, regionId: string, settings: RunSettings,
                 start: seq<DailyRecord>, startHistory: History, added: seq<DailyRecord>,
                 daily: seq<DailyRecord>, history: History, pick: PyBird, record: DailyRecord)
    requires Kept(daily, history, seen, settings, start, startHistory, added)
    requires regionId in settings.birdsData && pick in settings.birdsData[regionId]
    requires record.region == regionId && record.date == settings.targetDate
    requires record.answerHash == HashWith(settings.format, pick.id)
    ensures Kept(daily + [record],
                 RecordPick(history, regionId, HistoryEntry(settings.targetDay, pick.id, pick.name, record.subregion),
                            settings.targetDay, settings.days),
                 seen + [regionId], settings, start, startHistory, added + [record])
  {
    var RunSettings(birdsData, subregionOf, targetDay, targetDate, days, format) := settings;
    assert (start + added) + [record] == start + (added + [record]);
    RecordsStep(seen, birdsData, targetDate, format, pick, record, daily, added);
    HistoryStep(seen, regionId, targetDay, days, format, pick, record, added, history, startHistory);
  }

  /** The regions and picks half of ProgressPick. */
  lemma DrawnPick(seen: seq<string>, regionId: string, settings: RunSettings, startHistory: History,
                  added: seq<DailyRecord>, picks: seq<PyBird>, unseen: bool, history: History,
                  pick: PyBird, record: DailyRecord)
    requires Drawn(seen, settings, startHistory, added, picks, unseen)
    requires unseen ==> RegionHistory(history, regionId) == RegionHistory(startHistory, regionId)
    requires record.region == regionId && record.answerHash == HashWith(settings.format, pick.id)
    requires var cands := RegionCandidates(regionId, settings.birdsData, SubregionOf(settings.subregionOf, regionId));
      && pick in cands
      && AvoidsRecent(pick, cands, RecentIds(RegionHistory(history, regionId), settings.targetDay - settings.days))
    ensures Drawn(seen + [regionId], settings, startHistory, added + [record], picks + [pick], unseen)
  {
    var RunSettings(birdsData, subregionOf, targetDay, targetDate, days, format) := settings;
    PicksStep(added, picks, record, pick, birdsData, subregionOf, format, startHistory, history, targetDay, days, unseen);
    FilterRecordsStep(HasCandidates(birdsData, subregionOf), seen, regionId, added, Some(record));
  }

  /** A region without candidates: nothing is added and nothing changes. */
  lemma ProgressSkip(seen: seq<string>, regionId: string, settings: RunSettings,
                     start: seq<DailyRecord>, startHistory: History, added: seq<DailyRecord>, picks: seq<PyBird>,
                     unseen: bool, daily: seq<DailyRecord>, history: History)
    requires Progress(daily, history, seen, settings, start, startHistory, added, picks, unseen)
    requires RegionCandidates(regionId, settings.birdsData, SubregionOf(settings.subregionOf, regionId)) == []
    ensures Progress(daily, history, seen + [regionId], settings, start, startHistory, added, picks, unseen)
  {
    SubsequenceSnoc(RegionsOf(added), seen, regionId);
    FilterRecordsStep(HasCandidates(settings.birdsData, settings.subregionOf), seen, regionId, added, None);
  }

  /**
   * One more region keeps the records of DailyRun.Run one per region with
   * candidates: a record is added exactly when the region passes `p`.
   */
  lemma FilterRecordsStep(p: string -> bool, seen: seq<string>, regionId: string, added: seq<DailyRecord>,
                          record: Option<DailyRecord>)
    requires RegionsOf(added) == Filter(p, seen)
    requires record.Some? <==> p(regionId)
    requires record.Some? ==> record.value.region == regionId
    ensures RegionsOf(added + (if record.Some? then [record.value] else [])) == Filter(p, seen + [regionId])
  {
    FilterSnoc(p, seen, regionId);
    if record.Some? {
      assert RegionsOf(added + [record.value]) == RegionsOf(added) + [regionId];
    } else {
      assert added + [] == added;
    }
  }

  /** One more pick keeps the picks of DailyRun.Run fitting their records and avoiding recent answers. */
  lemma PicksStep(added: seq<DailyRecord>, picks: seq<PyBird>, record: DailyRecord, pick: PyBird,
                  birdsData: map<string, seq<PyBird>>, subregionOf: map<string, Subregion>, format: HashFormat,
                  startHistory: History, historyBefore: History, targetDay: int, days: int, unseen: bool)
    requires PicksFit(added, picks, birdsData, subregionOf, format)
    requires unseen ==> PicksAvoidRecent(added, picks, startHistory, birdsData, subregionOf, targetDay, days)
    requires record.answerHash == HashWith(format, pick.id)
    requires var cands := RegionCandidates(record.region, birdsData, SubregionOf(subregionOf, record.region));
      && pick in cands
      && AvoidsRecent(pick, cands, RecentIds(RegionHistory(historyBefore, record.region), targetDay - days))
    requires unseen ==> RegionHistory(historyBefore, record.region) == RegionHistory(startHistory, record.region)
    ensures PicksFit(added + [record], picks + [pick], birdsData, subregionOf, format)
    ensures unseen ==> PicksAvoidRecent(added + [record], picks + [pick], startHistory, birdsData, subregionOf, targetDay, days)
  {
  }

  /**
   * One more record keeps the records of DailyRun.Run published and in the
   * order of the regions seen.
   */
  lemma RecordsStep(seen: seq<string>, birdsData: map<string, seq<PyBird>>, targetDate: string,
                    format: HashFormat, b: PyBird, record: DailyRecord, all: seq<DailyRecord>, added: seq<DailyRecord>)
    requires record.region in birdsData && b in birdsData[record.region]
    requires record.date == targetDate && record.answerHash == HashWith(format, b.id)
    requires Published(all, birdsData, targetDate, format)
    requires forall k :: 0 <= k < |added| ==> added[k].region in seen
    requires IsSubsequence(RegionsOf(added), seen)
    ensures Published(all + [record], birdsData, targetDate, format)
    ensures forall k :: 0 <= k < |added| + 1 ==> (added + [record])[k].region in seen + [record.region]
    ensures IsSubsequence(RegionsOf(added + [record]), seen + [record.region])
  {
    assert RegionsOf(added + [record]) == RegionsOf(added) + [record.region];
    SubsequenceSnoc(RegionsOf(added), seen, record.region);
  }

  /**
   * One more pick keeps every record of DailyRun.Run backed by a history
   * entry, and leaves the regions not yet seen untouched.
   */
  lemma HistoryStep(seen: seq<string>, regionId: string, targetDay: int, days: int, format: HashFormat,
                    b: PyBird, record: DailyRecord, added: seq<DailyRecord>, historyBefore: History, startHistory: History)
    requires record.region == regionId && record.answerHash == HashWith(format, b.id)
    requires days > 0 ==> Recorded(added, historyBefore, targetDay, format)
    requires forall r :: r !in seen ==>
      (r in historyBefore <==> r in startHistory) && RegionHistory(historyBefore, r) == RegionHistory(startHistory, r)
    ensures var historyAfter := RecordPick(historyBefore, regionId, HistoryEntry(targetDay, b.id, b.name, record.subregion), targetDay, days);
      && (days > 0 ==> Recorded(added + [record], historyAfter, targetDay, format))
      && forall r :: r !in seen + [regionId] ==>
        (r in historyAfter <==> r in startHistory) && RegionHistory(historyAfter, r) == RegionHistory(startHistory, r)
  {
    var entry := HistoryEntry(targetDay, b.id, b.name, record.subregion);
    RecordPickKeeps(historyBefore, regionId, entry, targetDay, days);
    if days > 0 {
      RecordedAfterPick(added, historyBefore, regionId, entry, targetDay, days, format, record.date, record.subregion);
    }
  }

  /**
   * The round trip from the script to the browser: the corrected hash of a
   * bird's id makes `findBirdByHash` return that bird, unless a bird before
   * it in the region list has the same hash.
   */
  lemma PublishedHashFindsBird(birdId: string, jsBirds: seq<Bird>, k: nat)
    requires IsBmp(birdId) && k < |jsBirds| && jsBirds[k].id == Utf16(birdId)
    requires forall j :: 0 <= j < k ==> BirdHash(jsBirds[j].id) != BirdHash(jsBirds[k].id)
    ensures FindByHash(Some(jsBirds), Some(Utf16(HashWith(Fixed, birdId)))) == Some(jsBirds[k])
  {
    FixedHashMatchesBrowser(birdId);
    GeneratedEntryFindsBird(Js(""), Js(""), jsBirds, k);
  }
}
