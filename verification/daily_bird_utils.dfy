/**
 * src/utils/DailyBirdUtils.jsx: the daily answer is published as a salted
 * hash of the bird's id, and the browser finds the bird whose hash matches.
 * Fetching daily.json is I/O; its parsed content is a parameter here.
 */
module DailyBirdUtils {
  import opened Text
  import opened Wrappers
  import opened HashUtils
  import opened Birds

  /** SECRET_SALT (line 6). */
  const SECRET_SALT: JsString := Js("birdle-salt-2025")

  /** The template string `${birdId}-${SECRET_SALT}`. */
  function SaltedKey(birdId: JsString): JsString {
    birdId + Js("-") + SECRET_SALT
  }

  lemma LowerHexIsBmp(s: string)
    requires IsLowerHex(s)
    ensures IsBmp(s)
  {
  }

  /** `n.toString(16)` for a non-negative integer. */
  function HexString(n: nat): (u: JsString)
    ensures |u| == |HexDigits(n)|
  {
    LowerHexIsBmp(HexDigits(n));
    Js(HexDigits(n))
  }

  /**
   * What hashBirdId returns (lines 13-17).  The hash is at most 2^31, whose
   * base-16 numeral has 8 digits, so `substring(0, 8)` never cuts anything:
   * the result is the full numeral.
   */
  function BirdHash(birdId: JsString): (r: JsString)
    ensures 1 <= |r| <= 8
    ensures r == HexString(Hash(SaltedKey(birdId)))
  {
    var fullHash := HexString(Hash(SaltedKey(birdId)));
    HexLength(Hash(SaltedKey(birdId)), 8);
    Pow16Values();
    fullHash[..Min(8, |fullHash|)]
  }

  /** hashBirdId, lines 13-17. */
  method HashBirdId(birdId: JsString) returns (r: JsString)
    ensures r == BirdHash(birdId)
  {
    var combined := SaltedKey(birdId);
    var h := HashString(combined);
    var fullHash := HexString(h);
    r := fullHash[..Min(8, |fullHash|)];
  }

  /** A bird hash reads back as the salted hash it was made from, in lower-case hex. */
  lemma BirdHashDecodes(birdId: JsString)
    ensures var r := BirdHash(birdId);
      && (forall i :: 0 <= i < |r| ==> IsLowerHexDigit(r[i] as char))
      && HexValue(HexDigits(Hash(SaltedKey(birdId)))) == Hash(SaltedKey(birdId))
      && r == Js(HexDigits(Hash(SaltedKey(birdId))))
  {
    HexRoundTrip(Hash(SaltedKey(birdId)));
  }

  /** Lower-casing leaves a lower-case hex string unchanged. */
  lemma LowerOfBirdHash(birdId: JsString)
    ensures ToLowerAscii(BirdHash(birdId)) == BirdHash(birdId)
  {
    var r := BirdHash(birdId);
    forall i | 0 <= i < |r| ensures LowerUnit(r[i]) == r[i] {
      assert IsLowerHexDigit(HexDigits(Hash(SaltedKey(birdId)))[i]);
    }
  }

  // ----- findBirdByHash ------------------------------------------------------

  /** The first bird of the list whose hash is `target`. */
  function FirstWithHash(birds: seq<Bird>, target: JsString): (r: Option<Bird>)
    ensures r.Some? ==> r.value in birds && BirdHash(r.value.id) == target
    ensures r.None? <==> forall b :: b in birds ==> BirdHash(b.id) != target
  {
    if birds == [] then None
    else if BirdHash(birds[0].id) == target then Some(birds[0])
    else
      var rest := FirstWithHash(birds[1..], target);
      assert forall b :: b in birds ==> b == birds[0] || b in birds[1..];
      rest
  }

  /** findBirdByHash (lines 25-35), with `null`/`undefined` as None. */
  function FindByHash(birds: Option<seq<Bird>>, answerHash: Option<JsString>): Option<Bird> {
    if birds.None? || answerHash.None? || answerHash.value == [] then None
    else FirstWithHash(birds.value, ToLowerAscii(answerHash.value))
  }

  /** findBirdByHash, lines 25-35. */
  method FindBirdByHash(birds: Option<seq<Bird>>, answerHash: Option<JsString>) returns (r: Option<Bird>)
    ensures r == FindByHash(birds, answerHash)
  {
    if birds.None? || answerHash.None? || |answerHash.value| == 0 {
      return None;
    }
    var list := birds.value;
    var i := 0;
    while i < |list|
      invariant 0 <= i <= |list|
      invariant FirstWithHash(list, ToLowerAscii(answerHash.value)) == FirstWithHash(list[i..], ToLowerAscii(answerHash.value))
    {
      var birdHash := HashBirdId(list[i].id);
      if birdHash == ToLowerAscii(answerHash.value) {
        return Some(list[i]);
      }
      assert list[i..][1..] == list[i + 1..];
      i := i + 1;
    }
    return None;
  }

  /** The bird at position k is found when no bird before it has the same hash. */
  lemma {:induction false} FirstWithHashFinds(birds: seq<Bird>, k: nat, target: JsString)
    requires k < |birds| && BirdHash(birds[k].id) == target
    requires forall j :: 0 <= j < k ==> BirdHash(birds[j].id) != target
    ensures FirstWithHash(birds, target) == Some(birds[k])
  {
    if k > 0 {
      assert BirdHash(birds[0].id) != target;
      FirstWithHashFinds(birds[1..], k - 1, target);
    }
  }

  /** The lookup ignores the case of the published hash. */
  lemma FindByHashIgnoresCase(birds: Option<seq<Bird>>, h: JsString)
    ensures FindByHash(birds, Some(ToUpperAscii(h))) == FindByHash(birds, Some(h))
  {
    LowerOfUpper(h);
  }

  // ----- daily.json entries --------------------------------------------------

  /** One entry of daily.json; `answerHash` is None when the entry has none. */
  datatype DailyEntry = DailyEntry(date: JsString, region: JsString, answerHash: Option<JsString>)

  /** generateDailyEntry, lines 112-118. */
  function GenerateDailyEntry(date: JsString, region: JsString, birdId: JsString): (e: DailyEntry)
    ensures e.date == date && e.region == region && e.answerHash == Some(BirdHash(birdId))
  {
    DailyEntry(date, region, Some(BirdHash(birdId)))
  }

  /**
   * The round trip of a published entry: the bird it was generated for is
   * found from its hash, upper-cased or not, unless a bird earlier in the
   * list has the same hash.
   */
  lemma GeneratedEntryFindsBird(date: JsString, region: JsString, birds: seq<Bird>, k: nat)
    requires k < |birds|
    requires forall j :: 0 <= j < k ==> BirdHash(birds[j].id) != BirdHash(birds[k].id)
    ensures var e := GenerateDailyEntry(date, region, birds[k].id);
      && FindByHash(Some(birds), e.answerHash) == Some(birds[k])
      && FindByHash(Some(birds), Some(ToUpperAscii(e.answerHash.value))) == Some(birds[k])
  {
    var h := BirdHash(birds[k].id);
    LowerOfBirdHash(birds[k].id);
    FirstWithHashFinds(birds, k, h);
    FindByHashIgnoresCase(Some(birds), h);
  }

  /** `dailyData.find(entry => entry.date === date && entry.region === region)` */
  function FindEntry(daily: seq<DailyEntry>, date: JsString, region: JsString): (r: Option<DailyEntry>)
    ensures r.Some? ==> r.value in daily && r.value.date == date && r.value.region == region
    ensures r.None? <==> forall e :: e in daily ==> !(e.date == date && e.region == region)
    ensures r.Some? ==> exists k :: FirstMatch(daily, date, region, k) && daily[k] == r.value
  {
    if daily == [] then None
    else if daily[0].date == date && daily[0].region == region then
      assert FirstMatch(daily, date, region, 0);
      Some(daily[0])
    else
      var rest := FindEntry(daily[1..], date, region);
      assert forall e :: e in daily ==> e == daily[0] || e in daily[1..];
      if rest.None? then rest
      else
        var k :| FirstMatch(daily[1..], date, region, k) && daily[1..][k] == rest.value;
        assert FirstMatch(daily, date, region, k + 1);
        rest
  }

  /** daily[k] is the first entry for this date and region. */
  predicate FirstMatch(daily: seq<DailyEntry>, date: JsString, region: JsString, k: int) {
    && 0 <= k < |daily| && daily[k].date == date && daily[k].region == region
    && forall j :: 0 <= j < k ==> !(daily[j].date == date && daily[j].region == region)
  }

  /** What getTodaysBirdFromDaily resolves to; None for a failed load. */
  function TodaysBird(region: JsString, birds: Option<seq<Bird>>, date: JsString, dailyData: Option<seq<DailyEntry>>): Option<Bird> {
    if dailyData.None? then None
    else
      var todaysEntry := FindEntry(dailyData.value, date, region);
      if todaysEntry.None? then None
      else FindByHash(birds, todaysEntry.value.answerHash)
  }

  /** getTodaysBirdFromDaily, lines 69-103; `dailyData` is the loaded file, None when loading failed. */
  method GetTodaysBirdFromDaily(region: JsString, birds: Option<seq<Bird>>, date: JsString,
                                dailyData: Option<seq<DailyEntry>>)
    returns (r: Option<Bird>)
    ensures r == TodaysBird(region, birds, date, dailyData)
  {
    if dailyData.None? {
      return None;
    }
    var todaysEntry := FindEntry(dailyData.value, date, region);
    if todaysEntry.None? {
      return None;
    }
    r := FindBirdByHash(birds, todaysEntry.value.answerHash);
  }

  /**
   * End to end: when the first entry for this date and region was generated
   * for a bird of the list, and no earlier bird shares its hash, that bird is
   * today's bird.
   */
  lemma TodaysBirdFromGeneratedEntry(region: JsString, birds: seq<Bird>, date: JsString,
                                     dailyData: seq<DailyEntry>, k: nat)
    requires k < |birds|
    requires FindEntry(dailyData, date, region) == Some(GenerateDailyEntry(date, region, birds[k].id))
    requires forall j :: 0 <= j < k ==> BirdHash(birds[j].id) != BirdHash(birds[k].id)
    ensures TodaysBird(region, Some(birds), date, Some(dailyData)) == Some(birds[k])
  {
    GeneratedEntryFindsBird(date, region, birds, k);
  }
}
