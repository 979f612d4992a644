/** Selection of the (platform, snapshotter) pairing used to unpack a pulled image. */
module Local {
  import opened Wrappers
  import opened Platforms
  import opened Unpack
  import opened Transfer

  /** The selector's two results: whether a pairing was found, and that pairing
      (the zero pairing when none was). */
  datatype Selection = Selection(matched: bool, supported: SupportedPlatform)

  /** The snapshotter key a catalog entry must carry to serve the request:
      the requested key, or the default key when the request names none. */
  function WantedKey(requested: string, defaultKey: string): (wanted: string)
    ensures requested != "" ==> wanted == requested
    ensures wanted == defaultKey <==> requested == "" || requested == defaultKey
  {
    if requested == "" then defaultKey else requested
  }

  /** The entry's matcher accepts `p`. A nil matcher accepts no platform. */
  predicate Accepts(entry: SupportedPlatform, p: Platform) {
    entry.platform.Some? && entry.platform.value.Match(p)
  }

  /** The entry passes both tests: its matcher is the strict matcher for the
      requested platform, and its key is the requested one or, when the request
      names no key, the default one. */
  predicate Qualifies(entry: SupportedPlatform, uc: UnpackConfiguration, defaultKey: string): (qualifies: bool)
    ensures qualifies <==>
            && entry.platform == Some(OnlyStrict(uc.platform))
            && (if uc.snapshotter == "" then entry.snapshotterKey == defaultKey else entry.snapshotterKey == uc.snapshotter)
  {
    Accepts(entry, uc.platform) && entry.snapshotterKey == WantedKey(uc.snapshotter, defaultKey)
  }

  /** Position `i` holds the earliest qualifying entry of the catalog. */
  ghost predicate IsFirstQualifying(uc: UnpackConfiguration, catalog: seq<SupportedPlatform>, defaultKey: string, i: int) {
    && 0 <= i < |catalog|
    && Qualifies(catalog[i], uc, defaultKey)
    && forall j :: 0 <= j < i ==> !Qualifies(catalog[j], uc, defaultKey)
  }

  /** The selector: scans the catalog in order and returns the first entry whose
      matcher accepts the requested platform and whose key is the wanted key;
      otherwise reports no match with the zero pairing. */
  function GetSupportedPlatform(uc: UnpackConfiguration, catalog: seq<SupportedPlatform>, defaultKey: string): (r: Selection)
    ensures r.matched ==> exists i :: IsFirstQualifying(uc, catalog, defaultKey, i) && r.supported == catalog[i]
    ensures !r.matched ==> r.supported == NoPlatform
    ensures !r.matched ==> forall i :: 0 <= i < |catalog| ==> !Qualifies(catalog[i], uc, defaultKey)
  {
    if catalog == [] then
      Selection(false, NoPlatform)
    else if Qualifies(catalog[0], uc, defaultKey) then
      Selection(true, catalog[0])
    else
      GetSupportedPlatform(uc, catalog[1..], defaultKey)
  }

  /** An empty catalog never matches. */
  lemma EmptyCatalogNeverMatches(uc: UnpackConfiguration, defaultKey: string)
    ensures GetSupportedPlatform(uc, [], defaultKey) == Selection(false, NoPlatform)
  {}

  /** The selector returns exactly the earliest qualifying entry. */
  lemma SelectsFirstQualifying(uc: UnpackConfiguration, catalog: seq<SupportedPlatform>, defaultKey: string, i: int)
    requires IsFirstQualifying(uc, catalog, defaultKey, i)
    ensures GetSupportedPlatform(uc, catalog, defaultKey) == Selection(true, catalog[i])
  {
    var r := GetSupportedPlatform(uc, catalog, defaultKey);
    assert r.matched;
    var k :| IsFirstQualifying(uc, catalog, defaultKey, k) && r.supported == catalog[k];
    assert k == i;
  }

  /** A match is found if and only if some entry of the catalog qualifies. */
  lemma MatchedIffSomeEntryQualifies(uc: UnpackConfiguration, catalog: seq<SupportedPlatform>, defaultKey: string)
    ensures GetSupportedPlatform(uc, catalog, defaultKey).matched
            <==> exists i :: 0 <= i < |catalog| && Qualifies(catalog[i], uc, defaultKey)
  {
    if k :| 0 <= k < |catalog| && Qualifies(catalog[k], uc, defaultKey) {
      assert GetSupportedPlatform(uc, catalog, defaultKey).matched;
    }
  }

  /** On a match the returned pairing carries a strict matcher bound to the
      requested platform (so it accepts the requested platform) and the wanted
      key: the requested key, or the default key when none was requested. */
  lemma MatchResolvesRequest(uc: UnpackConfiguration, catalog: seq<SupportedPlatform>, defaultKey: string)
    requires GetSupportedPlatform(uc, catalog, defaultKey).matched
    ensures GetSupportedPlatform(uc, catalog, defaultKey).supported.platform == Some(OnlyStrict(uc.platform))
    ensures GetSupportedPlatform(uc, catalog, defaultKey).supported.snapshotterKey == WantedKey(uc.snapshotter, defaultKey)
    ensures GetSupportedPlatform(uc, catalog, defaultKey).supported in catalog
  {
    var r := GetSupportedPlatform(uc, catalog, defaultKey);
    var i :| IsFirstQualifying(uc, catalog, defaultKey, i) && r.supported == catalog[i];
    assert r.supported.platform.value.Match(uc.platform);
  }

  /** Of two qualifying entries the earlier one wins: whatever is returned is
      the first qualifying entry, at or before any qualifying position `i`, so
      every later qualifying position is passed over. */
  lemma EarliestQualifyingWins(uc: UnpackConfiguration, catalog: seq<SupportedPlatform>, defaultKey: string, i: int)
    requires 0 <= i < |catalog| && Qualifies(catalog[i], uc, defaultKey)
    ensures GetSupportedPlatform(uc, catalog, defaultKey).matched
    ensures exists k :: 0 <= k <= i && IsFirstQualifying(uc, catalog, defaultKey, k)
                        && GetSupportedPlatform(uc, catalog, defaultKey).supported == catalog[k]
  {
    var r := GetSupportedPlatform(uc, catalog, defaultKey);
    assert r.matched;
    var k :| IsFirstQualifying(uc, catalog, defaultKey, k) && r.supported == catalog[k];
    assert k <= i;
  }

  /** Entries after a qualifying prefix are never consulted; a prefix with no
      qualifying entry is skipped entirely. */
  lemma {:induction false} SelectOverConcatenation(uc: UnpackConfiguration, front: seq<SupportedPlatform>, back: seq<SupportedPlatform>, defaultKey: string)
    ensures GetSupportedPlatform(uc, front + back, defaultKey)
            == if GetSupportedPlatform(uc, front, defaultKey).matched
               then GetSupportedPlatform(uc, front, defaultKey)
               else GetSupportedPlatform(uc, back, defaultKey)
  {
    if front == [] {
      assert front + back == back;
    } else {
      assert (front + back)[0] == front[0];
      assert (front + back)[1..] == front[1..] + back;
      if !Qualifies(front[0], uc, defaultKey) {
        SelectOverConcatenation(uc, front[1..], back, defaultKey);
      }
    }
  }

  /** The entries of the catalog whose matcher accepts `p`. */
  function EntriesFor(catalog: seq<SupportedPlatform>, p: Platform): (r: seq<SupportedPlatform>)
    ensures forall e :: e in r ==> e in catalog && Accepts(e, p)
    ensures forall i :: 0 <= i < |catalog| && Accepts(catalog[i], p) ==> catalog[i] in r
    ensures |r| <= |catalog|
  {
    if catalog == [] then []
    else if Accepts(catalog[0], p) then [catalog[0]] + EntriesFor(catalog[1..], p)
    else EntriesFor(catalog[1..], p)
  }

  /** Platform compatibility is a necessary test: removing every entry for other
      platforms does not change the selection. */
  lemma OnlyEntriesForRequestedPlatformMatter(uc: UnpackConfiguration, catalog: seq<SupportedPlatform>, defaultKey: string)
    ensures GetSupportedPlatform(uc, catalog, defaultKey) == GetSupportedPlatform(uc, EntriesFor(catalog, uc.platform), defaultKey)
  {}

  /** A requested platform that no entry accepts gives no match, whatever
      snapshotter is requested. */
  lemma AbsentPlatformNeverMatches(uc: UnpackConfiguration, catalog: seq<SupportedPlatform>, defaultKey: string)
    requires forall i :: 0 <= i < |catalog| ==> !Accepts(catalog[i], uc.platform)
    ensures GetSupportedPlatform(uc, catalog, defaultKey) == Selection(false, NoPlatform)
  {
    MatchedIffSomeEntryQualifies(uc, catalog, defaultKey);
  }

  /** An explicitly requested key is never replaced by the default: when no entry
      for the platform carries exactly that key, there is no match, even if an
      entry for the platform carries the default key. */
  lemma ExplicitKeyIsStrict(uc: UnpackConfiguration, catalog: seq<SupportedPlatform>, defaultKey: string)
    requires uc.snapshotter != ""
    requires forall i :: 0 <= i < |catalog| && Accepts(catalog[i], uc.platform) ==> catalog[i].snapshotterKey != uc.snapshotter
    ensures GetSupportedPlatform(uc, catalog, defaultKey) == Selection(false, NoPlatform)
  {
    MatchedIffSomeEntryQualifies(uc, catalog, defaultKey);
  }

  /** With no snapshotter requested, an entry for the platform with the default
      key is found wherever it sits, and the result carries the default key even
      if entries with other keys for the same platform come first. */
  lemma NoPreferenceFallsBackToDefault(uc: UnpackConfiguration, catalog: seq<SupportedPlatform>, defaultKey: string, i: int)
    requires uc.snapshotter == ""
    requires 0 <= i < |catalog| && Accepts(catalog[i], uc.platform) && catalog[i].snapshotterKey == defaultKey
    ensures GetSupportedPlatform(uc, catalog, defaultKey).matched
    ensures GetSupportedPlatform(uc, catalog, defaultKey).supported.snapshotterKey == defaultKey
    ensures GetSupportedPlatform(uc, catalog, defaultKey).supported.platform == Some(OnlyStrict(uc.platform))
  {
    assert Qualifies(catalog[i], uc, defaultKey);
    MatchedIffSomeEntryQualifies(uc, catalog, defaultKey);
    MatchResolvesRequest(uc, catalog, defaultKey);
  }

  /** Naming the default snapshotter explicitly selects the same entry as naming
      none, so an earlier entry for the platform with another key is passed over. */
  lemma ExplicitDefaultIsNoPreference(platform: Platform, catalog: seq<SupportedPlatform>, defaultKey: string)
    ensures GetSupportedPlatform(UnpackConfiguration(platform, defaultKey), catalog, defaultKey)
            == GetSupportedPlatform(UnpackConfiguration(platform, ""), catalog, defaultKey)
  {}

  /** Keys are meant to be non-empty. An entry with the empty key is never
      selected while the default key is non-empty: an empty request stands for
      the default key, not for the empty one. */
  lemma EmptyKeyEntryNeverSelected(uc: UnpackConfiguration, catalog: seq<SupportedPlatform>, defaultKey: string)
    requires defaultKey != ""
    ensures GetSupportedPlatform(uc, catalog, defaultKey).matched
            ==> GetSupportedPlatform(uc, catalog, defaultKey).supported.snapshotterKey != ""
  {
    if GetSupportedPlatform(uc, catalog, defaultKey).matched {
      MatchResolvesRequest(uc, catalog, defaultKey);
    }
  }
}
