/** The table test of the selector: its seven-entry catalog and its eight cases,
    proved for every value of the default snapshotter key. */
module LocalTest {
  import opened Wrappers
  import opened Platforms
  import opened Unpack
  import opened Transfer
  import opened Local

  function Linux(architecture: string): (p: Platform) {
    Platform("linux", architecture, None)
  }

  function Strict(architecture: string): (m: Option<Matcher>) {
    Some(OnlyStrict(Linux(architecture)))
  }

  /** The catalog of the test, in registration order: amd64 under native, the
      default and devmapper; arm64 under the default and native; arm under
      native and the default. Every entry has a strict matcher, devmapper is
      registered for amd64 only, and each platform has a default-key entry. */
  function SupportedPlatforms(defaultKey: string): (catalog: seq<SupportedPlatform>)
    ensures |catalog| == 7
    ensures forall i :: 0 <= i < |catalog| ==> catalog[i].platform.Some?
    ensures forall i :: 0 <= i < |catalog| && catalog[i].snapshotterKey == "devmapper" && defaultKey != "devmapper"
                        ==> catalog[i].platform == Strict("amd64")
    ensures catalog[1].platform == Strict("amd64") && catalog[1].snapshotterKey == defaultKey
    ensures catalog[3].platform == Strict("arm64") && catalog[3].snapshotterKey == defaultKey
    ensures catalog[6].platform == Strict("arm") && catalog[6].snapshotterKey == defaultKey
  {
    [ SupportedPlatform(Strict("amd64"), "native"),
      SupportedPlatform(Strict("amd64"), defaultKey),
      SupportedPlatform(Strict("amd64"), "devmapper"),
      SupportedPlatform(Strict("arm64"), defaultKey),
      SupportedPlatform(Strict("arm64"), "native"),
      SupportedPlatform(Strict("arm"), "native"),
      SupportedPlatform(Strict("arm"), defaultKey) ]
  }

  /** The assertions the test makes on the selector's results: the match flag,
      the snapshotter key, and either a matcher that accepts the expected
      platform or no matcher together with an empty expected platform. */
  predicate Passes(r: Selection, wantMatch: bool, expected: UnpackConfiguration): (passed: bool)
    ensures passed ==> r.matched == wantMatch && r.supported.snapshotterKey == expected.snapshotter
    ensures passed && r.supported.platform.Some? ==> r.supported.platform == Some(OnlyStrict(expected.platform))
    ensures passed && r.supported == NoPlatform ==> expected.snapshotter == "" && expected.platform.os == ""
  {
    && r.matched == wantMatch
    && r.supported.snapshotterKey == expected.snapshotter
    && (r.supported.platform.Some? ==> r.supported.platform.value.Match(expected.platform))
    && (r.supported.platform.None? ==> expected.platform.os == "")
  }

  /** linux/arm64 with devmapper: devmapper is registered only for amd64. */
  lemma NoMatchArm64Devmapper(defaultKey: string)
    requires defaultKey != "devmapper"
    ensures var r := GetSupportedPlatform(UnpackConfiguration(Linux("arm64"), "devmapper"), SupportedPlatforms(defaultKey), defaultKey);
            r == Selection(false, NoPlatform) && Passes(r, false, EmptyConfiguration)
  {
    var uc := UnpackConfiguration(Linux("arm64"), "devmapper");
    var catalog := SupportedPlatforms(defaultKey);
    forall i | 0 <= i < |catalog| && Accepts(catalog[i], uc.platform)
      ensures catalog[i].snapshotterKey != uc.snapshotter
    {
      assert i == 3 || i == 4;
    }
    ExplicitKeyIsStrict(uc, catalog, defaultKey);
  }

  /** linux/386 with the default snapshotter: the platform is not in the catalog. */
  lemma NoMatch386Default(defaultKey: string)
    ensures var r := GetSupportedPlatform(UnpackConfiguration(Linux("386"), defaultKey), SupportedPlatforms(defaultKey), defaultKey);
            r == Selection(false, NoPlatform) && Passes(r, false, EmptyConfiguration)
  {
    var uc := UnpackConfiguration(Linux("386"), defaultKey);
    var catalog := SupportedPlatforms(defaultKey);
    AbsentPlatformNeverMatches(uc, catalog, defaultKey);
  }

  /** linux/amd64 with native: the first entry. */
  lemma MatchAmd64Native(defaultKey: string)
    ensures var uc := UnpackConfiguration(Linux("amd64"), "native");
            var r := GetSupportedPlatform(uc, SupportedPlatforms(defaultKey), defaultKey);
            r == Selection(true, SupportedPlatforms(defaultKey)[0]) && Passes(r, true, uc)
  {
    var uc := UnpackConfiguration(Linux("amd64"), "native");
    SelectsFirstQualifying(uc, SupportedPlatforms(defaultKey), defaultKey, 0);
  }

  /** linux/arm64 with native: the entry after arm64's default entry (or that
      entry itself when the default key is native). */
  lemma MatchArm64Native(defaultKey: string)
    ensures var uc := UnpackConfiguration(Linux("arm64"), "native");
            var r := GetSupportedPlatform(uc, SupportedPlatforms(defaultKey), defaultKey);
            r == Selection(true, SupportedPlatforms(defaultKey)[if defaultKey == "native" then 3 else 4]) && Passes(r, true, uc)
  {
    var uc := UnpackConfiguration(Linux("arm64"), "native");
    SelectsFirstQualifying(uc, SupportedPlatforms(defaultKey), defaultKey, if defaultKey == "native" then 3 else 4);
  }

  /** linux/arm with the default snapshotter named explicitly: arm's default
      entry, although arm's native entry comes first. */
  lemma MatchArmDefault(defaultKey: string)
    ensures var uc := UnpackConfiguration(Linux("arm"), defaultKey);
            var r := GetSupportedPlatform(uc, SupportedPlatforms(defaultKey), defaultKey);
            r == Selection(true, SupportedPlatforms(defaultKey)[if defaultKey == "native" then 5 else 6]) && Passes(r, true, uc)
  {
    var uc := UnpackConfiguration(Linux("arm"), defaultKey);
    SelectsFirstQualifying(uc, SupportedPlatforms(defaultKey), defaultKey, if defaultKey == "native" then 5 else 6);
  }

  /** linux/amd64 with no snapshotter: the default entry, not the native entry before it. */
  lemma DefaultOnlyAmd64(defaultKey: string)
    ensures var uc := UnpackConfiguration(Linux("amd64"), "");
            var r := GetSupportedPlatform(uc, SupportedPlatforms(defaultKey), defaultKey);
            r == Selection(true, SupportedPlatforms(defaultKey)[if defaultKey == "native" then 0 else 1])
            && Passes(r, true, UnpackConfiguration(Linux("amd64"), defaultKey))
  {
    var catalog := SupportedPlatforms(defaultKey);
    ExplicitDefaultIsNoPreference(Linux("amd64"), catalog, defaultKey);
    SelectsFirstQualifying(UnpackConfiguration(Linux("amd64"), defaultKey), catalog, defaultKey, if defaultKey == "native" then 0 else 1);
  }

  /** linux/arm64 with no snapshotter: arm64's default entry, its first. */
  lemma DefaultOnlyArm64(defaultKey: string)
    ensures var uc := UnpackConfiguration(Linux("arm64"), "");
            var r := GetSupportedPlatform(uc, SupportedPlatforms(defaultKey), defaultKey);
            r == Selection(true, SupportedPlatforms(defaultKey)[3])
            && Passes(r, true, UnpackConfiguration(Linux("arm64"), defaultKey))
  {
    var catalog := SupportedPlatforms(defaultKey);
    var uc := UnpackConfiguration(Linux("arm64"), defaultKey);
    assert forall j :: 0 <= j < 3 ==> catalog[j].platform == Strict("amd64");
    ExplicitDefaultIsNoPreference(Linux("arm64"), catalog, defaultKey);
    SelectsFirstQualifying(uc, catalog, defaultKey, 3);
  }

  /** linux/arm with no snapshotter: arm's default entry, its second. */
  lemma DefaultOnlyArm(defaultKey: string)
    ensures var uc := UnpackConfiguration(Linux("arm"), "");
            var r := GetSupportedPlatform(uc, SupportedPlatforms(defaultKey), defaultKey);
            r == Selection(true, SupportedPlatforms(defaultKey)[if defaultKey == "native" then 5 else 6])
            && Passes(r, true, UnpackConfiguration(Linux("arm"), defaultKey))
  {
    ExplicitDefaultIsNoPreference(Linux("arm"), SupportedPlatforms(defaultKey), defaultKey);
    MatchArmDefault(defaultKey);
  }

  /** Strictness on the fixture: a linux/arm64 request never selects an entry
      registered for linux/amd64 or linux/arm. */
  lemma Arm64NeverSelectsOtherPlatforms(snapshotter: string, defaultKey: string)
    ensures var r := GetSupportedPlatform(UnpackConfiguration(Linux("arm64"), snapshotter), SupportedPlatforms(defaultKey), defaultKey);
            r.supported.platform != Strict("amd64") && r.supported.platform != Strict("arm")
  {
    var uc := UnpackConfiguration(Linux("arm64"), snapshotter);
    if GetSupportedPlatform(uc, SupportedPlatforms(defaultKey), defaultKey).matched {
      MatchResolvesRequest(uc, SupportedPlatforms(defaultKey), defaultKey);
    }
  }
}
