# Snapshotter selection for unpacking a pulled image

When containerd's transfer service pulls an image, the unpack stage has to pick the
snapshotter that will materialise the image's layers. The caller states an
`UnpackConfiguration`: a target platform (operating system, architecture, optional
variant) and, optionally, a snapshotter key. The service holds an ordered catalog of
supported pairings (`unpack.Platform`: a strict platform matcher plus a snapshotter
key). `getSupportedPlatform` walks that catalog in order and returns the first entry
that passes two tests:

- its matcher accepts the requested platform;
- its key equals the requested key, or the process's default snapshotter key if no
  key was requested.

If no entry passes, it returns `false` and the zero pairing: no matcher and an empty
key.

The selector's implementation file is not part of this model. Its behaviour is fixed
by the table test `TestGetSupportedPlatform` in `pkg/transfer/local/pull_test.go`,
and that test is what the model follows.

The model has these modules:

- `Wrappers` (`wrappers.dfy`): `Option`.
- `Platforms` (`platforms.dfy`): the `Platform` record and the strict matcher
  `Matcher.OnlyStrict`, whose `Match` accepts exactly its bound platform.
- `Unpack` (`unpack.dfy`): the catalog entry `SupportedPlatform` and its zero value
  `NoPlatform`.
- `Transfer` (`transfer.dfy`): `UnpackConfiguration` and its zero value.
- `Local` (`local.dfy`): the selector `GetSupportedPlatform`, a recursive function
  over the catalog, and the lemmas about it.
- `LocalTest` (`local_test.dfy`): the test's seven-entry catalog and its eight cases.
  Each case lemma states both the test's own assertions and which catalog entry is
  returned.

The default snapshotter key is a parameter everywhere (`defaultKey`), not a constant.
The case lemmas are proved for every value of it. Only the first case needs a
condition: the default must not be `devmapper`, because otherwise arm64's default
entry would carry that key.

Design decisions:

- The requested snapshotter is a string, as in `UnpackConfiguration`. The empty
  string means "no preference", as in test cases 6 to 8, which leave the field
  unset. Naming the default key explicitly and naming no key select the same entry
  (`ExplicitDefaultIsNoPreference`).
- A catalog entry's matcher is an interface value that may be nil (`None`). The model
  gives a nil matcher one meaning: it accepts no platform. With this choice the
  selector is total. No case of the test has such an entry.
- Snapshotter keys are meant to be non-empty. An entry registered under the empty key
  is never selected unless the default key is itself empty
  (`EmptyKeyEntryNeverSelected`). The empty request stands for the default key, not
  for the empty one.
- A platform's variant is `None` or a non-empty string. Go's single "no variant" value,
  the empty string, is written `None`; `Some("")` is not used.

## Model

| member | source | states |
|---|---|---|
| Platforms.Matcher.Match | pkg/transfer/local/pull_test.go:31-56 | A strict matcher accepts a platform if and only if it equals the matcher's bound platform (OS, architecture and variant). |
| Local.WantedKey | pkg/transfer/local/pull_test.go:132-141 | The key an entry must carry: an explicit request is kept as it is. The wanted key is the default exactly when no key was requested or the default was requested by name. |
| Local.Qualifies | pkg/transfer/local/pull_test.go:72-166 | An entry serves a request if and only if both hold: its matcher is the strict matcher for the requested platform, and its key is the requested key (the default key when none was requested). |
| Local.GetSupportedPlatform | pkg/transfer/local/pull_test.go:170-184 | On a match, the result is the earliest qualifying catalog entry. On no match, the result is the zero pairing and no entry of the catalog qualifies. |
| Local.EmptyCatalogNeverMatches | pkg/transfer/local/pull_test.go:170 | An empty catalog yields `false` and the zero pairing. No test case has an empty catalog; this follows from the first-match rule at the selector's call site. |
| Local.SelectsFirstQualifying | pkg/transfer/local/pull_test.go:31-37 | Whenever position i holds the first qualifying entry, the selector returns `true` and exactly that entry. |
| Local.MatchedIffSomeEntryQualifies | pkg/transfer/local/pull_test.go:60-90 | The match flag is true if and only if some catalog entry passes both the platform and the snapshotter test. |
| Local.MatchResolvesRequest | pkg/transfer/local/pull_test.go:93-117 | On a match, the returned entry is in the catalog. Its matcher is the strict matcher for the requested platform, so it accepts that platform. Its key is the requested key, or the default key when none was requested. |
| Local.EarliestQualifyingWins | pkg/transfer/local/pull_test.go:29-58 | If position i qualifies, there is a match. The entry returned is the first qualifying one, at or before i, so every later qualifying position is passed over. |
| Local.SelectOverConcatenation | pkg/transfer/local/pull_test.go:29-58 | Over a catalog `front + back`, the selector returns front's result if front has a match, and back's result otherwise. Entries after the first hit are never consulted. |
| Local.OnlyEntriesForRequestedPlatformMatter | pkg/transfer/local/pull_test.go:73-80 | Dropping every entry whose matcher rejects the requested platform leaves the selection unchanged. |
| Local.AbsentPlatformNeverMatches | pkg/transfer/local/pull_test.go:83-90 | If no entry accepts the requested platform, the result is no match with the zero pairing, whatever key was requested. |
| Local.ExplicitKeyIsStrict | pkg/transfer/local/pull_test.go:39-41 | An explicit key with no entry for the platform under exactly that key gives no match, even when the platform has a default-key entry. |
| Local.NoPreferenceFallsBackToDefault | pkg/transfer/local/pull_test.go:132-166 | With no key requested, a default-key entry for the platform, at any position, guarantees a match. The match carries the default key and the requested platform's strict matcher. |
| Local.ExplicitDefaultIsNoPreference | pkg/transfer/local/pull_test.go:119-129 | Requesting the default key explicitly selects the same entry as requesting no key. |
| Local.EmptyKeyEntryNeverSelected | pkg/transfer/local/pull_test.go:170 | A design choice of the model, not a test case (no catalog entry has the empty key). While the default key is non-empty, a match never carries the empty key. An empty request stands for the default key, not for an entry registered under the empty key. |
| LocalTest.SupportedPlatforms | pkg/transfer/local/pull_test.go:29-58 | The seven-entry catalog, in registration order. Every entry has a strict matcher. Devmapper is registered for amd64 only, and amd64, arm64 and arm each have a default-key entry (entries 1, 3 and 6). |
| LocalTest.Passes | pkg/transfer/local/pull_test.go:171-184 | The test's assertions: the match flag and key equal the expected ones. A non-nil matcher accepts the expected platform, so it is the strict matcher for that platform. A nil matcher only goes with an empty expected OS, so the zero pairing only passes an empty expectation. |
| LocalTest.NoMatchArm64Devmapper | pkg/transfer/local/pull_test.go:72-81 | linux/arm64 with `devmapper` gives `false` and the zero pairing, for any default other than `devmapper`. The test's assertions hold. |
| LocalTest.NoMatch386Default | pkg/transfer/local/pull_test.go:82-91 | linux/386 with the default key gives `false` and the zero pairing. The test's assertions hold. |
| LocalTest.MatchAmd64Native | pkg/transfer/local/pull_test.go:92-104 | linux/amd64 with `native` returns catalog entry 0, the amd64 `native` entry. The test's assertions hold. |
| LocalTest.MatchArm64Native | pkg/transfer/local/pull_test.go:105-117 | linux/arm64 with `native` returns the arm64 `native` entry (entry 4), or entry 3 when the default key is itself `native`. The test's assertions hold. |
| LocalTest.MatchArmDefault | pkg/transfer/local/pull_test.go:118-130 | linux/arm with the default key named explicitly returns arm's default entry (entry 6), not arm's earlier `native` entry (unless the default is `native`). The test's assertions hold. |
| LocalTest.DefaultOnlyAmd64 | pkg/transfer/local/pull_test.go:131-142 | linux/amd64 with no key returns the amd64 default entry (entry 1), not the `native` entry before it (unless the default is `native`). The test's assertions hold. |
| LocalTest.DefaultOnlyArm64 | pkg/transfer/local/pull_test.go:143-154 | linux/arm64 with no key returns entry 3, arm64's first entry and its default entry. The test's assertions hold. |
| LocalTest.DefaultOnlyArm | pkg/transfer/local/pull_test.go:155-166 | linux/arm with no key returns arm's default entry (entry 6), its second entry (unless the default is `native`). The test's assertions hold. |
| LocalTest.Arm64NeverSelectsOtherPlatforms | pkg/transfer/local/pull_test.go:43-53 | On the test catalog, a linux/arm64 request with any key never returns an entry whose matcher is bound to linux/amd64 or linux/arm. |

## Left out

- Parsing platform strings (`platforms.MustParse`) and the normalisation it applies is not part of this model. The fixture builds `Platform` records directly. The test produces both the catalog's and the requests' platforms the same way, so this does not change any case's outcome.
- Matchers other than the strict one (`platforms.OnlyStrict`, which is treated as field equality) are not part of this model.
- The concrete value of `containerd.DefaultSnapshotter` is not modelled: it depends on the operating system the program is built for. It is a parameter here.
- The Go testing harness (`t.Run`, `t.Fatalf`) is not modelled. Its assertions appear as the predicate `LocalTest.Passes`.
- The rest of the transfer and unpack pipeline is not modelled: content fetching, manifests, layer extraction, gRPC and I/O.
- A nil matcher in a catalog entry is given the meaning "accepts nothing". If the selector calls `Match` on each entry, such an entry would panic in Go; the model replaces that panic with "accepts nothing". No case exercises it.
- The selector's Go source file is not part of this model. The selector is modelled as a recursive function over the catalog with the first-match result the table test fixes.
