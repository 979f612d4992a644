/** The catalog entry of the unpack stage: a platform matcher paired with the
    key of the snapshotter that can unpack images for that platform. */
module Unpack {
  import opened Wrappers
  import opened Platforms

  /** One supported (platform, snapshotter) pairing. The matcher is an interface
      value and may be nil, written `None` here. */
  datatype SupportedPlatform = SupportedPlatform(platform: Option<Matcher>, snapshotterKey: string)

  /** The zero pairing: no matcher and an empty snapshotter key. */
  const NoPlatform := SupportedPlatform(None, "")
}
