/** What a pull asks the unpack stage for. */
module Transfer {
  import opened Platforms

  /** A requested platform plus a snapshotter key; the empty key means
      that the caller has no preference. */
  datatype UnpackConfiguration = UnpackConfiguration(platform: Platform, snapshotter: string)

  /** The zero configuration: empty platform record and no snapshotter. */
  const EmptyConfiguration := UnpackConfiguration(EmptyPlatform, "")
}
