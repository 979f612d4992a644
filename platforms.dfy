/** Platform records and the strict platform matcher. Parsing platform strings
    and normalising their fields happen elsewhere and are not part of this model. */
module Platforms {
  import opened Wrappers

  /** A target runtime platform: operating system, architecture and an optional
      variant. A variant is either `None` or non-empty: the Go record's empty
      variant string is written `None` here, never `Some("")`. */
  datatype Platform = Platform(os: string, architecture: string, variant: Option<string>)

  /** The zero platform record, every field empty. */
  const EmptyPlatform := Platform("", "", None)

  /** A platform matcher. Only the strict kind takes part in snapshotter selection:
      it is bound to one platform and accepts exactly that platform. */
  datatype Matcher = OnlyStrict(bound: Platform) {

    /** True when the matcher accepts `candidate`: operating system, architecture
        and variant all equal to the bound platform's. */
    predicate Match(candidate: Platform): (accepted: bool)
      ensures accepted <==> candidate == bound
    {
      match this
      case OnlyStrict(p) =>
        && candidate.os == p.os
        && candidate.architecture == p.architecture
        && candidate.variant == p.variant
    }
  }
}
