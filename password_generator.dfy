/**
  `PasswordGenerator.Configuration`: the generator's options, with the length
  clamped into [8, 128] at construction, and the `strong` and `pin` presets.
 */
module PasswordGenerator {

  const MinimumLength: int := 8
  const MaximumLength: int := 128

  datatype Configuration = Configuration(
    length: int,
    includeUppercase: bool,
    includeLowercase: bool,
    includeNumbers: bool,
    includeSymbols: bool,
    excludeAmbiguous: bool,
    minimumRequirements: bool)

  /** `max(8, min(128, n))`. */
  function ClampLength(n: int): (r: int)
    ensures MinimumLength <= r <= MaximumLength
    ensures MinimumLength <= n <= MaximumLength ==> r == n
    ensures n < MinimumLength ==> r == MinimumLength
    ensures n > MaximumLength ==> r == MaximumLength
  {
    var upper := if MaximumLength < n then MaximumLength else n;
    if MinimumLength < upper then upper else MinimumLength
  }

  /** `Configuration.init`: the length is clamped, every flag is stored as passed. */
  function NewConfiguration(
    length: int,
    includeUppercase: bool,
    includeLowercase: bool,
    includeNumbers: bool,
    includeSymbols: bool,
    excludeAmbiguous: bool,
    minimumRequirements: bool): (c: Configuration)
    ensures MinimumLength <= c.length <= MaximumLength
    ensures c.length == ClampLength(length)
    ensures c.includeUppercase == includeUppercase && c.includeLowercase == includeLowercase
    ensures c.includeNumbers == includeNumbers && c.includeSymbols == includeSymbols
    ensures c.excludeAmbiguous == excludeAmbiguous && c.minimumRequirements == minimumRequirements
  {
    Configuration(ClampLength(length), includeUppercase, includeLowercase, includeNumbers,
      includeSymbols, excludeAmbiguous, minimumRequirements)
  }

  /** A configuration built by `init` has its length in range. */
  predicate WellFormed(c: Configuration) {
    MinimumLength <= c.length <= MaximumLength
  }

  /** Rebuilding a well-formed configuration from its own fields gives it back unchanged. */
  lemma RebuildIdentity(c: Configuration)
    requires WellFormed(c)
    ensures NewConfiguration(c.length, c.includeUppercase, c.includeLowercase, c.includeNumbers,
      c.includeSymbols, c.excludeAmbiguous, c.minimumRequirements) == c
  {
  }

  /** Clamping keeps the order of requested lengths. */
  lemma ClampMonotone(m: int, n: int)
    requires m <= n
    ensures ClampLength(m) <= ClampLength(n)
  {
  }

  /** The parameter defaults of `init`. */
  function DefaultConfiguration(): (c: Configuration)
    ensures c.length == 16
    ensures c.includeUppercase && c.includeLowercase && c.includeNumbers && c.includeSymbols
    ensures !c.excludeAmbiguous && c.minimumRequirements
  {
    NewConfiguration(16, true, true, true, true, false, true)
  }

  /** `Configuration.strong`: 20 characters from every class, with minimum requirements. */
  function Strong(): (c: Configuration)
    ensures c.length == 20
    ensures c.includeUppercase && c.includeLowercase && c.includeNumbers && c.includeSymbols
    ensures !c.excludeAmbiguous && c.minimumRequirements
  {
    NewConfiguration(20, true, true, true, true, false, true)
  }

  /**
    `Configuration.pin`: digits only. It asks for 6 characters, which the
    clamp raises to 8.
   */
  function Pin(): (c: Configuration)
    ensures c.length == MinimumLength && c.length != 6
    ensures c.includeNumbers
    ensures !c.includeUppercase && !c.includeLowercase && !c.includeSymbols
    ensures !c.excludeAmbiguous && !c.minimumRequirements
  {
    NewConfiguration(6, false, false, true, false, false, false)
  }
}
