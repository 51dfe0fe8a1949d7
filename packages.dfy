/** Installed-package records `{ name, version }` shared by the terminal and the application shell. */
module Packages {
  import opened Text

  /** One decimal digit, the value of `Math.floor(Math.random() * 10)`. */
  type Digit = d: nat | d < 10

  datatype Package = Package(name: string, version: string)

  /** The `name@version` form both components print. */
  function Describe(p: Package): string {
    p.name + "@" + p.version
  }

  /** The decimal character of a digit; it reads back as the same number. */
  function DigitChar(d: Digit): (c: char)
    ensures '0' <= c <= '9' && c as int - '0' as int == d
  {
    ('0' as int + d) as char
  }

  /**
    * The simulated version `${a}.${b}.${c}`: split on `.` it gives back three
    * one-character pieces, the digits in order.
    */
  function Version(major: Digit, minor: Digit, patch: Digit): (v: string)
    ensures Split(v, '.') == [[DigitChar(major)], [DigitChar(minor)], [DigitChar(patch)]]
  {
    var parts := [[DigitChar(major)], [DigitChar(minor)], [DigitChar(patch)]];
    assert Join(parts[2..], '.') == [DigitChar(patch)];
    assert Join(parts[1..], '.') == [DigitChar(minor), '.', DigitChar(patch)];
    SplitJoin(parts, '.');
    Join(parts, '.')
  }

  /** Different digits give different versions. */
  lemma VersionInjective(a: Digit, b: Digit, c: Digit, x: Digit, y: Digit, z: Digit)
    requires Version(a, b, c) == Version(x, y, z)
    ensures a == x && b == y && c == z
  {
  }

  /** Whether some record carries the name. */
  predicate HasName(packages: seq<Package>, name: string) {
    exists k :: 0 <= k < |packages| && packages[k].name == name
  }

  /** No two records share a name. */
  predicate UniqueNames(packages: seq<Package>) {
    forall i, j :: 0 <= i < j < |packages| ==> packages[i].name != packages[j].name
  }
}
