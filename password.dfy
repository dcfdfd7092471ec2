/** The shared host password: its word lists, its lifetime and its format. */
module Password {
  import Decimal

  const Adjectives: seq<string> :=
    ["Happy", "Bright", "Cool", "Wild", "Fun", "Epic", "Amazing", "Awesome", "Super", "Magic"]
  const Nouns: seq<string> :=
    ["Party", "Light", "Show", "Night", "Dance", "Beat", "Wave", "Glow", "Spark", "Flash"]

  /** Lifetime of a password: 24 hours in milliseconds. */
  const Duration: int := 24 * 60 * 60 * 1000

  /** The three random choices of one generation: an adjective index, a noun
      index and the offset of the number above 100. */
  datatype Draw = Draw(adjective: nat, noun: nat, offset: nat)

  /** What `Math.floor(Math.random() * k)` can yield for each choice. */
  predicate ValidDraw(d: Draw)
  {
    d.adjective < |Adjectives| && d.noun < |Nouns| && d.offset < 900
  }

  /** A digit string denoting a number from 100 to 999 with exactly three digits. */
  predicate IsThreeDigitNumber(t: string)
  {
    |t| == 3 && Decimal.AllDigits(t) && 100 <= Decimal.Value(t) <= 999
  }

  /** An adjective from the list, then a noun from the list, then a
      three-digit number, with no separator. */
  ghost predicate WellFormed(p: string)
  {
    exists i, j :: 0 <= i <= j <= |p| && p[..i] in Adjectives && p[i..j] in Nouns && IsThreeDigitNumber(p[j..])
  }

  /** generateSecurePassword, its random choices given as `d`. */
  function Generate(d: Draw): (p: string)
    requires ValidDraw(d)
    ensures WellFormed(p)
    ensures |p| >= 3
  {
    var a, w, n := Adjectives[d.adjective], Nouns[d.noun], Decimal.FromNat(d.offset + 100);
    Decimal.ThreeDigits(d.offset + 100);
    Decimal.ValueOfFromNat(d.offset + 100);
    var p := a + w + n;
    assert p[..|a|] == a && p[|a|..|a| + |w|] == w && p[|a| + |w|..] == n;
    p
  }

  /** A well-formed password is never empty, so it is truthy, and it ends
      in a digit. */
  lemma WellFormedNonEmpty(p: string)
    requires WellFormed(p)
    ensures |p| >= 3 && Decimal.IsDigit(p[|p| - 1])
  {
    var i, j :| 0 <= i <= j <= |p| && p[..i] in Adjectives && p[i..j] in Nouns && IsThreeDigitNumber(p[j..]);
    assert p[|p| - 1] == p[j..][2];
  }
}
