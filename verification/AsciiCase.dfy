/** ASCII letter case. */
module AsciiCase {

  function LowerChar(c: char): char {
    if 'A' <= c <= 'Z' then c - 'A' + 'a' else c
  }

  /** By code points: 'A' to 'Z' have their lower case 32 places higher, every other
      character is its own. */
  predicate IsLowerOf(lower: char, c: char) {
    if 65 <= c as int <= 90 then lower as int == c as int + 32 else lower == c
  }

  /** A spelling of a text in small letters: some of its letters may be capitals. */
  predicate IsSpellingOf(spelling: string, text: string) {
    |spelling| == |text| && forall i | 0 <= i < |text| :: IsLowerOf(text[i], spelling[i])
  }
}
