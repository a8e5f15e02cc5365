/** The band name generator, band-name-generator/band_name_generator.py: the
    name is the city, a space and the pet's name; the answers are stripped
    when they are read, not when the name is built. */
module BandName {
  import opened PyStr

  /** `generate_band_name`: the city, one space, the pet's name. */
  function GenerateBandName(city: string, petName: string): (r: string)
    ensures |r| == |city| + |petName| + 1
    ensures r[..|city|] == city && r[|city|] == ' ' && r[|city| + 1..] == petName
  {
    city + " " + petName
  }

  /** `get_user_input`: the answer typed, stripped. */
  function UserInput(line: string): (r: string)
    ensures Stripped(r)
  {
    Strip(line)
  }

  /** The name `main` builds from the two lines typed. */
  function BandNameFromInput(cityLine: string, petLine: string): string {
    GenerateBandName(UserInput(cityLine), UserInput(petLine))
  }

  // ---------------------------------------------------------------------------
  // Properties

  /** A city without spaces can be read back from the band name: the name
      determines both parts. */
  lemma GenerateBandNameInjective(city1: string, pet1: string, city2: string, pet2: string)
    requires ' ' !in city1 && ' ' !in city2
    requires GenerateBandName(city1, pet1) == GenerateBandName(city2, pet2)
    ensures city1 == city2 && pet1 == pet2
  {
  }

  /** Two empty answers give a single space. */
  lemma EmptyInputs()
    ensures GenerateBandName("", "") == " "
  {
  }

  /** `Utrecht` and `Tony` give `Utrecht Tony`. */
  lemma BasicCombination()
    ensures GenerateBandName("Utrecht", "Tony") == "Utrecht Tony"
  {
  }

  /** As written, `generate_band_name` does not strip: padded answers keep
      their padding, so `"  Paris  "` and `"  Luna  "` do not give
      `"Paris Luna"`. */
  lemma PaddedArgumentsKept()
    ensures GenerateBandName("  " + "Paris" + "  ", "  " + "Luna" + "  ") != "Paris" + " " + "Luna"
  {
    assert |GenerateBandName("  " + "Paris" + "  ", "  " + "Luna" + "  ")| == 18;
  }

  /** The name built from typed answers ignores whitespace around them: it
      is the name of the stripped answers, and stripping again changes
      nothing. */
  lemma InputWhitespaceIgnored(cityLine: string, petLine: string)
    ensures BandNameFromInput(cityLine, petLine) == GenerateBandName(Strip(cityLine), Strip(petLine))
    ensures BandNameFromInput(Strip(cityLine), Strip(petLine)) == BandNameFromInput(cityLine, petLine)
  {
    StripIdempotent(cityLine);
    StripIdempotent(petLine);
  }

  /** Answers padded with whitespace give the name of the words alone:
      `"  Paris  "` and `"  Luna  "` typed give `"Paris Luna"`. */
  lemma PaddedInputsTrimmed(pre1: string, city: string, post1: string, pre2: string, pet: string, post2: string)
    requires forall k :: 0 <= k < |pre1| ==> IsSpace(pre1[k])
    requires forall k :: 0 <= k < |post1| ==> IsSpace(post1[k])
    requires forall k :: 0 <= k < |pre2| ==> IsSpace(pre2[k])
    requires forall k :: 0 <= k < |post2| ==> IsSpace(post2[k])
    requires city != [] && Stripped(city) && pet != [] && Stripped(pet)
    ensures BandNameFromInput(pre1 + city + post1, pre2 + pet + post2) == city + " " + pet
  {
    StripSurrounded(pre1, city, post1);
    StripSurrounded(pre2, pet, post2);
  }

  /** The source's whitespace example, on the answers as typed. */
  lemma WhitespaceExample()
    ensures BandNameFromInput("  " + "Paris" + "  ", "  " + "Luna" + "  ") == "Paris" + " " + "Luna"
  {
    PaddedInputsTrimmed("  ", "Paris", "  ", "  ", "Luna", "  ");
  }
}
