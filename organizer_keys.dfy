/** The two ways the file organizer names a target subfolder: by the file's
    extension (pathlib's `suffix` without its dot) or by its modification date
    (`strftime("%Y-%m-%d")`). */
module OrganizerKeys {
  import opened Wrappers
  import opened PyStr

  /** pathlib `PurePath.suffix` of a final path component: from the last dot on,
      provided that dot is neither the first nor the last character. */
  function Suffix(name: string): (r: string)
    ensures r == "" || (|r| >= 2 && r[0] == '.' && '.' !in r[1..])
    ensures |r| <= |name| && r == name[|name| - |r|..]
  {
    var i := RFind(name, '.');
    if 0 < i < |name| - 1 then name[i..] else ""
  }

  /** pathlib `PurePath.stem`: the name without its suffix. */
  function Stem(name: string): (r: string)
    ensures r + Suffix(name) == name
  {
    var i := RFind(name, '.');
    if 0 < i < |name| - 1 then name[..i] else name
  }

  /** The folder used by `organize_by_extension`: `suffix[1:]`, or
      "no_extension" when the suffix is empty. */
  function ExtensionKey(name: string): string {
    var suffix := Suffix(name);
    if suffix != "" then suffix[1..] else "no_extension"
  }

  /** A file name has no suffix exactly when it has no dot after its first
      character or it ends with a dot. */
  lemma NoSuffixIff(name: string)
    ensures Suffix(name) == ""
        <==> (forall k :: 0 < k < |name| ==> name[k] != '.')
             || (|name| > 0 && name[|name| - 1] == '.')
  {
    var i := RFind(name, '.');
    if Suffix(name) != "" {
      assert name[i] == '.' && 0 < i;
    }
  }

  /** When there is a suffix, the key is the text after the last dot: non-empty,
      dot-free, case preserved, and `stem + "." + key` gives the name back. */
  lemma ExtensionKeyIsLastDotPart(name: string)
    requires Suffix(name) != ""
    ensures var key := ExtensionKey(name);
      && name == Stem(name) + "." + key
      && key != "" && '.' !in key
      && Stem(name) != ""
  {
    var suffix := Suffix(name);
    assert suffix == [suffix[0]] + suffix[1..];
    assert Stem(name) == name[..RFind(name, '.')];
  }

  /** Only the last dot-part counts, and names without a usable suffix go to
      "no_extension". */
  lemma ExtensionKeyExamples()
    ensures ExtensionKey("a.tar.gz") == "gz"
    ensures ExtensionKey("Photo.JPG") == "JPG"
    ensures ExtensionKey("README") == "no_extension"
    ensures ExtensionKey(".bashrc") == "no_extension"
    ensures ExtensionKey("draft.") == "no_extension"
  {
    assert RFind("a.tar.gz", '.') == 5;
    assert "Photo.JPG"[..8] == "Photo.JP" && "Photo.JP"[..7] == "Photo.J";
    assert "Photo.J"[..6] == "Photo.";
    assert RFind("Photo.JPG", '.') == 5;
    assert RFind("README", '.') == -1;
    assert ".bashrc"[..6] == ".bashr" && ".bashr"[..5] == ".bash" && ".bash"[..4] == ".bas";
    assert ".bas"[..3] == ".ba" && ".ba"[..2] == ".b" && ".b"[..1] == ".";
    assert RFind(".bashrc", '.') == 0;
    assert RFind("draft.", '.') == 5;
  }

  // ---------------------------------------------------------------------------
  // Dates

  datatype Date = Date(year: int, month: int, day: int)

  /** A date `datetime` can represent (years 1 to 9999). */
  type CalendarDate = d: Date | 1 <= d.year <= 9999 && 1 <= d.month <= 12 && 1 <= d.day <= 31
    witness Date(1970, 1, 1)

  /** `strftime("%Y-%m-%d")`: ten characters, dashes at positions 4 and 7, digits
      elsewhere. */
  function DateKey(d: CalendarDate): (key: string)
    ensures |key| == 10 && key[4] == '-' && key[7] == '-'
    ensures AllDigits(key[..4]) && AllDigits(key[5..7]) && AllDigits(key[8..])
  {
    DecimalLength(d.year, 4);
    DecimalLength(d.month, 2);
    DecimalLength(d.day, 2);
    var key := ZeroPad(d.year, 4) + "-" + ZeroPad(d.month, 2) + "-" + ZeroPad(d.day, 2);
    assert key[..4] == ZeroPad(d.year, 4);
    assert key[5..7] == ZeroPad(d.month, 2);
    assert key[8..] == ZeroPad(d.day, 2);
    key
  }

  /** Reads a `YYYY-MM-DD` folder name back into a date. */
  function ParseDateKey(key: string): Option<Date> {
    if |key| == 10 && key[4] == '-' && key[7] == '-'
       && AllDigits(key[..4]) && AllDigits(key[5..7]) && AllDigits(key[8..])
    then Some(Date(DigitsValue(key[..4]), DigitsValue(key[5..7]), DigitsValue(key[8..])))
    else None
  }

  /** The date folder name determines the date: parsing it gives the date back,
      so two different dates never share a folder. */
  lemma DateKeyRoundTrip(d: CalendarDate)
    ensures ParseDateKey(DateKey(d)) == Some(d)
  {
    DecimalLength(d.year, 4);
    DecimalLength(d.month, 2);
    DecimalLength(d.day, 2);
    var key := DateKey(d);
    assert key[..4] == ZeroPad(d.year, 4);
    assert key[5..7] == ZeroPad(d.month, 2);
    assert key[8..] == ZeroPad(d.day, 2);
    ZeroPadValue(d.year, 4);
    ZeroPadValue(d.month, 2);
    ZeroPadValue(d.day, 2);
  }

  /** A file last modified on 5 March 2024 goes to the folder "2024-03-05". */
  lemma DateKeyExample()
    ensures DateKey(Date(2024, 3, 5)) == "2024-03-05"
  {
    assert Decimal(2024) == "2024" by {
      assert Decimal(2) == "2";
      assert Decimal(20) == "20";
      assert Decimal(202) == "202";
    }
    assert ZeroPad(3, 2) == "03";
    assert ZeroPad(5, 2) == "05";
  }
}
