/** The Treasure Island game, treasure_island/treasure.py: three choosers that
    read a normalised answer, and the fixed decision tree of `main`. */
module TreasureIsland {
  import opened PyStr

  /** `choice.strip().lower()`. */
  function Normalize(choice: string): string {
    Lower(Strip(choice))
  }

  /** `choose_first_path`: the lake for `left`, the hole for anything else. */
  function ChooseFirstPath(choice: string): (r: string)
    ensures r == "lake" || r == "hole"
    ensures r == "lake" <==> Normalize(choice) == "left"
  {
    if Normalize(choice) == "left" then "lake" else "hole"
  }

  /** `choose_second_path`: the house for `wait`, the trout for anything
      else. */
  function ChooseSecondPath(choice: string): (r: string)
    ensures r == "house" || r == "trout"
    ensures r == "house" <==> Normalize(choice) == "wait"
  {
    if Normalize(choice) == "wait" then "house" else "trout"
  }

  /** `choose_door`: one of the three doors, or `invalid`. */
  function ChooseDoor(choice: string): (r: string)
    ensures r == "fire" || r == "beasts" || r == "treasure" || r == "invalid"
    ensures r == "fire" <==> Normalize(choice) == "red"
    ensures r == "beasts" <==> Normalize(choice) == "blue"
    ensures r == "treasure" <==> Normalize(choice) == "yellow"
  {
    var c := Normalize(choice);
    if c == "red" then "fire"
    else if c == "blue" then "beasts"
    else if c == "yellow" then "treasure"
    else "invalid"
  }

  /** How a game ends: the message `main` prints last. */
  datatype Ending = Win | Hole | Trout | Fire | Beasts | NoSuchDoor

  /** The decision tree of `main` on the three answers typed; an answer that
      is not asked for (after the hole or the trout) is never read. */
  function Play(choice1: string, choice2: string, choice3: string): Ending {
    if ChooseFirstPath(choice1) != "lake" then Hole
    else if ChooseSecondPath(choice2) != "house" then Trout
    else
      var result := ChooseDoor(choice3);
      if result == "treasure" then Win
      else if result == "fire" then Fire
      else if result == "beasts" then Beasts
      else NoSuchDoor
  }

  // ---------------------------------------------------------------------------
  // Properties

  /** Normalising twice is normalising once. */
  lemma NormalizeIdempotent(s: string)
    ensures Normalize(Normalize(s)) == Normalize(s)
  {
    LowerKeepsStripped(Strip(s));
    StripOfStripped(Lower(Strip(s)));
    LowerFacts(Strip(s));
  }

  /** Normalising after `strip().lower()` of the other order gives the same
      string. */
  lemma NormalizeOfLowerStrip(s: string)
    ensures Normalize(Strip(Lower(s))) == Normalize(s)
  {
    LowerStrip(s);
    NormalizeIdempotent(s);
  }

  /** Every chooser ignores case and surrounding whitespace: it gives the same
      answer for `s` and for `s.lower().strip()`. */
  lemma FirstPathIgnoresCaseAndSpace(s: string)
    ensures ChooseFirstPath(Strip(Lower(s))) == ChooseFirstPath(s)
  {
    NormalizeOfLowerStrip(s);
  }

  lemma SecondPathIgnoresCaseAndSpace(s: string)
    ensures ChooseSecondPath(Strip(Lower(s))) == ChooseSecondPath(s)
  {
    NormalizeOfLowerStrip(s);
  }

  lemma DoorIgnoresCaseAndSpace(s: string)
    ensures ChooseDoor(Strip(Lower(s))) == ChooseDoor(s)
  {
    NormalizeOfLowerStrip(s);
  }

  /** The game is won exactly when the answers are, after normalising, left,
      wait and yellow. */
  lemma WinIff(choice1: string, choice2: string, choice3: string)
    ensures Play(choice1, choice2, choice3) == Win <==>
      Normalize(choice1) == "left" && Normalize(choice2) == "wait" && Normalize(choice3) == "yellow"
  {
  }

  /** Turning right ends the game in the hole whatever comes after, and
      swimming ends it with the trout whatever door would have been chosen. */
  lemma EarlyEndings(choice1: string, choice2: string, choice3: string, other2: string, other3: string)
    ensures Normalize(choice1) != "left" ==> Play(choice1, choice2, choice3) == Hole
    ensures Play(choice1, choice2, choice3) == Hole ==> Play(choice1, other2, other3) == Hole
    ensures Normalize(choice1) == "left" && Normalize(choice2) != "wait" ==> Play(choice1, choice2, choice3) == Trout
    ensures Play(choice1, choice2, choice3) == Trout ==> Play(choice1, choice2, other3) == Trout
  {
  }

  /** A lower-case word without surrounding whitespace is its own normal
      form, and padded with spaces it normalises to itself. */
  lemma NormalWord(t: string)
    requires t != [] && Stripped(t) && forall k :: 0 <= k < |t| ==> !('A' <= t[k] <= 'Z')
    ensures Normalize(t) == t
    ensures Normalize(" " + t + " ") == t
  {
    StripOfStripped(t);
    StripPadded(t);
    LowerOfLower(t);
  }

  /** An answer typed in lower case, with or without spaces around it, picks
      the branch named by the word itself: `left` and ` left ` reach the lake,
      `right` the hole, and so on. */
  lemma PaddedAnswers(t: string)
    requires t != [] && Stripped(t) && forall k :: 0 <= k < |t| ==> !('A' <= t[k] <= 'Z')
    ensures ChooseFirstPath(t) == ChooseFirstPath(" " + t + " ") == if t == "left" then "lake" else "hole"
    ensures ChooseSecondPath(t) == ChooseSecondPath(" " + t + " ") == if t == "wait" then "house" else "trout"
    ensures ChooseDoor(t) == ChooseDoor(" " + t + " ")
    ensures ChooseDoor(t) == "treasure" <==> t == "yellow"
  {
    NormalWord(t);
  }
}
