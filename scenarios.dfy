/** Concrete runs of the matcher and of the collision response. */
module Scenarios {
  import opened Text
  import opened Pills
  import opened Matcher
  import opened Game

  /** "  LION  " is the label "Lion" said in capitals with spaces around. */
  lemma PaddedCapitalsMatch(lion: WordPill)
    requires lion.text == "Lion"
    ensures Matches(lion, Normalize("  " + "LION" + "  "))
  {
    SpokenLabelMatches(lion, "  ", "LION", "  ");
  }

  /** With pills labelled Lion, Tiger, Elephant, the key of Tiger's label
      takes out Tiger and keeps Lion, Elephant in order. */
  lemma TigerKeyRecognized(lion: WordPill, tiger: WordPill, elephant: WordPill, key: string)
    requires lion.text == "Lion" && tiger.text == "Tiger" && elephant.text == "Elephant"
    requires key == Lower(tiger.text)
    ensures Recognize([lion, tiger, elephant], [], key) == ([lion, elephant], ["Tiger"])
  {
    var pills := [lion, tiger, elephant];
    var none: seq<string> := [];
    assert |Lower(lion.text)| == 4 && |key| == 5;
    assert !Matches(pills[0], key) && Matches(pills[1], key);
    assert pills[..1] + pills[2..] == [lion, elephant];
    assert none + [pills[1].text] == ["Tiger"];
  }

  /** Saying "tiger" with a space on either side has that key. */
  lemma TigerRecognized(lion: WordPill, tiger: WordPill, elephant: WordPill, spoken: string)
    requires lion.text == "Lion" && tiger.text == "Tiger" && elephant.text == "Elephant"
    requires spoken == "tiger"
    ensures Recognize([lion, tiger, elephant], [], Normalize(" " + spoken + " ")) == ([lion, elephant], ["Tiger"])
  {
    var key := Normalize(" " + spoken + " ");
    assert key == Lower(tiger.text) by {
      SpokenLabelMatches(tiger, " ", spoken, " ");
    }
    TigerKeyRecognized(lion, tiger, elephant, key);
  }

  /** A seven-letter key, such as that of "Giraffe", matches none of
      Lion, Tiger, Elephant and changes nothing. */
  lemma SevenLetterKeyIgnored(lion: WordPill, tiger: WordPill, elephant: WordPill, enclosure: seq<string>, key: string)
    requires lion.text == "Lion" && tiger.text == "Tiger" && elephant.text == "Elephant"
    requires |key| == 7
    ensures Recognize([lion, tiger, elephant], enclosure, key) == ([lion, tiger, elephant], enclosure)
  {
    var pills := [lion, tiger, elephant];
    assert forall k :: 0 <= k < |pills| ==> !Matches(pills[k], key);
  }

  /** Saying "Giraffe", with a space on either side, to Lion, Tiger,
      Elephant changes nothing. */
  lemma GiraffeIgnored(lion: WordPill, tiger: WordPill, elephant: WordPill, enclosure: seq<string>, spoken: string)
    requires lion.text == "Lion" && tiger.text == "Tiger" && elephant.text == "Elephant"
    requires spoken == "Giraffe"
    ensures Recognize([lion, tiger, elephant], enclosure, Normalize(" " + spoken + " ")) == ([lion, tiger, elephant], enclosure)
  {
    var key := Normalize(" " + spoken + " ");
    assert |key| == 7 by {
      NormalizePadded(" ", spoken, " ");
    }
    SevenLetterKeyIgnored(lion, tiger, elephant, enclosure, key);
  }

  /** On a field whose pills carry the animal names in order, saying the
      name of animal a takes out exactly pill a and encloses that name. */
  lemma AnimalNameRecognized(pills: seq<WordPill>, a: nat)
    requires |pills| == |Animals| && forall k :: 0 <= k < |pills| ==> pills[k].text == Animals[k]
    requires a < |pills|
    ensures Recognize(pills, [], Lower(Animals[a])) == (pills[..a] + pills[a + 1..], [Animals[a]])
  {
    AnimalKeysDistinct();
    RecognizeOwnLabel(pills, [], a);
    assert [] + [Animals[a]] == [Animals[a]];
  }

  /** The separation loop ignores the walls: a pill on the left wall that
      receives a leftward velocity in a collision ends outside the field. */
  method SeparationLeavesField() returns (x: real)
    ensures x < 0.0
  {
    var a := new WordPill("Lion", 0.0, 0.0, 1.0, 0.0);
    var b := new WordPill("Tiger", 70.0, 0.0, -1.0, 0.0);
    assert a.CheckCollision(b);
    ghost var steps := a.ResolveCollision(b);
    x := a.x;
  }
}
