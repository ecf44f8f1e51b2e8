/** Matching a finalised transcript against the pill labels and moving the
    first matching pill to the enclosure. */
module Matcher {
  import opened Text
  import opened Pills

  /** The `findIndex` callback: the pill's label, lowered, equals the key. */
  predicate Matches(p: WordPill, key: string) {
    Lower(p.text) == key
  }

  /** `findIndex`: the position of the first pill whose label matches the
      key, or -1 when none does. */
  function FindIndex(pills: seq<WordPill>, key: string): (r: int)
    ensures -1 <= r < |pills|
    ensures r == -1 <==> forall k :: 0 <= k < |pills| ==> !Matches(pills[k], key)
    ensures r >= 0 ==> Matches(pills[r], key) && forall k :: 0 <= k < r ==> !Matches(pills[k], key)
  {
    if pills == [] then -1
    else if Matches(pills[0], key) then 0
    else
      var r := FindIndex(pills[1..], key);
      if r == -1 then -1 else r + 1
  }

  /** A pill matches its own label said in any case, with any white space
      around it. */
  lemma SpokenLabelMatches(p: WordPill, front: string, spoken: string, back: string)
    requires AllSpace(front) && AllSpace(back)
    requires spoken == [] || (!IsSpace(spoken[0]) && !IsSpace(spoken[|spoken| - 1]))
    requires |spoken| == |p.text| && forall k :: 0 <= k < |spoken| ==> LowerChar(spoken[k]) == LowerChar(p.text[k])
    ensures Matches(p, Normalize(front + spoken + back))
  {
    NormalizePadded(front, spoken, back);
    LowerIgnoresCase(spoken, p.text);
  }

  /** The labels of a list of pills, in order. */
  function Texts(pills: seq<WordPill>): (r: seq<string>)
    ensures |r| == |pills| && forall k :: 0 <= k < |pills| ==> r[k] == pills[k].text
  {
    seq(|pills|, k requires 0 <= k < |pills| => pills[k].text)
  }

  /** What a finalised transcript does to the pill list and the enclosure,
      given its key (the transcript trimmed and lowered, see `Normalize`):
      the first pill whose lowered label equals the key leaves the list, the
      others keep their order, and its label is appended to the enclosure;
      with no such pill nothing changes. */
  function Recognize(pills: seq<WordPill>, enclosure: seq<string>, key: string): (r: (seq<WordPill>, seq<string>))
    ensures (forall k :: 0 <= k < |pills| ==> !Matches(pills[k], key)) ==> r == (pills, enclosure)
    ensures forall k :: 0 <= k < |pills| && Matches(pills[k], key) &&
                        (forall m :: 0 <= m < k ==> !Matches(pills[m], key)) ==>
      r == (pills[..k] + pills[k + 1..], enclosure + [pills[k].text])
  {
    var index := FindIndex(pills, key);
    if index == -1 then (pills, enclosure)
    else (pills[..index] + pills[index + 1..], enclosure + [pills[index].text])
  }

  /** On a field where no two labels share a key, saying the key of pill
      a's label takes out exactly pill a and encloses its label. */
  lemma RecognizeOwnLabel(pills: seq<WordPill>, enclosure: seq<string>, a: nat)
    requires a < |pills|
    requires forall k :: 0 <= k < |pills| && k != a ==> Lower(pills[k].text) != Lower(pills[a].text)
    ensures Recognize(pills, enclosure, Lower(pills[a].text)) == (pills[..a] + pills[a + 1..], enclosure + [pills[a].text])
  {
    assert Matches(pills[a], Lower(pills[a].text));
  }

  /** A pill list with no pill twice. */
  predicate Distinct(pills: seq<WordPill>) {
    forall a, b :: 0 <= a < b < |pills| ==> pills[a] != pills[b]
  }

  /** Recognition only removes: the pills left are a sub-list of the pills
      before, so a list without repeats keeps none. */
  lemma RecognizeKeepsDistinct(pills: seq<WordPill>, enclosure: seq<string>, key: string)
    requires Distinct(pills)
    ensures Distinct(Recognize(pills, enclosure, key).0)
    ensures |Recognize(pills, enclosure, key).0| + |Recognize(pills, enclosure, key).1| == |pills| + |enclosure|
  {
    var index := FindIndex(pills, key);
    if index != -1 {
      var rest := pills[..index] + pills[index + 1..];
      forall a, b | 0 <= a < b < |rest| ensures rest[a] != rest[b] {
        var a' := if a < index then a else a + 1;
        var b' := if b < index then b else b + 1;
        assert rest[a] == pills[a'] && rest[b] == pills[b'];
      }
    }
  }

  /** The labels of two lists joined are the two label lists joined. */
  lemma TextsAppend(a: seq<WordPill>, b: seq<WordPill>)
    ensures Texts(a + b) == Texts(a) + Texts(b)
  {
  }

  /** No label is lost or made up: the labels on the field and in the
      enclosure together are the same before and after. */
  lemma RecognizeConservesLabels(pills: seq<WordPill>, enclosure: seq<string>, key: string)
    ensures var r := Recognize(pills, enclosure, key);
      multiset(Texts(r.0)) + multiset(r.1) == multiset(Texts(pills)) + multiset(enclosure)
  {
    var index := FindIndex(pills, key);
    if index != -1 {
      var front, back := pills[..index], pills[index + 1..];
      var t := pills[index].text;
      assert pills == front + [pills[index]] + back;
      TextsAppend(front + [pills[index]], back);
      TextsAppend(front, [pills[index]]);
      TextsAppend(front, back);
      calc {
        multiset(Texts(pills)) + multiset(enclosure);
        multiset(Texts(front) + [t] + Texts(back)) + multiset(enclosure);
        multiset(Texts(front)) + multiset(Texts(back)) + (multiset(enclosure) + multiset{t});
        multiset(Texts(front + back)) + multiset(enclosure + [t]);
      }
    }
  }
}
