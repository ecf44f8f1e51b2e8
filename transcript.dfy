/** Assembly of one speech-recognition result event into the final and the
    interim transcript. */
module Transcript {

  /** One entry of the event's result list: the transcript of its first
      alternative and whether the recogniser has finalised it. */
  datatype SpeechResult = SpeechResult(transcript: string, isFinal: bool)

  /** The finalised transcripts of a result list, concatenated in order. */
  function FinalText(rs: seq<SpeechResult>): string {
    if rs == [] then ""
    else FinalText(rs[..|rs| - 1]) + (if rs[|rs| - 1].isFinal then rs[|rs| - 1].transcript else "")
  }

  /** The transcripts not yet finalised, concatenated in order. */
  function InterimText(rs: seq<SpeechResult>): string {
    if rs == [] then ""
    else InterimText(rs[..|rs| - 1]) + (if rs[|rs| - 1].isFinal then "" else rs[|rs| - 1].transcript)
  }

  /** Total length of all transcripts in a result list. */
  function TotalLength(rs: seq<SpeechResult>): nat {
    if rs == [] then 0 else TotalLength(rs[..|rs| - 1]) + |rs[|rs| - 1].transcript|
  }

  /** All transcripts of a result list, concatenated in order. */
  function AllText(rs: seq<SpeechResult>): string {
    if rs == [] then "" else AllText(rs[..|rs| - 1]) + rs[|rs| - 1].transcript
  }

  /** Where the loop over the results starts: `resultIndex`, or nowhere when
      it is past the end. */
  function Start(results: seq<SpeechResult>, resultIndex: nat): nat {
    if resultIndex <= |results| then resultIndex else |results|
  }

  /** The loop of `onresult`: every result from `resultIndex` on goes to
      the final or the interim transcript, as its flag says. */
  method Assemble(results: seq<SpeechResult>, resultIndex: nat) returns (interim: string, final: string)
    ensures final == FinalText(results[Start(results, resultIndex)..])
    ensures interim == InterimText(results[Start(results, resultIndex)..])
  {
    interim, final := "", "";
    var from := Start(results, resultIndex);
    var i := from;
    while i < |results|
      invariant from <= i <= |results|
      invariant final == FinalText(results[from..i])
      invariant interim == InterimText(results[from..i])
    {
      var transcript := results[i].transcript;
      assert results[from..i + 1][..i - from] == results[from..i];
      if results[i].isFinal {
        final := final + transcript;
      } else {
        interim := interim + transcript;
      }
      i := i + 1;
    }
    assert results[from..i] == results[from..];
  }

  /** Assembling two result lists one after the other is assembling their
      concatenation. */
  lemma {:induction false} FinalTextAppend(a: seq<SpeechResult>, b: seq<SpeechResult>)
    ensures FinalText(a + b) == FinalText(a) + FinalText(b)
    ensures InterimText(a + b) == InterimText(a) + InterimText(b)
  {
    if b == [] {
      assert a + b == a;
    } else {
      var b' := b[..|b| - 1];
      assert (a + b)[..|a + b| - 1] == a + b';
      FinalTextAppend(a, b');
    }
  }

  /** Every character of every transcript lands in exactly one of the two
      strings: the assembly loses and duplicates nothing. */
  lemma {:induction false} AssemblyLosesNothing(rs: seq<SpeechResult>)
    ensures |FinalText(rs)| + |InterimText(rs)| == TotalLength(rs)
    ensures multiset(FinalText(rs)) + multiset(InterimText(rs)) == multiset(AllText(rs))
  {
    if rs != [] {
      AssemblyLosesNothing(rs[..|rs| - 1]);
    }
  }

  /** A list of interim results only yields no final transcript. */
  lemma {:induction false} NoFinalResult(rs: seq<SpeechResult>)
    requires forall k :: 0 <= k < |rs| ==> !rs[k].isFinal
    ensures FinalText(rs) == ""
    ensures InterimText(rs) == "" <==> TotalLength(rs) == 0
  {
    if rs != [] {
      NoFinalResult(rs[..|rs| - 1]);
    }
  }
}
