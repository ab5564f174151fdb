/** `accumulate_response`: one round's fragment folded into the running output, the
    continuation flag and the rolling conversation text. */
module Accumulator {

  import opened Text
  import opened Messages

  const AssistantTag: string := "\nAssistant:"
  const ContinueDirective: string := "\nUser:Continue immediately after where you left off."

  /** The text appended to the conversation after a round that produced `fragment`. */
  function TranscriptLine(fragment: string): string
  {
    AssistantTag + fragment + ContinueDirective
  }

  /** The three values `accumulate_response` returns. */
  datatype Accumulated = Accumulated(accumulated: string, ongoing: bool, conversation: string)

  /** The fragment is appended verbatim; the flag drops to false exactly when the stop
      marker occurs in this fragment and is otherwise passed through; the conversation
      always gains the transcript line, whether or not the round ended the generation. */
  function Accumulate(fragment: string, accumulated: string, ongoing: bool,
                      conversation: string, stop: string): (r: Accumulated)
    ensures r.accumulated == accumulated + fragment
    ensures r.ongoing <==> ongoing && !Contains(fragment, stop)
    ensures r.conversation == conversation + TranscriptLine(fragment)
  {
    var ongoing' := if Contains(fragment, stop) then false else ongoing;
    Accumulated(accumulated + fragment, ongoing', conversation + TranscriptLine(fragment))
  }

  /** Only the newest fragment is searched for the marker: the text accumulated so far and
      the conversation play no part in the decision. */
  lemma FlagIgnoresHistory(fragment: string, ongoing: bool, stop: string,
                           acc1: string, conv1: string, acc2: string, conv2: string)
    ensures Accumulate(fragment, acc1, ongoing, conv1, stop).ongoing
         == Accumulate(fragment, acc2, ongoing, conv2, stop).ongoing
  {
  }

  /** A marker produced in an earlier round does not end a later round whose own fragment
      lacks it. */
  lemma EarlierMarkerIgnored(fragment: string, accumulated: string, conversation: string, stop: string)
    requires Contains(accumulated, stop) && !Contains(fragment, stop)
    ensures Accumulate(fragment, accumulated, true, conversation, stop).ongoing
  {
  }

  /** With an empty marker every round ends the generation. */
  lemma {:induction false} EmptyMarkerStops(fragment: string, accumulated: string,
                                            ongoing: bool, conversation: string)
    ensures !Accumulate(fragment, accumulated, ongoing, conversation, "").ongoing
  {
    assert OccursAt(fragment, "", 0);
  }

  /** The rewritten conversation carries the assistant tag and the continuation
      directive. */
  lemma {:induction false} TranscriptLineMarks(conversation: string, fragment: string)
    ensures Contains(conversation + TranscriptLine(fragment), AssistantTag)
    ensures Contains(conversation + TranscriptLine(fragment), ContinueDirective)
  {
    var s := conversation + TranscriptLine(fragment);
    var i := |conversation|;
    var j := |conversation| + |AssistantTag| + |fragment|;
    assert s[i..i + |AssistantTag|] == AssistantTag;
    assert OccursAt(s, AssistantTag, i);
    assert s[j..j + |ContinueDirective|] == ContinueDirective;
    assert OccursAt(s, ContinueDirective, j);
  }

  /** The user content after the rounds that produced `fragments`: the original prompt
      followed by one transcript line per round, in round order. */
  function Transcript(prompt: string, fragments: seq<string>): string
  {
    if fragments == [] then prompt
    else Transcript(prompt, fragments[..|fragments| - 1]) + TranscriptLine(fragments[|fragments| - 1])
  }

  /** Rounds can be replayed in two batches: the transcript after the first batch is the
      prompt of the second. */
  lemma {:induction false} TranscriptSplit(prompt: string, a: seq<string>, b: seq<string>)
    ensures Transcript(prompt, a + b) == Transcript(Transcript(prompt, a), b)
    decreases |b|
  {
    if b == [] {
      assert a + b == a;
    } else {
      assert (a + b)[..|a + b| - 1] == a + b[..|b| - 1];
      TranscriptSplit(prompt, a, b[..|b| - 1]);
    }
  }

  /** The index of the first fragment holding the marker: the round that ends the loop. */
  function FirstStop(fragments: seq<string>, stop: string): (i: nat)
    requires exists k :: 0 <= k < |fragments| && Contains(fragments[k], stop)
    ensures i < |fragments| && Contains(fragments[i], stop)
    ensures forall k :: 0 <= k < i ==> !Contains(fragments[k], stop)
  {
    if Contains(fragments[0], stop) then 0
    else
      var i := FirstStop(fragments[1..], stop);
      assert fragments[1..][i] == fragments[i + 1];
      i + 1
  }

  /** The message lists sent by the rounds that produced `fragments`: round k sends the
      list whose last content is the transcript of the k rounds before it. */
  function Sent(initial: seq<Message>, prompt: string, fragments: seq<string>): (rs: seq<seq<Message>>)
    requires |initial| > 0
    ensures |rs| == |fragments|
  {
    if fragments == [] then []
    else
      var before := fragments[..|fragments| - 1];
      Sent(initial, prompt, before) + [WithLastContent(initial, Transcript(prompt, before))]
  }

  lemma {:induction false} SentAt(initial: seq<Message>, prompt: string, fragments: seq<string>, k: nat)
    requires |initial| > 0 && k < |fragments|
    ensures Sent(initial, prompt, fragments)[k] == WithLastContent(initial, Transcript(prompt, fragments[..k]))
    decreases |fragments|
  {
    var before := fragments[..|fragments| - 1];
    if k < |before| {
      SentAt(initial, prompt, before, k);
      assert before[..k] == fragments[..k];
    }
  }

  /** Every request in a run, spelled out: request k carries the transcript of the k
      rounds before it. */
  lemma {:induction false} SentAll(initial: seq<Message>, prompt: string, fragments: seq<string>)
    requires |initial| > 0
    ensures forall k :: 0 <= k < |fragments| ==>
              Sent(initial, prompt, fragments)[k] == WithLastContent(initial, Transcript(prompt, fragments[..k]))
  {
    forall k | 0 <= k < |fragments|
      ensures Sent(initial, prompt, fragments)[k] == WithLastContent(initial, Transcript(prompt, fragments[..k]))
    {
      SentAt(initial, prompt, fragments, k);
    }
  }
}
