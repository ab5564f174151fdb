/** `call_gpt`: the buffered driver. Each round sends the current message list, receives
    one whole fragment, folds it in with `accumulate_response` and rewrites the last
    message; once a fragment holds the stop marker the marker is removed from the joined
    text and the result is stripped of surrounding whitespace. */
module Buffered {

  import opened Text
  import opened Wrappers
  import opened Messages
  import opened Accumulator

  /** The default stop marker: five double daggers (U+2021). */
  const DefaultStop: string := "‡‡‡‡‡"

  /** What one transport call gives back: the message content, or an exception. */
  datatype Reply = Delivered(text: string) | Raised

  function TextOf(r: Reply): string
  {
    match r
    case Delivered(t) => t
    case Raised => ""
  }

  /** The fragments of a run of replies, in order. */
  function Texts(replies: seq<Reply>): (ts: seq<string>)
    ensures |ts| == |replies|
    ensures forall k :: 0 <= k < |replies| ==> ts[k] == TextOf(replies[k])
  {
    if replies == [] then []
    else Texts(replies[..|replies| - 1]) + [TextOf(replies[|replies| - 1])]
  }

  /** A reply after which no further round is requested. */
  predicate Ends(r: Reply, stop: string)
  {
    r.Raised? || Contains(r.text, stop)
  }

  /** The index of the reply that ends the loop: the first failure or the first fragment
      that holds the marker. */
  function FirstEnd(replies: seq<Reply>, stop: string): (i: nat)
    requires exists k :: 0 <= k < |replies| && Ends(replies[k], stop)
    ensures i < |replies| && Ends(replies[i], stop)
    ensures forall k :: 0 <= k < i ==> !Ends(replies[k], stop)
  {
    if Ends(replies[0], stop) then 0
    else
      var i := FirstEnd(replies[1..], stop);
      assert replies[1..][i] == replies[i + 1];
      i + 1
  }

  /** `call_gpt`'s closing `replace(stop_sequence, "").strip()` and `return ….strip()`:
      every marker removed, then whitespace stripped (twice, as written). */
  function CleanUp(accumulated: string, stop: string): string
  {
    Strip(Strip(RemoveAll(accumulated, stop)))
  }

  /** The returned text has no leading or trailing whitespace and is the accumulated text
      without its markers, cut between two all-whitespace ends. */
  lemma CleanUpTrimmed(accumulated: string, stop: string)
    ensures var r := CleanUp(accumulated, stop);
            r == [] || (!IsSpace(r[0]) && !IsSpace(r[|r| - 1]))
    ensures CleanUp(accumulated, stop) == Strip(RemoveAll(accumulated, stop))
  {
    StripIdempotent(RemoveAll(accumulated, stop));
  }

  /** With the default marker no marker occurrence survives in the returned text. */
  lemma {:induction false} CleanUpRemovesDefaultMarker(accumulated: string)
    ensures !Contains(CleanUp(accumulated, DefaultStop), DefaultStop)
  {
    assert DefaultStop == Repeat('‡', 5);
    var removed := RemoveAll(accumulated, DefaultStop);
    RemoveRunLeavesNone(accumulated, '‡', 5);
    StripKeepsAbsence(removed, DefaultStop);
    StripKeepsAbsence(Strip(removed), DefaultStop);
  }

  /** A text without markers and without surrounding whitespace comes back unchanged. */
  lemma {:induction false} CleanUpKeepsPlainText(text: string, stop: string)
    requires !Contains(text, stop)
    requires text == [] || (!IsSpace(text[0]) && !IsSpace(text[|text| - 1]))
    ensures CleanUp(text, stop) == text
  {
    RemoveAllAbsent(text, stop);
  }

  /** `call_gpt` with the transport replaced by the replies it gives, in order. The real
      loop is unbounded, so some reply must end it. `messages` is the caller's list, which
      the request settings alias, so each round's rewrite of its last message is what the
      next request sends; `requests` records the list as each transport call saw it.
      A failing call aborts the run with no result, after the rounds before it have
      rewritten the list. */
  method CallGpt(messages: array<Message>, replies: seq<Reply>, stop: string)
    returns (result: Option<string>, requests: seq<seq<Message>>)
    requires messages.Length > 0
    requires exists k :: 0 <= k < |replies| && Ends(replies[k], stop)
    modifies messages
    ensures var i := FirstEnd(replies, stop);
            && |requests| == i + 1
            && (forall k :: 0 <= k < |requests| ==>
                  requests[k] == WithLastContent(old(messages[..]),
                    Transcript(old(messages[messages.Length - 1].content), Texts(replies[..k]))))
            && (replies[i].Raised? ==>
                  && result == None
                  && messages[..] == WithLastContent(old(messages[..]),
                       Transcript(old(messages[messages.Length - 1].content), Texts(replies[..i]))))
            && (replies[i].Delivered? ==>
                  && result == Some(CleanUp(Concat(Texts(replies[..i + 1])), stop))
                  && messages[..] == WithLastContent(old(messages[..]),
                       Transcript(old(messages[messages.Length - 1].content), Texts(replies[..i + 1]))))
  {
    ghost var initial := messages[..];
    ghost var last := FirstEnd(replies, stop);
    ghost var ts: seq<string> := [];
    var prompt := messages[messages.Length - 1].content;
    var accumulated := "";
    var ongoing := true;
    var conversation := prompt;
    var k := 0;
    requests := [];
    while ongoing
      invariant ongoing ==> k <= last
      invariant !ongoing ==> k == last + 1 && replies[last].Delivered?
      invariant ts == Texts(replies[..k])
      invariant accumulated == Concat(ts)
      invariant conversation == Transcript(prompt, ts)
      invariant messages[..] == WithLastContent(initial, conversation)
      invariant requests == Sent(initial, prompt, ts)
      decreases |replies| - k
    {
      RoundFacts(initial, prompt, replies, stop, k, ts);
      requests := requests + [messages[..]];
      match replies[k]
      case Raised =>
        result := None;
        SentCover(initial, prompt, replies, k);
        return;
      case Delivered(fragment) =>
        var next := Accumulate(fragment, accumulated, ongoing, conversation, stop);
        WithLastContentTwice(initial, conversation, next.conversation);
        accumulated, ongoing, conversation := next.accumulated, next.ongoing, next.conversation;
        SetLastContent(messages, conversation);
        ts := ts + [fragment];
        k := k + 1;
    }
    SentCover(initial, prompt, replies, k - 1);
    result := Some(CleanUp(accumulated, stop));
  }

  /** What one more round adds to each piece of the driver's state. */
  lemma RoundFacts(initial: seq<Message>, prompt: string, replies: seq<Reply>, stop: string,
                   k: nat, ts: seq<string>)
    requires |initial| > 0
    requires exists j :: 0 <= j < |replies| && Ends(replies[j], stop)
    requires k <= FirstEnd(replies, stop)
    requires ts == Texts(replies[..k])
    ensures var f := TextOf(replies[k]);
            && Texts(replies[..k + 1]) == ts + [f]
            && Concat(ts + [f]) == Concat(ts) + f
            && Transcript(prompt, ts + [f]) == Transcript(prompt, ts) + TranscriptLine(f)
            && Sent(initial, prompt, ts + [f]) == Sent(initial, prompt, ts) + [WithLastContent(initial, Transcript(prompt, ts))]
            && (replies[k].Delivered? ==> (Contains(f, stop) <==> k == FirstEnd(replies, stop)))
            && (replies[k].Raised? ==> k == FirstEnd(replies, stop))
  {
    var f := TextOf(replies[k]);
    assert (ts + [f])[..|ts|] == ts;
  }

  /** The requests of the rounds up to and including round `k`, spelled out. */
  lemma SentCover(initial: seq<Message>, prompt: string, replies: seq<Reply>, k: nat)
    requires |initial| > 0 && k < |replies|
    ensures forall j :: 0 <= j <= k ==>
              Sent(initial, prompt, Texts(replies[..k + 1]))[j]
              == WithLastContent(initial, Transcript(prompt, Texts(replies[..j])))
  {
    var ts := Texts(replies[..k + 1]);
    SentAll(initial, prompt, ts);
    forall j | 0 <= j <= k ensures ts[..j] == Texts(replies[..j]) {
      assert ts[..j] == Texts(replies[..j]);
    }
  }

  /** Three replies, the last carrying the default marker. */
  const Scenario: seq<Reply> := [Delivered(" a"), Delivered("b"), Delivered("c‡‡‡‡‡\n")]

  /** Three rounds whose last fragment carries the default marker: the run makes three
      transport calls and returns the three fragments joined, marker removed, trimmed. */
  lemma ThreeRoundScenario()
    ensures Ends(Scenario[2], DefaultStop)
    ensures FirstEnd(Scenario, DefaultStop) == 2
    ensures CleanUp(Concat(Texts(Scenario)), DefaultStop) == "abc"
  {
    ScenarioFirstEnd();
    ScenarioJoin();
    ScenarioCleanUp();
  }

  lemma ScenarioFirstEnd()
    ensures Ends(Scenario[2], DefaultStop)
    ensures FirstEnd(Scenario, DefaultStop) == 2
  {
    assert OccursAt("c‡‡‡‡‡\n", DefaultStop, 1);
    MissingCharNotContained(" a", DefaultStop, '‡');
    MissingCharNotContained("b", DefaultStop, '‡');
    assert Scenario[1..] == [Delivered("b"), Delivered("c‡‡‡‡‡\n")];
    assert Scenario[1..][1..] == [Delivered("c‡‡‡‡‡\n")];
  }

  lemma ScenarioJoin()
    ensures Concat(Texts(Scenario)) == " abc‡‡‡‡‡\n"
  {
    var ts := Texts(Scenario);
    assert ts == [" a", "b", "c‡‡‡‡‡\n"];
    assert ts[..2] == [" a", "b"];
    assert ts[..2][..1] == [" a"];
    assert Concat([" a"]) == " a" by { assert [" a"][..0] == []; }
    assert Concat([" a", "b"]) == " ab";
  }

  lemma ScenarioRemove()
    ensures RemoveAll(" abc‡‡‡‡‡\n", DefaultStop) == " abc\n"
  {
    RemoveAllSkips(" abc", "‡‡‡‡‡\n", DefaultStop);
    assert "‡‡‡‡‡\n"[..5] == DefaultStop && "‡‡‡‡‡\n"[5..] == "\n";
    assert RemoveAll("‡‡‡‡‡\n", DefaultStop) == "\n";
    assert " abc" + "‡‡‡‡‡\n" == " abc‡‡‡‡‡\n";
    assert " abc" + "\n" == " abc\n";
  }

  lemma ScenarioStrip()
    ensures Strip(" abc\n") == "abc"
  {
    ScenarioTrimStart();
    ScenarioTrimEnd();
  }

  lemma ScenarioTrimStart()
    ensures TrimStart(" abc\n") == "abc\n"
  {
    assert " abc\n"[1..] == "abc\n";
    assert !IsSpace('a');
  }

  lemma ScenarioTrimEnd()
    ensures TrimEnd("abc\n") == "abc"
  {
    assert "abc\n"[..3] == "abc";
    assert !IsSpace('c');
  }

  lemma ScenarioCleanUp()
    ensures CleanUp(" abc‡‡‡‡‡\n", DefaultStop) == "abc"
  {
    ScenarioRemove();
    ScenarioStrip();
    CleanUpTrimmed(" abc‡‡‡‡‡\n", DefaultStop);
  }
}
