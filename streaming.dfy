/** `call_gpt_stream`: the streaming driver. Each round receives a run of deltas, passes
    every non-empty one up to its consumer as it arrives, and feeds their concatenation to
    `accumulate_response`, exactly as the buffered driver does with a whole fragment. */
module Streaming {

  import opened Text
  import opened Wrappers
  import opened Messages
  import opened Accumulator

  /** The deltas of one round that are yielded: the present, non-empty ones, in order
      (`if value:` skips both an absent and an empty delta). */
  function Yields(deltas: seq<Option<string>>): seq<string>
  {
    if deltas == [] then []
    else
      var d := deltas[|deltas| - 1];
      Yields(deltas[..|deltas| - 1]) + (if d.Some? && d.value != "" then [d.value] else [])
  }

  /** No yielded chunk is empty, and there are no more of them than deltas. */
  lemma {:induction false} YieldsNonEmpty(deltas: seq<Option<string>>)
    ensures |Yields(deltas)| <= |deltas|
    ensures forall k :: 0 <= k < |Yields(deltas)| ==> Yields(deltas)[k] != ""
    decreases |deltas|
  {
    if deltas != [] {
      YieldsNonEmpty(deltas[..|deltas| - 1]);
    }
  }

  function DeltaText(d: Option<string>): string
  {
    match d
    case Some(v) => v
    case None => ""
  }

  function Joined(deltas: seq<Option<string>>): string
  {
    if deltas == [] then ""
    else Joined(deltas[..|deltas| - 1]) + DeltaText(deltas[|deltas| - 1])
  }

  /** Only absent or empty deltas are held back: the yielded chunks joined are all the
      deltas' texts joined. */
  lemma {:induction false} YieldsJoinDeltas(deltas: seq<Option<string>>)
    ensures Concat(Yields(deltas)) == Joined(deltas)
    decreases |deltas|
  {
    if deltas != [] {
      var init := deltas[..|deltas| - 1];
      var d := deltas[|deltas| - 1];
      YieldsJoinDeltas(init);
      var tail := if d.Some? && d.value != "" then [d.value] else [];
      ConcatAppend(Yields(init), tail);
      assert tail != [] ==> tail[..0] == [];
    }
  }

  /** The fragment one round hands to the accumulator. */
  function Fragment(deltas: seq<Option<string>>): string
  {
    Concat(Yields(deltas))
  }

  /** The fragment of each round, in order. */
  function Fragments(rounds: seq<seq<Option<string>>>): (fs: seq<string>)
    ensures |fs| == |rounds|
  {
    if rounds == [] then []
    else Fragments(rounds[..|rounds| - 1]) + [Fragment(rounds[|rounds| - 1])]
  }

  /** Everything the generator yields over a run of rounds, in arrival order. */
  function AllYields(rounds: seq<seq<Option<string>>>): seq<string>
  {
    if rounds == [] then []
    else AllYields(rounds[..|rounds| - 1]) + Yields(rounds[|rounds| - 1])
  }

  /** What the consumer received, joined, is what the driver accumulated. */
  lemma {:induction false} YieldedIsAccumulated(rounds: seq<seq<Option<string>>>)
    ensures Concat(AllYields(rounds)) == Concat(Fragments(rounds))
    decreases |rounds|
  {
    if rounds != [] {
      var init := rounds[..|rounds| - 1];
      var last := rounds[|rounds| - 1];
      YieldedIsAccumulated(init);
      ConcatAppend(AllYields(init), Yields(last));
      ConcatAppend(Fragments(init), [Fragment(last)]);
      assert [Fragment(last)][..0] == [];
    }
  }

  lemma {:induction false} FragmentsAt(rounds: seq<seq<Option<string>>>, k: nat)
    requires k < |rounds|
    ensures Fragments(rounds)[k] == Fragment(rounds[k])
    decreases |rounds|
  {
    if k < |rounds| - 1 {
      FragmentsAt(rounds[..|rounds| - 1], k);
    }
  }

  /** The rounds the generator runs when it is consumed to the end: up to and including
      the first round whose fragment holds the marker. */
  predicate SomeRoundStops(rounds: seq<seq<Option<string>>>, stop: string)
  {
    exists k :: 0 <= k < |rounds| && Contains(Fragment(rounds[k]), stop)
  }

  function RoundsRun(rounds: seq<seq<Option<string>>>, stop: string): (n: nat)
    requires SomeRoundStops(rounds, stop)
    ensures 0 < n <= |rounds|
  {
    var fs := Fragments(rounds);
    FragmentsAll(rounds);
    FirstStop(fs, stop) + 1
  }

  /** The last round run is the first whose fragment holds the marker. */
  lemma RoundsRunFirst(rounds: seq<seq<Option<string>>>, stop: string)
    requires SomeRoundStops(rounds, stop)
    ensures var n := RoundsRun(rounds, stop);
            && Contains(Fragment(rounds[n - 1]), stop)
            && forall k :: 0 <= k < n - 1 ==> !Contains(Fragment(rounds[k]), stop)
  {
    FragmentsAll(rounds);
  }

  lemma FragmentsAll(rounds: seq<seq<Option<string>>>)
    ensures forall j :: 0 <= j < |rounds| ==> Fragments(rounds)[j] == Fragment(rounds[j])
  {
    forall j | 0 <= j < |rounds| ensures Fragments(rounds)[j] == Fragment(rounds[j]) {
      FragmentsAt(rounds, j);
    }
  }

  lemma {:induction false} FragmentsPrefix(rounds: seq<seq<Option<string>>>, k: nat)
    requires k <= |rounds|
    ensures Fragments(rounds)[..k] == Fragments(rounds[..k])
    decreases |rounds|
  {
    if k < |rounds| {
      FragmentsPrefix(rounds[..|rounds| - 1], k);
      assert rounds[..|rounds| - 1][..k] == rounds[..k];
    } else {
      assert rounds[..k] == rounds;
    }
  }

  /** What one more round adds to each piece of the driver's state. */
  lemma RoundFacts(initial: seq<Message>, prompt: string, rounds: seq<seq<Option<string>>>,
                   stop: string, r: nat, fs: seq<string>)
    requires |initial| > 0
    requires SomeRoundStops(rounds, stop)
    requires r < RoundsRun(rounds, stop)
    requires fs == Fragments(rounds[..r])
    ensures var f := Fragment(rounds[r]);
            && Fragments(rounds[..r + 1]) == fs + [f]
            && AllYields(rounds[..r + 1]) == AllYields(rounds[..r]) + Yields(rounds[r])
            && Concat(fs + [f]) == Concat(fs) + f
            && Transcript(prompt, fs + [f]) == Transcript(prompt, fs) + TranscriptLine(f)
            && Sent(initial, prompt, fs + [f]) == Sent(initial, prompt, fs) + [WithLastContent(initial, Transcript(prompt, fs))]
            && (Contains(f, stop) <==> r == RoundsRun(rounds, stop) - 1)
  {
    var f := Fragment(rounds[r]);
    RoundStep(rounds, r);
    AppendStep(initial, prompt, fs, f);
    StopDecision(rounds, stop, r);
  }

  lemma RoundStep(rounds: seq<seq<Option<string>>>, r: nat)
    requires r < |rounds|
    ensures Fragments(rounds[..r + 1]) == Fragments(rounds[..r]) + [Fragment(rounds[r])]
    ensures AllYields(rounds[..r + 1]) == AllYields(rounds[..r]) + Yields(rounds[r])
  {
    assert rounds[..r + 1][..r] == rounds[..r];
  }

  lemma AppendStep(initial: seq<Message>, prompt: string, fs: seq<string>, f: string)
    requires |initial| > 0
    ensures Concat(fs + [f]) == Concat(fs) + f
    ensures Transcript(prompt, fs + [f]) == Transcript(prompt, fs) + TranscriptLine(f)
    ensures Sent(initial, prompt, fs + [f]) == Sent(initial, prompt, fs) + [WithLastContent(initial, Transcript(prompt, fs))]
  {
    assert (fs + [f])[..|fs|] == fs;
  }

  lemma StopDecision(rounds: seq<seq<Option<string>>>, stop: string, r: nat)
    requires SomeRoundStops(rounds, stop)
    requires r < RoundsRun(rounds, stop)
    ensures Contains(Fragment(rounds[r]), stop) <==> r == RoundsRun(rounds, stop) - 1
  {
    RoundsRunFirst(rounds, stop);
  }

  /** The inner `for chunk in response` loop of one round: the chunks yielded to the
      consumer and the round's fragment built from them. */
  method ReceiveRound(deltas: seq<Option<string>>) returns (chunks: seq<string>, current: string)
    ensures chunks == Yields(deltas)
    ensures current == Concat(chunks) == Joined(deltas)
  {
    chunks := [];
    current := "";
    for j := 0 to |deltas|
      invariant chunks == Yields(deltas[..j])
      invariant current == Concat(chunks)
    {
      assert deltas[..j + 1][..j] == deltas[..j];
      var value := deltas[j];
      if value.Some? && value.value != "" {
        ConcatAppend(chunks, [value.value]);
        assert [value.value][..0] == [];
        chunks := chunks + [value.value];
        current := current + value.value;
      }
    }
    assert deltas[..|deltas|] == deltas;
    YieldsJoinDeltas(deltas);
  }

  /** `call_gpt_stream` consumed to the end, with the transport replaced by the deltas
      each round delivers. Returns the chunks it yields; `accumulated` is the generator's
      own running text, which it keeps to itself. */
  method CallGptStream(messages: array<Message>, rounds: seq<seq<Option<string>>>, stop: string)
    returns (yielded: seq<string>, accumulated: string, requests: seq<seq<Message>>)
    requires messages.Length > 0
    requires SomeRoundStops(rounds, stop)
    modifies messages
    ensures var n := RoundsRun(rounds, stop);
            && yielded == AllYields(rounds[..n])
            && accumulated == Concat(Fragments(rounds[..n]))
            && |requests| == n
            && (forall k :: 0 <= k < n ==>
                  requests[k] == WithLastContent(old(messages[..]),
                    Transcript(old(messages[messages.Length - 1].content), Fragments(rounds[..k]))))
            && messages[..] == WithLastContent(old(messages[..]),
                 Transcript(old(messages[messages.Length - 1].content), Fragments(rounds[..n])))
    ensures Concat(yielded) == accumulated
  {
    ghost var initial := messages[..];
    ghost var n := RoundsRun(rounds, stop);
    ghost var fs: seq<string> := [];
    var prompt := messages[messages.Length - 1].content;
    accumulated := "";
    var ongoing := true;
    var conversation := prompt;
    var r := 0;
    yielded := [];
    requests := [];
    while ongoing
      invariant ongoing ==> r < n
      invariant !ongoing ==> r == n
      invariant fs == Fragments(rounds[..r])
      invariant yielded == AllYields(rounds[..r])
      invariant accumulated == Concat(fs)
      invariant conversation == Transcript(prompt, fs)
      invariant messages[..] == WithLastContent(initial, conversation)
      invariant |requests| == r
      invariant requests == Sent(initial, prompt, fs)
      decreases |rounds| - r
    {
      requests := requests + [messages[..]];
      var chunks, current := ReceiveRound(rounds[r]);
      yielded := yielded + chunks;
      RoundFacts(initial, prompt, rounds, stop, r, fs);
      var next := Accumulate(current, accumulated, ongoing, conversation, stop);
      WithLastContentTwice(initial, conversation, next.conversation);
      accumulated, ongoing, conversation := next.accumulated, next.ongoing, next.conversation;
      SetLastContent(messages, conversation);
      fs := fs + [current];
      r := r + 1;
    }
    SentRounds(initial, prompt, rounds, n);
    YieldedIsAccumulated(rounds[..n]);
  }

  /** The request sent before round `k` carries the transcript of the rounds before it. */
  lemma SentRounds(initial: seq<Message>, prompt: string, rounds: seq<seq<Option<string>>>, n: nat)
    requires |initial| > 0
    requires n <= |rounds|
    ensures forall k :: 0 <= k < n ==>
              Sent(initial, prompt, Fragments(rounds[..n]))[k]
                == WithLastContent(initial, Transcript(prompt, Fragments(rounds[..k])))
  {
    var fs := Fragments(rounds[..n]);
    forall k | 0 <= k < n
      ensures Sent(initial, prompt, fs)[k] == WithLastContent(initial, Transcript(prompt, Fragments(rounds[..k])))
    {
      SentAt(initial, prompt, fs, k);
      FragmentsPrefix(rounds[..n], k);
      assert rounds[..n][..k] == rounds[..k];
    }
  }
}
