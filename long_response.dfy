/** `generate_long_response`: builds the two opening messages and runs one of the drivers.
    In streaming mode the console loop pulls the streaming driver's chunks one at a time;
    a chunk is pulled only when the loop asks for the next one, and when the loop breaks
    the driver is abandoned at the `yield` where it stood, so the round in progress is
    never handed to `accumulate_response` and its last message is not rewritten. */
module LongResponse {

  import opened Text
  import opened Wrappers
  import opened Messages
  import opened Accumulator
  import opened Buffered
  import opened Streaming
  import opened ConsoleFilter

  /** The chunks a round yields before any given point are a prefix of all it yields. */
  lemma {:induction false} YieldsPrefix(deltas: seq<Option<string>>, j: nat)
    requires j <= |deltas|
    ensures Yields(deltas[..j]) <= Yields(deltas)
    decreases |deltas|
  {
    if j < |deltas| {
      var init := deltas[..|deltas| - 1];
      YieldsPrefix(init, j);
      assert init[..j] == deltas[..j];
    } else {
      assert deltas[..j] == deltas;
    }
  }

  /** What the first `a` rounds yield is a prefix of what the first `b` rounds yield. */
  lemma {:induction false} AllYieldsPrefix(rounds: seq<seq<Option<string>>>, a: nat, b: nat)
    requires a <= b <= |rounds|
    ensures AllYields(rounds[..a]) <= AllYields(rounds[..b])
    decreases b
  {
    if a < b {
      AllYieldsPrefix(rounds, a, b - 1);
      assert rounds[..b][..b - 1] == rounds[..b - 1];
    }
  }

  /** One round of the streaming driver with the console loop pulling its chunks: each
      non-empty delta is yielded, then the console loop takes it, and only when the loop
      asks for more is it added to the round's fragment. `before` is everything pulled in
      earlier rounds and the loop stands at `count` and `printed`. */
  method ReceiveAndPrint(deltas: seq<Option<string>>, before: seq<string>, count0: nat, printed0: string)
    returns (chunks: seq<string>, current: string, count: nat, printed: string, stopped: bool,
             ghost prior: seq<string>)
    requires Run(before) == FilterState(count0, printed0, false)
    ensures chunks <= Yields(deltas)
    ensures Run(before + chunks) == FilterState(count, printed, stopped)
    ensures !stopped ==> chunks == Yields(deltas) && current == Fragment(deltas)
    ensures stopped ==> chunks != []
    ensures stopped ==> prior <= chunks && |chunks| == |prior| + 1 && !Run(before + prior).stopped
  {
    chunks := [];
    current := "";
    count := count0;
    printed := printed0;
    stopped := false;
    prior := [];
    assert before + chunks == before;
    var j := 0;
    while j < |deltas|
      invariant j <= |deltas|
      invariant chunks == Yields(deltas[..j])
      invariant current == Concat(chunks)
      invariant Run(before + chunks) == FilterState(count, printed, false)
    {
      assert deltas[..j + 1][..j] == deltas[..j];
      var value := deltas[j];
      j := j + 1;
      if value.Some? && value.value != "" {
        var chunk := value.value;
        prior := chunks;
        chunks, count, printed, stopped := Hand(before, chunks, count, printed, chunk);
        if stopped {
          YieldsPrefix(deltas, j);
          return;
        }
        ConcatSnoc(prior, chunk);
        current := current + chunk;
      }
    }
    assert deltas[..|deltas|] == deltas;
  }

  /** `yield value` with the console loop waiting: the chunk joins what the loop has
      pulled, and the loop body runs once on it. */
  method Hand(before: seq<string>, chunks: seq<string>, count: nat, printed: string, chunk: string)
    returns (chunks': seq<string>, count': nat, printed': string, stopped: bool)
    requires Run(before + chunks) == FilterState(count, printed, false)
    ensures chunks' == chunks + [chunk] && chunks <= chunks'
    ensures Run(before + chunks') == FilterState(count', printed', stopped)
  {
    assert (before + (chunks + [chunk]))[..|before + chunks|] == before + chunks;
    chunks' := chunks + [chunk];
    count', printed', stopped := Consume(count, printed, chunk);
  }

  /** One more chunk is one more piece of the round's fragment. */
  lemma ConcatSnoc(chunks: seq<string>, chunk: string)
    ensures Concat(chunks + [chunk]) == Concat(chunks) + chunk
  {
    ConcatAppend(chunks, [chunk]);
    assert [chunk][..0] == [];
  }

  /** When the console loop breaks inside round `done`, what it pulled runs past the
      rounds before and stays within the rounds the driver would run. */
  lemma BreakFacts(rounds: seq<seq<Option<string>>>, stop: string, done: nat,
                   before: seq<string>, chunks: seq<string>)
    requires SomeRoundStops(rounds, stop)
    requires done < RoundsRun(rounds, stop)
    requires before == AllYields(rounds[..done])
    requires chunks <= Yields(rounds[done]) && chunks != []
    ensures var pulled := before + chunks;
            && pulled <= AllYields(rounds[..RoundsRun(rounds, stop)])
            && AllYields(rounds[..done]) < pulled <= AllYields(rounds[..done + 1])
  {
    var n := RoundsRun(rounds, stop);
    var pulled := before + chunks;
    RoundStep(rounds, done);
    PrefixAppend(before, chunks, Yields(rounds[done]));
    AllYieldsPrefix(rounds, done + 1, n);
    PrefixTrans(pulled, AllYields(rounds[..done + 1]), AllYields(rounds[..n]));
    assert pulled[..|before|] == before;
  }

  lemma PrefixAppend(x: seq<string>, a: seq<string>, b: seq<string>)
    requires a <= b
    ensures x + a <= x + b
  {
  }

  lemma PrefixTrans(a: seq<string>, b: seq<string>, c: seq<string>)
    requires a <= b && b <= c
    ensures a <= c
  {
  }

  /** Where the console loop stands once it breaks inside round `done`, having pulled
      `pulled`: everything the earlier rounds yielded and the first `|chunks|` chunks of
      round `done`. */
  lemma BreakOutcome(rounds: seq<seq<Option<string>>>, stop: string, done: nat,
                     before: seq<string>, chunks: seq<string>,
                     printed: string, pulled: seq<string>)
    requires SomeRoundStops(rounds, stop)
    requires done < RoundsRun(rounds, stop)
    requires before == AllYields(rounds[..done])
    requires chunks <= Yields(rounds[done]) && chunks != []
    requires pulled == before + chunks
    requires printed == Run(pulled).printed
    requires Run(pulled).stopped
    ensures var n := RoundsRun(rounds, stop);
            && pulled <= AllYields(rounds[..n])
            && printed == Run(AllYields(rounds[..n])).printed
            && AllYields(rounds[..done]) < pulled <= AllYields(rounds[..done + 1])
  {
    BreakFacts(rounds, stop, done, before, chunks);
    StoppedPrefix(pulled, AllYields(rounds[..RoundsRun(rounds, stop)]));
  }

  /** The streaming branch: `call_gpt_stream` over `messages`, consumed by the console loop.
      Returns what the loop prints, the chunks it pulls and the number of rounds whose
      fragment reached `accumulate_response`. The loop prints exactly what it would print
      if it were handed every chunk the driver can yield; if it breaks, that happens in
      some round before the driver's last, or in the last, and that round is not folded
      into the conversation. */
  method StreamAndPrint(messages: array<Message>, rounds: seq<seq<Option<string>>>, stop: string)
    returns (printed: string, pulled: seq<string>, broke: bool, done: nat, ghost prior: seq<string>)
    requires messages.Length > 0
    requires SomeRoundStops(rounds, stop)
    modifies messages
    ensures var n := RoundsRun(rounds, stop);
            && pulled <= AllYields(rounds[..n])
            && printed == Run(pulled).printed == Run(AllYields(rounds[..n])).printed
            && broke == Run(pulled).stopped
            && (broke ==>
                  && done < n
                  && AllYields(rounds[..done]) < pulled <= AllYields(rounds[..done + 1]))
            && (!broke ==> pulled == AllYields(rounds[..n]) && done == n)
            && (broke ==> prior <= pulled && |pulled| == |prior| + 1 && !Run(prior).stopped)
            && messages[..] == WithLastContent(old(messages[..]),
                 Transcript(old(messages[messages.Length - 1].content), Fragments(rounds[..done])))
  {
    ghost var initial := messages[..];
    ghost var n := RoundsRun(rounds, stop);
    ghost var fs: seq<string> := [];
    var prompt := messages[messages.Length - 1].content;
    var accumulated := "";
    var ongoing := true;
    var conversation := prompt;
    var count := 0;
    printed := "";
    pulled := [];
    broke := false;
    done := 0;
    prior := [];
    while ongoing
      invariant ongoing ==> done < n
      invariant !ongoing ==> done == n
      invariant fs == Fragments(rounds[..done])
      invariant pulled == AllYields(rounds[..done])
      invariant Run(pulled) == FilterState(count, printed, false)
      invariant conversation == Transcript(prompt, fs)
      invariant messages[..] == WithLastContent(initial, conversation)
      decreases |rounds| - done
    {
      var chunks, current, c, p, stopped, last := ReceiveAndPrint(rounds[done], pulled, count, printed);
      if stopped {
        ghost var before := pulled;
        PrefixAppend(before, last, chunks);
        prior := before + last;
        pulled, printed, broke := pulled + chunks, p, true;
        BreakOutcome(rounds, stop, done, before, chunks, printed, pulled);
        return;
      }
      Streaming.RoundFacts(initial, prompt, rounds, stop, done, fs);
      pulled := pulled + chunks;
      count, printed := c, p;
      var next := Accumulate(current, accumulated, ongoing, conversation, stop);
      WithLastContentTwice(initial, conversation, next.conversation);
      accumulated, ongoing, conversation := next.accumulated, next.ongoing, next.conversation;
      SetLastContent(messages, conversation);
      fs := fs + [current];
      done := done + 1;
    }
  }

  /** The opening message list: the system prompt and the user prompt, as an array. */
  method NewConversation(system: string, prompt: string) returns (messages: array<Message>)
    ensures fresh(messages)
    ensures messages[..] == InitialMessages(system, prompt)
  {
    var ms := InitialMessages(system, prompt);
    messages := new Message[|ms|](i requires 0 <= i < |ms| => ms[i]);
  }

  /** The buffered branch: the result `call_gpt` returns for the opening messages, or no
      result when a transport call fails first. */
  method GenerateBuffered(system: string, prompt: string, replies: seq<Reply>, stop: string)
    returns (result: Option<string>)
    requires exists k :: 0 <= k < |replies| && Ends(replies[k], stop)
    ensures var i := FirstEnd(replies, stop);
            && (replies[i].Raised? ==> result == None)
            && (replies[i].Delivered? ==> result == Some(CleanUp(Concat(Texts(replies[..i + 1])), stop)))
  {
    var messages := NewConversation(system, prompt);
    var requests;
    result, requests := CallGpt(messages, replies, stop);
  }

  /** The streaming branch from the opening messages: the text printed is the console
      loop's output over every chunk the driver can yield. */
  method GenerateStreamed(system: string, prompt: string, rounds: seq<seq<Option<string>>>, stop: string)
    returns (printed: string)
    requires SomeRoundStops(rounds, stop)
    ensures printed == Run(AllYields(rounds[..RoundsRun(rounds, stop)])).printed
  {
    var messages := NewConversation(system, prompt);
    var pulled, broke, done;
    ghost var prior;
    printed, pulled, broke, done, prior := StreamAndPrint(messages, rounds, stop);
  }
}
