# ROG: continuation pagination for a token-limited chat endpoint

ROG produces a response longer than one completion call
can return. It sends a two-message conversation: a system instruction and a user prompt.
It then keeps asking the model to continue until one fragment contains an agreed stop
marker (by default five double daggers, `‡‡‡‡‡`). After each round it rewrites the user
message to the original prompt followed by a transcript of every fragment so far, each
followed by an instruction to continue.

There are two drivers and one consumer:

- the buffered driver `call_gpt`: joins the fragments, removes every marker and strips
  surrounding whitespace;
- the streaming driver `call_gpt_stream`: a generator that yields every non-empty delta
  as it arrives;
- the console loop of `generate_long_response`: prints what the streaming driver yields.
  It holds back chunks that contain a double dagger and stops after five of them in a
  row.

The model has these modules:

- `Text`: Python's `in`, `str.replace(pat, "")`, `str.strip()` (over the full `isspace`
  set) and `*` on strings. `Concat` joins a sequence of strings; it stands for the
  repeated `+=` that builds `accumulated_response` (ROG.py:49) and `current_response`
  (ROG.py:145).
- `Messages`: the message records, the opening list, and the in-place rewrite of the last
  message (the list is an `array<Message>`).
- `Accumulator`: `accumulate_response`, the transcript that the rounds build up, and the
  list each round sends.
- `Buffered`: `call_gpt` as an imperative loop over a script of transport replies. A reply
  is a fragment or a raised exception.
- `Streaming`: `call_gpt_stream` consumed to the end, as an imperative loop over a script
  of rounds. Each round is a sequence of optional deltas.
- `ConsoleFilter`: the dagger-counting console loop, as a step function, its run over a
  chunk sequence, and an imperative loop proved against them.
- `LongResponse`: `generate_long_response`. In streaming mode, the console loop and the
  generator are interleaved chunk by chunk. When the loop breaks, the generator is
  abandoned in the middle of a round.

The model follows the code as written. Its comments at ROG.py:203 and ROG.py:210 speak of
tracking and detecting the stop sequence, but the loop does this:

- The console loop counts chunks that hold a double dagger, not daggers.
- Such a chunk is never printed, so the rest of its text is lost.
- Held-back daggers are never printed when the stream ends.
- The loop looks for `‡` itself and ignores the `stop_sequence` argument.
- So `["‡‡","‡","X"]` prints `‡‡X`, and `["‡‡‡","‡‡","tail"]` prints `‡‡tail`.
- `str.replace` removes markers left to right without overlap. A removal can bring a new
  occurrence together, so "no marker survives" holds only for markers that repeat one
  character, like the default.

## Model

| member | source | states |
|---|---|---|
| Messages.SystemMessage | ROG.py:2-15 | a system-role record holding exactly the given text |
| Messages.UserMessage | ROG.py:18-31 | a user-role record holding exactly the given text |
| Messages.InitialMessages | ROG.py:191-194 | the opening list has two messages: the system instruction first, the user prompt last |
| Messages.WithLastContent | ROG.py:98-98 | after `messages[-1]['content'] = c` the list keeps its length, every earlier message and the last role; only the last content becomes `c` |
| Messages.SetLastContent | ROG.py:153-153 | the in-place rewrite of the last message's content leaves the array equal to `WithLastContent` of its old contents |
| Accumulator.Accumulate | ROG.py:34-58 | the fragment is appended verbatim; the flag is false exactly when the marker occurs in this fragment, and otherwise keeps its input value; the conversation always gains the assistant/continue line |
| Accumulator.FlagIgnoresHistory | ROG.py:52-53 | the flag does not depend on the accumulated text or the conversation |
| Accumulator.EarlierMarkerIgnored | ROG.py:51-53 | a marker already in the accumulated text does not stop a round whose fragment lacks it |
| Accumulator.EmptyMarkerStops | ROG.py:52-53 | with an empty marker every round clears the flag |
| Accumulator.TranscriptLine | ROG.py:56-56 | definition, no contract: the assistant tag, the fragment and the continuation directive; `TranscriptLineMarks` and `Accumulate` state its use |
| Accumulator.Transcript | ROG.py:85-98 | definition, no contract: the prompt followed by one transcript line per round; `TranscriptSplit`, `SentAll` and the drivers' contracts state its properties |
| Accumulator.TranscriptLineMarks | ROG.py:56-56 | the rewritten conversation contains the assistant tag and the continuation directive |
| Accumulator.TranscriptSplit | ROG.py:85-98 | replaying rounds in two batches gives the same transcript as one batch: the transcript after the first batch is the prompt of the second |
| Accumulator.FirstStop | ROG.py:87-95 | the round that ends the loop is the first whose fragment holds the marker; no earlier fragment holds it |
| Accumulator.Sent | ROG.py:77-98 | definition, with a length-only contract (one request per round): the list each transport call sends through the aliased `api_settings["messages"]`; `SentAt` and `SentAll` state each request's contents |
| Accumulator.SentAll | ROG.py:85-98 | the list sent in round k has, as its last content, the prompt followed by one transcript line for each of the k earlier rounds, in order |
| Text.Concat | ROG.py:49-49 | definition, no contract: the strings appended one after another with `+=` from the empty string, as `accumulated_response` and `current_response` (ROG.py:145) are built; `ConcatAppend` states that joining splits over concatenation |
| Text.RemoveAll | ROG.py:105-105 | definition, no contract: left-to-right removal of non-overlapping occurrences, and the identity for an empty pattern; `RemoveAllAbsent`, `RemoveRunLeavesNone` and `RemoveMayLeaveMarker` state its properties |
| Text.IsSpace | ROG.py:105-106 | definition, no contract: the characters for which Python's `str.isspace` is true, the set that `strip()` removes; `Strip` is stated over it |
| Text.Contains | ROG.py:52-52 | `pat in s` holds exactly when `pat` occurs in `s` at some position |
| Text.Repeat | ROG.py:214-214 | `"‡" * n` has length n and consists only of that character |
| Text.TrimStart | ROG.py:105-105 | the result is a suffix of the input after a run of whitespace, and does not start with whitespace |
| Text.TrimEnd | ROG.py:105-105 | the result is a prefix of the input before a run of whitespace, and does not end with whitespace |
| Text.Strip | ROG.py:105-106 | the result has no whitespace at either end and is the input cut between two runs of whitespace |
| Text.StripIdempotent | ROG.py:105-106 | stripping twice is stripping once, so the second `.strip()` changes nothing |
| Text.StripKeepsAbsence | ROG.py:105-106 | stripping cannot create a marker occurrence |
| Text.RemoveAllAbsent | ROG.py:105-105 | replacing an absent marker leaves the text unchanged |
| Text.RemoveRunLeavesNone | ROG.py:105-105 | after removing every run of m copies of one character, no such run remains |
| Text.RemoveMayLeaveMarker | ROG.py:105-105 | for a general marker the removal can leave an occurrence: "aabb" without "ab" is "ab" |
| Buffered.Texts | ROG.py:87-95 | the fragments read from a run of replies, one for each reply, in order |
| Buffered.FirstEnd | ROG.py:87-102 | the reply that ends the loop is the first one that fails or holds the marker |
| Buffered.CleanUp | ROG.py:104-106 | definition, no contract: every marker removed, then stripped twice; `CleanUpTrimmed`, `CleanUpRemovesDefaultMarker` and `CleanUpKeepsPlainText` state its properties |
| Buffered.CleanUpTrimmed | ROG.py:104-106 | the result has no surrounding whitespace and equals a single strip of the marker-free text |
| Buffered.CleanUpRemovesDefaultMarker | ROG.py:104-106 | with the default marker `‡‡‡‡‡` no marker occurrence survives in the result |
| Buffered.CleanUpKeepsPlainText | ROG.py:104-106 | a text with no marker and no surrounding whitespace comes back unchanged |
| Buffered.CallGpt | ROG.py:61-106 | makes exactly 1+i transport calls, where i is the first reply that ends the loop; call k sends the list whose last content is the prompt plus the transcript of the k earlier fragments; on a failure the result is absent and the list holds the transcript of the rounds before it; otherwise the result is the joined fragments 0..i with markers removed and stripped, and the list holds all i+1 transcript lines |
| Buffered.ThreeRoundScenario | ROG.py:83-106 | replies " a", "b", "c‡‡‡‡‡\n" end at the third call and give "abc" |
| Streaming.Yields | ROG.py:141-144 | definition, no contract: the present, non-empty deltas of one round, in order; `YieldsNonEmpty`, `YieldsJoinDeltas` and `ReceiveRound` state its properties |
| Streaming.Fragment | ROG.py:139-145 | definition, no contract: the round's yielded chunks concatenated; `ReceiveRound` and `YieldedIsAccumulated` state its properties |
| Streaming.Fragments | ROG.py:139-145 | definition, with a length-only contract (one fragment per round): each round's `current_response`, in order; `FragmentsPrefix` and `FragmentsAll` state its properties |
| Streaming.AllYields | ROG.py:136-144 | definition, no contract: everything the generator yields over a run of rounds, in arrival order; `YieldedIsAccumulated` and `AllYieldsPrefix` state its properties |
| Streaming.YieldsNonEmpty | ROG.py:141-144 | every yielded chunk is non-empty, and a round yields no more chunks than it has deltas |
| Streaming.YieldsJoinDeltas | ROG.py:141-145 | the yielded chunks joined equal all the deltas' texts joined: only absent or empty deltas are skipped |
| Streaming.ReceiveRound | ROG.py:139-145 | the inner loop yields exactly the present, non-empty deltas in arrival order, and the round's fragment is their concatenation |
| Streaming.YieldedIsAccumulated | ROG.py:141-150 | everything yielded over a run of rounds, joined, equals the fragments handed to the accumulator, joined |
| Streaming.RoundsRun | ROG.py:136-150 | when some round's fragment holds the marker, the number of rounds run is between 1 and the number of rounds |
| Streaming.RoundsRunFirst | ROG.py:136-150 | the last round run is the first whose fragment holds the marker |
| Streaming.FragmentsPrefix | ROG.py:145-150 | the fragments of the first k rounds are the first k fragments |
| Streaming.SentRounds | ROG.py:148-153 | the list sent before streaming round k carries the prompt plus the transcript of the k earlier rounds |
| Streaming.CallGptStream | ROG.py:109-157 | consumed to the end, it yields everything each round yields up to the first round that holds the marker; the accumulated text is their concatenation; each request carries the transcript of the rounds before it, and the list ends with all of them |
| ConsoleFilter.Step | ROG.py:206-215 | definition, no contract: one pass of the loop body over a chunk; `Consume` is proved equal to it, and `PrintedSegment` and `DaggerChunkHidden` state its effect |
| ConsoleFilter.Run | ROG.py:203-215 | definition, no contract: the loop's state after being offered a sequence of chunks; `PrintStream` is proved against it, and `CountIsPending`, `StopsAtFifth` and `StoppedAbsorbs` state its properties |
| ConsoleFilter.Consume | ROG.py:206-215 | one pass of the loop body is one `Step`: a dagger-bearing chunk adds one to the counter and breaks at five; a dagger-free chunk prints the held-back daggers and itself and resets the counter; an empty chunk changes nothing |
| ConsoleFilter.PrintStream | ROG.py:203-215 | prints what `Run` prints over all the chunks, and pulls chunks only up to the one at which the loop first breaks |
| ConsoleFilter.StoppedAbsorbs | ROG.py:210-211 | once the loop has broken, later chunks change nothing |
| ConsoleFilter.StoppedPrefix | ROG.py:210-211 | once the loop breaks on a prefix, the outcome over any continuation is the same |
| ConsoleFilter.StoppedPersists | ROG.py:210-211 | a loop that has broken stays broken whatever it is offered next |
| ConsoleFilter.FirstBreakIsLast | ROG.py:210-211 | if the loop was still running after all but the last chunk it pulled, then no earlier prefix broke it: it broke at the first chunk that stops it |
| ConsoleFilter.PrintedGrows | ROG.py:214-214 | printing only appends |
| ConsoleFilter.CountIsPending | ROG.py:203-215 | while running, the counter equals the number of dagger-bearing chunks since the last printed chunk and is below five; after a break it is five |
| ConsoleFilter.StopsAtFifth | ROG.py:208-211 | the loop has broken exactly when some prefix ends with five dagger-bearing chunks held back |
| ConsoleFilter.PrintedSegment | ROG.py:212-215 | each printed segment is k daggers, with k between 0 and 4, followed by a dagger-free chunk, where k is the number of chunks held back |
| ConsoleFilter.DaggerChunkHidden | ROG.py:208-209 | a chunk holding a double dagger anywhere prints nothing, and its other text is lost |
| ConsoleFilter.FalseAlarmExample | ROG.py:203-215 | `["‡‡","‡","X"]` prints `‡‡X` |
| ConsoleFilter.SplitMarkerExample | ROG.py:203-215 | `["‡‡‡","‡‡","tail"]` prints `‡‡tail` |
| ConsoleFilter.FiveChunksExample | ROG.py:203-215 | five dagger-bearing chunks in a row break the loop, and nothing after them is printed |
| LongResponse.YieldsPrefix | ROG.py:141-144 | the chunks yielded before any point of a round are a prefix of all it yields |
| LongResponse.AllYieldsPrefix | ROG.py:136-144 | what the first a rounds yield is a prefix of what the first b rounds yield |
| LongResponse.Hand | ROG.py:144-144 | `yield value` to the waiting console loop: the chunk is appended to what the loop has pulled, and the loop's state is `Run` over the longer sequence |
| LongResponse.ReceiveAndPrint | ROG.py:141-145 | one round with the console loop pulling its chunks: the loop sees a prefix of the round's chunks and ends in the state `Run` gives; unless it breaks, it sees them all and the fragment is the round's `Fragment`; if it breaks, it was still running before the last chunk it pulled, so no later chunk is pulled |
| LongResponse.BreakOutcome | ROG.py:205-211 | when the loop breaks in round `done`, it has pulled past all earlier rounds and no further than the end of that round, and it prints what it would print over every chunk the driver can yield |
| LongResponse.StreamAndPrint | ROG.py:203-215 | the console loop over the generator prints what it would print over every chunk the rounds up to the first marker yield; it pulls a prefix of them; if it breaks in round `done`, it was still running before the last chunk it pulled (so by `FirstBreakIsLast` it broke at the first chunk that stops it), that round is never accumulated and the list holds only the transcript of the rounds before it; if it does not break, it pulls every chunk |
| LongResponse.NewConversation | ROG.py:191-194 | a fresh array holding the opening list |
| LongResponse.GenerateBuffered | ROG.py:196-199 | the buffered branch's result: absent when the ending reply failed, else the cleaned join of the fragments up to the first marker |
| LongResponse.GenerateStreamed | ROG.py:201-215 | the streaming branch prints the console loop's output over everything the generator can yield up to the first marker round |

## Left out

- The OpenAI client: `client.chat.completions.create` and the extraction of `choices[0]` content or deltas are foreign calls. They become scripts: a sequence of replies for the buffered driver, and a sequence of rounds of optional deltas for the streaming driver. The model, the token limit and the penalty settings are not modelled.
- The real loops are unbounded. Each driver requires a script in which some entry ends the run. For the buffered driver that entry is a failure or a fragment with the marker; for the streaming driver it is a round whose fragment holds the marker.
- In streaming mode the program can also end through the console loop's `break` alone, with no round's fragment ever holding the marker. `LongResponse.StreamAndPrint` and `LongResponse.GenerateStreamed` still require a marker round in the script. They cover such runs only because the rounds after the breaking one are never reached, so a marker round can be appended to the script after it without changing the outcome.
- Exception printing and re-raising: a failing buffered call is `Raised` and gives no result, after the rounds before it have rewritten the list. Failures in the middle of a stream are not modelled.
- `print`: the printed text is a returned string.
- The system-prompt text and the demo user prompt are configuration. They are parameters.
- The `__main__` entry point and the API key are not modelled.
- Python dictionaries and their aliasing: a message is a value, and the list is an array whose last element is replaced. Aliasing between `api_settings["messages"]` and the caller's list is captured only by recording the array's contents at each transport call.
- Generator laziness: `call_gpt_stream` consumed to the end is `Streaming.CallGptStream`. Consumption interleaved with the console loop is `LongResponse.StreamAndPrint`, which pulls one chunk at a time and abandons the round when the loop breaks.
- The drivers require a non-empty message list (`messages[-1]` fails on an empty one, which the source never passes).
- Streaming.CallGptStream: does not model the round in progress when the consumer stops early; that is `LongResponse.StreamAndPrint`.
