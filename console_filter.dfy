/** The consumer loop of `generate_long_response` in streaming mode: it prints the chunks
    the streaming driver yields, holding back chunks that contain a double dagger. The
    loop counts dagger-bearing CHUNKS, not daggers; a dagger-free chunk is printed after
    one dagger per chunk held back; the fifth held-back chunk in a row ends the loop. It
    looks for the double dagger itself and never at the driver's stop marker. */
module ConsoleFilter {

  import opened Text

  const Dagger: char := '‡'

  /** The counter value at which the loop breaks. */
  const StopCount: nat := 5

  /** The loop's variables: the counter, the text printed so far, and whether it broke. */
  datatype FilterState = FilterState(count: nat, printed: string, stopped: bool)

  const Start: FilterState := FilterState(0, "", false)

  /** One pass of the loop body over `chunk`. */
  function Step(st: FilterState, chunk: string): FilterState
  {
    if st.stopped || chunk == "" then st
    else if Dagger in chunk then FilterState(st.count + 1, st.printed, st.count + 1 == StopCount)
    else FilterState(0, st.printed + Repeat(Dagger, st.count) + chunk, false)
  }

  /** The loop's state after it has been offered `chunks`, in order. */
  function Run(chunks: seq<string>): FilterState
  {
    if chunks == [] then Start else Step(Run(chunks[..|chunks| - 1]), chunks[|chunks| - 1])
  }

  /** The number of non-empty dagger-bearing chunks since the last non-empty dagger-free
      one. */
  function PendingDaggers(chunks: seq<string>): nat
  {
    if chunks == [] then 0
    else
      var c := chunks[|chunks| - 1];
      var p := PendingDaggers(chunks[..|chunks| - 1]);
      if c == "" then p else if Dagger in c then p + 1 else 0
  }

  /** One pass of the loop body, on a chunk the loop has just pulled: returns the new
      counter, the text printed so far, and whether the loop breaks. */
  method Consume(count: nat, printed: string, chunk: string)
    returns (count': nat, printed': string, breaks: bool)
    ensures FilterState(count', printed', breaks) == Step(FilterState(count, printed, false), chunk)
  {
    count', printed', breaks := count, printed, false;
    if chunk != "" {
      if Dagger in chunk {
        count' := count + 1;
        if count' == StopCount {
          breaks := true;
        }
      } else {
        printed' := printed + Repeat(Dagger, count) + chunk;
        count' := 0;
      }
    }
  }

  /** The consumer loop over the chunks it is offered. Returns what it prints and how many
      chunks it pulls: all of them, unless the loop breaks, which it does on the first
      chunk at which it has held back five dagger-bearing chunks in a row. */
  method PrintStream(chunks: seq<string>) returns (printed: string, pulled: nat)
    ensures pulled <= |chunks|
    ensures printed == Run(chunks).printed
    ensures pulled < |chunks| ==> Run(chunks[..pulled]).stopped
    ensures forall k :: 0 <= k < pulled ==> !Run(chunks[..k]).stopped
  {
    var count := 0;
    printed := "";
    pulled := 0;
    while pulled < |chunks|
      invariant pulled <= |chunks|
      invariant Run(chunks[..pulled]) == FilterState(count, printed, false)
      invariant forall k :: 0 <= k < pulled ==> !Run(chunks[..k]).stopped
    {
      var chunk := chunks[pulled];
      assert chunks[..pulled + 1][..pulled] == chunks[..pulled];
      pulled := pulled + 1;
      var breaks;
      count, printed, breaks := Consume(count, printed, chunk);
      if breaks {
        break;
      }
    }
    StoppedAbsorbs(chunks[..pulled], chunks[pulled..]);
    assert chunks[..pulled] + chunks[pulled..] == chunks;
  }

  /** Once the loop has broken, no later chunk changes anything: nothing after the fifth
      held-back chunk is printed. */
  lemma {:induction false} StoppedAbsorbs(a: seq<string>, b: seq<string>)
    requires Run(a).stopped || b == []
    ensures Run(a + b) == Run(a)
    decreases |b|
  {
    if b == [] {
      assert a + b == a;
    } else {
      StoppedAbsorbs(a, b[..|b| - 1]);
      assert (a + b)[..|a + b| - 1] == a + b[..|b| - 1];
    }
  }

  /** Once the loop has broken, handing it any continuation of the chunks it was offered
      leaves it where it stopped. */
  lemma StoppedPrefix(pulled: seq<string>, all: seq<string>)
    requires pulled <= all && Run(pulled).stopped
    ensures Run(all) == Run(pulled)
  {
    StoppedAbsorbs(pulled, all[|pulled|..]);
    assert pulled + all[|pulled|..] == all;
  }

  /** A broken loop stays broken whatever it is offered next. */
  lemma {:induction false} StoppedPersists(a: seq<string>, b: seq<string>)
    ensures Run(a).stopped ==> Run(a + b).stopped
    decreases |b|
  {
    if b != [] {
      StoppedPersists(a, b[..|b| - 1]);
      assert (a + b)[..|a + b| - 1] == a + b[..|b| - 1];
    } else {
      assert a + b == a;
    }
  }

  /** If the loop was still running after all but the last of the chunks it pulled, it
      was running before every one of them: the last chunk is the first at which it broke. */
  lemma FirstBreakIsLast(prior: seq<string>, chunks: seq<string>)
    requires prior <= chunks && |chunks| == |prior| + 1 && !Run(prior).stopped
    ensures forall k :: 0 <= k < |chunks| ==> !Run(chunks[..k]).stopped
  {
    forall k | 0 <= k < |chunks|
      ensures !Run(chunks[..k]).stopped
    {
      StoppedPersists(prior[..k], prior[k..]);
      assert prior[..k] + prior[k..] == prior;
      assert prior[..k] == chunks[..k];
    }
  }

  /** Printing only ever appends. */
  lemma {:induction false} PrintedGrows(a: seq<string>, b: seq<string>)
    ensures Run(a).printed <= Run(a + b).printed
    decreases |b|
  {
    if b == [] {
      assert a + b == a;
    } else {
      PrintedGrows(a, b[..|b| - 1]);
      assert (a + b)[..|a + b| - 1] == a + b[..|b| - 1];
    }
  }

  /** While the loop runs, its counter is the number of dagger-bearing chunks held back
      since the last printed chunk, and stays below five; once it has broken the counter
      is five. */
  lemma {:induction false} CountIsPending(chunks: seq<string>)
    ensures !Run(chunks).stopped ==> Run(chunks).count == PendingDaggers(chunks) < StopCount
    ensures Run(chunks).stopped ==> Run(chunks).count == StopCount
    decreases |chunks|
  {
    if chunks != [] {
      CountIsPending(chunks[..|chunks| - 1]);
    }
  }

  /** The loop has broken exactly when some prefix of the chunks ends with five
      dagger-bearing chunks held back. */
  lemma {:induction false} StopsAtFifth(chunks: seq<string>)
    ensures Run(chunks).stopped <==>
            exists k :: 0 <= k <= |chunks| && PendingDaggers(chunks[..k]) == StopCount
    decreases |chunks|
  {
    if chunks == [] {
      assert forall k :: 0 <= k <= |chunks| ==> chunks[..k] == [];
    } else {
      var init := chunks[..|chunks| - 1];
      StopsAtFifth(init);
      CountIsPending(init);
      assert forall k :: 0 <= k <= |init| ==> init[..k] == chunks[..k];
      assert chunks[..|chunks|] == chunks;
      if Run(init).stopped {
        var k :| 0 <= k <= |init| && PendingDaggers(init[..k]) == StopCount;
        assert PendingDaggers(chunks[..k]) == StopCount;
      } else {
        assert forall k :: 0 <= k <= |init| ==> PendingDaggers(chunks[..k]) != StopCount;
      }
    }
  }

  /** A printed segment is a dagger-free chunk after as many daggers as there are
      dagger-bearing chunks held back, at most four. */
  lemma PrintedSegment(chunks: seq<string>, c: string)
    requires !Run(chunks).stopped && c != "" && Dagger !in c
    ensures PendingDaggers(chunks) < StopCount
    ensures Run(chunks + [c]).printed == Run(chunks).printed + Repeat(Dagger, PendingDaggers(chunks)) + c
  {
    CountIsPending(chunks);
    assert (chunks + [c])[..|chunks|] == chunks;
  }

  /** A chunk holding a double dagger anywhere is not printed, so its other text is lost,
      and a held-back run is not printed when the stream ends after it. */
  lemma DaggerChunkHidden(chunks: seq<string>, c: string)
    requires Dagger in c
    ensures Run(chunks + [c]).printed == Run(chunks).printed
  {
    assert (chunks + [c])[..|chunks|] == chunks;
  }

  /** Two and one daggers held back count as two chunks: "‡‡X" is printed, not "‡‡‡X". */
  lemma FalseAlarmExample()
    ensures Run(["‡‡", "‡", "X"]).printed == "‡‡X"
  {
    var cs := ["‡‡", "‡", "X"];
    assert cs[..2] == ["‡‡", "‡"] && cs[..2][..1] == ["‡‡"] && cs[..2][..1][..0] == [];
    assert "‡‡"[0] == Dagger && "‡"[0] == Dagger;
    assert Run(["‡‡"]) == FilterState(1, "", false);
    assert Run(["‡‡", "‡"]) == FilterState(2, "", false);
    assert Dagger !in "X";
    assert Repeat(Dagger, 2) == "‡‡";
  }

  /** Five daggers spread over two chunks do not end the loop: "‡‡tail" is printed. */
  lemma SplitMarkerExample()
    ensures Run(["‡‡‡", "‡‡", "tail"]).printed == "‡‡tail"
  {
    var cs := ["‡‡‡", "‡‡", "tail"];
    assert cs[..2] == ["‡‡‡", "‡‡"] && cs[..2][..1] == ["‡‡‡"] && cs[..2][..1][..0] == [];
    assert "‡‡‡"[0] == Dagger && "‡‡"[0] == Dagger;
    assert Run(["‡‡‡"]) == FilterState(1, "", false);
    assert Run(["‡‡‡", "‡‡"]) == FilterState(2, "", false);
    assert Dagger !in "tail";
    assert Repeat(Dagger, 2) == "‡‡";
  }

  /** Five dagger-bearing chunks in a row end the loop, and the chunk after them is not
      printed. */
  lemma FiveChunksExample()
    ensures Run(["a", "‡", "‡", "‡", "‡", "‡"]).stopped
    ensures Run(["a", "‡", "‡", "‡", "‡", "‡", "b"]).printed == "a"
  {
    var cs := ["a", "‡", "‡", "‡", "‡", "‡"];
    assert cs[..5] == ["a", "‡", "‡", "‡", "‡"];
    assert cs[..5][..4] == ["a", "‡", "‡", "‡"];
    assert cs[..5][..4][..3] == ["a", "‡", "‡"];
    assert cs[..5][..4][..3][..2] == ["a", "‡"];
    assert cs[..5][..4][..3][..2][..1] == ["a"];
    assert cs[..5][..4][..3][..2][..1][..0] == [];
    assert Dagger !in "a" && "‡"[0] == Dagger;
    assert Run(["a"]) == FilterState(0, "a", false);
    assert Run(["a", "‡"]) == FilterState(1, "a", false);
    assert Run(["a", "‡", "‡"]) == FilterState(2, "a", false);
    assert Run(["a", "‡", "‡", "‡"]) == FilterState(3, "a", false);
    assert Run(["a", "‡", "‡", "‡", "‡"]) == FilterState(4, "a", false);
    assert Run(cs) == FilterState(5, "a", true);
    StoppedAbsorbs(cs, ["b"]);
    assert cs + ["b"] == ["a", "‡", "‡", "‡", "‡", "‡", "b"];
  }
}
