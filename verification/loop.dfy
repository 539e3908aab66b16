/**
  The read-evaluate loop of the application, for any loop body: the body
  maps the current state and one line to a reply, the next state and
  whether the loop goes on. The loop stops after the first reply that
  ends it, or when the lines run out.
 */
module Loop {
  /** What one pass through the loop body produces. */
  datatype Turn<R, S> = Turn(reply: R, state: S, running: bool)

  /** The replies of a run of the loop, the state it ends in, and whether it is still running. */
  datatype Trace<R, S> = Trace(replies: seq<R>, state: S, running: bool)

  /** Feeds the lines to the loop body until it stops or the lines run out. */
  function Drive<I, R, S>(body: (S, I) -> Turn<R, S>, state: S, inputs: seq<I>): (t: Trace<R, S>)
    ensures |t.replies| <= |inputs|
    ensures t.running ==> |t.replies| == |inputs|
    ensures |inputs| == 0 ==> t == Trace([], state, true)
    decreases |inputs|
  {
    if |inputs| == 0 then Trace([], state, true)
    else
      var turn := body(state, inputs[0]);
      if !turn.running then Trace([turn.reply], turn.state, false)
      else
        var rest := Drive(body, turn.state, inputs[1..]);
        Trace([turn.reply] + rest.replies, rest.state, rest.running)
  }

  /** The state after the first `n` lines, each handled by one pass through the body. */
  ghost function StateAfter<I, R, S>(body: (S, I) -> Turn<R, S>, state: S, inputs: seq<I>, n: nat): S
    requires n <= |inputs|
  {
    if n == 0 then state else body(StateAfter(body, state, inputs, n - 1), inputs[n - 1]).state
  }

  /** Handling the first line, then `k` more, is handling `k + 1` lines. */
  lemma {:induction false} StateAfterFirstLine<I, R, S>(body: (S, I) -> Turn<R, S>, state: S, inputs: seq<I>, k: nat)
    requires k < |inputs|
    ensures StateAfter(body, body(state, inputs[0]).state, inputs[1..], k) == StateAfter(body, state, inputs, k + 1)
  {
    if k > 0 {
      StateAfterFirstLine(body, state, inputs, k - 1);
      assert inputs[1..][k - 1] == inputs[k];
    }
  }

  /**
    Reply `i` of a run is the body's reply to line `i` in the state the
    earlier lines left, and the run ends in the state its replies left.
   */
  lemma {:induction false} DriveFollowsBody<I, R, S>(body: (S, I) -> Turn<R, S>, state: S, inputs: seq<I>)
    ensures var t := Drive(body, state, inputs);
      forall i :: 0 <= i < |t.replies| ==> t.replies[i] == body(StateAfter(body, state, inputs, i), inputs[i]).reply
    ensures var t := Drive(body, state, inputs);
      t.state == StateAfter(body, state, inputs, |t.replies|)
    decreases |inputs|
  {
    if |inputs| > 0 {
      var turn := body(state, inputs[0]);
      if turn.running {
        var rest := Drive(body, turn.state, inputs[1..]);
        DriveFollowsBody(body, turn.state, inputs[1..]);
        var t := Drive(body, state, inputs);
        assert t.replies == [turn.reply] + rest.replies;
        forall i | 1 <= i < |t.replies|
          ensures t.replies[i] == body(StateAfter(body, state, inputs, i), inputs[i]).reply
        {
          StateAfterFirstLine(body, state, inputs, i - 1);
          assert inputs[1..][i - 1] == inputs[i];
        }
        StateAfterFirstLine(body, state, inputs, |rest.replies|);
      }
    }
  }

  /**
    When the body goes on exactly after the replies `stops` rejects, a run
    that has stopped ends with a stopping reply, and no earlier reply stops.
   */
  lemma {:induction false} DriveStopsOnlyOnEnd<I, R, S>(body: (S, I) -> Turn<R, S>, stops: R -> bool, state: S, inputs: seq<I>)
    requires forall s, x :: body(s, x).running <==> !stops(body(s, x).reply)
    ensures var t := Drive(body, state, inputs);
      !t.running ==> |t.replies| > 0 && stops(t.replies[|t.replies| - 1])
    ensures var t := Drive(body, state, inputs);
      forall i :: 0 <= i < |t.replies| - 1 ==> !stops(t.replies[i])
    decreases |inputs|
  {
    if |inputs| > 0 {
      var turn := body(state, inputs[0]);
      if turn.running {
        DriveStopsOnlyOnEnd(body, stops, turn.state, inputs[1..]);
        var rest := Drive(body, turn.state, inputs[1..]);
        assert Drive(body, state, inputs).replies == [turn.reply] + rest.replies;
      }
    }
  }

  /** A property of the state that every pass through the body keeps holds at the end of every run. */
  lemma {:induction false} DriveKeeps<I, R, S>(body: (S, I) -> Turn<R, S>, keep: S -> bool, state: S, inputs: seq<I>)
    requires forall s, x :: keep(s) ==> keep(body(s, x).state)
    requires keep(state)
    ensures keep(Drive(body, state, inputs).state)
    decreases |inputs|
  {
    if |inputs| > 0 && body(state, inputs[0]).running {
      DriveKeeps(body, keep, body(state, inputs[0]).state, inputs[1..]);
    }
  }
}
