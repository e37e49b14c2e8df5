/**
 * Non-flowing mode: on every timer tick the consumer asks the native client
 * for a batch of messages, and the consume callback decides what happens with
 * what came back. An error is logged and nothing else happens; anything that
 * is not an array, or an empty array, is ignored; an array of messages is
 * handled in order, each message passed to the handler and then committed.
 * No outcome stops later ticks from being handled.
 */
module NonFlowingMode {
  import opened Wrappers

  /** The second argument of the consume callback. */
  datatype PollData<M> = Null | Undefined | Scalar | Items(messages: seq<M>)

  /** One consume callback: the error argument (`None` when null) and the data argument. */
  datatype Poll<M> = Poll(error: Option<string>, data: PollData<M>)

  /** The observable effects of a callback: handler calls, commits and error logs. */
  datatype Action<M> = Handle(message: M) | Commit(message: M) | LogError(error: string)

  /** Each message handled and then committed, in array order. */
  function BatchActions<M>(messages: seq<M>): seq<Action<M>> {
    if messages == [] then []
    else [Handle(messages[0]), Commit(messages[0])] + BatchActions(messages[1..])
  }

  function PollActions<M>(poll: Poll<M>, hasLogger: bool): seq<Action<M>> {
    match poll.error
    case Some(e) => if hasLogger then [LogError(e)] else []
    case None => if poll.data.Items? then BatchActions(poll.data.messages) else []
  }

  /** The effects of a whole sequence of ticks. */
  function SessionActions<M>(polls: seq<Poll<M>>, hasLogger: bool): seq<Action<M>> {
    if polls == [] then []
    else PollActions(polls[0], hasLogger) + SessionActions(polls[1..], hasLogger)
  }

  // Projections of an action log onto one kind of effect

  function Handled<M>(actions: seq<Action<M>>): seq<M> {
    if actions == [] then []
    else (if actions[0].Handle? then [actions[0].message] else []) + Handled(actions[1..])
  }

  function Committed<M>(actions: seq<Action<M>>): seq<M> {
    if actions == [] then []
    else (if actions[0].Commit? then [actions[0].message] else []) + Committed(actions[1..])
  }

  function ErrorsLogged<M>(actions: seq<Action<M>>): seq<string> {
    if actions == [] then []
    else (if actions[0].LogError? then [actions[0].error] else []) + ErrorsLogged(actions[1..])
  }

  // The projections distribute over concatenation.

  lemma {:induction false} HandledAppend<M>(a: seq<Action<M>>, b: seq<Action<M>>)
    ensures Handled(a + b) == Handled(a) + Handled(b)
  {
    if a == [] {
      assert a + b == b;
    } else {
      assert (a + b)[0] == a[0] && (a + b)[1..] == a[1..] + b;
      HandledAppend(a[1..], b);
    }
  }

  lemma {:induction false} CommittedAppend<M>(a: seq<Action<M>>, b: seq<Action<M>>)
    ensures Committed(a + b) == Committed(a) + Committed(b)
  {
    if a == [] {
      assert a + b == b;
    } else {
      assert (a + b)[0] == a[0] && (a + b)[1..] == a[1..] + b;
      CommittedAppend(a[1..], b);
    }
  }

  lemma {:induction false} ErrorsLoggedAppend<M>(a: seq<Action<M>>, b: seq<Action<M>>)
    ensures ErrorsLogged(a + b) == ErrorsLogged(a) + ErrorsLogged(b)
  {
    if a == [] {
      assert a + b == b;
    } else {
      assert (a + b)[0] == a[0] && (a + b)[1..] == a[1..] + b;
      ErrorsLoggedAppend(a[1..], b);
    }
  }

  lemma ProjectionsAppend<M>(a: seq<Action<M>>, b: seq<Action<M>>)
    ensures Handled(a + b) == Handled(a) + Handled(b)
    ensures Committed(a + b) == Committed(a) + Committed(b)
    ensures ErrorsLogged(a + b) == ErrorsLogged(a) + ErrorsLogged(b)
  {
    HandledAppend(a, b);
    CommittedAppend(a, b);
    ErrorsLoggedAppend(a, b);
  }

  /** Message `i` of a batch is handled at position 2i and committed right after, at 2i + 1. */
  lemma {:induction false} BatchActionsAt<M>(messages: seq<M>)
    ensures |BatchActions(messages)| == 2 * |messages|
    ensures forall i :: 0 <= i < |messages| ==>
              BatchActions(messages)[2 * i] == Handle(messages[i]) && BatchActions(messages)[2 * i + 1] == Commit(messages[i])
  {
    if messages != [] {
      BatchActionsAt(messages[1..]);
      forall i | 0 <= i < |messages|
        ensures BatchActions(messages)[2 * i] == Handle(messages[i]) && BatchActions(messages)[2 * i + 1] == Commit(messages[i])
      {
        if i > 0 {
          assert messages[i] == messages[1..][i - 1];
        }
      }
    }
  }

  lemma {:induction false} BatchActionsSnoc<M>(messages: seq<M>, m: M)
    ensures BatchActions(messages + [m]) == BatchActions(messages) + [Handle(m), Commit(m)]
  {
    if messages == [] {
      assert messages + [m] == [m];
    } else {
      assert (messages + [m])[1..] == messages[1..] + [m];
      BatchActionsSnoc(messages[1..], m);
    }
  }

  /** A batch reaches the handler exactly, in order, and exactly the same messages are committed; nothing is logged. */
  lemma {:induction false} BatchHandledAndCommitted<M>(messages: seq<M>)
    ensures Handled(BatchActions(messages)) == messages
    ensures Committed(BatchActions(messages)) == messages
    ensures ErrorsLogged(BatchActions(messages)) == []
  {
    if messages != [] {
      var m := messages[0];
      BatchHandledAndCommitted(messages[1..]);
      ProjectionsAppend([Handle(m), Commit(m)], BatchActions(messages[1..]));
      assert [Handle(m), Commit(m)][1..][1..] == [];
    }
  }

  /**
   * One callback: an error is logged (when there is a logger) with no handler
   * call and no commit; null, undefined, a scalar or an empty array has no
   * effect at all; an array is handled and committed message by message.
   */
  lemma PollOutcome<M>(poll: Poll<M>, hasLogger: bool)
    ensures poll.error.Some? ==>
      && Handled(PollActions(poll, hasLogger)) == []
      && Committed(PollActions(poll, hasLogger)) == []
      && ErrorsLogged(PollActions(poll, hasLogger)) == (if hasLogger then [poll.error.value] else [])
    ensures poll.error.None? && (!poll.data.Items? || poll.data.messages == []) ==> PollActions(poll, hasLogger) == []
    ensures poll.error.None? && poll.data.Items? ==>
      && Handled(PollActions(poll, hasLogger)) == poll.data.messages
      && Committed(PollActions(poll, hasLogger)) == poll.data.messages
      && ErrorsLogged(PollActions(poll, hasLogger)) == []
  {
    if poll.error.None? && poll.data.Items? {
      BatchHandledAndCommitted(poll.data.messages);
    }
  }

  /** The messages of the error-free ticks whose data was an array, concatenated in tick order. */
  function Delivered<M>(polls: seq<Poll<M>>): seq<M> {
    if polls == [] then []
    else (if polls[0].error.None? && polls[0].data.Items? then polls[0].data.messages else []) + Delivered(polls[1..])
  }

  /** The errors of the failed ticks, in tick order. */
  function Failures<M>(polls: seq<Poll<M>>): seq<string> {
    if polls == [] then []
    else (if polls[0].error.Some? then [polls[0].error.value] else []) + Failures(polls[1..])
  }

  /**
   * Over a whole run of ticks, no outcome stops the loop: every message of
   * every later array is still handled and committed, and every failed tick
   * is logged.
   */
  lemma {:induction false} SessionOutcome<M>(polls: seq<Poll<M>>, hasLogger: bool)
    ensures Handled(SessionActions(polls, hasLogger)) == Delivered(polls)
    ensures Committed(SessionActions(polls, hasLogger)) == Delivered(polls)
    ensures ErrorsLogged(SessionActions(polls, hasLogger)) == if hasLogger then Failures(polls) else []
  {
    if polls != [] {
      PollOutcome(polls[0], hasLogger);
      SessionOutcome(polls[1..], hasLogger);
      ProjectionsAppend(PollActions(polls[0], hasLogger), SessionActions(polls[1..], hasLogger));
    }
  }

  /**
   * The consume callbacks of one consumer, recording their effects in `log`
   * in the order they happen.
   */
  class Poller<M> {
    const hasLogger: bool
    var log: seq<Action<M>>

    constructor (hasLogger: bool)
      ensures this.hasLogger == hasLogger && log == []
    {
      this.hasLogger := hasLogger;
      log := [];
    }

    /** The consume callback, invoked with the error and data of one tick. */
    method OnPoll(error: Option<string>, data: PollData<M>)
      modifies this
      ensures log == old(log) + PollActions(Poll(error, data), hasLogger)
    {
      if error.Some? {
        if hasLogger {
          log := log + [LogError(error.value)];
        }
        return;
      }
      if !data.Items? {
        return;
      }
      var messages := data.messages;
      var i := 0;
      while i < |messages|
        invariant 0 <= i <= |messages|
        invariant log == old(log) + BatchActions(messages[..i])
      {
        BatchActionsSnoc(messages[..i], messages[i]);
        assert messages[..i + 1] == messages[..i] + [messages[i]];
        log := log + [Handle(messages[i])];
        log := log + [Commit(messages[i])];
        i := i + 1;
      }
      assert messages[..i] == messages;
    }
  }

  /** Two ticks that each return the same two messages: four handler calls and four commits. */
  lemma TwoBatchesScenario<M>(m: M, hasLogger: bool)
    ensures var polls := [Poll(None, Items([m, m])), Poll(None, Items([m, m]))];
      && Handled(SessionActions(polls, hasLogger)) == [m, m, m, m]
      && Committed(SessionActions(polls, hasLogger)) == [m, m, m, m]
  {
    var polls := [Poll(None, Items([m, m])), Poll(None, Items([m, m]))];
    SessionOutcome(polls, hasLogger);
    assert polls[1..][1..] == [];
    assert Delivered(polls[1..]) == [m, m] + Delivered(polls[1..][1..]);
    assert Delivered(polls) == [m, m] + Delivered(polls[1..]);
  }

  /** Two failing ticks: the error is logged twice and nothing is handled or committed. */
  lemma FailingPollsScenario<M>(e: string)
    ensures var polls: seq<Poll<M>> := [Poll(Some(e), Null), Poll(Some(e), Null)];
      && SessionActions(polls, true) == [LogError(e), LogError(e)]
      && Handled(SessionActions(polls, true)) == []
      && Committed(SessionActions(polls, true)) == []
  {
    var polls: seq<Poll<M>> := [Poll(Some(e), Null), Poll(Some(e), Null)];
    SessionOutcome(polls, true);
    assert polls[1..][1..] == [];
    assert SessionActions(polls[1..], true) == [LogError(e)] + SessionActions(polls[1..][1..], true);
    assert SessionActions(polls, true) == [LogError(e)] + SessionActions(polls[1..], true);
    assert Delivered(polls[1..]) == Delivered(polls[1..][1..]);
    assert Delivered(polls) == Delivered(polls[1..]);
  }

  /**
   * Null, undefined, a string, a number and an empty array are ignored, and a
   * valid array that follows is still handled: one handler call, one commit,
   * no error logged.
   */
  lemma NonArrayScenario<M>(m: M)
    ensures var polls := [Poll(None, Null), Poll(None, Undefined), Poll(None, Scalar), Poll(None, Scalar),
                          Poll(None, Items([])), Poll(None, Items([m]))];
      SessionActions(polls, true) == [Handle(m), Commit(m)]
  {
    var polls := [Poll(None, Null), Poll(None, Undefined), Poll(None, Scalar), Poll(None, Scalar),
                  Poll(None, Items([])), Poll(None, Items([m]))];
    assert polls[1..] == polls[1..6] && polls[1..6][1..] == polls[2..6];
    assert polls[2..6][1..] == polls[3..6] && polls[3..6][1..] == polls[4..6];
    assert polls[4..6][1..] == polls[5..6] && polls[5..6][1..] == [];
    assert BatchActions([m]) == [Handle(m), Commit(m)] + BatchActions([m][1..]);
    assert SessionActions(polls[5..6], true) == [Handle(m), Commit(m)] + SessionActions(polls[5..6][1..], true);
    assert SessionActions(polls[4..6], true) == SessionActions(polls[5..6], true);
    assert SessionActions(polls[3..6], true) == SessionActions(polls[4..6], true);
    assert SessionActions(polls[2..6], true) == SessionActions(polls[3..6], true);
    assert SessionActions(polls[1..6], true) == SessionActions(polls[2..6], true);
    assert SessionActions(polls, true) == SessionActions(polls[1..], true);
  }
}
