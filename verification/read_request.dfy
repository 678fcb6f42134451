/** `readRequest`: the consumer's blocking receive. The monitor wait is
    abstracted as a round in which other parties' events happen and the
    elapsed time advances. */
module BlockingRead {
  import opened Wrappers
  import opened WireProtocol
  import opened WebSocketConnection

  /** What one loop iteration does, in order: a call on the caller's
      `MessagePipeCallback` (`Sleep`, `Wakeup`) or the monitor wait itself
      (`Block`). */
  datatype Hook = Sleep | Block | Wakeup

  /** How one wait on the monitor ends: after `events` happened and `advance`
      milliseconds passed, or by failing. */
  datatype Wait = Woken(events: seq<Event>, advance: nat) | Interrupted

  /** What a read reports, and the session it leaves behind. */
  datatype Read = Read(result: Result<RequestMessage, SessionError>, next: Connection)

  /** The part of the loop condition that does not depend on time. */
  predicate Waiting(c: Connection) {
    c.client.Some? && |c.incomingRequests| == 0
  }

  /** The hook calls of one loop iteration started in state `c`. */
  function RoundHooks(c: Connection): seq<Hook> {
    if c.keepAliveSender.Some? then [Sleep, Block, Wakeup] else [Block]
  }

  /** The hook calls of the iterations started in the given states, in order. */
  function HookTrace(rounds: seq<Connection>): seq<Hook>
    decreases |rounds|
  {
    if |rounds| == 0 then [] else HookTrace(rounds[..|rounds| - 1]) + RoundHooks(rounds[|rounds| - 1])
  }

  /** The wait is bracketed: every `sleep` is followed at once by the wait and
      then `wakeup`, and every `wakeup` comes right after a wait that `sleep`
      preceded. */
  predicate Bracketed(hooks: seq<Hook>) {
    forall k {:trigger hooks[k]} | 0 <= k < |hooks| ::
      && (hooks[k] == Sleep ==> k + 2 < |hooks| && hooks[k + 1] == Block && hooks[k + 2] == Wakeup)
      && (hooks[k] == Wakeup ==> 2 <= k && hooks[k - 1] == Block && hooks[k - 2] == Sleep)
  }

  /** The events of the listed waits, in order. */
  function EventsOf(waits: seq<Wait>): seq<Event>
    decreases |waits|
  {
    if |waits| == 0 then []
    else EventsOf(waits[..|waits| - 1]) + (if waits[|waits| - 1].Woken? then waits[|waits| - 1].events else [])
  }

  /** The result selection after the wait loop: closed is checked before timeout,
      and a queued request is handed out first-in first-out. */
  function Outcome(c: Connection): (o: Read)
    ensures o.result == Failure(ConnectionClosed) <==> |c.incomingRequests| == 0 && c.client.None?
    ensures o.result == Failure(TimeoutExceeded) <==> Waiting(c)
    ensures o.result.Failure? ==> o.next == c && o.result.error != WaitInterrupted
    ensures o.result.Success? <==> |c.incomingRequests| > 0
    ensures o.result.Success? ==>
      && [o.result.value] + o.next.incomingRequests == c.incomingRequests
      && o.next == c.(incomingRequests := o.next.incomingRequests)
  {
    if |c.incomingRequests| == 0 && c.client.None? then Read(Failure(ConnectionClosed), c)
    else if |c.incomingRequests| == 0 then Read(Failure(TimeoutExceeded), c)
    else Read(Success(c.incomingRequests[0]), c.(incomingRequests := c.incomingRequests[1..]))
  }

  /** Total time of the listed waits; a failed wait takes none. */
  function Duration(waits: seq<Wait>): nat
    decreases |waits|
  {
    if |waits| == 0 then 0
    else Duration(waits[..|waits| - 1]) + (if waits[|waits| - 1].Woken? then waits[|waits| - 1].advance else 0)
  }

  /** The session when scheduled wait `k` begins: the entry session after the
      events of the earlier waits. */
  function Before(c: Connection, waits: seq<Wait>, k: nat, parse: Parser): Connection
    requires k <= |waits|
  {
    ApplyAll(c, EventsOf(waits[..k]), parse)
  }

  /** Iteration `k` of the loop starts in the session `Before` wait `k`, with the
      loop condition true: the reader is waiting and time is not up. */
  ghost predicate FollowsSchedule(c: Connection, timeoutMillis: int, waits: seq<Wait>,
                                  rounds: seq<Connection>, parse: Parser)
  {
    && |rounds| <= |waits| + 1
    && forall k | 0 <= k < |rounds| ::
         && rounds[k] == Before(c, waits, k, parse)
         && Waiting(rounds[k])
         && Duration(waits[..k]) < timeoutMillis
  }

  /** How long the quiet wait after the schedule lasts: `max(1, remaining)`. */
  function QuietWait(timeoutMillis: int, elapsed: nat): nat {
    if timeoutMillis - elapsed > 1 then timeoutMillis - elapsed else 1
  }

  /** The state of the wait loop: the session, the time spent, the hook calls
      made, whether a wait failed, the session at the start of each iteration,
      and the number of scheduled waits used. */
  datatype LoopState = LoopState(
    last: Connection,
    elapsed: nat,
    hooks: seq<Hook>,
    interrupted: bool,
    rounds: seq<Connection>,
    consumed: nat)

  /** The wait loop ran on the schedule: its iterations began as `FollowsSchedule`
      says; it used `consumed` scheduled waits and, when the schedule ran out, one
      quiet wait; it ended in the session those waits leave; `elapsed` is the time
      they took; a wait failed only if it was the last one used, and the loop is
      `interrupted` exactly then; and the hooks are those of its iterations. */
  ghost predicate RanOnSchedule(c: Connection, timeoutMillis: int, waits: seq<Wait>, parse: Parser, s: LoopState)
  {
    && FollowsSchedule(c, timeoutMillis, waits, s.rounds, parse)
    && s.consumed <= |waits|
    && (|s.rounds| == s.consumed || (|s.rounds| == s.consumed + 1 && s.consumed == |waits| && !s.interrupted))
    && s.last == Before(c, waits, s.consumed, parse)
    && (|s.rounds| == s.consumed ==> s.elapsed == Duration(waits[..s.consumed]))
    && (|s.rounds| == s.consumed + 1 ==> s.elapsed == Duration(waits) + QuietWait(timeoutMillis, Duration(waits)))
    && (forall j | 0 <= j < s.consumed :: waits[j].Woken? || (s.interrupted && j == s.consumed - 1))
    && (s.interrupted ==> s.consumed > 0 && waits[s.consumed - 1].Interrupted? && |s.rounds| == s.consumed)
    && s.hooks == HookTrace(s.rounds)
  }

  /** The wait loop of `readRequest`, entered with a client present, against the
      schedule `waits` of how successive waits end. Once the schedule is used up
      the environment is quiet, and the next wait lasts its full
      `max(1, remaining)` milliseconds. Returns the session after the loop, the
      elapsed time, the hook calls made and whether a wait failed; `rounds` holds
      the state at the start of each iteration and `consumed` the number of
      scheduled waits used. */
  method AwaitRequest(c: Connection, timeoutMillis: int, waits: seq<Wait>, parse: Parser)
    returns (last: Connection, elapsed: nat, hooks: seq<Hook>, interrupted: bool,
             ghost rounds: seq<Connection>, ghost consumed: nat)
    requires c.client.Some?
    // the loop exits only when a request is queued, the client is gone or time is up
    ensures !interrupted ==> !(Waiting(last) && elapsed < timeoutMillis)
    // no wait at all when a request is already queued
    ensures !Waiting(c) ==> last == c && elapsed == 0 && hooks == [] && !interrupted && rounds == [] && consumed == 0
    // every iteration ran on the schedule, and the time and hooks are those of the waits used
    ensures RanOnSchedule(c, timeoutMillis, waits, parse,
                          LoopState(last, elapsed, hooks, interrupted, rounds, consumed))
    ensures Bracketed(hooks)
  {
    var st := LoopState(c, 0, [], false, [], 0);
    LoopStart(c, timeoutMillis, waits, parse);
    while !st.interrupted && Waiting(st.last) && st.elapsed < timeoutMillis
      invariant LoopInvariant(c, timeoutMillis, waits, parse, st)
      decreases |waits| + 1 - |st.rounds|
    {
      var w := if |st.rounds| < |waits| then waits[|st.rounds|] else Woken([], QuietWait(timeoutMillis, st.elapsed));
      var next, advance, roundHooks, failed := WaitOnce(st.last, w, parse);
      LoopStep(c, timeoutMillis, waits, parse, st, w, next, advance, roundHooks, failed);
      st := Advanced(st, |waits|, next, advance, roundHooks, failed);
    }
    LoopExit(c, timeoutMillis, waits, parse, st);
    last, elapsed, hooks := st.last, st.elapsed, st.hooks;
    interrupted, rounds, consumed := st.interrupted, st.rounds, st.consumed;
  }

  /** The loop state after one more iteration, started in `s.last`, whose wait
      left `next` after `advance` milliseconds; `scheduled` is the schedule's length. */
  function Advanced(s: LoopState, scheduled: nat, next: Connection, advance: nat,
                    roundHooks: seq<Hook>, failed: bool): LoopState
  {
    LoopState(next, s.elapsed + advance, s.hooks + roundHooks, failed, s.rounds + [s.last],
              if |s.rounds| < scheduled then |s.rounds| + 1 else scheduled)
  }

  /** What holds at the head of the wait loop after `|s.rounds|` iterations. */
  ghost predicate LoopInvariant(c: Connection, timeoutMillis: int, waits: seq<Wait>, parse: Parser, s: LoopState)
  {
    && |s.rounds| <= |waits| + 1
    && s.consumed == (if |s.rounds| <= |waits| then |s.rounds| else |waits|)
    && (|s.rounds| <= |waits| ==> s.elapsed == Duration(waits[..|s.rounds|]))
    && (|s.rounds| == |waits| + 1 ==>
          s.elapsed == Duration(waits) + QuietWait(timeoutMillis, Duration(waits)) && !s.interrupted)
    && (|s.rounds| == 0 ==> s.last == c && s.elapsed == 0 && s.hooks == [] && !s.interrupted)
    && FollowsSchedule(c, timeoutMillis, waits, s.rounds, parse)
    && (forall j | 0 <= j < s.consumed :: waits[j].Woken? || (s.interrupted && j == s.consumed - 1))
    && (s.interrupted ==> 0 < |s.rounds| <= |waits| && waits[|s.rounds| - 1].Interrupted?)
    && s.hooks == HookTrace(s.rounds)
    && s.last == Before(c, waits, s.consumed, parse)
  }

  /** The loop invariant holds before the first iteration. */
  lemma LoopStart(c: Connection, timeoutMillis: int, waits: seq<Wait>, parse: Parser)
    ensures LoopInvariant(c, timeoutMillis, waits, parse, LoopState(c, 0, [], false, [], 0))
  {
    assert waits[..0] == [];
  }

  /** One iteration of the wait loop keeps the loop invariant. */
  lemma LoopStep(c: Connection, timeoutMillis: int, waits: seq<Wait>, parse: Parser, s: LoopState,
                 w: Wait, next: Connection, advance: nat, roundHooks: seq<Hook>, failed: bool)
    requires LoopInvariant(c, timeoutMillis, waits, parse, s)
    requires !s.interrupted && Waiting(s.last) && s.elapsed < timeoutMillis
    requires w == if |s.rounds| < |waits| then waits[|s.rounds|] else Woken([], QuietWait(timeoutMillis, s.elapsed))
    requires roundHooks == RoundHooks(s.last)
    requires failed <==> w.Interrupted?
    requires failed ==> next == s.last && advance == 0
    requires !failed ==> next == ApplyAll(s.last, w.events, parse) && advance == w.advance
    ensures |s.rounds| + 1 <= |waits| + 1
    ensures LoopInvariant(c, timeoutMillis, waits, parse, Advanced(s, |waits|, next, advance, roundHooks, failed))
  {
    var t := Advanced(s, |waits|, next, advance, roundHooks, failed);
    assert waits[..|waits|] == waits;
    assert |s.rounds| <= |waits|;
    FollowsScheduleSnoc(c, timeoutMillis, waits, s.rounds, parse);
    HookTraceSnoc(s.rounds, s.last);
    if |s.rounds| < |waits| {
      ScheduledStep(c, timeoutMillis, waits, parse, s, next, advance, failed);
    }
    StepFailures(waits, s.consumed, t.consumed, failed);
  }

  /** Failures after one more iteration: only the wait just used may have failed. */
  lemma StepFailures(waits: seq<Wait>, consumed: nat, consumed': nat, failed: bool)
    requires consumed <= consumed' <= |waits| && consumed' <= consumed + 1
    requires forall j | 0 <= j < consumed :: waits[j].Woken?
    requires failed ==> consumed' == consumed + 1 && waits[consumed].Interrupted?
    requires consumed' == consumed + 1 ==> (waits[consumed].Interrupted? <==> failed)
    ensures forall j | 0 <= j < consumed' :: waits[j].Woken? || (failed && j == consumed' - 1)
  {
  }

  /** A scheduled wait moves the session, the time and the failure flag along the schedule. */
  lemma ScheduledStep(c: Connection, timeoutMillis: int, waits: seq<Wait>, parse: Parser, s: LoopState,
                      next: Connection, advance: nat, failed: bool)
    requires |s.rounds| < |waits|
    requires s.last == Before(c, waits, |s.rounds|, parse)
    requires s.elapsed == Duration(waits[..|s.rounds|])
    requires failed <==> waits[|s.rounds|].Interrupted?
    requires failed ==> next == s.last && advance == 0
    requires !failed ==>
      next == ApplyAll(s.last, waits[|s.rounds|].events, parse) && advance == waits[|s.rounds|].advance
    ensures next == Before(c, waits, |s.rounds| + 1, parse)
    ensures s.elapsed + advance == Duration(waits[..|s.rounds| + 1])
  {
    ScheduleStep(c, waits, |s.rounds|, parse);
  }

  /** When the loop condition fails, the loop ran on the schedule. */
  lemma LoopExit(c: Connection, timeoutMillis: int, waits: seq<Wait>, parse: Parser, s: LoopState)
    requires LoopInvariant(c, timeoutMillis, waits, parse, s)
    requires !(!s.interrupted && Waiting(s.last) && s.elapsed < timeoutMillis)
    ensures RanOnSchedule(c, timeoutMillis, waits, parse, s)
    ensures !Waiting(c) ==> s == LoopState(c, 0, [], false, [], 0)
    ensures Bracketed(s.hooks)
  {
    assert waits[..|waits|] == waits;
    HookTraceBracketed(s.rounds);
    if |s.rounds| > 0 {
      assert waits[..0] == [];
      assert Waiting(s.rounds[0]);
    }
  }

  /** An iteration that starts on schedule extends the rounds on schedule. */
  lemma FollowsScheduleSnoc(c: Connection, timeoutMillis: int, waits: seq<Wait>,
                            rounds: seq<Connection>, parse: Parser)
    requires FollowsSchedule(c, timeoutMillis, waits, rounds, parse)
    requires |rounds| <= |waits|
    requires Waiting(Before(c, waits, |rounds|, parse)) && Duration(waits[..|rounds|]) < timeoutMillis
    ensures FollowsSchedule(c, timeoutMillis, waits, rounds + [Before(c, waits, |rounds|, parse)], parse)
  {
  }

  /** One iteration of the wait loop: `sleep` if a heartbeat sender exists, the
      wait itself, then `wakeup` if `sleep` was called, whether or not the wait
      failed. */
  method WaitOnce(c: Connection, w: Wait, parse: Parser)
    returns (next: Connection, advance: nat, hooks: seq<Hook>, failed: bool)
    ensures hooks == RoundHooks(c)
    ensures failed <==> w.Interrupted?
    ensures failed ==> next == c && advance == 0
    ensures !failed ==> next == ApplyAll(c, w.events, parse) && advance == w.advance
  {
    var sleep := c.keepAliveSender.Some?;
    hooks := [];
    if sleep {
      hooks := hooks + [Sleep];
    }
    hooks := hooks + [Block];
    match w {
      case Interrupted =>
        next, advance, failed := c, 0, true;
      case Woken(events, elapsed) =>
        next, advance, failed := ApplyAll(c, events, parse), elapsed, false;
    }
    if sleep {
      hooks := hooks + [Wakeup];
    }
  }

  /** `readRequest(timeoutMillis, callback)`: the entry check, the wait loop
      and the result selection. Returns the result, the session afterwards, the
      elapsed time and the hook calls made. */
  method ReadRequest(c: Connection, timeoutMillis: int, waits: seq<Wait>, parse: Parser)
    returns (result: Result<RequestMessage, SessionError>, c': Connection, elapsed: nat, hooks: seq<Hook>,
             ghost rounds: seq<Connection>, ghost consumed: nat, ghost last: Connection)
    // entry check: closed whatever is queued, without waiting
    ensures c.client.None? ==> result == Failure(ConnectionClosed) && c' == c && elapsed == 0 && hooks == []
    // no wait at all when the entry check fails or a request is already queued
    ensures !Waiting(c) ==> consumed == 0 && rounds == [] && last == c
    // an already queued request is returned at once, oldest first, and nothing else changes
    ensures c.client.Some? && |c.incomingRequests| > 0 ==>
      && result == Success(c.incomingRequests[0])
      && c' == c.(incomingRequests := c.incomingRequests[1..])
      && elapsed == 0 && hooks == []
    // after the loop the three-way selection applies to the session the loop ended with
    ensures c.client.Some? && result != Failure(WaitInterrupted) ==>
      && !(Waiting(last) && elapsed < timeoutMillis)
      && Outcome(last) == Read(result, c')
    // the loop ran on the schedule: each iteration began in the session left by the
    // earlier waits, waiting and before the deadline, and it stopped only when it had to
    ensures RanOnSchedule(c, timeoutMillis, waits, parse,
                          LoopState(last, elapsed, hooks, result == Failure(WaitInterrupted), rounds, consumed))
    // a failed wait ends the read with WaitInterrupted, and nothing else does
    ensures result == Failure(WaitInterrupted) <==> consumed > 0 && waits[consumed - 1].Interrupted?
    ensures result == Failure(WaitInterrupted) ==> c' == last
    // what is handed out is the oldest of the entry queue followed by the arrivals
    ensures c.client.Some? && result.Success? ==>
      [result.value] + c'.incomingRequests == c.incomingRequests + Arrivals(EventsOf(waits[..consumed]), parse)
    // a request that arrives during the first wait, before the deadline, is read
    ensures c.client.Some? && |waits| > 0 && waits[0].Woken? && waits[0].advance < timeoutMillis
            && Arrivals(waits[0].events, parse) != [] ==>
      result == Success((c.incomingRequests + Arrivals(waits[0].events, parse))[0])
    // a timeout is never reported early
    ensures result == Failure(TimeoutExceeded) ==> elapsed >= timeoutMillis && Waiting(c')
    ensures result == Failure(ConnectionClosed) ==> c'.client.None? && (c.client.None? || |c'.incomingRequests| == 0)
    ensures Bracketed(hooks)
    ensures Valid(c) ==> Valid(c')
  {
    if c.client.None? {
      return Failure(ConnectionClosed), c, 0, [], [], 0, c;
    }
    var after, interrupted;
    after, elapsed, hooks, interrupted, rounds, consumed := AwaitRequest(c, timeoutMillis, waits, parse);
    last := after;
    if Valid(c) {
      ApplyAllValid(c, EventsOf(waits[..consumed]), parse);
    }
    if |waits| > 0 && waits[0].Woken? && waits[0].advance < timeoutMillis && Arrivals(waits[0].events, parse) != [] {
      FirstArrivalIsRead(c, timeoutMillis, waits, parse,
                         LoopState(last, elapsed, hooks, interrupted, rounds, consumed));
    }
    if interrupted {
      return Failure(WaitInterrupted), after, elapsed, hooks, rounds, consumed, last;
    }
    var o := Outcome(after);
    result, c' := o.result, o.next;
    ApplyAllQueue(c, EventsOf(waits[..consumed]), parse);
  }

  /** A request that arrives during the first wait, before the deadline, ends the
      loop after that wait and is the one read. */
  lemma FirstArrivalIsRead(c: Connection, timeoutMillis: int, waits: seq<Wait>, parse: Parser, s: LoopState)
    requires c.client.Some?
    requires RanOnSchedule(c, timeoutMillis, waits, parse, s)
    requires !s.interrupted ==> !(Waiting(s.last) && s.elapsed < timeoutMillis)
    requires |waits| > 0 && waits[0].Woken? && waits[0].advance < timeoutMillis
    requires Arrivals(waits[0].events, parse) != []
    ensures !s.interrupted
    ensures Outcome(s.last).result == Success((c.incomingRequests + Arrivals(waits[0].events, parse))[0])
  {
    FirstArrivalStopsLoop(c, timeoutMillis, waits, s.rounds, parse);
    assert waits[..0] == [];
    if Waiting(c) {
      assert |s.rounds| == 1 && s.consumed == 1;
    }
  }

  /** A request arriving during the first wait ends the loop after that wait. */
  lemma FirstArrivalStopsLoop(c: Connection, timeoutMillis: int, waits: seq<Wait>,
                              rounds: seq<Connection>, parse: Parser)
    requires |waits| > 0 && waits[0].Woken? && Arrivals(waits[0].events, parse) != []
    requires FollowsSchedule(c, timeoutMillis, waits, rounds, parse)
    ensures |rounds| <= 1
    ensures Before(c, waits, 1, parse).incomingRequests == c.incomingRequests + Arrivals(waits[0].events, parse)
  {
    ScheduleStep(c, waits, 0, parse);
    assert waits[..0] == [];
    ApplyAllQueue(c, waits[0].events, parse);
  }

  /** Running two batches of events is running their concatenation. */
  lemma {:induction false} ApplyAllAppend(c: Connection, a: seq<Event>, b: seq<Event>, parse: Parser)
    ensures ApplyAll(c, a + b, parse) == ApplyAll(ApplyAll(c, a, parse), b, parse)
    decreases |a|
  {
    if |a| > 0 {
      assert (a + b)[0] == a[0];
      assert (a + b)[1..] == a[1..] + b;
      ApplyAllAppend(Apply(c, a[0], parse), a[1..], b, parse);
    } else {
      assert a + b == b;
    }
  }

  /** Using one more scheduled wait runs its events after those of the earlier
      ones, and adds its time. */
  lemma ScheduleStep(c: Connection, waits: seq<Wait>, i: nat, parse: Parser)
    requires i < |waits|
    ensures Duration(waits[..i + 1]) == Duration(waits[..i]) + (if waits[i].Woken? then waits[i].advance else 0)
    ensures waits[i].Woken? ==>
      ApplyAll(c, EventsOf(waits[..i + 1]), parse) ==
        ApplyAll(ApplyAll(c, EventsOf(waits[..i]), parse), waits[i].events, parse)
    ensures waits[i].Interrupted? ==>
      ApplyAll(c, EventsOf(waits[..i + 1]), parse) == ApplyAll(c, EventsOf(waits[..i]), parse)
  {
    assert waits[..i + 1][..i] == waits[..i];
    if waits[i].Woken? {
      ApplyAllAppend(c, EventsOf(waits[..i]), waits[i].events, parse);
    } else {
      assert EventsOf(waits[..i + 1]) == EventsOf(waits[..i]) + [];
      assert EventsOf(waits[..i]) + [] == EventsOf(waits[..i]);
    }
  }

  lemma HookTraceSnoc(rounds: seq<Connection>, c: Connection)
    ensures HookTrace(rounds + [c]) == HookTrace(rounds) + RoundHooks(c)
  {
    assert (rounds + [c])[..|rounds|] == rounds;
  }

  /** Two bracketed traces in a row are bracketed. */
  lemma BracketedAppend(a: seq<Hook>, b: seq<Hook>)
    requires Bracketed(a) && Bracketed(b)
    ensures Bracketed(a + b)
  {
    var ab := a + b;
    forall k | 0 <= k < |ab|
      ensures ab[k] == Sleep ==> k + 2 < |ab| && ab[k + 1] == Block && ab[k + 2] == Wakeup
      ensures ab[k] == Wakeup ==> 2 <= k && ab[k - 1] == Block && ab[k - 2] == Sleep
    {
      if k < |a| {
        assert ab[k] == a[k];
        if a[k] == Sleep {
          assert ab[k + 1] == a[k + 1] && ab[k + 2] == a[k + 2];
        } else if a[k] == Wakeup {
          assert ab[k - 1] == a[k - 1] && ab[k - 2] == a[k - 2];
        }
      } else {
        var j := k - |a|;
        assert ab[k] == b[j];
        if b[j] == Sleep {
          assert ab[k + 1] == b[j + 1] && ab[k + 2] == b[j + 2];
        } else if b[j] == Wakeup {
          assert ab[k - 1] == b[j - 1] && ab[k - 2] == b[j - 2];
        }
      }
    }
  }

  lemma {:induction false} HookTraceBracketed(rounds: seq<Connection>)
    ensures Bracketed(HookTrace(rounds))
    decreases |rounds|
  {
    if |rounds| > 0 {
      var init := rounds[..|rounds| - 1];
      HookTraceBracketed(init);
      BracketedAppend(HookTrace(init), RoundHooks(rounds[|rounds| - 1]));
    }
  }

  /** No heartbeat sender at any iteration means no `sleep` and no `wakeup`:
      the trace is one bare wait per iteration. */
  lemma {:induction false} NoSenderNoHooks(rounds: seq<Connection>)
    requires forall k | 0 <= k < |rounds| :: rounds[k].keepAliveSender.None?
    ensures |HookTrace(rounds)| == |rounds|
    ensures forall k | 0 <= k < |rounds| :: HookTrace(rounds)[k] == Block
    decreases |rounds|
  {
    if |rounds| > 0 {
      var init := rounds[..|rounds| - 1];
      NoSenderNoHooks(init);
      assert HookTrace(rounds) == HookTrace(init) + [Block];
    }
  }

  /** The requests `n` successive reads hand out when none of them has to wait:
      the entry check, then the result selection. */
  function TakeRequests(c: Connection, n: nat): seq<RequestMessage>
    decreases n
  {
    if n == 0 || c.client.None? then []
    else
      var o := Outcome(c);
      if o.result.Success? then [o.result.value] + TakeRequests(o.next, n - 1) else []
  }

  /** Reads drain the queue from its front, one request each, none skipped or repeated. */
  lemma {:induction false} TakeRequestsInOrder(c: Connection, n: nat)
    requires c.client.Some? && n <= |c.incomingRequests|
    ensures TakeRequests(c, n) == c.incomingRequests[..n]
    decreases n
  {
    if n > 0 {
      var o := Outcome(c);
      assert o.next.incomingRequests == c.incomingRequests[1..];
      TakeRequestsInOrder(o.next, n - 1);
      assert c.incomingRequests[..n] == [c.incomingRequests[0]] + c.incomingRequests[1..][..n - 1];
    }
  }

  /** Requests are read in the order they arrived: starting from an empty queue,
      as many reads as there were arrivals return exactly the arrivals. */
  lemma ArrivalsAreReadInOrder(c: Connection, es: seq<Event>, parse: Parser)
    requires c.incomingRequests == []
    requires ApplyAll(c, es, parse).client.Some?
    ensures TakeRequests(ApplyAll(c, es, parse), |Arrivals(es, parse)|) == Arrivals(es, parse)
  {
    var d := ApplyAll(c, es, parse);
    ApplyAllQueue(c, es, parse);
    assert d.incomingRequests == Arrivals(es, parse);
    TakeRequestsInOrder(d, |Arrivals(es, parse)|);
    assert d.incomingRequests[..|d.incomingRequests|] == d.incomingRequests;
  }
}
