/** The retry actor: it sends one message to its target again and again, by
    telling itself to retry after each wait of its strategy. */
module Retries {
  import opened Wrappers
  import opened Supervision

  datatype RetryMessage = Retry | End

  datatype RetryError = RetriesExhausted | NoReference

  /** What handling a message makes happen, in order. */
  datatype Effect =
    | SendToTarget
    | Schedule(wait: Duration)
    | EmitError(error: RetryError)
    | StopSelf

  datatype RetryState = RetryState(strategy: Strategy, retries: nat, isEnd: bool)

  /** `handle_message`, given which actors the registry still knows. */
  function HandleSpec(
      st: RetryState, message: RetryMessage, targetFound: bool, selfFound: bool): (RetryState, seq<Effect>)
  {
    match message
    case End => (st.(isEnd := true), [StopSelf])
    case Retry =>
      if st.isEnd then (st, [])
      else
        var st1 := st.(retries := st.retries + 1);
        if st1.retries > MaxRetries(st.strategy) then (st1, [EmitError(RetriesExhausted)])
        else
          var send := if targetFound then [SendToTarget] else [];
          if !selfFound then (st1, send + [EmitError(NoReference)])
          else
            var (wait, strategy) := NextBackoff(st.strategy);
            (st1.(strategy := strategy), send + if wait.Some? then [Schedule(wait.value)] else [])
  }

  class RetryActor {
    var retryStrategy: Strategy
    var retries: nat
    var isEnd: bool

    constructor (strategy: Strategy)
      ensures Abs() == RetryState(strategy, 0, false)
    {
      retryStrategy, retries, isEnd := strategy, 0, false;
    }

    function Abs(): RetryState
      reads this
    {
      RetryState(retryStrategy, retries, isEnd)
    }

    method HandleMessage(message: RetryMessage, targetFound: bool, selfFound: bool) returns (effects: seq<Effect>)
      modifies this
      ensures (Abs(), effects) == HandleSpec(old(Abs()), message, targetFound, selfFound)
    {
      effects := [];
      match message {
        case Retry =>
          if !isEnd {
            retries := retries + 1;
            if retries <= MaxRetries(retryStrategy) {
              if targetFound {
                effects := effects + [SendToTarget];
              }
              if selfFound {
                var (wait, strategy) := NextBackoff(retryStrategy);
                retryStrategy := strategy;
                if wait.Some? {
                  effects := effects + [Schedule(wait.value)];
                }
              } else {
                effects := effects + [EmitError(NoReference)];
              }
            } else {
              effects := effects + [EmitError(RetriesExhausted)];
            }
          }
        case End =>
          isEnd := true;
          effects := effects + [StopSelf];
      }
      assert effects == HandleSpec(old(Abs()), message, targetFound, selfFound).1;
    }
  }

  // ------------------------------------------------ any stream of messages

  datatype Input = Input(message: RetryMessage, targetFound: bool, selfFound: bool)

  function RunSpec(st: RetryState, inputs: seq<Input>): (RetryState, seq<Effect>)
    decreases |inputs|
  {
    if inputs == [] then (st, [])
    else
      var (st1, now) := HandleSpec(st, inputs[0].message, inputs[0].targetFound, inputs[0].selfFound);
      var (st2, later) := RunSpec(st1, inputs[1..]);
      (st2, now + later)
  }

  function Sends(effects: seq<Effect>): nat {
    if effects == [] then 0 else (if effects[0].SendToTarget? then 1 else 0) + Sends(effects[1..])
  }

  lemma {:induction false} SendsConcat(a: seq<Effect>, b: seq<Effect>)
    ensures Sends(a + b) == Sends(a) + Sends(b)
  {
    if a == [] {
      assert a + b == b;
    } else {
      assert (a + b)[1..] == a[1..] + b;
      SendsConcat(a[1..], b);
    }
  }

  function Remaining(st: RetryState): nat {
    if st.isEnd || st.retries >= MaxRetries(st.strategy) then 0 else MaxRetries(st.strategy) - st.retries
  }

  /** Whatever messages arrive, at most the remaining attempts are sent; none
      once the actor has ended. */
  lemma {:induction false} SendsBounded(st: RetryState, inputs: seq<Input>)
    ensures Sends(RunSpec(st, inputs).1) <= Remaining(st)
    ensures MaxRetries(RunSpec(st, inputs).0.strategy) == MaxRetries(st.strategy)
    decreases |inputs|
  {
    if inputs != [] {
      var (st1, now) := HandleSpec(st, inputs[0].message, inputs[0].targetFound, inputs[0].selfFound);
      SendsBounded(st1, inputs[1..]);
      SendsConcat(now, RunSpec(st1, inputs[1..]).1);
      assert Sends([]) == 0;
      assert forall e: Effect :: Sends([e]) == if e.SendToTarget? then 1 else 0;
      if TargetSent(now) {
        SendsConcat([SendToTarget], now[1..]);
        assert now == [SendToTarget] + now[1..];
      }
      assert Sends(now) + Remaining(st1) <= Remaining(st);
    }
  }

  predicate TargetSent(effects: seq<Effect>) {
    effects != [] && effects[0].SendToTarget?
  }

  /** No message sent before or after it gets an attempt out of an ended actor. */
  lemma NothingAfterEnd(strategy: Strategy, before: seq<Input>, after: seq<Input>)
    ensures var ended := HandleSpec(RunSpec(RetryState(strategy, 0, false), before).0, End, true, true).0;
            Sends(RunSpec(ended, after).1) == 0
  {
    SendsBounded(HandleSpec(RunSpec(RetryState(strategy, 0, false), before).0, End, true, true).0, after);
  }

  /** How often each thing happens. */
  datatype Tally = Tally(sends: nat, lost: nat, exhausted: nat, stops: nat)

  /** What a stream of messages should amount to, given the attempts left: every
      End stops the actor; until the first one each Retry is an attempt while
      there are attempts left, and is reported as exhausted after that. An attempt
      reaches its target if that is there, and reports a loss if the actor cannot
      find itself to schedule the next one. */
  function Expected(left: nat, ended: bool, inputs: seq<Input>): Tally
    decreases |inputs|
  {
    if inputs == [] then Tally(0, 0, 0, 0)
    else
      var (i, rest) := (inputs[0], inputs[1..]);
      if i.message.End? then
        var e := Expected(left, true, rest); e.(stops := e.stops + 1)
      else if ended then Expected(left, true, rest)
      else if left == 0 then
        var e := Expected(0, false, rest); e.(exhausted := e.exhausted + 1)
      else
        var e := Expected(left - 1, false, rest);
        e.(sends := e.sends + if i.targetFound then 1 else 0, lost := e.lost + if i.selfFound then 0 else 1)
  }

  function Counted(effects: seq<Effect>): Tally {
    var m := multiset(effects);
    Tally(m[SendToTarget], m[EmitError(NoReference)], m[EmitError(RetriesExhausted)], m[StopSelf])
  }

  function Left(st: RetryState): nat {
    if st.retries >= MaxRetries(st.strategy) then 0 else MaxRetries(st.strategy) - st.retries
  }

  /** Over every stream of messages, exactly that happens. */
  lemma {:induction false} StreamExact(st: RetryState, inputs: seq<Input>)
    ensures Counted(RunSpec(st, inputs).1) == Expected(Left(st), st.isEnd, inputs)
    decreases |inputs|
  {
    if inputs != [] {
      var (i, rest) := (inputs[0], inputs[1..]);
      var (st1, now) := HandleSpec(st, i.message, i.targetFound, i.selfFound);
      StreamExact(st1, rest);
      MessageExact(st, i);
      ExpectedCons(Left(st), st.isEnd, inputs);
      assert multiset(now + RunSpec(st1, rest).1) == multiset(now) + multiset(RunSpec(st1, rest).1);
      hide HandleSpec, Expected, Left;
    }
  }

  lemma ExpectedCons(left: nat, ended: bool, inputs: seq<Input>)
    requires inputs != []
    ensures var (i, rest) := (inputs[0], inputs[1..]);
            var next := if i.message.Retry? && !ended && left > 0 then left - 1 else left;
            var (now, later) := (Expected(left, ended, [i]), Expected(next, ended || i.message.End?, rest));
            Expected(left, ended, inputs) ==
              Tally(now.sends + later.sends, now.lost + later.lost,
                    now.exhausted + later.exhausted, now.stops + later.stops)
  {
    assert [inputs[0]][1..] == [];
  }

  lemma MessageExact(st: RetryState, i: Input)
    ensures var (st1, now) := HandleSpec(st, i.message, i.targetFound, i.selfFound);
            && Counted(now) == Expected(Left(st), st.isEnd, [i])
            && st1.isEnd == (st.isEnd || i.message.End?)
            && Left(st1) == if i.message.Retry? && !st.isEnd && Left(st) > 0 then Left(st) - 1 else Left(st)
  {
    assert [i][1..] == [];
  }

  // ------------------------------------------- driven by its own rescheduling

  /** The effects of one Retry and of every Retry it schedules. */
  function Driven(st: RetryState): seq<Effect>
    requires !st.isEnd
    decreases MaxRetries(st.strategy) + 1 - st.retries
  {
    var (st1, now) := HandleSpec(st, RetryMessage.Retry, true, true);
    if now != [] && now[|now| - 1].Schedule? then now + Driven(st1) else now
  }

  function Attempts(waits: seq<Duration>): seq<Effect> {
    if waits == [] then [] else [SendToTarget, Schedule(waits[0])] + Attempts(waits[1..])
  }

  function Repeated(d: Duration, n: nat): seq<Duration> {
    seq(n, _ => d)
  }

  lemma {:induction false} DrivenFixed(limit: nat, d: Duration, retries: nat)
    requires retries <= limit
    ensures Driven(RetryState(FixedInterval(limit, d), retries, false)) ==
              Attempts(Repeated(d, limit - retries)) + [EmitError(RetriesExhausted)]
    decreases limit - retries
  {
    if retries < limit {
      DrivenFixed(limit, d, retries + 1);
      assert Repeated(d, limit - retries)[1..] == Repeated(d, limit - retries - 1);
      assert [SendToTarget] + [Schedule(d)] == [SendToTarget, Schedule(d)];
    }
  }

  lemma {:induction false} DrivenCustom(limit: nat, waits: seq<Duration>, retries: nat)
    requires retries + |waits| == limit
    ensures Driven(RetryState(CustomInterval(limit, waits), retries, false)) ==
              Attempts(waits) + [EmitError(RetriesExhausted)]
    decreases limit - retries
  {
    if waits != [] {
      DrivenCustom(limit, waits[1..], retries + 1);
      assert [SendToTarget] + [Schedule(waits[0])] == [SendToTarget, Schedule(waits[0])];
    }
  }

  lemma {:induction false} AttemptsCount(waits: seq<Duration>)
    ensures Sends(Attempts(waits) + [EmitError(RetriesExhausted)]) == |waits|
  {
    var tail := [EmitError(RetriesExhausted)];
    if waits == [] {
      assert Attempts(waits) + tail == tail;
    } else {
      AttemptsCount(waits[1..]);
      var pair := [SendToTarget, Schedule(waits[0])];
      assert Attempts(waits) + tail == pair + (Attempts(waits[1..]) + tail);
      SendsConcat(pair, Attempts(waits[1..]) + tail);
      assert Sends(pair) == 1;
    }
  }

  /** From one Retry: a fixed interval makes exactly n attempts, n waits apart,
      and then reports the error once; a custom strategy waits its durations in
      order; without an interval the actor makes one attempt and falls silent,
      and reports nothing however many retries it was allowed. */
  lemma RetryRuns(limit: nat, d: Duration, waits: seq<Duration>)
    ensures Driven(RetryState(FixedInterval(limit, d), 0, false)) ==
              Attempts(Repeated(d, limit)) + [EmitError(RetriesExhausted)]
    ensures Sends(Driven(RetryState(FixedInterval(limit, d), 0, false))) == limit
    ensures Driven(RetryState(Custom(waits), 0, false)) == Attempts(waits) + [EmitError(RetriesExhausted)]
    ensures Sends(Driven(RetryState(Custom(waits), 0, false))) == |waits|
    ensures Driven(RetryState(NoInterval(limit), 0, false)) ==
              if limit > 0 then [SendToTarget] else [EmitError(RetriesExhausted)]
  {
    DrivenFixed(limit, d, 0);
    AttemptsCount(Repeated(d, limit));
    DrivenCustom(|waits|, waits, 0);
    AttemptsCount(waits);
  }
}
