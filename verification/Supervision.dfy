/** Retry strategies: how many attempts, and how long to wait before each. */
module Supervision {
  import opened Wrappers

  type Duration = nat

  datatype Strategy =
    | NoInterval(limit: nat)
    | FixedInterval(limit: nat, duration: Duration)
    | CustomInterval(limit: nat, durations: seq<Duration>)

  datatype SupervisionStrategy = Stop | Retry(strategy: Strategy)

  /** `CustomIntervalStrategy::new` */
  function Custom(durations: seq<Duration>): Strategy {
    CustomInterval(|durations|, durations)
  }

  function MaxRetries(s: Strategy): nat {
    s.limit
  }

  /** `next_backoff`: the wait, and the strategy it leaves behind. Only the
      custom strategy changes: it pops its queue. */
  function NextBackoff(s: Strategy): (Option<Duration>, Strategy) {
    match s
    case NoInterval(_) => (None, s)
    case FixedInterval(_, d) => (Some(d), s)
    case CustomInterval(n, ds) => if ds == [] then (None, s) else (Some(ds[0]), CustomInterval(n, ds[1..]))
  }

  /** The waits of `n` successive calls. */
  function Backoffs(s: Strategy, n: nat): seq<Option<Duration>>
    decreases n
  {
    if n == 0 then [] else [NextBackoff(s).0] + Backoffs(NextBackoff(s).1, n - 1)
  }

  /** A custom strategy hands out its durations in order and then none. */
  lemma {:induction false} CustomInOrder(ds: seq<Duration>, limit: nat, n: nat)
    ensures |Backoffs(CustomInterval(limit, ds), n)| == n
    ensures forall i | 0 <= i < n ::
              Backoffs(CustomInterval(limit, ds), n)[i] == if i < |ds| then Some(ds[i]) else None
    decreases n
  {
    if n > 0 {
      var rest := if ds == [] then [] else ds[1..];
      CustomInOrder(rest, limit, n - 1);
      forall i | 0 < i < n
        ensures Backoffs(CustomInterval(limit, ds), n)[i] == if i < |ds| then Some(ds[i]) else None
      {
        assert Backoffs(CustomInterval(limit, ds), n)[i] == Backoffs(CustomInterval(limit, rest), n - 1)[i - 1];
      }
    }
  }
}
