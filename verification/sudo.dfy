/**
 * The sudo keep-alive guard (src/pres/sudo.rs).  A background worker
 * refreshes the sudo timestamp with `sudo -n -v` once per interval and raises
 * `needs_reauth` when a refresh fails; the foreground reads and clears that
 * flag, and stops the worker.  The worker thread is modelled sequentially:
 * one `ProbeTick` is one pass of the worker loop, and the stop flag as the
 * worker observes it during a wait is an input sequence.
 */
module SudoSession {
  import opened Common

  /** The join handle of the worker thread, with the interval it was started with. */
  datatype Worker = Worker(intervalMs: nat)

  /** What happened to the guard since `start`, in order. */
  datatype GuardEvent = Tick(probeOk: bool) | Clear | StopRaised

  /** The stop flag after `events`: raised once and never lowered. */
  predicate StoppedAfter(events: seq<GuardEvent>) {
    StopRaised in events
  }

  /**
   * The reauth flag after `events`: a failed tick raises it unless the worker
   * has already seen the stop flag, a clear lowers it, nothing else touches it.
   */
  function ReauthAfter(events: seq<GuardEvent>): bool
    decreases |events|
  {
    if |events| == 0 then false
    else
      var before := events[..|events| - 1];
      match events[|events| - 1]
      case Tick(ok) => ReauthAfter(before) || (!ok && !StoppedAfter(before))
      case Clear => false
      case StopRaised => ReauthAfter(before)
  }

  /**
   * Event `i` is a failed probe made by a worker that had not been stopped,
   * and the foreground has not cleared the flag after it.
   */
  predicate UnclearedFailure(events: seq<GuardEvent>, i: int) {
    0 <= i < |events| && events[i] == Tick(false) && !StoppedAfter(events[..i])
    && Clear !in events[i + 1..]
  }

  /**
   * The reauth flag is up exactly when some probe of the running worker
   * failed and the foreground has not cleared the flag since.
   */
  lemma {:induction false} ReauthMeansUnclearedFailure(events: seq<GuardEvent>)
    ensures ReauthAfter(events) <==> exists i :: UnclearedFailure(events, i)
    decreases |events|
  {
    if |events| > 0 {
      var n := |events| - 1;
      var before := events[..n];
      var e := events[n];
      assert events == before + [e];
      ReauthMeansUnclearedFailure(before);
      if e == Clear {
        ClearedFailures(before);
      } else {
        EarlierFailures(before, e);
        if ReauthAfter(before) {
          var i :| UnclearedFailure(before, i);
          assert UnclearedFailure(events, i);
        }
        if e == Tick(false) && !StoppedAfter(before) {
          assert events[..n] == before && events[n + 1..] == [];
          assert UnclearedFailure(events, n);
        }
      }
    }
  }

  /** A clear at the end leaves no uncleared failure. */
  lemma ClearedFailures(before: seq<GuardEvent>)
    ensures forall i :: !UnclearedFailure(before + [Clear], i)
  {
    var events := before + [Clear];
    forall i | 0 <= i < |events|
      ensures !UnclearedFailure(events, i)
    {
      if i < |before| {
        assert events[|events| - 1] == Clear;
        assert Clear in events[i + 1..];
      }
    }
  }

  /** An event other than a clear leaves the earlier uncleared failures as they were. */
  lemma EarlierFailures(before: seq<GuardEvent>, e: GuardEvent)
    requires e != Clear
    ensures forall i :: 0 <= i < |before| ==> (UnclearedFailure(before + [e], i) <==> UnclearedFailure(before, i))
  {
    var events := before + [e];
    forall i | 0 <= i < |before|
      ensures UnclearedFailure(events, i) <==> UnclearedFailure(before, i)
    {
      assert events[..i] == before[..i];
      assert events[i + 1..] == before[i + 1..] + [e];
    }
  }

  /** After a clear, the flag stays down through any run of successful probes and stops. */
  lemma {:induction false} ClearHoldsUntilFailure(events: seq<GuardEvent>, later: seq<GuardEvent>)
    requires forall j :: 0 <= j < |later| ==> later[j] != Tick(false)
    ensures !ReauthAfter(events + [Clear] + later)
    decreases |later|
  {
    if |later| > 0 {
      var all := events + [Clear] + later;
      assert all[..|all| - 1] == events + [Clear] + later[..|later| - 1];
      ClearHoldsUntilFailure(events, later[..|later| - 1]);
    }
  }

  class SudoKeepAliveGuard {
    var stop: bool
    var needsReauth: bool
    var handle: Option<Worker>
    /** Everything that happened to the guard since `start`. */
    ghost var history: seq<GuardEvent>
    /** Number of times the worker thread was joined. */
    ghost var joins: nat

    ghost predicate Valid()
      reads this
    {
      needsReauth == ReauthAfter(history)
      && stop == StoppedAfter(history)
      && (handle.Some? <==> !stop)
      && joins == (if stop then 1 else 0)
    }

    /** `start`: both flags down and a running worker. */
    constructor Start(intervalMs: nat)
      ensures Valid()
      ensures !stop && !needsReauth && handle == Some(Worker(intervalMs))
      ensures history == []
    {
      stop := false;
      needsReauth := false;
      handle := Some(Worker(intervalMs));
      history := [];
      joins := 0;
    }

    /**
     * One pass of the worker loop: if the worker still sees the stop flag
     * down it probes `sudo -n -v`, and a failed probe raises the flag.  A
     * successful probe never lowers it.
     */
    method ProbeTick(probeOk: bool)
      requires Valid()
      modifies this
      ensures Valid()
      ensures history == old(history) + [Tick(probeOk)]
      ensures needsReauth == (old(needsReauth) || (!stop && !probeOk))
      ensures stop == old(stop) && handle == old(handle)
    {
      if !stop {
        if !probeOk {
          needsReauth := true;
        }
      }
      history := history + [Tick(probeOk)];
      assert history[..|history| - 1] == old(history);
    }

    function NeedsReauth(): bool
      reads this
    {
      needsReauth
    }

    /** `clear_reauth_flag`: the foreground acknowledges a re-authentication. */
    method ClearReauthFlag()
      requires Valid()
      modifies this
      ensures Valid()
      ensures !NeedsReauth()
      ensures history == old(history) + [Clear]
      ensures stop == old(stop) && handle == old(handle)
    {
      needsReauth := false;
      history := history + [Clear];
      assert history[..|history| - 1] == old(history);
    }

    /** `stop`: raises the stop flag and joins the worker if it is still attached. */
    method Stop()
      requires Valid()
      modifies this
      ensures Valid()
      ensures stop && handle == None
      ensures needsReauth == old(needsReauth)
      ensures joins == old(joins) + (if old(handle).Some? then 1 else 0)
      ensures history == old(history) + [StopRaised]
    {
      stop := true;
      if handle.Some? {
        handle := None;
        joins := joins + 1;
      }
      history := history + [StopRaised];
      assert history[..|history| - 1] == old(history);
    }

    /** `Drop`: dropping the guard stops it. */
    method Drop()
      requires Valid()
      modifies this
      ensures Valid()
      ensures stop && handle == None
      ensures joins == old(joins) + (if old(handle).Some? then 1 else 0)
    {
      Stop();
    }
  }

  /** A second `stop` joins nothing: the worker is joined at most once. */
  method StopTwice(g: SudoKeepAliveGuard)
    requires g.Valid()
    modifies g
    ensures g.Valid() && g.stop && g.handle == None
    ensures g.joins <= 1
  {
    g.Stop();
    g.Stop();
  }

  const ChunkMs: nat := 250

  /** The stop flag as the worker reads it before chunk `k` of a wait. */
  predicate StopSeen(observed: seq<bool>, k: nat) {
    k < |observed| && observed[k]
  }

  /**
   * The wait between two probes: sleeps in 250 ms chunks until the interval
   * has elapsed or the worker sees the stop flag.  Returns the number of
   * chunks slept.
   */
  method WaitBetweenProbes(intervalMs: nat, observed: seq<bool>) returns (chunks: nat)
    ensures chunks <= (intervalMs + ChunkMs - 1) / ChunkMs
    ensures forall k :: 0 <= k < chunks ==> !StopSeen(observed, k)
    ensures chunks * ChunkMs >= intervalMs || StopSeen(observed, chunks)
  {
    var slept := 0;
    chunks := 0;
    while slept < intervalMs && !StopSeen(observed, chunks)
      invariant slept == chunks * ChunkMs
      invariant chunks <= (intervalMs + ChunkMs - 1) / ChunkMs
      invariant forall k :: 0 <= k < chunks ==> !StopSeen(observed, k)
      decreases intervalMs - slept
    {
      slept := slept + ChunkMs;
      chunks := chunks + 1;
    }
  }
}
