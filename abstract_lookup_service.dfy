/**
  AbstractLookupService: the producer/consumer engine behind the ID lookups. Callers
  queue IDs; a background worker drains the queue in passes of at most MaxLength IDs,
  makes one request per non-empty pass and, after a run of requests, fires the
  "updates ready" event once the queue is found empty, then waits to be signalled.

  The worker is modelled as steps the environment takes: `Pass` is one iteration of the
  do-while loop up to the wait, `Resume` is the wait returning. The AutoResetEvent is the
  flag `signaled` (Set raises the flag, a completed wait lowers it); the requests made
  and the events fired are recorded.
*/
module AbstractLookupService {
  import opened Common

  /** Where the worker is: not started, between waits, waiting for a signal, or finished. */
  datatype Phase = Idle | Running | Waiting | Exited

  /** The service's state as a value. */
  datatype ServiceState = ServiceState(
    queue: seq<int32>,
    signaled: bool,
    readyDisposed: bool,
    cancelled: bool,
    disposed: bool,
    cleared: bool,
    phase: Phase,
    requests: seq<seq<int32>>,
    events: nat)

  function Min(a: int, b: int): int {
    if a < b then a else b
  }

  function Max(a: int, b: int): int {
    if a < b then b else a
  }

  /** How many IDs a pass takes off a queue of n: one more than it keeps when more are pending. */
  function Removed(n: nat, maxLength: int): (k: nat)
    ensures k <= n
    ensures n == 0 <==> k == 0
  {
    Min(n, Max(maxLength, 0) + 1)
  }

  /** The IDs a pass keeps for its request: the first MaxLength of the queue, in order. */
  function Collected(queue: seq<int32>, maxLength: int): (ids: seq<int32>)
    ensures |ids| <= Max(maxLength, 0) && |ids| <= Removed(|queue|, maxLength)
    ensures ids == queue[..|ids|]
  {
    queue[..Min(|queue|, Max(maxLength, 0))]
  }

  /** The loop test: once cancellation is requested the worker leaves the loop and disposes the event. */
  function LoopCheck(s: ServiceState): ServiceState {
    if s.cancelled then s.(phase := Exited, readyDisposed := true) else s.(phase := Running)
  }

  /** Queue: the ID goes to the tail, then the event is set; setting a disposed event raises. */
  function QueueStep(s: ServiceState, id: int32): (ServiceState, Option<Exn>) {
    (s.(queue := s.queue + [id], signaled := s.signaled || !s.readyDisposed),
     if s.readyDisposed then Some(ObjectDisposed) else None)
  }

  /**
    One pass of the worker: drain, then either request the IDs kept and mark the queue as
    being cleared, or (nothing kept) fire the event if the previous pass requested
    something and start waiting.
  */
  function PassStep(s: ServiceState, maxLength: int): ServiceState
    requires s.phase == Running
  {
    var taken := Collected(s.queue, maxLength);
    var rest := s.queue[Removed(|s.queue|, maxLength)..];
    if |taken| < 1 then
      s.(queue := rest, events := s.events + (if s.cleared then 1 else 0), phase := Waiting)
    else
      LoopCheck(s.(queue := rest, requests := s.requests + [taken], cleared := true))
  }

  /** The wait returns: the event resets itself, `cleared` is reset and the loop test runs. */
  function ResumeStep(s: ServiceState): ServiceState
    requires s.phase == Waiting && s.signaled
  {
    LoopCheck(s.(signaled := false, cleared := false))
  }

  /** Dispose: the first call sets the event and requests cancellation; later calls do nothing. */
  function DisposeStep(s: ServiceState): ServiceState {
    if s.disposed then s else s.(signaled := true, cancelled := true, disposed := true)
  }

  /**
    The states the service can be in: only Dispose cancels, the event is disposed only by
    the worker leaving its loop, and that happens only after cancellation.
  */
  predicate Consistent(s: ServiceState) {
    && (s.cancelled <==> s.disposed)
    && (s.readyDisposed <==> s.phase == Exited)
    && (s.readyDisposed ==> s.cancelled)
  }

  // ---------------------------------------------------------------------------------
  // Properties of the steps

  /** Every step keeps the service consistent. */
  lemma StepsKeepConsistent(s: ServiceState, id: int32, maxLength: int)
    requires Consistent(s)
    ensures Consistent(QueueStep(s, id).0)
    ensures s.phase == Running ==> Consistent(PassStep(s, maxLength))
    ensures s.phase == Waiting && s.signaled ==> Consistent(ResumeStep(s))
    ensures Consistent(DisposeStep(s))
  {
  }

  /**
    Queue appends the ID at the tail (a duplicate is kept) and signals the worker; once
    the worker has exited it raises ObjectDisposedException, the ID staying queued.
  */
  lemma QueueAppends(s: ServiceState, id: int32)
    ensures QueueStep(s, id).0.queue == s.queue + [id]
    ensures QueueStep(s, id).0.queue[|s.queue|] == id
    ensures !s.readyDisposed ==> QueueStep(s, id).0.signaled && QueueStep(s, id).1.None?
    ensures s.readyDisposed ==> QueueStep(s, id).1 == Some(ObjectDisposed)
    ensures QueueStep(s, id).0.(queue := s.queue, signaled := s.signaled) == s
  {
  }

  /**
    A pass takes a prefix off the queue and never puts anything back: the IDs kept are
    the first ones, in order, at most MaxLength of them; when more than MaxLength are
    pending, the ID after them is removed too and appears nowhere.
  */
  lemma PassTakesPrefix(s: ServiceState, maxLength: int)
    requires s.phase == Running
    ensures var s' := PassStep(s, maxLength);
      var taken := Collected(s.queue, maxLength);
      && s.queue == s.queue[..Removed(|s.queue|, maxLength)] + s'.queue
      && |taken| <= Max(maxLength, 0)
      && taken == s.queue[..|taken|]
    ensures maxLength >= 0 && |s.queue| > maxLength ==>
      var s' := PassStep(s, maxLength);
      s.queue == Collected(s.queue, maxLength) + [s.queue[maxLength]] + s'.queue
    ensures maxLength >= 0 && |s.queue| <= maxLength ==>
      PassStep(s, maxLength).queue == [] && Collected(s.queue, maxLength) == s.queue
  {
    var k := Removed(|s.queue|, maxLength);
    assert s.queue == s.queue[..k] + s.queue[k..];
    if maxLength >= 0 && |s.queue| > maxLength {
      assert s.queue[..k] == s.queue[..maxLength] + [s.queue[maxLength]];
    }
  }

  /**
    A pass that keeps IDs makes exactly one request, with those IDs, sets `cleared` and
    fires nothing; a pass that keeps none requests nothing, fires the event iff the
    previous pass requested something, and waits.
  */
  lemma PassRequestsOrSettles(s: ServiceState, maxLength: int)
    requires s.phase == Running
    ensures var s' := PassStep(s, maxLength);
      var taken := Collected(s.queue, maxLength);
      && (|taken| >= 1 ==> s'.requests == s.requests + [taken] && s'.cleared && s'.events == s.events)
      && (|taken| >= 1 ==> (s'.phase == Exited <==> s.cancelled))
      && (|taken| == 0 ==> s'.requests == s.requests && s'.phase == Waiting)
      && (|taken| == 0 ==> s'.events == s.events + (if s.cleared then 1 else 0))
  {
  }

  /**
    The event fires once per run of requests: after the firing pass and the wait, further
    empty passes fire nothing, however often the worker is woken.
  */
  lemma SettleFiresOnce(s: ServiceState, maxLength: int)
    requires s.phase == Running && s.queue == [] && !s.cancelled
    ensures var s1 := PassStep(s, maxLength);
      s1.events == s.events + (if s.cleared then 1 else 0) &&
      (s1.signaled ==> var s2 := ResumeStep(s1);
        s2.phase == Running && !s2.cleared && PassStep(s2, maxLength).events == s1.events)
  {
  }

  /** Once cancellation is requested, the next loop test ends the worker and disposes the event. */
  lemma CancelledWorkerExits(s: ServiceState, maxLength: int)
    requires s.cancelled
    ensures s.phase == Waiting && s.signaled ==> ResumeStep(s).phase == Exited && ResumeStep(s).readyDisposed
    ensures s.phase == Running && |Collected(s.queue, maxLength)| >= 1 ==>
      PassStep(s, maxLength).phase == Exited
  {
  }

  /** Dispose acts on its first call only: a second call changes nothing, and the worker is woken to see the cancellation. */
  lemma DisposeIdempotent(s: ServiceState)
    requires Consistent(s)
    ensures DisposeStep(DisposeStep(s)) == DisposeStep(s)
    ensures DisposeStep(s).cancelled && DisposeStep(s).disposed
    ensures !s.disposed ==> DisposeStep(s).signaled
    ensures DisposeStep(s).queue == s.queue && DisposeStep(s).requests == s.requests
  {
  }

  // ---------------------------------------------------------------------------------
  // The service object

  class LookupService {
    /** MaxLength, fixed by the concrete service. */
    const maxLength: int32
    var queue: seq<int32>
    /** The AutoResetEvent `ready`: whether it is set, and whether it has been disposed. */
    var signaled: bool
    var readyDisposed: bool
    /** Whether cancellation has been requested on the CancellationTokenSource. */
    var cancelled: bool
    var disposed: bool
    /** The worker's local flag: the previous pass made a request. */
    var cleared: bool
    var phase: Phase
    /** The ID lists passed to RequestAsync, in order. */
    var requests: seq<seq<int32>>
    /** How many times FireEvent ran. */
    var events: nat

    function View(): ServiceState
      reads this
    {
      ServiceState(queue, signaled, readyDisposed, cancelled, disposed, cleared, phase, requests, events)
    }

    ghost predicate Valid()
      reads this
    {
      Consistent(View())
    }

    /** A new service: empty queue, event not set, nothing cancelled, worker not started. */
    constructor (maxLength: int32)
      ensures Valid()
      ensures this.maxLength == maxLength
      ensures View() == ServiceState([], false, false, false, false, false, Idle, [], 0)
    {
      this.maxLength := maxLength;
      queue := [];
      signaled := false;
      readyDisposed := false;
      cancelled := false;
      disposed := false;
      cleared := false;
      phase := Idle;
      requests := [];
      events := 0;
    }

    /** Initialize: starts the worker. */
    method Initialize()
      requires Valid() && phase == Idle
      modifies this`phase
      ensures Valid()
      ensures View() == old(View()).(phase := Running)
    {
      phase := Running;
    }

    method Queue(id: int32) returns (thrown: Option<Exn>)
      requires Valid()
      modifies this`queue, this`signaled
      ensures Valid()
      ensures (View(), thrown) == QueueStep(old(View()), id)
    {
      queue := queue + [id];
      if readyDisposed {
        return Some(ObjectDisposed);
      }
      signaled := true;
      return None;
    }

    /** The inner loop: TryDequeue runs before the size test, so the ID that finds the list full is dropped. */
    method Drain() returns (toDo: seq<int32>)
      modifies this`queue
      ensures toDo == Collected(old(queue), maxLength)
      ensures queue == old(queue)[Removed(|old(queue)|, maxLength)..]
    {
      toDo := [];
      ghost var q0 := queue;
      while true
        invariant q0 == toDo + queue
        invariant |toDo| <= Max(maxLength as int, 0)
        decreases |queue|
      {
        if queue == [] {
          assert toDo == q0;
          break;
        }
        var id := queue[0];
        queue := queue[1..];
        if !(|toDo| < maxLength as int) {
          assert q0 == toDo + [id] + queue;
          assert q0[..|toDo|] == toDo;
          assert q0[|toDo| + 1..] == queue;
          break;
        }
        toDo := toDo + [id];
      }
    }

    /** One iteration of the worker's loop, up to the wait or the loop test. */
    method Pass()
      requires Valid() && phase == Running
      modifies this
      ensures Valid()
      ensures View() == PassStep(old(View()), maxLength)
    {
      StepsKeepConsistent(View(), 0, maxLength);
      var toDo := Drain();
      if |toDo| < 1 {
        if cleared {
          events := events + 1;
        }
        phase := Waiting;
      } else {
        requests := requests + [toDo];
        cleared := true;
        LoopTest();
      }
    }

    /** The wait returns once the event is set; it resets the event. */
    method Resume()
      requires Valid() && phase == Waiting && signaled
      modifies this
      ensures Valid()
      ensures View() == ResumeStep(old(View()))
    {
      StepsKeepConsistent(View(), 0, maxLength);
      signaled := false;
      cleared := false;
      LoopTest();
    }

    method LoopTest()
      modifies this`phase, this`readyDisposed
      ensures View() == LoopCheck(old(View()))
    {
      if cancelled {
        phase := Exited;
        readyDisposed := true;
      } else {
        phase := Running;
      }
    }

    method Dispose()
      requires Valid()
      modifies this`signaled, this`cancelled, this`disposed
      ensures Valid()
      ensures View() == DisposeStep(old(View()))
    {
      if !disposed {
        signaled := true;
        cancelled := true;
        disposed := true;
      }
    }
  }
}
