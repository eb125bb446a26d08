/** A traffic signal: a three-phase cyclic state machine (red, yellow, green)
    with one duration per phase, and the registry of every signal created. */
module Signal {
  import opened Wrappers

  /** The phase names, in cycling order. */
  const States: seq<string> := ["red", "yellow", "green"]

  /** The durations a new signal starts with, one per phase. */
  const DefaultTimers: seq<int> := [10, 2, 15]

  /** The two exceptions of the signal component. */
  datatype SignalError = InvalidSignalID | InvalidTimer

  /** One line of the registry's status listing. */
  datatype SignalStatus = SignalStatus(signalID: string, state: string, timer: int)

  /** The phase index after one `signal()` call from phase index `i`. */
  function NextIndex(i: int): (j: int)
    requires 0 <= i < |States|
    ensures 0 <= j < |States|
    ensures j == 0 <==> i == |States| - 1
    ensures i < |States| - 1 ==> j == i + 1
  {
    (i + 1) % |States|
  }

  /** The phase index after `n` calls of `signal()` on a freshly created signal. */
  function IndexAfter(n: nat): (i: int)
    ensures 0 <= i < |States|
  {
    if n == 0 then 0 else NextIndex(IndexAfter(n - 1))
  }

  /** After `n` calls the signal shows the phase `n mod 3`, counted from red. */
  lemma {:induction false} IndexAfterIsModulo(n: nat)
    ensures IndexAfter(n) == n % |States|
  {
    if n > 0 {
      IndexAfterIsModulo(n - 1);
    }
  }

  /** Three calls bring a new signal back to red, showing the default red duration. */
  lemma ThreeSignalsReturnToRed()
    ensures States[IndexAfter(3)] == "red" && DefaultTimers[IndexAfter(3)] == 10
  {
    IndexAfterIsModulo(3);
  }

  class TrafficSignal {
    const signalID: string
    const timers: array<int>
    var currentIndex: int

    /** A constructed signal: three positive durations and a phase index in range. */
    ghost predicate Valid()
      reads this, timers
      ensures Valid() ==> Readable()
    {
      timers.Length == |States| && 0 <= currentIndex < |States| &&
      forall k :: 0 <= k < timers.Length ==> timers[k] > 0
    }

    /** Construction once the ID is known to be non-empty; `Create` performs
        the check. The new signal appends itself to the registry. */
    constructor (signalID: string, registry: SignalRegistry)
      requires signalID != ""
      modifies registry
      ensures Valid() && fresh(timers)
      ensures this.signalID == signalID && currentIndex == 0 && timers[..] == DefaultTimers
      ensures registry.signals == old(registry.signals) + [this]
      ensures old(registry.Listable()) ==> registry.Listable()
    {
      this.signalID := signalID;
      timers := new int[] [10, 2, 15];
      currentIndex := 0;
      new;
      registry.signals := registry.signals + [this];
    }

    /** Advances to the next phase, wrapping from green to red; never fails. */
    method Signal()
      requires Valid()
      modifies this
      ensures Valid()
      ensures currentIndex == NextIndex(old(currentIndex))
    {
      currentIndex := (currentIndex + 1) % |States|;
    }

    /** What the getters and the status listing need to read a signal: the
        durations array has one entry per phase and the index is not past the
        last phase. The index is -1 only before the constructor sets it. */
    predicate Readable()
      reads this
    {
      timers.Length == |States| && currentIndex < |States|
    }

    /** The name of the current phase, or "none" while no phase is set. */
    function GetCurrentState(): (state: string)
      reads this, timers
      requires Readable()
      ensures state != "none" <==> currentIndex >= 0
      ensures currentIndex >= 0 ==> state == States[currentIndex]
    {
      if currentIndex >= 0 then States[currentIndex] else "none"
    }

    /** The duration of the current phase, or 0 while no phase is set. */
    function GetCurrentTimer(): (timer: int)
      reads this, timers
      requires Readable()
      ensures currentIndex >= 0 ==> timer == timers[currentIndex]
      ensures currentIndex < 0 ==> timer == 0
    {
      if currentIndex >= 0 then timers[currentIndex] else 0
    }

    /** Replaces the three durations together, or rejects the whole update
        when any of them is not positive. */
    method SetTimers(redTime: int, yellowTime: int, greenTime: int) returns (outcome: Outcome<SignalError>)
      requires Valid()
      modifies timers
      ensures Valid()
      ensures outcome.Fail? <==> redTime <= 0 || yellowTime <= 0 || greenTime <= 0
      ensures outcome.Fail? ==> outcome.error == InvalidTimer && timers[..] == old(timers[..])
      ensures outcome.Pass? ==> timers[..] == [redTime, yellowTime, greenTime]
      ensures currentIndex == old(currentIndex)
    {
      if redTime <= 0 || yellowTime <= 0 || greenTime <= 0 {
        return Fail(InvalidTimer);
      }
      timers[0] := redTime;
      timers[1] := yellowTime;
      timers[2] := greenTime;
      outcome := Pass;
    }

    function GetSignalID(): (id: string)
      reads this
      ensures id == signalID
    {
      signalID
    }
  }

  /** The process-wide list of every signal created, in creation order. Only
      the signal constructor changes it, and only by appending. */
  class SignalRegistry {
    var signals: seq<TrafficSignal>

    constructor ()
      ensures signals == [] && Listable()
    {
      signals := [];
    }

    /** Every registered signal can be listed. This holds because only the
        signal constructor appends, after it has set the phase index. */
    predicate Listable()
      reads this, set k | 0 <= k < |signals| :: signals[k]
    {
      forall k :: 0 <= k < |signals| ==> signals[k].Readable()
    }

    /** The status listing: one line per registered signal, in registration order. */
    method ShowTrafficSignal() returns (report: seq<SignalStatus>)
      requires Listable()
      ensures |report| == |signals|
      ensures forall k :: 0 <= k < |signals| ==>
                report[k] == SignalStatus(signals[k].signalID, signals[k].GetCurrentState(),
                                          signals[k].GetCurrentTimer())
    {
      report := [];
      for k := 0 to |signals|
        invariant |report| == k
        invariant forall j :: 0 <= j < k ==>
                    report[j] == SignalStatus(signals[j].signalID, signals[j].GetCurrentState(),
                                              signals[j].GetCurrentTimer())
      {
        var ts := signals[k];
        var state := if ts.currentIndex >= 0 then States[ts.currentIndex] else "none";
        var timer := if ts.currentIndex >= 0 then ts.timers[ts.currentIndex] else 0;
        report := report + [SignalStatus(ts.signalID, state, timer)];
      }
    }
  }

  /** A constructed signal never reports the "none" phase or a zero duration. */
  lemma ConstructedSignalHasPhase(ts: TrafficSignal)
    requires ts.Valid()
    ensures ts.GetCurrentState() in States && ts.GetCurrentTimer() > 0
  {
  }

  /** The signal constructor with its ID check: a null or empty ID creates no
      signal and leaves the registry as it was. */
  method Create(signalID: Option<string>, registry: SignalRegistry)
    returns (r: Result<TrafficSignal, SignalError>)
    modifies registry
    ensures r.Failure? <==> signalID.None? || signalID.value == ""
    ensures r.Failure? ==> r.error == InvalidSignalID && registry.signals == old(registry.signals)
    ensures r.Success? ==> fresh(r.value) && fresh(r.value.timers) && r.value.Valid()
    ensures r.Success? ==> r.value.signalID == signalID.value && r.value.currentIndex == 0
    ensures r.Success? ==> r.value.timers[..] == DefaultTimers
    ensures r.Success? ==> registry.signals == old(registry.signals) + [r.value]
    ensures r.Success? ==> r.value !in old(registry.signals)
    ensures old(registry.Listable()) ==> registry.Listable()
  {
    if signalID.None? || signalID.value == "" {
      return Failure(InvalidSignalID);
    }
    var signal := new TrafficSignal(signalID.value, registry);
    r := Success(signal);
  }
}
