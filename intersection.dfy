/** The intersection checker: one instance tracks one conceptual vehicle
    through the ten intersections of a three-lane road. Lanes and
    intersections are 0-based here and 1-based in log text and errors. */
module Intersection {
  import opened Wrappers

  const NumLanes: nat := 3
  const NumIntersections: nat := 10

  /** Whether the shared road layout has an intersection on `lane` at `index`:
      the first and third lanes have one everywhere, the middle lane none. */
  predicate IsCrossing(lane: int, index: int)
  {
    lane == 0 || lane == 2
  }

  /** `layout` is the shared road layout: 1 where an intersection exists, 0 elsewhere. */
  ghost predicate IsRoadLayout(layout: array2<int>)
    reads layout
  {
    layout.Length0 == NumLanes && layout.Length1 == NumIntersections &&
    forall l, i :: 0 <= l < NumLanes && 0 <= i < NumIntersections ==>
      layout[l, i] == if IsCrossing(l, i) then 1 else 0
  }

  /** A vehicle intends to use the intersections at even indices and skips the odd ones. */
  predicate Intends(index: int)
  {
    index % 2 == 0
  }

  /** `pattern` is the interaction pattern: 1 (interact) at even indices, 0 (skip) at odd ones. */
  ghost predicate IsInteractionPattern(pattern: array<int>)
    reads pattern
  {
    pattern.Length == NumIntersections &&
    forall i :: 0 <= i < NumIntersections ==> pattern[i] == if Intends(i) then 1 else 0
  }

  /** The static initialiser of the road layout. */
  method NewRoadLayout() returns (layout: array2<int>)
    ensures fresh(layout)
    ensures layout.Length0 == NumLanes && layout.Length1 == NumIntersections
    ensures forall l, i :: 0 <= l < NumLanes && 0 <= i < NumIntersections ==>
              (layout[l, i] == 1 <==> l == 0 || l == 2) && (layout[l, i] == 0 <==> l == 1)
    ensures IsRoadLayout(layout)
  {
    layout := new int[NumLanes, NumIntersections];
    for i := 0 to NumIntersections
      invariant forall l, j :: 0 <= l < NumLanes && 0 <= j < i ==>
                  layout[l, j] == if IsCrossing(l, j) then 1 else 0
    {
      layout[0, i] := 1;
      layout[1, i] := 0;
      layout[2, i] := 1;
    }
  }

  /** The loop of the constructor that fills the interaction pattern. */
  method NewInteractionPattern() returns (pattern: array<int>)
    ensures fresh(pattern)
    ensures pattern.Length == NumIntersections
    ensures forall i :: 0 <= i < NumIntersections ==>
              (pattern[i] == 1 <==> i % 2 == 0) && (pattern[i] == 0 <==> i % 2 == 1)
    ensures IsInteractionPattern(pattern)
  {
    pattern := new int[NumIntersections];
    for i := 0 to NumIntersections
      invariant forall j :: 0 <= j < i ==> pattern[j] == if Intends(j) then 1 else 0
    {
      if i % 2 == 0 {
        pattern[i] := 1;
      } else {
        pattern[i] := 0;
      }
    }
  }

  /** One entry of the activity log; `index` and `lane` are 0-based. */
  datatype LogEntry =
    | MovedThrough(index: int, lane: int)
    | NonExistent(index: int, lane: int)
    | Skipped(index: int, lane: int)
    | AllProcessed

  /** The exception the constructor throws for a lane outside 0..NumLanes-1. */
  datatype IllegalLane = IllegalLane(received: int)

  /** The exception thrown on an attempt to use a missing intersection;
      `intersection` and `lane` are 1-based, as in its message. */
  datatype InvalidIntersection = InvalidIntersection(vehicleId: string, intersection: int, lane: int)

  /** The abstract state of one tracker: what `moveThrough` reads and changes. */
  datatype Progress = Progress(vehicleId: string, lane: int, cursor: int, log: seq<LogEntry>)

  /** The states a constructed tracker can be in. */
  predicate Reachable(p: Progress)
  {
    0 <= p.lane < NumLanes && 0 <= p.cursor <= NumIntersections
  }

  /** The state right after construction. */
  function Start(vehicleId: string, lane: int): Progress
  {
    Progress(vehicleId, lane, 0, [])
  }

  /** The entry logged when the intersection at `index` (still to come) is processed on `lane`. */
  function Expected(lane: int, index: int): LogEntry
  {
    if !Intends(index) then Skipped(index, lane)
    else if IsCrossing(lane, index) then MovedThrough(index, lane)
    else NonExistent(index, lane)
  }

  /** One call of `moveThrough`: the new state and whether the call throws. */
  function Step(p: Progress): (r: (Progress, Outcome<InvalidIntersection>))
    requires Reachable(p)
    ensures Reachable(r.0) && r.0.vehicleId == p.vehicleId && r.0.lane == p.lane
    ensures p.log <= r.0.log
    ensures p.cursor < NumIntersections ==>
              r.0.cursor == p.cursor + 1 && r.0.log == p.log + [Expected(p.lane, p.cursor)]
    ensures p.cursor == NumIntersections ==>
              r.0.cursor == p.cursor && AllProcessed in r.0.log && |r.0.log| <= |p.log| + 1 &&
              (AllProcessed in p.log ==> r.0.log == p.log)
    ensures r.1.Fail? <==> p.cursor < NumIntersections && Expected(p.lane, p.cursor).NonExistent?
    ensures r.1.Fail? ==> r.1.error == InvalidIntersection(p.vehicleId, p.cursor + 1, p.lane + 1)
  {
    if p.cursor >= NumIntersections then
      var log := if AllProcessed in p.log then p.log else p.log + [AllProcessed];
      (p.(log := log), Pass)
    else if Intends(p.cursor) then
      if IsCrossing(p.lane, p.cursor) then
        (p.(cursor := p.cursor + 1, log := p.log + [MovedThrough(p.cursor, p.lane)]), Pass)
      else
        (p.(cursor := p.cursor + 1, log := p.log + [NonExistent(p.cursor, p.lane)]),
         Fail(InvalidIntersection(p.vehicleId, p.cursor + 1, p.lane + 1)))
    else
      (p.(cursor := p.cursor + 1, log := p.log + [Skipped(p.cursor, p.lane)]), Pass)
  }

  /** Once every intersection is processed, `moveThrough` never throws, keeps
      the cursor and logs the completion message at most once: a second call
      changes nothing. */
  lemma ExhaustedIsIdempotent(p: Progress)
    requires Reachable(p) && p.cursor == NumIntersections
    ensures Step(p).1 == Pass && Step(p).0.cursor == p.cursor
    ensures Step(Step(p).0) == (Step(p).0, Pass)
  {
  }

  /** `n` calls of `moveThrough` in a row: the final state and how many threw. */
  function Run(p: Progress, n: nat): (r: (Progress, nat))
    requires Reachable(p)
    ensures Reachable(r.0) && r.0.vehicleId == p.vehicleId && r.0.lane == p.lane
    ensures p.log <= r.0.log && p.cursor <= r.0.cursor && r.1 <= n
    decreases n
  {
    if n == 0 then (p, 0)
    else
      var (q, outcome) := Step(p);
      var (s, failures) := Run(q, n - 1);
      (s, failures + if outcome.Fail? then 1 else 0)
  }

  /** The entries logged while the `n` intersections from `from` on are processed. */
  function Planned(lane: int, from: int, n: nat): (entries: seq<LogEntry>)
    ensures |entries| == n
    decreases n
  {
    if n == 0 then [] else [Expected(lane, from)] + Planned(lane, from + 1, n - 1)
  }

  /** Entry `k` of the plan is the one expected at intersection `from + k`. */
  lemma {:induction false} PlannedAt(lane: int, from: int, n: nat, k: nat)
    requires k < n
    ensures Planned(lane, from, n)[k] == Expected(lane, from + k)
    decreases n
  {
    if k > 0 {
      PlannedAt(lane, from + 1, n - 1, k - 1);
    }
  }

  /** How many even numbers lie in [0, b). */
  function EvensBelow(b: nat): nat
  {
    (b + 1) / 2
  }

  /** Each even number adds one to the count of evens below it. */
  lemma EvensBelowStep(c: nat)
    ensures EvensBelow(c + 1) == EvensBelow(c) + if c % 2 == 0 then 1 else 0
  {
  }

  /** The state part of `RunFromCursor`. */
  lemma {:induction false} RunState(p: Progress, n: nat)
    requires Reachable(p) && p.cursor + n <= NumIntersections
    ensures Run(p, n).0 == p.(cursor := p.cursor + n, log := p.log + Planned(p.lane, p.cursor, n))
    decreases n
  {
    if n > 0 {
      var q := Step(p).0;
      StepBefore(p);
      assert Run(p, n).0 == Run(q, n - 1).0;
      RunState(q, n - 1);
      PlanExtends(p, n, Run(p, n).0);
    }
  }

  /** The bookkeeping of one induction step of `RunState`, free of `Step` and `Run`. */
  lemma PlanExtends(p: Progress, n: nat, s: Progress)
    requires n > 0
    requires s == p.(cursor := p.cursor + 1, log := p.log + [Expected(p.lane, p.cursor)])
                   .(cursor := p.cursor + 1 + (n - 1), log := p.log + [Expected(p.lane, p.cursor)] + Planned(p.lane, p.cursor + 1, n - 1))
    ensures s == p.(cursor := p.cursor + n, log := p.log + Planned(p.lane, p.cursor, n))
  {
    var e, rest := Expected(p.lane, p.cursor), Planned(p.lane, p.cursor + 1, n - 1);
    assert Planned(p.lane, p.cursor, n) == [e] + rest;
    AppendAssoc(p.log, [e], rest);
  }

  /** Before the end, one call advances the cursor and logs the expected entry. */
  lemma StepBefore(p: Progress)
    requires Reachable(p) && p.cursor < NumIntersections
    ensures Step(p).0 == p.(cursor := p.cursor + 1, log := p.log + [Expected(p.lane, p.cursor)])
  {
  }

  /** Before the end, a call throws exactly at the even indices of the middle lane. */
  lemma StepFails(p: Progress)
    requires Reachable(p) && p.cursor < NumIntersections
    ensures Step(p).0.cursor == p.cursor + 1
    ensures Step(p).1.Fail? <==> p.lane == 1 && p.cursor % 2 == 0
  {
  }

  lemma AppendAssoc<T>(a: seq<T>, b: seq<T>, c: seq<T>)
    ensures (a + b) + c == a + (b + c)
  {
  }

  /** The failure-count part of `RunFromCursor`. */
  lemma {:induction false} RunFailures(p: Progress, n: nat)
    requires Reachable(p) && p.cursor + n <= NumIntersections
    ensures Run(p, n).1 == if p.lane == 1 then EvensBelow(p.cursor + n) - EvensBelow(p.cursor) else 0
    decreases n
  {
    if n > 0 {
      var (q, outcome) := Step(p);
      assert Run(p, n).1 == Run(q, n - 1).1 + if outcome.Fail? then 1 else 0;
      StepFails(p);
      RunFailures(q, n - 1);
      CountExtends(p.lane, p.cursor, n, Run(q, n - 1).1, outcome.Fail?);
    }
  }

  /** The arithmetic of one induction step of `RunFailures`, free of `Step` and `Run`. */
  lemma CountExtends(lane: int, c: nat, n: nat, rest: nat, fails: bool)
    requires n > 0
    requires rest == if lane == 1 then EvensBelow(c + 1 + (n - 1)) - EvensBelow(c + 1) else 0
    requires fails <==> lane == 1 && c % 2 == 0
    ensures rest + (if fails then 1 else 0) == if lane == 1 then EvensBelow(c + n) - EvensBelow(c) else 0
  {
    EvensBelowStep(c);
  }

  /** Processing `n` intersections from the cursor on advances the cursor by
      `n`, logs the planned entries in order, and throws once per even index
      on the middle lane and never on the other two. */
  lemma RunFromCursor(p: Progress, n: nat)
    requires Reachable(p) && p.cursor + n <= NumIntersections
    ensures Run(p, n).0 == p.(cursor := p.cursor + n, log := p.log + Planned(p.lane, p.cursor, n))
    ensures Run(p, n).1 == if p.lane == 1 then EvensBelow(p.cursor + n) - EvensBelow(p.cursor) else 0
  {
    RunState(p, n);
    RunFailures(p, n);
  }

  /** The scenario of the test driver: from a fresh tracker, ten calls end
      with every intersection processed and one entry logged per intersection;
      on the middle lane exactly five throw (indices 0, 2, 4, 6, 8), on the
      other lanes none. */
  lemma FullPassage(vehicleId: string, lane: int)
    requires 0 <= lane < NumLanes
    ensures var (s, failures) := Run(Start(vehicleId, lane), NumIntersections);
              s.cursor == NumIntersections && |s.log| == NumIntersections &&
              failures == (if lane == 1 then 5 else 0) &&
              forall i :: 0 <= i < NumIntersections ==> (s.log[i].NonExistent? <==> lane == 1 && i % 2 == 0)
  {
    var (s, failures) := Run(Start(vehicleId, lane), NumIntersections);
    RunFromCursor(Start(vehicleId, lane), NumIntersections);
    assert s.log == Planned(lane, 0, NumIntersections);
    forall i | 0 <= i < NumIntersections
      ensures s.log[i] == Expected(lane, i)
    {
      PlannedAt(lane, 0, NumIntersections, i);
    }
  }

  /** One tracked vehicle. The lane, pattern and layout never change after
      construction; the cursor only moves forward and the log only grows. */
  class IntersectionNetwork {
    const vehicleId: string
    const vehicleLane: int
    const roadLayout: array2<int>
    const interactionPattern: array<int>
    var currentIntersectionIndex: int
    var statusLog: seq<LogEntry>

    ghost predicate Valid()
      reads this, roadLayout, interactionPattern
    {
      Reachable(State()) && IsRoadLayout(roadLayout) && IsInteractionPattern(interactionPattern)
    }

    function State(): Progress
      reads this
    {
      Progress(vehicleId, vehicleLane, currentIntersectionIndex, statusLog)
    }

    /** Construction once the lane is known to be valid; `Create` performs the check. */
    constructor (vehicleId: string, initialLane: int, roadLayout: array2<int>)
      requires 0 <= initialLane < NumLanes && IsRoadLayout(roadLayout)
      ensures Valid() && State() == Start(vehicleId, initialLane)
      ensures this.roadLayout == roadLayout && fresh(interactionPattern)
    {
      this.vehicleId := vehicleId;
      vehicleLane := initialLane;
      this.roadLayout := roadLayout;
      var pattern := NewInteractionPattern();
      interactionPattern := pattern;
      currentIntersectionIndex := 0;
      statusLog := [];
    }

    function GetVehicleId(): (id: string)
      reads this
      ensures id == State().vehicleId
    {
      vehicleId
    }

    /** Processes the next intersection; the result is `Fail` where the source throws. */
    method MoveThrough() returns (outcome: Outcome<InvalidIntersection>)
      requires Valid()
      modifies this
      ensures Valid()
      ensures (State(), outcome) == Step(old(State()))
    {
      if currentIntersectionIndex >= NumIntersections {
        if AllProcessed !in statusLog {
          statusLog := statusLog + [AllProcessed];
        }
        return Pass;
      }
      var intendsToUse := interactionPattern[currentIntersectionIndex] == 1;
      if intendsToUse {
        if roadLayout[vehicleLane, currentIntersectionIndex] == 1 {
          statusLog := statusLog + [MovedThrough(currentIntersectionIndex, vehicleLane)];
        } else {
          statusLog := statusLog + [NonExistent(currentIntersectionIndex, vehicleLane)];
          currentIntersectionIndex := currentIntersectionIndex + 1;
          return Fail(InvalidIntersection(vehicleId, currentIntersectionIndex, vehicleLane + 1));
        }
      } else {
        statusLog := statusLog + [Skipped(currentIntersectionIndex, vehicleLane)];
      }
      currentIntersectionIndex := currentIntersectionIndex + 1;
      outcome := Pass;
    }
  }

  /** The constructor with its lane check: an illegal lane creates no instance. */
  method Create(vehicleId: string, initialLane: int, roadLayout: array2<int>)
    returns (r: Result<IntersectionNetwork, IllegalLane>)
    requires IsRoadLayout(roadLayout)
    ensures r.Failure? <==> initialLane < 0 || initialLane >= NumLanes
    ensures r.Failure? ==> r.error == IllegalLane(initialLane)
    ensures r.Success? ==> fresh(r.value) && fresh(r.value.interactionPattern)
    ensures r.Success? ==> r.value.Valid() && r.value.roadLayout == roadLayout
    ensures r.Success? ==> r.value.State() == Start(vehicleId, initialLane)
  {
    if initialLane < 0 || initialLane >= NumLanes {
      return Failure(IllegalLane(initialLane));
    }
    var network := new IntersectionNetwork(vehicleId, initialLane, roadLayout);
    r := Success(network);
  }

  /** The driver loop of the test driver for one tracker: call `MoveThrough`
      once per remaining intersection, catching and counting each failure. */
  method PassAll(network: IntersectionNetwork) returns (failures: nat)
    requires network.Valid()
    modifies network
    ensures network.Valid()
    ensures (network.State(), failures)
         == Run(old(network.State()), NumIntersections - old(network.currentIntersectionIndex))
  {
    ghost var start := network.State();
    failures := 0;
    for i := 0 to NumIntersections
      invariant network.Valid()
      invariant network.vehicleId == start.vehicleId && network.vehicleLane == start.lane
      invariant start.cursor <= network.currentIntersectionIndex <= NumIntersections
      invariant network.currentIntersectionIndex < NumIntersections ==>
                  network.currentIntersectionIndex == start.cursor + i
      invariant (network.State(), failures) == Run(start, network.currentIntersectionIndex - start.cursor)
    {
      if network.currentIntersectionIndex < NumIntersections {
        ghost var before := network.State();
        var outcome := network.MoveThrough();
        RunOneMore(start, before.cursor - start.cursor, before, failures, network.State(), outcome);
        if outcome.Fail? {
          failures := failures + 1;
        }
      }
    }
  }

  /** The loop step of `PassAll`: one more call extends the run by one. */
  lemma RunOneMore(start: Progress, k: nat, before: Progress, failures: nat,
                   after: Progress, outcome: Outcome<InvalidIntersection>)
    requires Reachable(start) && (before, failures) == Run(start, k)
    requires (after, outcome) == Step(before)
    ensures (after, failures + if outcome.Fail? then 1 else 0) == Run(start, k + 1)
  {
    RunSplit(start, k);
  }

  /** Running one more call after `n` calls is the same as running `n + 1`. */
  lemma {:induction false} RunSplit(p: Progress, n: nat)
    requires Reachable(p)
    ensures Run(p, n + 1).0 == Step(Run(p, n).0).0
    ensures Run(p, n + 1).1 == Run(p, n).1 + if Step(Run(p, n).0).1.Fail? then 1 else 0
    decreases n
  {
    if n > 0 {
      RunSplit(Step(p).0, n - 1);
    }
  }
}
