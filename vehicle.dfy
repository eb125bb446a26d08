/** Vehicle motion: a vehicle advances by its speed on every move and cycles
    through lanes 1, 2, 3. The three concrete vehicle classes differ only in
    their speed and are folded into `VehicleKind`. */
module Vehicles {
  import opened Wrappers

  datatype VehicleKind = Car | Truck | Bus

  /** Distance per time interval for each kind of vehicle; always positive,
      so every move strictly advances the position. */
  function Speed(kind: VehicleKind): (speed: real)
    ensures speed > 0.0
  {
    match kind
    case Car => 100.0
    case Truck => 90.0
    case Bus => 80.0
  }

  /** The length of one time interval. */
  const TimeInterval: real := 5.0

  /** Every speed is a whole multiple of the time interval, so the velocity
      is a whole number and no rounding occurs. */
  lemma VelocityIsWhole(kind: VehicleKind)
    ensures (Speed(kind) / TimeInterval).Floor as real == Speed(kind) / TimeInterval
  {
  }

  /** The lane labels, in cycling order. */
  const Lanes: seq<int> := [1, 2, 3]

  /** The status line a vehicle reports: its lane label, position and velocity. */
  datatype Snapshot = Snapshot(vehicleID: string, lane: int, position: real, velocity: real)

  /** The mutable part of a vehicle; `laneIndex` indexes `Lanes`. */
  datatype Motion = Motion(velocity: real, position: real, laneIndex: int, moveCount: nat)

  /** The motion of a newly constructed vehicle. */
  function Initial(kind: VehicleKind): Motion
  {
    Motion(Speed(kind) / TimeInterval, 0.0, 0, 0)
  }

  /** One `move()`: the new motion and the snapshot it reports, if any. */
  function MoveSpec(id: string, kind: VehicleKind, m: Motion): (r: (Motion, Option<Snapshot>))
    requires 0 <= m.laneIndex < |Lanes|
    ensures 0 <= r.0.laneIndex < |Lanes| && r.0.moveCount == m.moveCount + 1
    ensures Lanes[r.0.laneIndex] == if Lanes[m.laneIndex] == 3 then 1 else Lanes[m.laneIndex] + 1
    ensures r.0.velocity * TimeInterval == Speed(kind)
    ensures r.0.position == m.position + Speed(kind)
    ensures r.1.Some? <==> r.0.moveCount == 2
    ensures r.1.Some? ==> r.1.value == Snapshot(id, Lanes[m.laneIndex], r.0.position, r.0.velocity)
  {
    var count := m.moveCount + 1;
    var velocity := Speed(kind) / TimeInterval;
    var position := m.position + velocity * TimeInterval;
    var snapshot := if count == 2 then Some(Snapshot(id, Lanes[m.laneIndex], position, velocity)) else None;
    (Motion(velocity, position, (m.laneIndex + 1) % |Lanes|, count), snapshot)
  }

  /** The motion after `n` moves of a new vehicle, and the snapshots reported on the way. */
  function Moves(id: string, kind: VehicleKind, n: nat): (r: (Motion, seq<Snapshot>))
    ensures 0 <= r.0.laneIndex < |Lanes|
    decreases n
  {
    if n == 0 then (Initial(kind), [])
    else
      var (m, snapshots) := Moves(id, kind, n - 1);
      var (next, snapshot) := MoveSpec(id, kind, m);
      (next, snapshots + if snapshot.Some? then [snapshot.value] else [])
  }

  /** After `n` moves a vehicle has moved `n` times its speed, sits in lane
      `Lanes[n mod 3]`, and moves at speed / interval. It has reported exactly
      one snapshot once it has moved twice, none before: the one taken on the
      second move before the lane change, in lane 2 at twice its speed. */
  lemma {:induction false} MovesFromStart(id: string, kind: VehicleKind, n: nat)
    ensures Moves(id, kind, n).0 == Motion(Speed(kind) / TimeInterval, n as real * Speed(kind), n % |Lanes|, n)
    ensures Moves(id, kind, n).1 ==
              if n < 2 then [] else [Snapshot(id, 2, 2.0 * Speed(kind), Speed(kind) / TimeInterval)]
  {
    MotionAfter(id, kind, n);
    SnapshotsAfter(id, kind, n);
  }

  /** The motion part of `MovesFromStart`. */
  lemma {:induction false} MotionAfter(id: string, kind: VehicleKind, n: nat)
    ensures Moves(id, kind, n).0 == Motion(Speed(kind) / TimeInterval, n as real * Speed(kind), n % |Lanes|, n)
    decreases n
  {
    if n > 0 {
      MotionAfter(id, kind, n - 1);
      OneMoreDistance(n, Speed(kind));
    }
  }

  /** Moving `n - 1` times and once more covers `n` times the distance. */
  lemma OneMoreDistance(n: nat, speed: real)
    requires n > 0
    ensures (n - 1) as real * speed + speed == n as real * speed
  {
  }

  /** The snapshot part of `MovesFromStart`. */
  lemma {:induction false} SnapshotsAfter(id: string, kind: VehicleKind, n: nat)
    ensures Moves(id, kind, n).1 ==
              if n < 2 then [] else [Snapshot(id, 2, 2.0 * Speed(kind), Speed(kind) / TimeInterval)]
    decreases n
  {
    if n > 0 {
      SnapshotsAfter(id, kind, n - 1);
      MotionAfter(id, kind, n - 1);
    }
  }

  /** A car after three moves is at position 300 with velocity 20, in lane 1 again. */
  lemma CarAfterThreeMoves(id: string)
    ensures Moves(id, Car, 3).0.position == 300.0 && Moves(id, Car, 3).0.velocity == 20.0
    ensures Lanes[Moves(id, Car, 3).0.laneIndex] == 1
  {
    MovesFromStart(id, Car, 3);
  }

  class Vehicle {
    const vehicleID: string
    const kind: VehicleKind
    var velocity: real
    var currentPosition: real
    var currentLane: int
    var moveCount: nat

    ghost predicate Valid()
      reads this
    {
      0 <= currentLane < |Lanes|
    }

    function State(): Motion
      reads this
    {
      Motion(velocity, currentPosition, currentLane, moveCount)
    }

    constructor (vehicleID: string, kind: VehicleKind)
      ensures Valid() && this.vehicleID == vehicleID && this.kind == kind
      ensures State() == Initial(kind)
    {
      this.vehicleID := vehicleID;
      this.kind := kind;
      currentPosition := 0.0;
      currentLane := 0;
      moveCount := 0;
      new;
      var _ := CalculateVelocity();
    }

    /** Sets the velocity to speed per interval and returns it. */
    method CalculateVelocity() returns (v: real)
      modifies this`velocity
      ensures v == velocity && v * TimeInterval == Speed(kind)
    {
      velocity := Speed(kind) / TimeInterval;
      v := velocity;
    }

    /** One step of motion; the snapshot is what the second move reports. It never fails. */
    method Move() returns (snapshot: Option<Snapshot>)
      requires Valid()
      modifies this
      ensures Valid()
      ensures (State(), snapshot) == MoveSpec(vehicleID, kind, old(State()))
    {
      moveCount := moveCount + 1;
      var _ := CalculateVelocity();
      currentPosition := currentPosition + velocity * TimeInterval;
      snapshot := if moveCount == 2 then Some(TrafficState()) else None;
      ChangeLane();
    }

    /** Moves to the next lane, wrapping from lane 3 to lane 1. */
    method ChangeLane()
      requires Valid()
      modifies this`currentLane
      ensures Valid()
      ensures Lanes[currentLane] == if Lanes[old(currentLane)] == 3 then 1 else Lanes[old(currentLane)] + 1
    {
      currentLane := (currentLane + 1) % |Lanes|;
    }

    /** The status the vehicle reports, without changing it. */
    function TrafficState(): (s: Snapshot)
      reads this
      requires Valid()
      ensures s.vehicleID == vehicleID && s.lane == GetCurrentLane()
      ensures s.position == currentPosition && s.velocity == velocity
    {
      Snapshot(vehicleID, Lanes[currentLane], currentPosition, velocity)
    }

    function GetVehicleID(): (id: string)
      reads this
      ensures id == vehicleID
    {
      vehicleID
    }

    /** The lane label, 1-based. */
    function GetCurrentLane(): (lane: int)
      reads this
      requires Valid()
      ensures 1 <= lane <= 3 && lane == currentLane + 1
    {
      Lanes[currentLane]
    }

    /** The distance travelled so far. */
    function GetCurrentPosition(): (position: real)
      reads this
      ensures position == State().position
    {
      currentPosition
    }
  }
}
