/**
 * A courier: an identity, an on-shift flag that gates order assignment and
 * the last location report the courier sent, which every new report
 * overwrites.
 *
 * The courier's UUID is a number here, and a report's `Date` timestamp is an
 * integer number of milliseconds; latitude and longitude are reals that the
 * model only stores.
 */
module Couriers {
  import opened Wrappers

  type CourierId = nat
  type OrderId = nat

  datatype LatLng = LatLng(latitude: real, longitude: real)

  /** A position the courier reported, with the time of the report. */
  datatype LocationReport = LocationReport(latLng: LatLng, timestamp: int)

  /** The part of an order a courier reads: its id. The order itself is not
      part of this model. */
  datatype OrderRef = OrderRef(id: OrderId)

  /** An order handed to a courier. */
  datatype CourierOrder = CourierOrder(orderId: OrderId, courier: Courier, order: OrderRef)

  /** The exception `assignOrder` raises. */
  datatype CourierError = OffShift

  /** The mutable part of a courier. */
  datatype CourierState = CourierState(location: Option<LocationReport>, onShift: bool)

  /** A call to one of the courier's state-changing methods. */
  datatype CourierCommand = StartShift | StopShift | UpdateLocation(report: LocationReport)

  /** The courier state after one command. */
  function Step(s: CourierState, c: CourierCommand): CourierState {
    match c
    case StartShift => s.(onShift := true)
    case StopShift => s.(onShift := false)
    case UpdateLocation(report) => s.(location := Some(report))
  }

  /** The courier state after a sequence of commands, in order. */
  function Run(s: CourierState, cs: seq<CourierCommand>): CourierState {
    if cs == [] then s else Step(Run(s, cs[..|cs| - 1]), cs[|cs| - 1])
  }

  /** The position of the last `startShift` or `stopShift` call in `cs`, or
      -1 when there is none. */
  function LastShiftIndex(cs: seq<CourierCommand>): (i: int)
    ensures -1 <= i < |cs|
    ensures i == -1 <==> forall k :: 0 <= k < |cs| ==> cs[k].UpdateLocation?
    ensures 0 <= i ==> !cs[i].UpdateLocation? && forall k :: i < k < |cs| ==> cs[k].UpdateLocation?
  {
    if cs == [] then -1
    else if !cs[|cs| - 1].UpdateLocation? then |cs| - 1
    else
      var front := cs[..|cs| - 1];
      assert forall k :: 0 <= k < |front| ==> front[k] == cs[k];
      LastShiftIndex(front)
  }

  /** The position of the last `updateLocation` call in `cs`, or -1 when
      there is none. */
  function LastReportIndex(cs: seq<CourierCommand>): (i: int)
    ensures -1 <= i < |cs|
    ensures i == -1 <==> forall k :: 0 <= k < |cs| ==> !cs[k].UpdateLocation?
    ensures 0 <= i ==> cs[i].UpdateLocation? && forall k :: i < k < |cs| ==> !cs[k].UpdateLocation?
  {
    if cs == [] then -1
    else if cs[|cs| - 1].UpdateLocation? then |cs| - 1
    else
      var front := cs[..|cs| - 1];
      assert forall k :: 0 <= k < |front| ==> front[k] == cs[k];
      LastReportIndex(front)
  }

  /** After any sequence of calls the courier is on shift exactly when the
      last shift call was `startShift` (or, with none, when it was before). */
  lemma {:induction false} RunOnShift(s: CourierState, cs: seq<CourierCommand>)
    ensures var i := LastShiftIndex(cs);
            Run(s, cs).onShift == if i == -1 then s.onShift else cs[i] == StartShift
  {
    if cs != [] {
      RunOnShift(s, cs[..|cs| - 1]);
    }
  }

  /** After any sequence of calls the stored location is the last report
      sent, whatever its timestamp; with no report it is the one before. */
  lemma {:induction false} RunLocation(s: CourierState, cs: seq<CourierCommand>)
    ensures var i := LastReportIndex(cs);
            Run(s, cs).location == if i == -1 then s.location else Some(cs[i].report)
  {
    if cs != [] {
      RunLocation(s, cs[..|cs| - 1]);
    }
  }

  /** Repeating a call has no further effect. */
  lemma StepIdempotent(s: CourierState, c: CourierCommand)
    ensures Step(Step(s, c), c) == Step(s, c)
  {
  }

  /** A later report replaces an earlier one even when it is older. */
  lemma OlderReportOverwritesNewer(s: CourierState, newer: LocationReport, older: LocationReport)
    requires older.timestamp < newer.timestamp
    ensures Run(s, [UpdateLocation(newer), UpdateLocation(older)]).location == Some(older)
  {
    assert [UpdateLocation(newer), UpdateLocation(older)][..1] == [UpdateLocation(newer)];
  }

  class Courier {
    const id: CourierId
    const fullName: string
    /** The last location report; Kotlin's `location` getter reads it. */
    var location: Option<LocationReport>
    var onShift: bool

    ghost function State(): CourierState
      reads this
    {
      CourierState(location, onShift)
    }

    constructor (id: CourierId, fullName: string, location: Option<LocationReport>, onShift: bool)
      ensures this.id == id && this.fullName == fullName
      ensures State() == CourierState(location, onShift)
    {
      this.id := id;
      this.fullName := fullName;
      this.location := location;
      this.onShift := onShift;
    }

    /** `Courier.new`: a courier with a fresh id, off shift and with no
        location. The random UUID is passed in. */
    constructor New(id: CourierId, fullName: string)
      ensures this.id == id && this.fullName == fullName
      ensures State() == CourierState(None, false)
    {
      this.id := id;
      this.fullName := fullName;
      location := None;
      onShift := false;
    }

    method StartShift()
      modifies this`onShift
      ensures State() == Step(old(State()), CourierCommand.StartShift)
      ensures onShift
    {
      onShift := true;
    }

    method StopShift()
      modifies this`onShift
      ensures State() == Step(old(State()), CourierCommand.StopShift)
      ensures !onShift
    {
      onShift := false;
    }

    /** An order handed to this courier; refused while off shift. Neither
        outcome changes the courier. */
    method AssignOrder(order: OrderRef) returns (r: Result<CourierOrder, CourierError>)
      ensures r.Failure? <==> !onShift
      ensures r.Failure? ==> r.error == OffShift
      ensures r.Success? ==> r.value.orderId == order.id && r.value.courier == this && r.value.order == order
    {
      if !onShift {
        return Failure(OffShift);
      }
      return Success(CourierOrder(order.id, this, order));
    }

    method UpdateLocation(report: LocationReport)
      modifies this`location
      ensures State() == Step(old(State()), CourierCommand.UpdateLocation(report))
      ensures location == Some(report)
    {
      location := Some(report);
    }
  }
}
