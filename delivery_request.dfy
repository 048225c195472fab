/**
 * A delivery request: the offer of a delivery to one courier, which the
 * courier accepts or rejects or which times out. The three setters are
 * unconditional, so a resolved request can be resolved again and the last
 * call decides the status.
 */
module DeliveryRequests {
  import Couriers

  datatype DeliveryRequestStatus = Requested | Accepted | Rejected | TimedOut

  /** The part of a delivery a request reads: its id. The delivery itself is
      not part of this model. */
  datatype DeliveryRef = DeliveryRef(id: nat)

  /** A call to one of the request's state-changing methods. */
  datatype Resolution = AcceptRequest | RejectRequest | TimeOutRequest

  /** The status one call sets, whatever the status before it. */
  function Apply(s: DeliveryRequestStatus, d: Resolution): (r: DeliveryRequestStatus)
    ensures r != Requested
    ensures r == Accepted <==> d == AcceptRequest
    ensures r == Rejected <==> d == RejectRequest
    ensures r == TimedOut <==> d == TimeOutRequest
  {
    match d
    case AcceptRequest => Accepted
    case RejectRequest => Rejected
    case TimeOutRequest => TimedOut
  }

  /** The status after a sequence of calls, in order. */
  function Run(s: DeliveryRequestStatus, ds: seq<Resolution>): DeliveryRequestStatus {
    if ds == [] then s else Apply(Run(s, ds[..|ds| - 1]), ds[|ds| - 1])
  }

  /** Every call succeeds from any status and the last one wins. */
  lemma {:induction false} RunLastWins(s: DeliveryRequestStatus, ds: seq<Resolution>, d: Resolution)
    ensures Run(s, ds + [d]) == Apply(Requested, d)
  {
    assert (ds + [d])[..|ds|] == ds;
  }

  /** A request is still `Requested` exactly when none of the three calls
      was made on it. */
  lemma {:induction false} RunRequestedIffUntouched(ds: seq<Resolution>)
    ensures Run(Requested, ds) == Requested <==> ds == []
  {
  }

  /** Repeating the last call changes nothing. */
  lemma {:induction false} RunIdempotent(s: DeliveryRequestStatus, ds: seq<Resolution>, d: Resolution)
    ensures Run(s, ds + [d, d]) == Run(s, ds + [d])
  {
    assert (ds + [d, d])[..|ds| + 1] == ds + [d];
  }

  /** The order of calls matters: the same two calls in the other order give
      another status. */
  lemma RunOrderMatters(s: DeliveryRequestStatus)
    ensures Run(s, [AcceptRequest, RejectRequest]) == Rejected
    ensures Run(s, [RejectRequest, AcceptRequest]) == Accepted
  {
    assert [AcceptRequest, RejectRequest][..1] == [AcceptRequest];
    assert [RejectRequest, AcceptRequest][..1] == [RejectRequest];
  }

  class DeliveryRequest {
    const courier: Couriers.Courier
    const delivery: DeliveryRef
    /** Set only by `Accept`, `Reject` and `Timeout`. */
    var status: DeliveryRequestStatus

    constructor (courier: Couriers.Courier, delivery: DeliveryRef)
      ensures this.courier == courier && this.delivery == delivery
      ensures status == Requested
    {
      this.courier := courier;
      this.delivery := delivery;
      status := Requested;
    }

    method Accept()
      modifies this`status
      ensures status == Apply(old(status), AcceptRequest)
    {
      status := Accepted;
    }

    method Reject()
      modifies this`status
      ensures status == Apply(old(status), RejectRequest)
    {
      status := Rejected;
    }

    method Timeout()
      modifies this`status
      ensures status == Apply(old(status), TimeOutRequest)
    {
      status := TimedOut;
    }
  }
}
