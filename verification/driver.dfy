/**
 The driver screen: a list of pending trip requests and at most one active
 trip. Accepting a request makes it the active trip and drops every pending
 request with its id; rejecting drops every pending request with the given
 id; completing clears the active trip. The "accept" control is disabled
 while a trip is active and the "complete" control is shown only while one
 is, which `Enabled` and `Step` model.
 */
module Driver {
  import opened Common

  datatype TripRequest = TripRequest(
    id: string,
    clientName: string,
    clientPhone: string,
    petType: PetType,
    breed: string,
    weight: real,
    pickup: string,
    destination: string,
    distance: real,
    fare: real,
    notes: Option<string>,
    isNightTime: bool)

  datatype DriverState = DriverState(requests: seq<TripRequest>, activeTrip: Option<TripRequest>)

  /** Some request in `rs` carries `id`. */
  predicate HasId(rs: seq<TripRequest>, id: string) {
    exists i :: 0 <= i < |rs| && rs[i].id == id
  }

  /** No two requests in `rs` share an id. */
  predicate UniqueIds(rs: seq<TripRequest>) {
    forall i, j :: 0 <= i < j < |rs| ==> rs[i].id != rs[j].id
  }

  /** How many requests in `rs` carry `id`. */
  function CountId(rs: seq<TripRequest>, id: string): (n: nat)
    ensures n <= |rs|
  {
    if |rs| == 0 then 0
    else (if rs[0].id == id then 1 else 0) + CountId(rs[1..], id)
  }

  /** `a` can be obtained from `b` by deleting elements: the elements of `a`
      occur in `b` in the same order. */
  predicate IsSubsequence<T(==)>(a: seq<T>, b: seq<T>)
    decreases |b|
  {
    if |a| == 0 then true
    else if |b| == 0 then false
    else if a[0] == b[0] then IsSubsequence(a[1..], b[1..])
    else IsSubsequence(a, b[1..])
  }

  /** The pending list after `filter((r) => r.id !== id)`: the requests with
      `id` are gone, every other request stays, in its original order. */
  function Without(rs: seq<TripRequest>, id: string): (r: seq<TripRequest>)
    ensures forall t :: t in r <==> t in rs && t.id != id
    ensures IsSubsequence(r, rs)
    ensures |r| == |rs| - CountId(rs, id)
  {
    if |rs| == 0 then []
    else if rs[0].id == id then Without(rs[1..], id)
    else [rs[0]] + Without(rs[1..], id)
  }

  /** The accept handler: `trip` becomes the active trip and leaves the
      pending list, together with any other request carrying its id. */
  function AcceptTrip(s: DriverState, trip: TripRequest): (s': DriverState)
    ensures s'.activeTrip == Some(trip)
    ensures forall t :: t in s'.requests <==> t in s.requests && t.id != trip.id
    ensures IsSubsequence(s'.requests, s.requests)
    ensures |s'.requests| == |s.requests| - CountId(s.requests, trip.id)
    ensures !HasId(s'.requests, trip.id)
  {
    DriverState(Without(s.requests, trip.id), Some(trip))
  }

  /** The reject handler: the requests with `tripId` leave the pending list;
      the active trip is untouched. */
  function RejectTrip(s: DriverState, tripId: string): (s': DriverState)
    ensures s'.activeTrip == s.activeTrip
    ensures forall t :: t in s'.requests <==> t in s.requests && t.id != tripId
    ensures IsSubsequence(s'.requests, s.requests)
    ensures |s'.requests| == |s.requests| - CountId(s.requests, tripId)
    ensures !HasId(s'.requests, tripId)
  {
    s.(requests := Without(s.requests, tripId))
  }

  /** The complete handler: no trip is active afterwards and the pending
      list is as it was. */
  function CompleteTrip(s: DriverState): (s': DriverState)
    ensures s'.activeTrip.None?
    ensures s'.requests == s.requests
  {
    s.(activeTrip := None)
  }

  /** A click on one of the screen's controls. */
  datatype DriverAction = Accept(trip: TripRequest) | Reject(tripId: string) | Complete

  /** Whether the control is on screen and clickable: accept and reject sit
      on a pending request's card, accept is disabled while a trip is active,
      and complete is shown only while a trip is active. */
  predicate Enabled(s: DriverState, a: DriverAction) {
    match a
    case Accept(trip) => trip in s.requests && s.activeTrip.None?
    case Reject(tripId) => HasId(s.requests, tripId)
    case Complete => s.activeTrip.Some?
  }

  /** The effect of a click; a control that is not enabled does nothing. */
  function Step(s: DriverState, a: DriverAction): (s': DriverState)
    ensures !Enabled(s, a) ==> s' == s
    ensures s.activeTrip.Some? && a.Accept? ==> s' == s
    ensures s'.activeTrip != s.activeTrip ==>
              (a.Complete? && s'.activeTrip.None?) || (a.Accept? && s.activeTrip.None?)
  {
    if !Enabled(s, a) then s
    else
      match a
      case Accept(trip) => AcceptTrip(s, trip)
      case Reject(tripId) => RejectTrip(s, tripId)
      case Complete => CompleteTrip(s)
  }

  /** The state after a sequence of clicks. */
  function Run(s: DriverState, actions: seq<DriverAction>): DriverState
    decreases |actions|
  {
    if |actions| == 0 then s else Run(Step(s, actions[0]), actions[1..])
  }

  /** The two sample requests the screen starts with. */
  const MockRequests: seq<TripRequest> := [
    TripRequest("1", "María González", "+52 123 456 7890", Dog, "Golden Retriever", 28.0,
                "Calle Norte 123", "Clínica Veterinaria San Pedro", 5.2, 180.0,
                Some("Perro muy tranquilo, usa correa azul"), false),
    TripRequest("2", "Carlos Ramírez", "+52 987 654 3210", Cat, "Siamés", 4.5,
                "Av. Central 456", "Hospital Veterinario 24hrs", 8.5, 320.0,
                Some("Gato nervioso, mantener transportadora cerrada"), true)
  ]

  /** The screen's initial state: the sample requests, no active trip. */
  function InitialState(): DriverState {
    DriverState(MockRequests, None)
  }

  /** Pending ids are unique, and the active trip's id is not pending. */
  predicate Inv(s: DriverState) {
    && UniqueIds(s.requests)
    && (s.activeTrip.Some? ==> !HasId(s.requests, s.activeTrip.value.id))
  }

  // ---------------------------------------------------------------------
  // Properties of Without

  /** Removing an id that no request carries changes nothing. */
  lemma {:induction false} WithoutAbsent(rs: seq<TripRequest>, id: string)
    requires !HasId(rs, id)
    ensures Without(rs, id) == rs
    decreases |rs|
  {
    if |rs| > 0 {
      assert rs[0].id != id;
      assert !HasId(rs[1..], id) by {
        forall i | 0 <= i < |rs[1..]| ensures rs[1..][i].id != id {
          assert rs[1..][i] == rs[i + 1];
        }
      }
      WithoutAbsent(rs[1..], id);
    }
  }

  /** Removing the same id twice is the same as removing it once. */
  lemma WithoutIdempotent(rs: seq<TripRequest>, id: string)
    ensures Without(Without(rs, id), id) == Without(rs, id)
  {
    var r := Without(rs, id);
    assert !HasId(r, id) by {
      forall i | 0 <= i < |r| ensures r[i].id != id {
        assert r[i] in r;
      }
    }
    WithoutAbsent(r, id);
  }

  /** Removals of two ids commute. */
  lemma {:induction false} WithoutCommutes(rs: seq<TripRequest>, a: string, b: string)
    ensures Without(Without(rs, a), b) == Without(Without(rs, b), a)
    decreases |rs|
  {
    if |rs| > 0 {
      WithoutCommutes(rs[1..], a, b);
    }
  }

  /** A subsequence of `rs` that avoids `id` is no longer than what is left
      after removing `id`. */
  lemma {:induction false} AvoidingSubsequenceBound(r: seq<TripRequest>, rs: seq<TripRequest>, id: string)
    requires IsSubsequence(r, rs)
    requires forall t :: t in r ==> t.id != id
    ensures |r| <= |rs| - CountId(rs, id)
    decreases |rs|
  {
    if |r| > 0 {
      assert |rs| > 0;
      if r[0] == rs[0] {
        assert r[0] in r;
        assert forall t :: t in r[1..] ==> t in r;
        AvoidingSubsequenceBound(r[1..], rs[1..], id);
      } else {
        AvoidingSubsequenceBound(r, rs[1..], id);
      }
    }
  }

  /** `Without` is the only order-preserving selection from `rs` that keeps
      every request not carrying `id` and none that does: any subsequence
      avoiding `id` whose length is the number of other requests equals it. */
  lemma {:induction false} WithoutUnique(r: seq<TripRequest>, rs: seq<TripRequest>, id: string)
    requires IsSubsequence(r, rs)
    requires forall t :: t in r ==> t.id != id
    requires |r| == |rs| - CountId(rs, id)
    ensures r == Without(rs, id)
    decreases |rs|
  {
    if |rs| > 0 {
      var x, rest := rs[0], rs[1..];
      if x.id == id {
        if |r| > 0 {
          assert r[0] in r;
        }
        WithoutUnique(r, rest, id);
      } else if |r| > 0 && r[0] == x {
        assert forall t :: t in r[1..] ==> t in r;
        WithoutUnique(r[1..], rest, id);
        assert r == [x] + r[1..];
      } else {
        if |r| > 0 {
          AvoidingSubsequenceBound(r, rest, id);
        }
        assert false;
      }
    }
  }

  /** With unique ids, a present id is carried by exactly one request. */
  lemma {:induction false} CountIdUnique(rs: seq<TripRequest>, id: string)
    requires UniqueIds(rs)
    requires HasId(rs, id)
    ensures CountId(rs, id) == 1
    decreases |rs|
  {
    var k :| 0 <= k < |rs| && rs[k].id == id;
    if k == 0 {
      assert !HasId(rs[1..], id) by {
        forall i | 0 <= i < |rs[1..]| ensures rs[1..][i].id != id {
          assert rs[1..][i] == rs[i + 1];
        }
      }
      WithoutAbsent(rs[1..], id);
    } else {
      assert rs[0].id != id;
      assert rs[1..][k - 1] == rs[k];
      CountIdUnique(rs[1..], id);
    }
  }

  /** With unique ids, removing a present id shrinks the list by one. */
  lemma WithoutPresentShrinksByOne(rs: seq<TripRequest>, id: string)
    requires UniqueIds(rs)
    requires HasId(rs, id)
    ensures |Without(rs, id)| == |rs| - 1
  {
    CountIdUnique(rs, id);
  }

  /** The tail of a list with unique ids has unique ids, none equal to the
      head's. */
  lemma UniqueIdsTail(rs: seq<TripRequest>)
    requires |rs| > 0 && UniqueIds(rs)
    ensures UniqueIds(rs[1..])
    ensures forall t :: t in rs[1..] ==> t.id != rs[0].id
  {
    var rest := rs[1..];
    forall i, j | 0 <= i < j < |rest| ensures rest[i].id != rest[j].id {
      assert rest[i] == rs[i + 1] && rest[j] == rs[j + 1];
    }
    forall t | t in rest ensures t.id != rs[0].id {
      var k :| 0 <= k < |rest| && rest[k] == t;
      assert rs[k + 1] == t;
    }
  }

  /** Prepending a request whose id no later request carries keeps ids
      unique. */
  lemma UniqueIdsCons(x: TripRequest, w: seq<TripRequest>)
    requires UniqueIds(w)
    requires forall t :: t in w ==> t.id != x.id
    ensures UniqueIds([x] + w)
  {
    var r := [x] + w;
    forall i, j | 0 <= i < j < |r| ensures r[i].id != r[j].id {
      assert r[j] == w[j - 1];
      if i > 0 {
        assert r[i] == w[i - 1];
      } else {
        assert w[j - 1] in w;
      }
    }
  }

  /** Removing an id keeps the ids of the remaining requests unique. */
  lemma {:induction false} WithoutKeepsUnique(rs: seq<TripRequest>, id: string)
    requires UniqueIds(rs)
    ensures UniqueIds(Without(rs, id))
    decreases |rs|
  {
    if |rs| > 0 {
      UniqueIdsTail(rs);
      WithoutKeepsUnique(rs[1..], id);
      if rs[0].id != id {
        UniqueIdsCons(rs[0], Without(rs[1..], id));
      }
    }
  }

  // ---------------------------------------------------------------------
  // Properties of the screen's transitions

  /** Rejecting an id twice is the same as rejecting it once, and rejecting
      an id that is not pending changes nothing. */
  lemma RejectIdempotent(s: DriverState, tripId: string)
    ensures RejectTrip(RejectTrip(s, tripId), tripId) == RejectTrip(s, tripId)
    ensures !HasId(s.requests, tripId) ==> RejectTrip(s, tripId) == s
  {
    WithoutIdempotent(s.requests, tripId);
    if !HasId(s.requests, tripId) {
      WithoutAbsent(s.requests, tripId);
    }
  }

  /** With unique ids, accepting or rejecting a pending request shrinks the
      pending list by exactly one. */
  lemma HandledRequestShrinksList(s: DriverState, t: TripRequest)
    requires UniqueIds(s.requests)
    requires t in s.requests
    ensures |AcceptTrip(s, t).requests| == |s.requests| - 1
    ensures |RejectTrip(s, t.id).requests| == |s.requests| - 1
  {
    var k :| 0 <= k < |s.requests| && s.requests[k] == t;
    assert HasId(s.requests, t.id);
    WithoutPresentShrinksByOne(s.requests, t.id);
  }

  /** A request leaves the pending list only by being accepted or rejected
      under its own id. */
  lemma StepRemovesOnlyHandled(s: DriverState, a: DriverAction, t: TripRequest)
    requires t in s.requests && t !in Step(s, a).requests
    ensures (a.Accept? && a.trip.id == t.id) || (a.Reject? && a.tripId == t.id)
  {
  }

  /** Every click keeps the invariant. */
  lemma StepPreservesInv(s: DriverState, a: DriverAction)
    requires Inv(s)
    ensures Inv(Step(s, a))
  {
    if Enabled(s, a) {
      match a
      case Accept(trip) =>
        WithoutKeepsUnique(s.requests, trip.id);
      case Reject(tripId) =>
        WithoutKeepsUnique(s.requests, tripId);
      case Complete =>
    }
  }

  /** Every sequence of clicks keeps the invariant. */
  lemma {:induction false} RunPreservesInv(s: DriverState, actions: seq<DriverAction>)
    requires Inv(s)
    ensures Inv(Run(s, actions))
    decreases |actions|
  {
    if |actions| > 0 {
      StepPreservesInv(s, actions[0]);
      RunPreservesInv(Step(s, actions[0]), actions[1..]);
    }
  }

  /** In every state reachable from the initial screen, pending ids are
      unique and the active trip (there is at most one) is not also pending. */
  lemma ReachableInv(actions: seq<DriverAction>)
    ensures Inv(Run(InitialState(), actions))
  {
    assert MockRequests[0].id != MockRequests[1].id;
    RunPreservesInv(InitialState(), actions);
  }
}
