/** The `.filter(...).map(...)` pipeline of `fetchBusData`: from the entity
    list of a decoded feed to the list of bus records. */
module BusExtraction {
  import opened Common
  import opened GtfsFeed

  /** One bus as pushed to the viewers. */
  datatype BusRecord = BusRecord(busNo: string, routeNo: string, latitude: Number, longitude: Number)

  /** Why a fetch cycle ends without a new bus list. */
  datatype CycleError =
    | FetchError                // the HTTP GET failed
    | DecodeError               // the bytes are not a FeedMessage
    | EntityListMissing         // `data.entity` is undefined, `.filter` throws
    | VehicleDescriptorMissing  // `entity.vehicle.vehicle` is undefined, `.id` throws

  /** The `.filter` step: the entities whose `vehicle` block has a `position`,
      in feed order. */
  function KeepPositioned(es: seq<FeedEntity>): (kept: seq<FeedEntity>)
    ensures |kept| <= |es|
    ensures forall e :: e in kept ==> e in es && HasPosition(e)
    ensures forall e :: e in es && HasPosition(e) ==> e in kept
  {
    if es == [] then []
    else (if HasPosition(es[0]) then [es[0]] else []) + KeepPositioned(es[1..])
  }

  /** The callback of `.map` on one kept entity that has a vehicle descriptor. */
  function ToBus(e: FeedEntity): (b: BusRecord)
    requires HasPosition(e) && HasDescriptor(e)
    ensures Truthy(e.vehicle.value.vehicle.value.id) ==> b.busNo == e.vehicle.value.vehicle.value.id.value
    ensures !Truthy(e.vehicle.value.vehicle.value.id) ==> b.busNo == "Unknown"
    ensures e.vehicle.value.trip.Some? && Truthy(e.vehicle.value.trip.value.routeId) ==>
              b.routeNo == e.vehicle.value.trip.value.routeId.value
    ensures e.vehicle.value.trip.None? || !Truthy(e.vehicle.value.trip.value.routeId) ==> b.routeNo == "Unknown"
    ensures b.busNo != "" && b.routeNo != ""
    ensures b.latitude == e.vehicle.value.position.value.latitude
    ensures b.longitude == e.vehicle.value.position.value.longitude
  {
    var v := e.vehicle.value;
    var route := if v.trip.Some? then v.trip.value.routeId else None;
    BusRecord(OrDefault(v.vehicle.value.id, "Unknown"), OrDefault(route, "Unknown"),
              v.position.value.latitude, v.position.value.longitude)
  }

  /** The `.map` step: fails as a whole as soon as one entity has no vehicle
      descriptor; otherwise one record per entity, in order. */
  function MapToBuses(kept: seq<FeedEntity>): (r: Result<seq<BusRecord>, CycleError>)
    requires forall e :: e in kept ==> HasPosition(e)
    ensures r.Success? <==> forall e :: e in kept ==> HasDescriptor(e)
    ensures r.Failure? ==> r.error == VehicleDescriptorMissing
    ensures r.Success? ==> |r.value| == |kept|
    ensures r.Success? ==> forall k :: 0 <= k < |kept| ==> r.value[k] == ToBus(kept[k])
  {
    if kept == [] then Success([])
    else if !HasDescriptor(kept[0]) then Failure(VehicleDescriptorMissing)
    else
      match MapToBuses(kept[1..])
      case Failure(err) => Failure(err)
      case Success(rest) => Success([ToBus(kept[0])] + rest)
  }

  /** Lines 79-86 as a whole. */
  function ExtractBuses(m: FeedMessage): (r: Result<seq<BusRecord>, CycleError>)
    ensures m.entity.None? ==> r == Failure(EntityListMissing)
    ensures r.Success? <==>
              m.entity.Some? && forall e :: e in m.entity.value && HasPosition(e) ==> HasDescriptor(e)
    ensures r.Success? ==> |r.value| <= |m.entity.value|
  {
    match m.entity
    case None => Failure(EntityListMissing)
    case Some(es) => MapToBuses(KeepPositioned(es))
  }

  /** The indices (offset by `base`) of the entities that pass the filter, in
      increasing order: a definition of the filter by position in the list. */
  function PositionedIndices(es: seq<FeedEntity>, base: nat): seq<nat>
  {
    if es == [] then []
    else (if HasPosition(es[0]) then [base] else []) + PositionedIndices(es[1..], base + 1)
  }

  /** The positioned indices lie inside the list, one per kept entity. */
  lemma {:induction false} PositionedIndicesBounds(es: seq<FeedEntity>, base: nat)
    ensures |PositionedIndices(es, base)| == |KeepPositioned(es)|
    ensures forall k :: 0 <= k < |PositionedIndices(es, base)| ==>
              base <= PositionedIndices(es, base)[k] < base + |es|
  {
    if es != [] {
      PositionedIndicesBounds(es[1..], base + 1);
    }
  }

  /** The k-th kept entity is the entity at the k-th positioned index. */
  lemma {:induction false} KeptAtIndex(es: seq<FeedEntity>, base: nat, k: nat)
    requires k < |PositionedIndices(es, base)|
    ensures base <= PositionedIndices(es, base)[k] < base + |es|
    ensures k < |KeepPositioned(es)|
    ensures KeepPositioned(es)[k] == es[PositionedIndices(es, base)[k] - base]
  {
    PositionedIndicesBounds(es, base);
    var tail := PositionedIndices(es[1..], base + 1);
    if HasPosition(es[0]) {
      if k > 0 {
        KeptAtIndex(es[1..], base + 1, k - 1);
        assert PositionedIndices(es, base)[k] == tail[k - 1];
      }
    } else {
      KeptAtIndex(es[1..], base + 1, k);
      assert PositionedIndices(es, base)[k] == tail[k];
    }
  }

  /** The positioned indices increase strictly. */
  lemma {:induction false} PositionedIndicesIncrease(es: seq<FeedEntity>, base: nat)
    ensures forall k, l :: 0 <= k < l < |PositionedIndices(es, base)| ==>
              PositionedIndices(es, base)[k] < PositionedIndices(es, base)[l]
  {
    if es != [] {
      PositionedIndicesIncrease(es[1..], base + 1);
      PositionedIndicesBounds(es[1..], base + 1);
    }
  }

  /** An index is positioned exactly when the entity there passes the filter. */
  lemma {:induction false} PositionedIndicesMembers(es: seq<FeedEntity>, base: nat, i: nat)
    requires i < |es|
    ensures HasPosition(es[i]) <==> base + i in PositionedIndices(es, base)
  {
    PositionedIndicesBounds(es[1..], base + 1);
    var tail := PositionedIndices(es[1..], base + 1);
    assert base !in tail;
    if i > 0 {
      PositionedIndicesMembers(es[1..], base + 1, i - 1);
      assert es[1..][i - 1] == es[i];
    }
  }

  /** The filter distributes over concatenation: splitting the feed anywhere
      and filtering the parts gives the same list, so no entity moves. */
  lemma {:induction false} KeepPositionedAppend(a: seq<FeedEntity>, b: seq<FeedEntity>)
    ensures KeepPositioned(a + b) == KeepPositioned(a) + KeepPositioned(b)
  {
    if a != [] {
      assert (a + b)[1..] == a[1..] + b;
      KeepPositionedAppend(a[1..], b);
    } else {
      assert a + b == b;
    }
  }

  /** Map-after-filter, stated on the whole feed: on success the k-th bus is
      built from the k-th positioned entity of the feed, so every bus comes
      from an entity with a `vehicle` block and a `position`, in feed order. */
  lemma ExtractIsMapAfterFilter(m: FeedMessage)
    requires ExtractBuses(m).Success?
    ensures var es := m.entity.value;
      var idx := PositionedIndices(es, 0);
      var buses := ExtractBuses(m).value;
      && |buses| == |idx|
      && (forall k :: 0 <= k < |idx| ==>
            idx[k] < |es| && HasPosition(es[idx[k]]) && HasDescriptor(es[idx[k]]) && buses[k] == ToBus(es[idx[k]]))
      && (forall k, l :: 0 <= k < l < |idx| ==> idx[k] < idx[l])
      && (forall i :: 0 <= i < |es| && HasPosition(es[i]) ==> i in idx)
  {
    var es := m.entity.value;
    var idx := PositionedIndices(es, 0);
    PositionedIndicesBounds(es, 0);
    PositionedIndicesIncrease(es, 0);
    forall k | 0 <= k < |idx|
      ensures idx[k] < |es| && HasPosition(es[idx[k]]) && HasDescriptor(es[idx[k]])
      ensures ExtractBuses(m).value[k] == ToBus(es[idx[k]])
    {
      KeptAtIndex(es, 0, k);
      assert KeepPositioned(es)[k] in KeepPositioned(es);
    }
    forall i | 0 <= i < |es| && HasPosition(es[i])
      ensures i in idx
    {
      PositionedIndicesMembers(es, 0, i);
    }
  }

  /** Entities without a `vehicle` block or without a `position` are dropped
      silently: adding one anywhere in the feed changes nothing. */
  lemma UnpositionedIsDropped(a: seq<FeedEntity>, e: FeedEntity, b: seq<FeedEntity>)
    requires !HasPosition(e)
    ensures ExtractBuses(FeedMessage(Some(a + [e] + b))) == ExtractBuses(FeedMessage(Some(a + b)))
  {
    KeepPositionedAppend(a + [e], b);
    KeepPositionedAppend(a, [e]);
    KeepPositionedAppend(a, b);
    assert [e][1..] == [];
    assert KeepPositioned([e]) == [];
    assert KeepPositioned(a + [e] + b) == KeepPositioned(a + b);
  }

  /** One positioned entity without a vehicle descriptor aborts the whole
      pipeline, wherever it stands in the feed. */
  lemma MissingDescriptorAborts(a: seq<FeedEntity>, e: FeedEntity, b: seq<FeedEntity>)
    requires HasPosition(e) && !HasDescriptor(e)
    ensures ExtractBuses(FeedMessage(Some(a + [e] + b))) == Failure(VehicleDescriptorMissing)
  {
  }

  /** The end-to-end example: a feed with a full entity and an entity whose
      vehicle block has no position yields exactly one bus. */
  lemma OneFullOneUnpositioned(lat: Number, lon: Number, other: VehicleDescriptor)
    ensures var a := FeedEntity(Some(VehiclePosition(Some(VehicleDescriptor(Some("BUS1"))),
                                                     Some(TripDescriptor(Some("R1"))),
                                                     Some(Position(lat, lon)))));
            var b := FeedEntity(Some(VehiclePosition(Some(other), None, None)));
            ExtractBuses(FeedMessage(Some([a, b]))) == Success([BusRecord("BUS1", "R1", lat, lon)])
  {
    var a := FeedEntity(Some(VehiclePosition(Some(VehicleDescriptor(Some("BUS1"))),
                                             Some(TripDescriptor(Some("R1"))),
                                             Some(Position(lat, lon)))));
    var b := FeedEntity(Some(VehiclePosition(Some(other), None, None)));
    assert [a, b][1..] == [b];
    assert [b][1..] == [] && [a][1..] == [];
    assert KeepPositioned([a, b]) == [a];
    assert HasPosition(a) && HasDescriptor(a);
    assert MapToBuses([a][1..]) == Success([]);
    assert [a][0] == a && [ToBus(a)] + [] == [ToBus(a)];
    assert MapToBuses([a]) == Success([ToBus(a)]);
  }
}
