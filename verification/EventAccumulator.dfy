/** The events waiting to be reported, per user and manifest type. */
module EventAccumulator {
  datatype UserManifestType = UserManifestType(user: string, manifestType: string)

  type Json = string

  datatype Event = Event(user: string, rawMessage: Json, manifestType: string)

  type EventMap = map<UserManifestType, seq<Json>>

  function KeyOf(e: Event): UserManifestType {
    UserManifestType(e.user, e.manifestType)
  }

  function Waiting(m: EventMap, k: UserManifestType): seq<Json> {
    if k in m then m[k] else []
  }

  function Accumulated(m: EventMap, e: Event): EventMap {
    m[KeyOf(e) := Waiting(m, KeyOf(e)) + [e.rawMessage]]
  }

  // An event is kept under its own user and its own manifest type.
  predicate OfEvent(e: Event, k: UserManifestType) {
    k.user == e.user && k.manifestType == e.manifestType
  }

  lemma AccumulatedByFields(m: EventMap, e: Event, k: UserManifestType)
    ensures Waiting(Accumulated(m, e), k)
      == Waiting(m, k) + if e.user == k.user && e.manifestType == k.manifestType then [e.rawMessage] else []
  {
  }

  class EventAccumulator {
    var eventMap: EventMap

    constructor ()
      ensures eventMap == map[]
    {
      eventMap := map[];
    }

    method Add(event: Event) returns (length: nat)
      modifies this
      ensures eventMap == Accumulated(old(eventMap), event)
      ensures length == |Waiting(old(eventMap), KeyOf(event))| + 1
      ensures forall k :: (k in eventMap ==> k in old(eventMap) || OfEvent(event, k))
      ensures forall k | OfEvent(event, k) ::
        k in eventMap && eventMap[k] == (if k in old(eventMap) then old(eventMap)[k] else []) + [event.rawMessage]
          && length == |eventMap[k]|
      ensures forall k | k in old(eventMap) && !OfEvent(event, k) :: k in eventMap && eventMap[k] == old(eventMap)[k]
    {
      var k := UserManifestType(event.user, event.manifestType);
      var events := if k in eventMap then eventMap[k] else [];
      events := events + [event.rawMessage];
      eventMap := eventMap[k := events];
      length := |events|;
    }

    method Flush(k: UserManifestType) returns (flushed: seq<Json>)
      modifies this
      ensures flushed == Waiting(old(eventMap), k)
      ensures flushed == if k in old(eventMap) then old(eventMap)[k] else []
      ensures eventMap == old(eventMap) - {k}
    {
      flushed := if k in eventMap then eventMap[k] else [];
      eventMap := eventMap - {k};
    }

    method FlushAll() returns (flushed: EventMap)
      modifies this
      ensures flushed == old(eventMap) && eventMap == map[]
    {
      flushed := eventMap;
      eventMap := map[];
    }
  }
}
