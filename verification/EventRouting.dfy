/**
 Answering one event request of the data reporter: the first matching filter routes the event
 to the data service and to the filter's destinations, and the answer tells how that went.
 */
module EventRouting {
  import opened Wrappers
  import opened UploadFanout

  predicate Is2xx(code: int) {
    200 <= code < 300
  }

  /* ---- one destination ---- */

  // How the other side behaves during one upload; None is a request that failed without answer.
  datatype Exchange = Exchange(first: Option<int>, hasAuth: bool, auth: Auth, second: Option<int>)

  datatype Auth = Unreachable | Answered(code: int, usable: bool)

  predicate Authorized(auth: Auth) {
    auth.Answered? && Is2xx(auth.code) && auth.usable
  }

  function AuthFailure(auth: Auth): int {
    if auth.Answered? && !Is2xx(auth.code) then auth.code else 500
  }

  method CallAuth(auth: Auth) returns (code: int, ok: bool)
    ensures ok <==> Authorized(auth)
    ensures Is2xx(code) <==> ok
    ensures code == if ok then auth.code else AuthFailure(auth)
  {
    match auth
    case Unreachable => return 500, false;
    case Answered(status, usable) =>
      if !Is2xx(status) {
        return status, false;
      }
      if !usable {
        return 500, false;
      }
      return status, true;
  }

  function StatusOf(x: Exchange): int {
    if x.first == None then 500
    else if x.first.value == 401 && x.hasAuth then
      if !Authorized(x.auth) then AuthFailure(x.auth) else if x.second == None then 500 else x.second.value
    else x.first.value
  }

  // The destination itself took the event, at once or after a new token was fetched.
  predicate Accepted(x: Exchange) {
    || (x.first.Some? && Is2xx(x.first.value))
    || (x.first == Some(401) && x.hasAuth && Authorized(x.auth) && x.second.Some? && Is2xx(x.second.value))
  }

  method Upload(x: Exchange) returns (code: int, ok: bool)
    ensures code == StatusOf(x)
    ensures ok == Accepted(x) == Is2xx(code)
    ensures ok <==> 200 <= code < 300
    ensures x.first == None ==> code == 500
    ensures x.first.Some? && !(x.first.value == 401 && x.hasAuth) ==> code == x.first.value
    ensures x.first == Some(401) && x.hasAuth ==>
      code == match x.auth
        case Unreachable => 500
        case Answered(status, usable) =>
          if !(200 <= status < 300) then status else if !usable || x.second == None then 500 else x.second.value
  {
    if x.first == None {
      return 500, false;
    }
    if x.first.value == 401 && x.hasAuth {
      var authCode, authOk := CallAuth(x.auth);
      if !authOk {
        return authCode, false;
      }
      if x.second == None {
        return 500, false;
      }
      return x.second.value, Is2xx(x.second.value);
    }
    return x.first.value, Is2xx(x.first.value);
  }

  /* ---- routing one event ---- */

  type Raw = string

  datatype Event = Event(user: string, manifestType: string, raw: Raw)

  datatype DataFilter = DataFilter(
    matches: Event -> bool,
    manifestType: string,
    transform: Raw -> Option<Raw>,
    destinations: seq<Raw -> Exchange>)

  const DEFAULT_MANIFEST_TYPE := "dataReporter"

  // The first filter the event matches.
  function FirstMatch(filters: seq<DataFilter>, event: Event): (i: nat)
    ensures i <= |filters|
    ensures i < |filters| ==> filters[i].matches(event)
    ensures forall j | 0 <= j < i :: !filters[j].matches(event)
  {
    if filters == [] || filters[0].matches(event) then 0 else 1 + FirstMatch(filters[1..], event)
  }

  function ManifestTypeOf(f: DataFilter): string {
    if |f.manifestType| == 0 then DEFAULT_MANIFEST_TYPE else f.manifestType
  }

  // What the data service is sent; a failing transformation sends the message as it came.
  function ForDataService(filters: seq<DataFilter>, event: Event): Event {
    var i := FirstMatch(filters, event);
    if i == |filters| then event.(manifestType := DEFAULT_MANIFEST_TYPE)
    else
      var raw := filters[i].transform(event.raw);
      Event(event.user, ManifestTypeOf(filters[i]), if raw.Some? then raw.value else event.raw)
  }

  // On the fields: the first matching filter gives the manifest type, unless it has none, and the
  // message, unless its transformation fails; without a match the event goes as it came.
  lemma ForDataServiceIs(filters: seq<DataFilter>, event: Event)
    ensures forall i | 0 <= i < |filters| && IsFirstMatch(filters, event, i) ::
      && ForDataService(filters, event).user == event.user
      && ForDataService(filters, event).manifestType
          == (if filters[i].manifestType == "" then "dataReporter" else filters[i].manifestType)
      && (filters[i].transform(event.raw) == None ==> ForDataService(filters, event).raw == event.raw)
      && (filters[i].transform(event.raw).Some? ==>
            ForDataService(filters, event).raw == filters[i].transform(event.raw).value)
    ensures (forall i | 0 <= i < |filters| :: !filters[i].matches(event)) ==>
      ForDataService(filters, event) == Event(event.user, "dataReporter", event.raw)
  {
    forall i | 0 <= i < |filters| && IsFirstMatch(filters, event, i) ensures FirstMatch(filters, event) == i {
    }
  }

  ghost predicate IsFirstMatch(filters: seq<DataFilter>, event: Event, i: int) {
    0 <= i < |filters| && filters[i].matches(event) && forall j | 0 <= j < i :: !filters[j].matches(event)
  }

  // How the destinations of the first matching filter answer; they get the message untransformed.
  function Exchanges(filters: seq<DataFilter>, event: Event): seq<Exchange> {
    var i := FirstMatch(filters, event);
    if i == |filters| then [] else Answers(filters[i].destinations, event.raw)
  }

  function Answers(destinations: seq<Raw -> Exchange>, raw: Raw): seq<Exchange> {
    seq(|destinations|, i requires 0 <= i < |destinations| => destinations[i](raw))
  }

  // On the fields: exactly the destinations of the first matching filter are asked, each with the
  // message as it came.
  lemma ExchangesAre(filters: seq<DataFilter>, event: Event)
    ensures forall i | 0 <= i < |filters| && IsFirstMatch(filters, event, i) ::
      && |Exchanges(filters, event)| == |filters[i].destinations|
      && forall j | 0 <= j < |filters[i].destinations| ::
           Exchanges(filters, event)[j] == filters[i].destinations[j](event.raw)
    ensures (forall i | 0 <= i < |filters| :: !filters[i].matches(event)) ==> Exchanges(filters, event) == []
  {
    forall i | 0 <= i < |filters| && IsFirstMatch(filters, event, i) ensures FirstMatch(filters, event) == i {
    }
  }

  function StatusAt(xs: seq<Exchange>): nat -> int {
    i => if 0 <= i < |xs| then StatusOf(xs[i]) else 0
  }

  predicate AllAccepted(xs: seq<Exchange>) {
    forall i | 0 <= i < |xs| :: Accepted(xs[i])
  }

  predicate All2xx(codes: seq<int>) {
    forall c | c in codes :: Is2xx(c)
  }

  // A destination's code is in the 2xx range exactly when that destination took the event; the
  // answer of its authorization endpoint is never passed off as its own.
  lemma CodesTellAcceptance(xs: seq<Exchange>, codes: seq<int>)
    requires multiset(codes) == multiset(Codes(|xs|, StatusAt(xs)))
    ensures All2xx(codes) <==> AllAccepted(xs)
  {
    var expected := Codes(|xs|, StatusAt(xs));
    assert forall c :: c in codes <==> c in multiset(codes);
    assert forall c :: c in expected <==> c in multiset(expected);
    forall i | 0 <= i < |xs| ensures expected[i] in codes && expected[i] == StatusOf(xs[i]) {
      assert expected[i] in expected;
    }
    assert forall c | c in expected :: exists i :: 0 <= i < |xs| && c == StatusOf(xs[i]);
  }

  // The codes of one event: whether the data service took it, then one for every destination.
  ghost predicate Gathered(confirm: bool, reported: bool, xs: seq<Exchange>, codes: seq<int>) {
    if confirm && !reported then codes == [502]
    else
      var before := if confirm then [] else [200];
      before <= codes && multiset(codes[|before|..]) == multiset(Codes(|xs|, StatusAt(xs)))
  }

  lemma GatheredTellsAcceptance(confirm: bool, reported: bool, xs: seq<Exchange>, codes: seq<int>)
    requires Gathered(confirm, reported, xs, codes)
    ensures All2xx(codes) <==> (confirm ==> reported) && AllAccepted(xs)
  {
    if confirm && !reported {
      assert 502 in codes;
    } else {
      var n := if confirm then 0 else 1;
      CodesTellAcceptance(xs, codes[n..]);
      assert codes == codes[..n] + codes[n..];
      assert All2xx(codes[..n]);
    }
  }

  lemma GatheredCounts(xs: seq<Exchange>, codes: seq<int>)
    requires multiset(codes) == multiset(Codes(|xs|, StatusAt(xs)))
    ensures |codes| == |xs| && forall i | 0 <= i < |xs| :: StatusOf(xs[i]) in codes
  {
    var expected := Codes(|xs|, StatusAt(xs));
    assert |multiset(codes)| == |codes| && |multiset(expected)| == |expected|;
    forall i | 0 <= i < |xs| ensures StatusOf(xs[i]) in codes {
      assert expected[i] == StatusOf(xs[i]) && expected[i] in expected;
      assert StatusOf(xs[i]) in multiset(expected);
    }
  }

  // On the fields: [502] alone if the data service refused, else 200 for queueing, unless delivery
  // was confirmed, and the status of every destination.
  ghost predicate HoldsCodes(confirm: bool, reported: bool, xs: seq<Exchange>, codes: seq<int>) {
    && (confirm && !reported ==> codes == [502])
    && (!confirm ==> |codes| == 1 + |xs| && codes[0] == 200)
    && (!confirm ==> forall i | 0 <= i < |xs| :: StatusOf(xs[i]) in codes[1..])
    && (confirm && reported ==> |codes| == |xs| && forall i | 0 <= i < |xs| :: StatusOf(xs[i]) in codes)
  }

  lemma GatheredHoldsCodes(confirm: bool, reported: bool, xs: seq<Exchange>, codes: seq<int>)
    requires Gathered(confirm, reported, xs, codes)
    ensures HoldsCodes(confirm, reported, xs, codes)
  {
    if !confirm {
      GatheredCounts(xs, codes[1..]);
    } else if reported {
      assert codes[0..] == codes;
      GatheredCounts(xs, codes);
    }
  }

  class DataFilters {
    var dataFilters: seq<DataFilter>
    var confirmDelivery: bool
    var eventChan: seq<Event>   // history: events handed to the event engine, in order
    var delivered: seq<Event>   // history: events the data service confirmed one by one

    constructor (filters: seq<DataFilter>, confirm: bool)
      ensures dataFilters == filters && confirmDelivery == confirm && eventChan == [] && delivered == []
    {
      dataFilters, confirmDelivery, eventChan, delivered := filters, confirm, [], [];
    }

    // `reports` says which events the data service takes when asked to confirm.
    method SendToDataService(event: Event, reports: Event -> bool) returns (codes: seq<int>, ok: bool)
      modifies `eventChan, `delivered
      ensures ok <==> !confirmDelivery || reports(event)
      ensures codes == if !confirmDelivery then [200] else if ok then [] else [502]
      ensures eventChan == old(eventChan) + if confirmDelivery then [] else [event]
      ensures delivered == old(delivered) + if confirmDelivery && ok then [event] else []
    {
      if confirmDelivery {
        if !reports(event) {
          return [502], false;
        }
        delivered := delivered + [event];
        return [], true;
      }
      eventChan := eventChan + [event];
      return [200], true;
    }

    method FilterAndUpload(event: Event, reports: Event -> bool) returns (codes: seq<int>)
      modifies `eventChan, `delivered
      ensures var sent := ForDataService(dataFilters, event);
        && eventChan == old(eventChan) + (if confirmDelivery then [] else [sent])
        && delivered == old(delivered) + if confirmDelivery && reports(sent) then [sent] else []
      ensures Gathered(
        confirmDelivery, reports(ForDataService(dataFilters, event)), Exchanges(dataFilters, event), codes)
      ensures All2xx(codes) <==>
        && (confirmDelivery ==> reports(ForDataService(dataFilters, event)))
        && AllAccepted(Exchanges(dataFilters, event))
      ensures HoldsCodes(
        confirmDelivery, reports(ForDataService(dataFilters, event)), Exchanges(dataFilters, event), codes)
    {
      codes := Route(event, reports);
      GatheredTellsAcceptance(
        confirmDelivery, reports(ForDataService(dataFilters, event)), Exchanges(dataFilters, event), codes);
      GatheredHoldsCodes(
        confirmDelivery, reports(ForDataService(dataFilters, event)), Exchanges(dataFilters, event), codes);
    }

    method Route(event: Event, reports: Event -> bool) returns (codes: seq<int>)
      modifies `eventChan, `delivered
      ensures var sent := ForDataService(dataFilters, event);
        && eventChan == old(eventChan) + (if confirmDelivery then [] else [sent])
        && delivered == old(delivered) + if confirmDelivery && reports(sent) then [sent] else []
      ensures Gathered(
        confirmDelivery, reports(ForDataService(dataFilters, event)), Exchanges(dataFilters, event), codes)
    {
      for i := 0 to |dataFilters|
        invariant forall j | 0 <= j < i :: !dataFilters[j].matches(event)
        invariant eventChan == old(eventChan) && delivered == old(delivered)
      {
        var df := dataFilters[i];
        if df.matches(event) {
          assert FirstMatch(dataFilters, event) == i;
          var manifestType := df.manifestType;
          if |manifestType| == 0 {
            manifestType := DEFAULT_MANIFEST_TYPE;
          }
          var dsEvent := event.(manifestType := manifestType);
          var transformed := df.transform(dsEvent.raw);
          if transformed.Some? {
            dsEvent := dsEvent.(raw := transformed.value);
          }
          var before, ok := SendToDataService(dsEvent, reports);
          if !ok {
            return before;
          }
          var xs := Answers(df.destinations, event.raw);
          codes := FanOut(before, |xs|, StatusAt(xs));
          return;
        }
      }
      assert FirstMatch(dataFilters, event) == |dataFilters|;
      var ok;
      codes, ok := SendToDataService(event.(manifestType := DEFAULT_MANIFEST_TYPE), reports);
    }

    // The event handler; a body that cannot be read is None.
    method HandleEvent(ready: bool, licensed: bool, user: string, body: Option<Raw>,
                       validJson: Raw -> bool, reports: Event -> bool) returns (status: int)
      modifies `eventChan, `delivered
      ensures status == 503 <==> !ready
      ensures status == 400 <==> ready && licensed && (user == "" || (body.Some? && !validJson(body.value)))
      ensures status == 500 <==> ready && (!licensed || (user != "" && body == None))
      ensures !(ready && licensed && user != "" && body.Some? && validJson(body.value)) ==>
        eventChan == old(eventChan) && delivered == old(delivered)
      ensures ready && licensed && user != "" && body.Some? && validJson(body.value) ==>
        var event := Event(user, "", body.value);
        var sent := ForDataService(dataFilters, event);
        && (status == 200 <==> (confirmDelivery ==> reports(sent)) && AllAccepted(Exchanges(dataFilters, event)))
        && (status != 200 ==> status == 502)
        && eventChan == old(eventChan) + (if confirmDelivery then [] else [sent])
        && delivered == old(delivered) + if confirmDelivery && reports(sent) then [sent] else []
    {
      if !ready {
        return 503;
      }
      if !licensed {
        return 500;
      }
      if user == "" {
        return 400;
      }
      if body == None {
        return 500;
      }
      if !validJson(body.value) {
        return 400;
      }
      var event := Event(user, "", body.value);
      var codes := FilterAndUpload(event, reports);
      status := StatusFor(codes);
    }
  }

  // 200 if every code is in the 2xx range.
  method StatusFor(codes: seq<int>) returns (status: int)
    ensures status == if All2xx(codes) then 200 else 502
    ensures status == 200 <==> forall i | 0 <= i < |codes| :: 200 <= codes[i] < 300
  {
    var i := 0;
    while i < |codes|
      invariant 0 <= i <= |codes|
      invariant forall j | 0 <= j < i :: Is2xx(codes[j])
    {
      if !Is2xx(codes[i]) {
        return 502;
      }
      i := i + 1;
    }
    return 200;
  }
}
