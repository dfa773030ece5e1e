/** The queries of src/modules/mendotran/mendotran.ts that the bot's
    commands call: `getStopArrivals` (the arrivals at a bus stop, optionally
    for one line), `getMetroArrivals` and `searchMetroStop` (the arrivals at
    a metro station), and `handleErrors`, which turns whatever went wrong
    into a user-facing `CommandError`. The bot's JSON tables are inputs, and
    so are the server's answers: `fetch` gives what `fetchStopArrivals`
    settles to for a stop id. */
module Mendotran {
  import opened Wrappers
  import opened Text
  import opened CommandTypes
  import opened Arrivals

  /** An entry of the stop table, keyed by stop code. */
  datatype StopData = StopData(stopId: int, location: string, busList: seq<string>)

  /** An entry of the bus table, keyed by line number. */
  datatype BusData = BusData(serviceId: int, color: string)

  /** A station is known by one name or by several. */
  datatype StationName = Single(name: string) | Several(names: seq<string>)

  /** An entry of the metro table: its names, the direction of each of its
      two platforms, and the stop codes of the platforms of lines 100 and 101. */
  datatype MetroStation = MetroStation(name: StationName, direction: seq<string>, stop100: string, stop101: string)

  /** The three loaded tables; a table whose JSON is `null` is `None`. */
  datatype Database = Database(
    stops: Option<map<string, StopData>>,
    buses: Option<map<string, BusData>>,
    metro: Option<seq<MetroStation>>)

  /** What a rejected promise carries: a `CommandError`, another `Error`
      (by its `name`), or a value that is not an `Error`. */
  datatype Thrown = ThrownCommand(error: CommandError) | ThrownError(name: string) | ThrownOther

  /** What `fetchStopArrivals` settles to. */
  datatype Fetched = Resolved(response: Option<ArrivalsResponse>) | Rejected(thrown: Thrown)

  const NotLoaded: CommandError := CommandError("No se ha podido cargar la base de datos de Mendotran.", None)

  /** The running-woman emoji that closes the "no arrivals" texts. */
  const Runner: string := "\U{1F3C3}\U{200D}\U{2640}\U{FE0F}"

  // ------------------------------------------------------------ handleErrors

  const TimeoutMessage: string :=
    "La petici\U{00F3}n tard\U{00F3} demasiado en responder. Esto puede deberse a una baja en la velocidad del servidor.\n\n*Por favor, vuelva a intentarlo.*\n\n\U{1F40C} \U{1F9A5}"

  const UnknownErrorMessage: string := "Ha ocurrido un error desconocido.\n\n*Por favor, vuelva a intentarlo.*\n\n\U{1F605}"

  const NamedErrorPrefix: string := "Ha ocurrido un error al procesar la petici\U{00F3}n, \"*"

  const NamedErrorSuffix: string := "*\".\n\n*Por favor, vuelva a intentarlo.*\n\n\U{1F916}"

  /** `handleErrors`: the `CommandError` it throws for `e`. */
  function HandleErrors(e: Thrown): CommandError {
    match e
    case ThrownCommand(err) => err
    case ThrownError(name) =>
      if name == "TimeoutError" then CommandError(TimeoutMessage, None)
      else CommandError(NamedErrorPrefix + name + NamedErrorSuffix, None)
    case ThrownOther => CommandError(UnknownErrorMessage, None)
  }

  /** A `CommandError` passes unchanged; a timeout gets the timeout text;
      any other `Error` gets a text naming it, and two different names give
      two different texts; anything else gets the unknown-error text. Only
      a passed-through error can carry response options. */
  lemma HandleErrorsCases(e: Thrown)
    ensures e.ThrownCommand? ==> HandleErrors(e) == e.error
    ensures e == ThrownError("TimeoutError") ==> HandleErrors(e).message == TimeoutMessage
    ensures e.ThrownError? && e.name != "TimeoutError" ==>
      HandleErrors(e).message == NamedErrorPrefix + e.name + NamedErrorSuffix &&
      HandleErrors(e).message[|NamedErrorPrefix|..|NamedErrorPrefix| + |e.name|] == e.name
    ensures e == ThrownOther ==> HandleErrors(e).message == UnknownErrorMessage
    ensures !e.ThrownCommand? ==> HandleErrors(e).options.None?
  {
    if e.ThrownError? && e.name != "TimeoutError" {
      NamedSlice(e.name);
    }
  }

  lemma NamedSlice(name: string)
    ensures (NamedErrorPrefix + name + NamedErrorSuffix)[|NamedErrorPrefix|..|NamedErrorPrefix| + |name|] == name
  {
    var m := NamedErrorPrefix + name + NamedErrorSuffix;
    assert forall i :: 0 <= i < |name| ==> m[|NamedErrorPrefix| + i] == name[i];
  }

  /** Two errors with different names are told apart in the text. */
  lemma NamedErrorsDiffer(a: string, b: string)
    requires a != b && a != "TimeoutError" && b != "TimeoutError"
    ensures HandleErrors(ThrownError(a)) != HandleErrors(ThrownError(b))
  {
    NamedSlice(a);
    NamedSlice(b);
    if |a| == |b| {
      assert (NamedErrorPrefix + a + NamedErrorSuffix) != (NamedErrorPrefix + b + NamedErrorSuffix);
    } else {
      assert |NamedErrorPrefix + a + NamedErrorSuffix| != |NamedErrorPrefix + b + NamedErrorSuffix|;
    }
  }

  // -------------------------------------------------- stop code validation

  predicate IsM(c: char) {
    c == 'M' || c == 'm'
  }

  /** How many M's (in either case) `s` starts with. */
  function LeadingMs(s: string): (k: nat)
    ensures k <= |s| && forall i :: 0 <= i < k ==> IsM(s[i])
    ensures k < |s| ==> !IsM(s[k])
  {
    if s != [] && IsM(s[0]) then 1 + LeadingMs(s[1..]) else 0
  }

  /** `/^(M|m)+\d+$/i`, read by counting the leading M's. */
  predicate StopCodeForm(s: string) {
    var k := LeadingMs(s);
    k >= 1 && IsDigits(s[k..])
  }

  /** `s` splits at `k` into one or more M's followed by one or more digits. */
  predicate SplitsAt(s: string, k: nat) {
    1 <= k <= |s| && (forall i :: 0 <= i < k ==> IsM(s[i])) && IsDigits(s[k..])
  }

  /** The counting reading agrees with the pattern: some split into M's and
      digits exists exactly when the leading M's are followed by digits. */
  lemma StopCodeFormMeaning(s: string)
    ensures StopCodeForm(s) <==> exists k: nat :: SplitsAt(s, k)
  {
    var m := LeadingMs(s);
    if StopCodeForm(s) {
      assert SplitsAt(s, m);
    }
    if exists k: nat :: SplitsAt(s, k) {
      var k: nat :| SplitsAt(s, k);
      assert k < |s| && s[k..][0] == s[k];
      assert !IsM(s[k]);
      assert m == k;
    }
  }

  /** The code is refused when it neither has the stop-code form nor is a
      number (`isNaN(+stopNumber)`). */
  predicate Malformed(s: string) {
    !StopCodeForm(s) && JsNumber(s).None?
  }

  function InvalidStopMessage(s: string): string {
    "\"*" + s + "*\" no es una parada. El formato ha de ser similar al siguiente:\n\n" +
    "`M1234` *\U{00F3}* `1234` \U{1F913}"
  }

  function UnknownStopMessage(code: string): string {
    "No existe la parada *" + code + "*."
  }

  function NotServedMessage(bus: string, code: string): string {
    "El micro *" + bus + "* no pasa por la parada *" + code + "*."
  }

  /** The stop the upper-cased `code` names: the code itself, else with an
      `M` in front, else with an `L` in front. */
  function ResolveStop(stops: map<string, StopData>, code: string): (r: Result<string, CommandError>)
    ensures r.Success? ==> r.value in stops
  {
    if code in stops then Success(code)
    else if "M" + code in stops then Success("M" + code)
    else if "L" + code in stops then Success("L" + code)
    else Failure(CommandError(UnknownStopMessage(code), None))
  }

  /** The line the user asked for, when `bus` is truthy. */
  function BusGiven(bus: Option<string>): (b: Option<string>)
    ensures b.Some? ==> b.value != ""
  {
    if bus.Some? && bus.value != "" then bus else None
  }

  // ------------------------------------------------------- stop arrivals

  /** The arrivals of `s` whose service is `id` among its first `k`, in order. */
  function FilteredUpTo(s: seq<Arrival>, id: int, k: nat): seq<Arrival>
    requires k <= |s|
  {
    if k == 0 then []
    else if s[k - 1].serviceId == id then FilteredUpTo(s, id, k - 1) + [s[k - 1]]
    else FilteredUpTo(s, id, k - 1)
  }

  /** `arrivals.filter((bus) => bus.service_id === serviceID)`. */
  method FilterByService(arrivals: seq<Arrival>, serviceId: int) returns (r: seq<Arrival>)
    ensures r == FilteredUpTo(arrivals, serviceId, |arrivals|)
  {
    r := [];
    var i := 0;
    while i < |arrivals|
      invariant i <= |arrivals|
      invariant r == FilteredUpTo(arrivals, serviceId, i)
    {
      if arrivals[i].serviceId == serviceId {
        r := r + [arrivals[i]];
      }
      i := i + 1;
    }
  }

  /** The filter keeps exactly the arrivals of the service, each in its place. */
  lemma {:induction false} FilteredMeaning(s: seq<Arrival>, id: int, k: nat)
    requires k <= |s|
    ensures |FilteredUpTo(s, id, k)| <= k
    ensures forall a :: a in FilteredUpTo(s, id, k) <==> a in s[..k] && a.serviceId == id
    decreases k
  {
    if k > 0 {
      FilteredMeaning(s, id, k - 1);
      assert s[..k] == s[..k - 1] + [s[k - 1]];
    }
  }

  /** `MENDOTRAN_BUSES_DATABASE[code].color` for every line. */
  function Colors(buses: map<string, BusData>): map<string, string> {
    map code | code in buses :: buses[code].color
  }

  function NoArrivalsAtStop(code: string): string {
    "\U{1F68E} Sin arribos para la parada *" + code + "* " + Runner
  }

  function NoArrivalsForBus(bus: string, code: string): string {
    "\U{1F68E} Sin arribos para el micro *" + bus + "* en la parada *" + code + "* " + Runner
  }

  function StopTitle(code: string, b: Option<string>): string {
    "\U{1F6A6} *Parada " + code + (if b.Some? then " - L\U{00ED}nea " + b.value else "") + "* \U{1F6A6}\n\n"
  }

  function LocationLine(location: string): string {
    "\n\n\U{1F4CD} *" + location + "* \U{1F4CD}"
  }

  /** The arrivals handed to `arrivalsToString`: only the line's service's
      when a line was given. */
  function StopArrivalList(arrivals: seq<Arrival>, b: Option<string>, buses: map<string, BusData>): seq<Arrival>
    requires b.Some? ==> b.value in buses
  {
    if b.Some? then FilteredUpTo(arrivals, buses[b.value].serviceId, |arrivals|) else arrivals
  }

  /** How many arrivals are rendered: 5 for one line, 10 for the whole stop. */
  function StopLimit(b: Option<string>): int {
    if b.Some? then 5 else 10
  }

  /** The `then` callback of `getStopArrivals`, for the resolved stop `code`. */
  function StopReplySpec(code: string, stop: StopData, b: Option<string>, buses: map<string, BusData>,
                         resp: Option<ArrivalsResponse>, loc: Locale, now: int): Result<string, Thrown>
  {
    if resp.None? then Success(NoArrivalsAtStop(code))
    else if resp.value.arrivals.None? then Failure(ThrownError(TypeErrorName))
    else if |resp.value.arrivals.value| == 0 then Success(NoArrivalsAtStop(code))
    else if b.Some? && b.value !in buses then Failure(ThrownError(TypeErrorName))
    else
      var list := StopArrivalList(resp.value.arrivals.value, b, buses);
      if b.Some? && |list| == 0 then Success(NoArrivalsForBus(b.value, code))
      else
        match ArrivalsText(resp.value.(arrivals := Some(list)), StopLimit(b), Colors(buses), loc, now)
        case Failure(name) => Failure(ThrownError(name))
        case Success(t) => Success(StopTitle(code, b) + t + LocationLine(stop.location))
  }

  /** `getStopArrivals(stopNumber, bus)`. */
  function StopArrivalsSpec(db: Database, stopNumber: string, bus: Option<string>, fetch: int -> Fetched,
                            loc: Locale, now: int): Result<string, CommandError>
  {
    if db.buses.None? || db.stops.None? then Failure(NotLoaded)
    else if Malformed(stopNumber) then Failure(CommandError(InvalidStopMessage(stopNumber), None))
    else
      var stops := db.stops.value;
      match ResolveStop(stops, Upper(stopNumber))
      case Failure(e) => Failure(e)
      case Success(code) =>
        var b := BusGiven(bus);
        if b.Some? && b.value !in stops[code].busList then Failure(CommandError(NotServedMessage(b.value, code), None))
        else FetchedStopSpec(code, stops[code], b, db.buses.value, fetch(stops[code].stopId), loc, now)
  }

  /** The promise of `getStopArrivals` once the request for the stop has
      settled: every failure goes through `handleErrors`. */
  function FetchedStopSpec(code: string, stop: StopData, b: Option<string>, buses: map<string, BusData>,
                           fetched: Fetched, loc: Locale, now: int): Result<string, CommandError>
  {
    match fetched
    case Rejected(e) => Failure(HandleErrors(e))
    case Resolved(resp) =>
      match StopReplySpec(code, stop, b, buses, resp, loc, now)
      case Success(t) => Success(t)
      case Failure(e) => Failure(HandleErrors(e))
  }

  /** The `then` callback of `getStopArrivals`. */
  method StopReply(code: string, stop: StopData, b: Option<string>, buses: map<string, BusData>,
                   resp: Option<ArrivalsResponse>, loc: Locale, now: int)
    returns (r: Result<string, Thrown>)
    ensures r == StopReplySpec(code, stop, b, buses, resp, loc, now)
  {
    if resp.None? {
      return Success(NoArrivalsAtStop(code));
    }
    var arrivalsResponse := resp.value;
    if arrivalsResponse.arrivals.None? {
      return Failure(ThrownError(TypeErrorName));
    }
    if |arrivalsResponse.arrivals.value| == 0 {
      return Success(NoArrivalsAtStop(code));
    }
    if b.Some? {
      if b.value !in buses {
        return Failure(ThrownError(TypeErrorName));
      }
      var serviceID := buses[b.value].serviceId;
      var filtered := FilterByService(arrivalsResponse.arrivals.value, serviceID);
      arrivalsResponse := arrivalsResponse.(arrivals := Some(filtered));
      if |filtered| == 0 {
        return Success(NoArrivalsForBus(b.value, code));
      }
    }
    var shown := ArrivalsToString(arrivalsResponse, if b.Some? then 5 else 10, Colors(buses), loc, now);
    if shown.Failure? {
      return Failure(ThrownError(shown.error));
    }
    return Success(StopTitle(code, b) + shown.value + LocationLine(stop.location));
  }

  /** `getStopArrivals`: `stopNumber` is upper-cased and then completed with
      an `M` or an `L` in place. */
  method GetStopArrivals(db: Database, stopNumber: string, bus: Option<string>, fetch: int -> Fetched,
                         loc: Locale, now: int)
    returns (r: Result<string, CommandError>)
    ensures r == StopArrivalsSpec(db, stopNumber, bus, fetch, loc, now)
  {
    if db.buses.None? || db.stops.None? {
      return Failure(NotLoaded);
    }
    if Malformed(stopNumber) {
      return Failure(CommandError(InvalidStopMessage(stopNumber), None));
    }
    var stops := db.stops.value;
    var code := Upper(stopNumber);
    if code !in stops {
      if "M" + code in stops {
        code := "M" + code;
      } else if "L" + code in stops {
        code := "L" + code;
      } else {
        return Failure(CommandError(UnknownStopMessage(code), None));
      }
    }
    var b := BusGiven(bus);
    if b.Some? && b.value !in stops[code].busList {
      return Failure(CommandError(NotServedMessage(b.value, code), None));
    }
    r := AwaitStop(code, stops[code], b, db.buses.value, fetch(stops[code].stopId), loc, now);
  }

  /** The `then` and `catch` of the request in `getStopArrivals`. */
  method AwaitStop(code: string, stop: StopData, b: Option<string>, buses: map<string, BusData>,
                   fetched: Fetched, loc: Locale, now: int)
    returns (r: Result<string, CommandError>)
    ensures r == FetchedStopSpec(code, stop, b, buses, fetched, loc, now)
  {
    if fetched.Rejected? {
      return Failure(HandleErrors(fetched.thrown));
    }
    var text := StopReply(code, stop, b, buses, fetched.response, loc, now);
    if text.Failure? {
      return Failure(HandleErrors(text.error));
    }
    return Success(text.value);
  }

  // ---------------------------------------------------- stop properties

  /** A malformed code is refused with the format hint, before any lookup
      or request. */
  lemma MalformedRefused(db: Database, s: string, bus: Option<string>, fetch: int -> Fetched, loc: Locale, now: int)
    requires db.buses.Some? && db.stops.Some? && Malformed(s)
    ensures StopArrivalsSpec(db, s, bus, fetch, loc, now) == Failure(CommandError(InvalidStopMessage(s), None))
  {
  }

  /** Codes of the form `M1234` (any number of M's, either case) and numbers
      are never malformed. */
  lemma WellFormedCodes(s: string)
    ensures (exists k: nat :: SplitsAt(s, k)) ==> !Malformed(s)
    ensures IsDigits(s) ==> !Malformed(s)
  {
    StopCodeFormMeaning(s);
  }

  /** The resolution tries the code, then `M` + code, then `L` + code, and
      takes the first one the table holds; it fails only when none is there. */
  lemma ResolutionOrder(stops: map<string, StopData>, code: string)
    ensures ResolveStop(stops, code).Success? <==> code in stops || "M" + code in stops || "L" + code in stops
    ensures var r := ResolveStop(stops, code);
      r.Success? ==> r.value in stops && (r.value == code || r.value == "M" + code || r.value == "L" + code)
    ensures var r := ResolveStop(stops, code); r.Success? && r.value != code ==> code !in stops
    ensures var r := ResolveStop(stops, code); r.Success? && r.value == "L" + code ==> "M" + code !in stops
    ensures ResolveStop(stops, code).Failure? ==> ResolveStop(stops, code).error.message == UnknownStopMessage(code)
  {
    assert ("M" + code)[0] == 'M' && ("L" + code)[0] == 'L';
    assert |"M" + code| == |code| + 1 == |"L" + code|;
  }

  /** A line that does not stop at the resolved stop is refused before the
      request. */
  lemma BusNotServedRefused(db: Database, s: string, bus: string, fetch: int -> Fetched, loc: Locale, now: int)
    requires db.buses.Some? && db.stops.Some? && !Malformed(s) && bus != ""
    requires ResolveStop(db.stops.value, Upper(s)).Success?
    requires bus !in db.stops.value[ResolveStop(db.stops.value, Upper(s)).value].busList
    ensures StopArrivalsSpec(db, s, Some(bus), fetch, loc, now) ==
      Failure(CommandError(NotServedMessage(bus, ResolveStop(db.stops.value, Upper(s)).value), None))
  {
    assert BusGiven(Some(bus)) == Some(bus);
  }

  /** The arrivals `arrivalsToString` renders for a response with a list
      and references. */
  function Shown(arrivals: seq<Arrival>, services: map<int, Service>, limit: int): seq<Arrival> {
    var sorted := SortSpec(arrivals);
    VisibleUpTo(sorted, services, Examined(|sorted|, limit))
  }

  /** Sorting keeps the number of arrivals and the service of each. */
  lemma SortKeepsServices(s: seq<Arrival>)
    ensures |SortSpec(s)| == |s|
    ensures forall a :: a in SortSpec(s) ==> exists i :: 0 <= i < |s| && a.serviceId == s[i].serviceId
  {
    if |s| != 1 {
      SortByArrivalTimeCorrect(s);
      assert |multiset(SortSpec(s))| == |multiset(NormalizeAll(s))|;
      forall a | a in SortSpec(s) ensures exists i :: 0 <= i < |s| && a.serviceId == s[i].serviceId {
        assert a in multiset(NormalizeAll(s));
        var i :| 0 <= i < |s| && NormalizeAll(s)[i] == a;
        assert a == Normalize(s[i]);
      }
    } else {
      forall a | a in SortSpec(s) ensures exists i :: 0 <= i < |s| && a.serviceId == s[i].serviceId {
        assert a.serviceId == s[0].serviceId;
      }
    }
  }

  /** At most `limit` arrivals are rendered, and every one of them comes
      from the list given. */
  lemma ShownWithin(arrivals: seq<Arrival>, services: map<int, Service>, limit: int)
    ensures |Shown(arrivals, services, limit)| <= |arrivals|
    ensures |Shown(arrivals, services, limit)| <= if limit < 0 then 0 else limit
    ensures forall a :: a in Shown(arrivals, services, limit) ==>
      exists i :: 0 <= i < |arrivals| && a.serviceId == arrivals[i].serviceId
  {
    var sorted := SortSpec(arrivals);
    var k := Examined(|sorted|, limit);
    SortKeepsServices(arrivals);
    VisibleMeaning(sorted, services, k);
    forall a | a in Shown(arrivals, services, limit)
      ensures exists i :: 0 <= i < |arrivals| && a.serviceId == arrivals[i].serviceId
    {
      assert a in sorted[..k];
      assert a in sorted;
    }
  }

  /** With a line given, at most 5 arrivals are rendered and all of them are
      of that line's service; without one, at most 10. */
  lemma StopLimits(arrivals: seq<Arrival>, b: Option<string>, buses: map<string, BusData>, services: map<int, Service>)
    requires b.Some? ==> b.value in buses
    ensures |Shown(StopArrivalList(arrivals, b, buses), services, StopLimit(b))| <= StopLimit(b)
    ensures b.Some? ==> forall a :: a in Shown(StopArrivalList(arrivals, b, buses), services, StopLimit(b)) ==>
      a.serviceId == buses[b.value].serviceId
  {
    var list := StopArrivalList(arrivals, b, buses);
    ShownWithin(list, services, StopLimit(b));
    if b.Some? {
      var id := buses[b.value].serviceId;
      FilteredMeaning(arrivals, id, |arrivals|);
      forall a | a in Shown(list, services, StopLimit(b)) ensures a.serviceId == id {
        var i :| 0 <= i < |list| && a.serviceId == list[i].serviceId;
        assert list[i] in list;
      }
    }
  }

  // ------------------------------------------------------------ stations

  /** `replaceAll(/á/gi, 'a')` and the same for the other four vowels. */
  function StripAccent(c: char): char {
    if c == '\U{00E1}' || c == '\U{00C1}' then 'a'
    else if c == '\U{00E9}' || c == '\U{00C9}' then 'e'
    else if c == '\U{00ED}' || c == '\U{00CD}' then 'i'
    else if c == '\U{00F3}' || c == '\U{00D3}' then 'o'
    else if c == '\U{00FA}' || c == '\U{00DA}' then 'u'
    else c
  }

  function StripAccents(s: string): (r: string)
    ensures |r| == |s| && forall i :: 0 <= i < |s| ==> r[i] == StripAccent(s[i])
  {
    if s == [] then [] else [StripAccent(s[0])] + StripAccents(s[1..])
  }

  /** `name.search(new RegExp(query, 'i')) >= 0`, for a query read as
      plain text. */
  predicate NameMatches(name: string, query: string) {
    Contains(Lower(name), Lower(query))
  }

  /** The test of the search loop: a truthy name, or some name of the list,
      that matches. */
  predicate StationMatches(st: MetroStation, query: string) {
    match st.name
    case Single(n) => n != "" && NameMatches(n, query)
    case Several(ns) => exists i :: 0 <= i < |ns| && NameMatches(ns[i], query)
  }

  /** The index of the first station from `i` on that matches. */
  function FirstMatch(stations: seq<MetroStation>, query: string, i: nat): (r: Option<nat>)
    requires i <= |stations|
    ensures r.Some? ==> i <= r.value < |stations|
    decreases |stations| - i
  {
    if i == |stations| then None
    else if StationMatches(stations[i], query) then Some(i)
    else FirstMatch(stations, query, i + 1)
  }

  function NotFoundMessage(query: string): string {
    "No se ha encontrado la estaci\U{00F3}n *\"" + query + "\"*."
  }

  /** `searchMetroStop(stopName)`. */
  function SearchSpec(db: Database, stopName: string): Result<MetroStation, CommandError> {
    if db.metro.None? || db.stops.None? then Failure(NotLoaded)
    else
      var query := StripAccents(stopName);
      match FirstMatch(db.metro.value, query, 0)
      case Some(k) => Success(db.metro.value[k])
      case None => Failure(CommandError(NotFoundMessage(query), None))
  }

  /** `searchMetroStop`: the stations are tried in table order. */
  method SearchMetroStop(db: Database, stopName: string) returns (r: Result<MetroStation, CommandError>)
    ensures r == SearchSpec(db, stopName)
  {
    if db.metro.None? || db.stops.None? {
      return Failure(NotLoaded);
    }
    var query := StripAccents(stopName);
    var stations := db.metro.value;
    var i := 0;
    while i < |stations|
      invariant i <= |stations|
      invariant FirstMatch(stations, query, i) == FirstMatch(stations, query, 0)
    {
      if StationMatches(stations[i], query) {
        return Success(stations[i]);
      }
      i := i + 1;
    }
    return Failure(CommandError(NotFoundMessage(query), None));
  }

  /** The first match is a match, and no station before it matches. */
  lemma {:induction false} FirstMatchMeaning(stations: seq<MetroStation>, query: string, i: nat)
    requires i <= |stations|
    ensures var m := FirstMatch(stations, query, i);
      m.Some? ==> i <= m.value < |stations| && StationMatches(stations[m.value], query) &&
                  forall j :: i <= j < m.value ==> !StationMatches(stations[j], query)
    ensures FirstMatch(stations, query, i).None? ==> forall j :: i <= j < |stations| ==> !StationMatches(stations[j], query)
    decreases |stations| - i
  {
    if i < |stations| && !StationMatches(stations[i], query) {
      FirstMatchMeaning(stations, query, i + 1);
    }
  }

  /** The station found is the first in table order whose name matches;
      the search fails only when no station matches. */
  lemma SearchFindsFirst(db: Database, stopName: string)
    requires db.metro.Some? && db.stops.Some?
    ensures var r := SearchSpec(db, stopName);
      var stations := db.metro.value;
      var query := StripAccents(stopName);
      (r.Success? ==> exists k :: 0 <= k < |stations| && r.value == stations[k] && StationMatches(stations[k], query) &&
                        forall j :: 0 <= j < k ==> !StationMatches(stations[j], query)) &&
      (r.Failure? ==> r.error == CommandError(NotFoundMessage(query), None) &&
                      forall j :: 0 <= j < |stations| ==> !StationMatches(stations[j], query))
  {
    FirstMatchMeaning(db.metro.value, StripAccents(stopName), 0);
  }

  /** Accents are ignored: a query and its accent-stripped form find the
      same station, and fail with the same text. */
  lemma AccentsIgnored(db: Database, stopName: string)
    ensures SearchSpec(db, StripAccents(stopName)) == SearchSpec(db, stopName)
  {
    StripIdempotent(stopName);
  }

  lemma StripIdempotent(s: string)
    ensures StripAccents(StripAccents(s)) == StripAccents(s)
  {
    assert forall i :: 0 <= i < |s| ==> StripAccent(StripAccent(s[i])) == StripAccent(s[i]);
  }

  lemma StripThenLower(s: string)
    ensures Lower(StripAccents(Upper(s))) == Lower(StripAccents(s))
  {
    assert forall i :: 0 <= i < |s| ==> LowerChar(StripAccent(UpperChar(s[i]))) == LowerChar(StripAccent(s[i]));
  }

  /** The query's letter case does not matter: an upper-cased query finds a
      station exactly when the query does, and the same one. */
  lemma QueryCaseIgnored(db: Database, stopName: string)
    requires db.metro.Some? && db.stops.Some?
    ensures SearchSpec(db, Upper(stopName)).Success? <==> SearchSpec(db, stopName).Success?
    ensures SearchSpec(db, stopName).Success? ==> SearchSpec(db, Upper(stopName)).value == SearchSpec(db, stopName).value
  {
    var q1 := StripAccents(Upper(stopName));
    var q2 := StripAccents(stopName);
    StripThenLower(stopName);
    forall st: MetroStation ensures StationMatches(st, q1) == StationMatches(st, q2) {
    }
    SameMatches(db.metro.value, q1, q2, 0);
  }

  lemma {:induction false} SameMatches(stations: seq<MetroStation>, q1: string, q2: string, i: nat)
    requires i <= |stations| && forall st: MetroStation :: StationMatches(st, q1) == StationMatches(st, q2)
    ensures FirstMatch(stations, q1, i) == FirstMatch(stations, q2, i)
    decreases |stations| - i
  {
    if i < |stations| {
      SameMatches(stations, q1, q2, i + 1);
    }
  }

  // --------------------------------------------------------- metro arrivals

  /** `arrivals.splice(3)`: the first three arrivals stay. */
  function Kept(s: seq<Arrival>): seq<Arrival> {
    if |s| > 3 then s[..3] else s
  }

  /** `> 🚏 *N más en camino*` when more arrivals than those shown are coming. */
  function MoreLine(restantes: int): string {
    if restantes > 0 then MoreText(restantes) else ""
  }

  function MoreText(n: nat): string {
    "\n\n> \U{1F68F} *" + NatToString(n) + " m\U{00E1}s en camino*"
  }

  function NoPlatformArrivals(direction: string): string {
    "\U{1F68B} *Sin arribos para el and\U{00E9}n " + direction + "* " + Runner
  }

  /** `stop.direction[k]` inside a template: `undefined` past the end. */
  function DirectionAt(directions: seq<string>, k: nat): string {
    if k < |directions| then directions[k] else "undefined"
  }

  function DisplayName(n: StationName): string {
    match n
    case Single(s) => s
    case Several(ns) => Join(ns, " / ")
  }

  function StationTitle(n: StationName): string {
    "\U{1F6A6} *Estaci\U{00F3}n " + DisplayName(n) + "* \U{1F6A6}\n\n"
  }

  const NoStationArrivals: string := "\U{1F68B} Sin arribos para la estaci\U{00F3}n " + Runner

  /** The text of one platform: its arrivals (or the "none" line) and how
      many more are coming. */
  function PlatformText(kept: seq<Arrival>, services: Option<map<int, Service>>, restantes: int, direction: string,
                        colors: map<string, string>, loc: Locale, now: int): Result<string, string>
  {
    if |kept| > 0 then
      match ArrivalsText(ArrivalsResponse(Some(kept), services), 10, colors, loc, now)
      case Failure(e) => Failure(e)
      case Success(t) => Success(t + MoreLine(restantes))
    else Success(NoPlatformArrivals(direction) + MoreLine(restantes))
  }

  /** One platform once sorted: the (at most three) arrivals shown, how many
      more there were (negative when fewer than three), and the services
      of the answer. */
  datatype Platform = Platform(kept: seq<Arrival>, restantes: int, services: Option<map<int, Service>>)

  /** The platform of an answer. */
  function PlatformOf(r: ArrivalsResponse): Platform
    requires r.arrivals.Some?
  {
    var sorted := SortSpec(r.arrivals.value);
    Platform(Kept(sorted), |sorted| - 3, r.services)
  }

  /** The station's text from its two platforms. */
  function StationText(st: MetroStation, location: string, p: Platform, q: Platform,
                       colors: map<string, string>, loc: Locale, now: int): Result<string, Thrown>
  {
    if |p.kept| > 0 || |q.kept| > 0 then
      match PlatformText(p.kept, p.services, p.restantes, DirectionAt(st.direction, 0), colors, loc, now)
      case Failure(e) => Failure(ThrownError(e))
      case Success(p100) =>
        match PlatformText(q.kept, q.services, q.restantes, DirectionAt(st.direction, 1), colors, loc, now)
        case Failure(e) => Failure(ThrownError(e))
        case Success(p101) => Success(StationTitle(st.name) + p100 + "\n\n" + p101 + LocationLine(location))
    else Success(NoStationArrivals)
  }

  /** The station's text from the two platforms' answers. */
  function MetroTextSpec(st: MetroStation, location: string, r100: ArrivalsResponse, r101: ArrivalsResponse,
                         colors: map<string, string>, loc: Locale, now: int): Result<string, Thrown>
    requires r100.arrivals.Some? && r101.arrivals.Some?
  {
    StationText(st, location, PlatformOf(r100), PlatformOf(r101), colors, loc, now)
  }

  /** The `then` callback of `getMetroArrivals` for the station found. */
  function MetroReplySpec(stops: map<string, StopData>, st: MetroStation, fetch: int -> Fetched,
                          colors: map<string, string>, loc: Locale, now: int): Result<string, Thrown>
  {
    if st.stop100 !in stops then Failure(ThrownError(TypeErrorName))
    else
      match fetch(stops[st.stop100].stopId)
      case Rejected(e) => Failure(e)
      case Resolved(r100) =>
        if st.stop101 !in stops then Failure(ThrownError(TypeErrorName))
        else
          match fetch(stops[st.stop101].stopId)
          case Rejected(e) => Failure(e)
          case Resolved(r101) =>
            if r100.None? || r100.value.arrivals.None? || r101.None? || r101.value.arrivals.None? then
              Failure(ThrownError(TypeErrorName))
            else MetroTextSpec(st, stops[st.stop100].location, r100.value, r101.value, colors, loc, now)
  }

  /** The colours `arrivalsToString` reads; a missing bus table has none. */
  function ColorsOf(buses: Option<map<string, BusData>>): map<string, string> {
    if buses.Some? then Colors(buses.value) else map[]
  }

  /** `getMetroArrivals(stopName)`. */
  function MetroArrivalsSpec(db: Database, stopName: string, fetch: int -> Fetched, loc: Locale, now: int)
    : Result<string, CommandError>
  {
    match SearchSpec(db, stopName)
    case Failure(e) => Failure(e)
    case Success(st) =>
      match MetroReplySpec(db.stops.GetOr(map[]), st, fetch, ColorsOf(db.buses), loc, now)
      case Success(t) => Success(t)
      case Failure(e) => Failure(HandleErrors(e))
  }

  /** One platform: sorted, then cut to three, remembering how many more
      there were. */
  method PlatformArrivals(arrivals: seq<Arrival>) returns (kept: seq<Arrival>, restantes: int)
    ensures kept == Kept(SortSpec(arrivals)) && restantes == |SortSpec(arrivals)| - 3
  {
    kept := SortByArrivalTime(arrivals);
    var arrivalsLimit := 3;
    restantes := |kept| - arrivalsLimit;
    if |kept| > arrivalsLimit {
      kept := kept[..arrivalsLimit];
    }
  }

  method PlatformPart(kept: seq<Arrival>, services: Option<map<int, Service>>, restantes: int, direction: string,
                      colors: map<string, string>, loc: Locale, now: int)
    returns (r: Result<string, string>)
    ensures r == PlatformText(kept, services, restantes, direction, colors, loc, now)
  {
    if |kept| > 0 {
      var t := ArrivalsToString(ArrivalsResponse(Some(kept), services), 10, colors, loc, now);
      if t.Failure? {
        return t;
      }
      return Success(t.value + MoreLine(restantes));
    }
    return Success(NoPlatformArrivals(direction) + MoreLine(restantes));
  }

  /** The station text, once both platforms are sorted and cut. */
  method StationTextOf(st: MetroStation, location: string, p: Platform, q: Platform,
                       colors: map<string, string>, loc: Locale, now: int)
    returns (r: Result<string, Thrown>)
    ensures r == StationText(st, location, p, q, colors, loc, now)
  {
    if |p.kept| > 0 || |q.kept| > 0 {
      var p100 := PlatformPart(p.kept, p.services, p.restantes, DirectionAt(st.direction, 0), colors, loc, now);
      if p100.Failure? {
        return Failure(ThrownError(p100.error));
      }
      var p101 := PlatformPart(q.kept, q.services, q.restantes, DirectionAt(st.direction, 1), colors, loc, now);
      if p101.Failure? {
        return Failure(ThrownError(p101.error));
      }
      return Success(StationTitle(st.name) + p100.value + "\n\n" + p101.value + LocationLine(location));
    }
    return Success(NoStationArrivals);
  }

  /** The station text, once both answers are in. */
  method MetroText(st: MetroStation, location: string, r100: ArrivalsResponse, r101: ArrivalsResponse,
                   colors: map<string, string>, loc: Locale, now: int)
    returns (r: Result<string, Thrown>)
    requires r100.arrivals.Some? && r101.arrivals.Some?
    ensures r == MetroTextSpec(st, location, r100, r101, colors, loc, now)
  {
    var kept100, restantes100 := PlatformArrivals(r100.arrivals.value);
    var kept101, restantes101 := PlatformArrivals(r101.arrivals.value);
    r := StationTextOf(st, location, Platform(kept100, restantes100, r100.services),
                       Platform(kept101, restantes101, r101.services), colors, loc, now);
  }

  /** `getMetroArrivals`. */
  method GetMetroArrivals(db: Database, stopName: string, fetch: int -> Fetched, loc: Locale, now: int)
    returns (r: Result<string, CommandError>)
    ensures r == MetroArrivalsSpec(db, stopName, fetch, loc, now)
  {
    var found := SearchMetroStop(db, stopName);
    if found.Failure? {
      return Failure(found.error);
    }
    var stop := found.value;
    var stops := db.stops.GetOr(map[]);
    var colors := ColorsOf(db.buses);
    if stop.stop100 !in stops {
      return Failure(HandleErrors(ThrownError(TypeErrorName)));
    }
    var f100 := fetch(stops[stop.stop100].stopId);
    if f100.Rejected? {
      return Failure(HandleErrors(f100.thrown));
    }
    if stop.stop101 !in stops {
      return Failure(HandleErrors(ThrownError(TypeErrorName)));
    }
    var f101 := fetch(stops[stop.stop101].stopId);
    if f101.Rejected? {
      return Failure(HandleErrors(f101.thrown));
    }
    var metro100Arrivals := f100.response;
    var metro101Arrivals := f101.response;
    if metro100Arrivals.None? || metro100Arrivals.value.arrivals.None? ||
       metro101Arrivals.None? || metro101Arrivals.value.arrivals.None? {
      return Failure(HandleErrors(ThrownError(TypeErrorName)));
    }
    var text := MetroText(stop, stops[stop.stop100].location, metro100Arrivals.value, metro101Arrivals.value, colors, loc, now);
    if text.Failure? {
      return Failure(HandleErrors(text.error));
    }
    return Success(text.value);
  }

  // --------------------------------------------------- metro properties

  /** Each platform shows at most its first three arrivals after sorting,
      and the "more" count is how many arrivals were cut. */
  lemma KeptMeaning(s: seq<Arrival>)
    ensures |Kept(s)| <= 3 && Kept(s) == s[..|Kept(s)|]
    ensures |Kept(s)| == |s| || |Kept(s)| == 3
    ensures |s| - 3 > 0 <==> |Kept(s)| < |s|
    ensures |s| - 3 > 0 ==> |Kept(s)| + (|s| - 3) == |s|
    ensures |Kept(s)| > 0 <==> |s| > 0
  {
  }

  /** The "more" line appears exactly when arrivals were cut, and the number
      it prints reads back as the number of arrivals cut. */
  lemma MoreLineCount(s: seq<Arrival>)
    ensures MoreLine(|s| - 3) != "" <==> |s| > 3
    ensures |s| > 3 ==> exists n: nat :: MoreLine(|s| - 3) == MoreText(n) && DigitsValue(NatToString(n)) + |Kept(s)| == |s|
  {
    if |s| > 3 {
      NatToStringRoundTrip(|s| - 3);
      assert MoreLine(|s| - 3) == MoreText(|s| - 3);
    }
  }

  /** A platform's arrivals text renders at most three arrivals. */
  lemma PlatformShowsAtMostThree(arrivals: seq<Arrival>, services: map<int, Service>)
    ensures |Shown(Kept(SortSpec(arrivals)), services, 10)| <= 3
  {
    ShownWithin(Kept(SortSpec(arrivals)), services, 10);
  }

  /** The station reports no arrivals at all exactly when neither platform
      has any; otherwise its text starts with the station's title. */
  lemma NoStationArrivalsRule(st: MetroStation, location: string, r100: ArrivalsResponse, r101: ArrivalsResponse,
                              colors: map<string, string>, loc: Locale, now: int)
    requires r100.arrivals.Some? && r101.arrivals.Some?
    ensures r100.arrivals.value == [] && r101.arrivals.value == [] ==>
            MetroTextSpec(st, location, r100, r101, colors, loc, now) == Success(NoStationArrivals)
    ensures (r100.arrivals.value != [] || r101.arrivals.value != []) &&
            MetroTextSpec(st, location, r100, r101, colors, loc, now).Success? ==>
            StartsWith(MetroTextSpec(st, location, r100, r101, colors, loc, now).value, StationTitle(st.name))
  {
    var s100 := SortSpec(r100.arrivals.value);
    var s101 := SortSpec(r101.arrivals.value);
    SortKeepsServices(r100.arrivals.value);
    SortKeepsServices(r101.arrivals.value);
    var t := MetroTextSpec(st, location, r100, r101, colors, loc, now);
    assert t == StationText(st, location, PlatformOf(r100), PlatformOf(r101), colors, loc, now);
    if (r100.arrivals.value != [] || r101.arrivals.value != []) && t.Success? {
      assert |Kept(s100)| > 0 || |Kept(s101)| > 0;
      var p100 := PlatformText(Kept(s100), r100.services, |s100| - 3, DirectionAt(st.direction, 0), colors, loc, now);
      var p101 := PlatformText(Kept(s101), r101.services, |s101| - 3, DirectionAt(st.direction, 1), colors, loc, now);
      assert p100.Success? && p101.Success?;
      assert t.value == StationTitle(st.name) + p100.value + "\n\n" + p101.value + LocationLine(location);
      StartsWithJoined(StationTitle(st.name), p100.value, "\n\n", p101.value, LocationLine(location));
    }
  }

  lemma StartsWithJoined(a: string, b: string, c: string, d: string, e: string)
    ensures StartsWith(a + b + c + d + e, a)
  {
    assert (a + b + c + d + e)[..|a|] == a;
  }

  /** A station's text never reads as the "no arrivals" line. */
  lemma TitleIsNotNoArrivals(t: string, n: StationName)
    requires StartsWith(t, StationTitle(n))
    ensures t != NoStationArrivals
  {
    assert t[0] == StationTitle(n)[0] == '\U{1F6A6}';
    assert NoStationArrivals[0] == '\U{1F68B}';
  }
}
