/** `get_mendotran_database` of src/modules/mendotran/generate_database.ts,
    the older database builder: it queries the routes for the numbers 0 to
    80, keeps the first bus seen for each line number, colours it, and files
    every stop of its route under the stop's name, counting the stops created
    and the buses whose stops were found. The server's answers are inputs:
    `routes(i)` is the route list answered for query `i` (`None` when the
    answer has no list or an empty one) and `stopsOf(id)` the stop list of
    a route (`None` when the answer has none or the request failed). */
module LegacyDatabase {
  import opened Wrappers
  import opened Text
  import opened Emojis

  /** An element of the route list: its `id` and `shortName`. */
  datatype Route = Route(id: string, shortName: string)

  /** `BusInfo`: the line number found in the short name, the route id, the
      short name and the colour emoji. */
  datatype BusInfo = BusInfo(linea: string, id: string, shortName: string, color: string)

  /** An element of a route's stop list: `id`, `name` and `address`
      (`None` when absent). */
  datatype StopInfo = StopInfo(id: string, name: string, address: Option<string>)

  /** A record of `obj.stops`. */
  datatype LegacyStop = LegacyStop(id: string, address: string, busList: seq<string>)

  /** `obj.stops` and `nStops`. */
  datatype Stops = Stops(byName: map<string, LegacyStop>, nStops: nat)

  /** The state of the scan: `obj.stops`, `nStops`, `obj.buses` and
      `nBuses`. */
  datatype Scan = Scan(stops: Stops, buses: map<string, BusInfo>, nBuses: nat)

  const EmptyScan: Scan := Scan(Stops(map[], 0), map[], 0)

  /** The error thrown when `shortName.match(/\d+/)` finds no digits and its
      `[0]` is read from `null`. */
  const NoDigitsError: string := "TypeError: Cannot read properties of null (reading '0')"

  /** The scan runs `i` from 0 through 80. */
  const Queries: nat := 81

  // ------------------------------------------------------- line numbers

  /** The longest prefix of `s` made of digits. */
  function LeadingDigits(s: string): (r: string)
    ensures |r| <= |s| && r == s[..|r|] && AllDigits(r)
    ensures |r| < |s| ==> !IsDigit(s[|r|])
  {
    if s == [] || !IsDigit(s[0]) then [] else [s[0]] + LeadingDigits(s[1..])
  }

  /** The position of the first digit of `s`. */
  function FirstDigitAt(s: string): (r: Option<nat>)
    ensures r.Some? ==> r.value < |s| && IsDigit(s[r.value]) && forall i :: 0 <= i < r.value ==> !IsDigit(s[i])
    ensures r.None? ==> forall i :: 0 <= i < |s| ==> !IsDigit(s[i])
  {
    if s == [] then None
    else if IsDigit(s[0]) then Some(0)
    else match FirstDigitAt(s[1..])
      case None => None
      case Some(p) => Some(p + 1)
  }

  /** `s.match(/\d+/)[0]`: the first run of digits, `None` when there is
      none (the source then reads `[0]` of `null`). */
  function FirstDigitRun(s: string): Option<string> {
    match FirstDigitAt(s)
    case None => None
    case Some(p) => Some(LeadingDigits(s[p..]))
  }

  /** The run is found exactly when `s` holds a digit; it is non-empty, it
      starts at the first digit, no digit precedes it and it is not followed
      by a digit. */
  lemma FirstDigitRunMeaning(s: string)
    ensures FirstDigitRun(s).Some? <==> exists i :: 0 <= i < |s| && IsDigit(s[i])
    ensures FirstDigitRun(s).Some? ==>
      var r := FirstDigitRun(s).value;
      var p := FirstDigitAt(s).value;
      IsDigits(r) && p + |r| <= |s| && s[p..p + |r|] == r &&
      (forall i :: 0 <= i < p ==> !IsDigit(s[i])) &&
      (p + |r| == |s| || !IsDigit(s[p + |r|]))
  {
    if FirstDigitAt(s).Some? {
      var p := FirstDigitAt(s).value;
      var r := LeadingDigits(s[p..]);
      assert r[0] == s[p];
      assert s[p..][..|r|] == s[p..p + |r|];
      if p + |r| < |s| {
        assert s[p..][|r|] == s[p + |r|];
      }
    }
  }

  // ------------------------------------------------------------- colours

  /** `busColor`: the leading digit of `String(+linea)` when `+linea` lies
      in 100..1000, 0 otherwise. A line number is always a run of digits
      (`LineNumbersAreDigits`), whose `+linea` is its decimal value. */
  function LegacyColorIndex(linea: string): (i: nat)
    ensures i < |BusColorList|
  {
    if IsDigits(linea) && 100 <= DigitsValue(linea) <= 1000 then DigitValue(NatToString(DigitsValue(linea))[0]) else 0
  }

  /** The colour stored with a bus: the metro emoji for the lines written
      "100" and "101", otherwise the table entry of `busColor`. The emoji
      and the table are the same as those of src/modules/mendotran/emojis.ts. */
  function LegacyColor(linea: string): string {
    if linea == "100" || linea == "101" then MetroEmoji else BusColorList[LegacyColorIndex(linea)]
  }

  /** The two metro lines get the metro emoji. */
  lemma MetroLines(linea: string)
    requires linea == "100" || linea == "101"
    ensures LegacyColor(linea) == MetroEmoji
  {
  }

  /** Between 100 and 999 (other than the metro lines) the older rule picks
      the same colour as `getBusColor`: that of the hundreds digit. */
  lemma LegacyAgreesInRange(linea: string)
    requires IsDigits(linea) && 100 <= DigitsValue(linea) < 1000 && linea != "100" && linea != "101"
    ensures LegacyColor(linea) == BusColorList[DigitsValue(linea) / 100] == GetBusColor(linea)
  {
    InRangeColour(linea, DigitsValue(linea));
    LeadingDigitOfThreeDigits(DigitsValue(linea));
  }

  lemma LiteralValues()
    ensures DigitsValue("100") == 100 && DigitsValue("101") == 101 && DigitsValue("1000") == 1000
  {
    TenValue();
    var a, b, c := "100", "101", "1000";
    assert a[..2] == "10" && DigitsValue(a) == 100;
    assert b[..2] == "10" && DigitsValue(b) == 101;
    assert c[..3] == a && DigitsValue(c) == 1000;
  }

  lemma TenValue()
    ensures DigitsValue("10") == 10
  {
    var t := "10";
    assert t[..1] == "1" && "1"[..0] == "";
  }

  /** A line number outside 100..1000 gets the entry for no colour. */
  lemma LegacyOutOfRange(linea: string)
    requires IsDigits(linea) && (DigitsValue(linea) < 100 || DigitsValue(linea) > 1000)
    ensures LegacyColor(linea) == BusColorList[0]
  {
    LiteralValues();
  }

  lemma ThousandLeadsWithOne()
    ensures NatToString(1000)[0] == '1'
  {
    var one, ten, hundred := NatToString(1), NatToString(10), NatToString(100);
    assert one == "1";
    assert ten == one + [DigitChar(0)];
    assert hundred == ten + [DigitChar(0)];
    assert NatToString(1000) == hundred + [DigitChar(0)];
  }

  lemma NoColourIsNotRed()
    ensures BusColorList[0] != BusColorList[1]
  {
    assert BusColorList[0] == "\U{1F532}" && BusColorList[1] == "\U{1F7E5}";
    assert BusColorList[0][0] != BusColorList[1][0];
  }

  /** 1000 is inside the older rule's range and takes the colour of its
      leading 1, the colour of the 100s, where `getBusColor` gives the entry
      for no colour. */
  lemma ThousandColours()
    ensures LegacyColor("1000") == BusColorList[1]
    ensures GetBusColor("1000") == BusColorList[0]
    ensures LegacyColor("1000") != GetBusColor("1000")
  {
    ThousandLegacyColour();
    assert IsDigits("1000") && DigitsValue("1000") == 1000 by {
      LiteralValues();
    }
    OutOfRangeColour("1000");
    NoColourIsNotRed();
  }

  lemma ThousandLegacyColour()
    ensures LegacyColor("1000") == BusColorList[1]
  {
    var t := "1000";
    assert IsDigits(t) && DigitsValue(t) == 1000 by {
      LiteralValues();
    }
    ThousandLeadsWithOne();
    assert |t| == 4;
    assert t != "100" && t != "101";
  }

  // ---------------------------------------------------------- route list

  /** The `BusInfo` list built by the `forEach` of `get_buses_info` from the
      first `k` routes; it fails at the first short name with no digits. */
  function InfoUpTo(routes: seq<Route>, k: nat): Result<seq<BusInfo>, string>
    requires k <= |routes|
  {
    if k == 0 then Success([])
    else match InfoUpTo(routes, k - 1)
      case Failure(e) => Failure(e)
      case Success(l) =>
        match FirstDigitRun(routes[k - 1].shortName)
        case None => Failure(NoDigitsError)
        case Some(d) => Success(l + [BusInfo(d, routes[k - 1].id, routes[k - 1].shortName, "")])
  }

  /** `get_buses_info`: `None` for an answer without a non-empty list. */
  function BusesInfoSpec(answer: Option<seq<Route>>): Result<Option<seq<BusInfo>>, string> {
    if answer.None? || |answer.value| == 0 then Success(None)
    else match InfoUpTo(answer.value, |answer.value|)
      case Failure(e) => Failure(e)
      case Success(l) => Success(Some(l))
  }

  /** Once a short name without digits is met the list fails for good. */
  lemma {:induction false} InfoFails(routes: seq<Route>, k: nat, n: nat)
    requires k <= n <= |routes| && InfoUpTo(routes, k).Failure?
    ensures InfoUpTo(routes, n) == InfoUpTo(routes, k)
    decreases n
  {
    if n > k {
      InfoFails(routes, k, n - 1);
    }
  }

  /** `get_buses_info`. */
  method GetBusesInfo(answer: Option<seq<Route>>) returns (r: Result<Option<seq<BusInfo>>, string>)
    ensures r == BusesInfoSpec(answer)
  {
    if answer.None? || |answer.value| == 0 {
      return Success(None);
    }
    var busList: seq<BusInfo> := [];
    for k := 0 to |answer.value|
      invariant InfoUpTo(answer.value, k) == Success(busList)
    {
      var element := answer.value[k];
      var linea := FirstDigitRun(element.shortName);
      if linea.None? {
        InfoFails(answer.value, k + 1, |answer.value|);
        return Failure(NoDigitsError);
      }
      busList := busList + [BusInfo(linea.value, element.id, element.shortName, "")];
    }
    return Success(Some(busList));
  }

  /** The list is built exactly when every short name holds a digit; it has
      one entry per route, in order, with the first digit run as the line. */
  lemma {:induction false} InfoMeaning(routes: seq<Route>, k: nat)
    requires k <= |routes|
    ensures InfoUpTo(routes, k).Success? <==> forall i :: 0 <= i < k ==> FirstDigitRun(routes[i].shortName).Some?
    ensures InfoUpTo(routes, k).Success? ==>
      var l := InfoUpTo(routes, k).value;
      |l| == k && forall i :: 0 <= i < k ==>
        l[i] == BusInfo(FirstDigitRun(routes[i].shortName).value, routes[i].id, routes[i].shortName, "")
    decreases k
  {
    if k > 0 {
      InfoMeaning(routes, k - 1);
      if InfoUpTo(routes, k - 1).Success? && FirstDigitRun(routes[k - 1].shortName).Some? {
        var l := InfoUpTo(routes, k - 1).value;
        var l' := InfoUpTo(routes, k).value;
        forall i | 0 <= i < k - 1 ensures l'[i] == l[i] {
        }
      }
    }
  }

  /** Every line number of the list is a non-empty run of digits, so the
      scan's `linea &&` test never skips a bus. */
  lemma LineNumbersAreDigits(answer: Option<seq<Route>>)
    requires BusesInfoSpec(answer).Success? && BusesInfoSpec(answer).value.Some?
    ensures forall b :: b in BusesInfoSpec(answer).value.value ==> IsDigits(b.linea)
  {
    var routes := answer.value;
    InfoMeaning(routes, |routes|);
    var l := BusesInfoSpec(answer).value.value;
    forall b | b in l ensures IsDigits(b.linea) {
      var i :| 0 <= i < |l| && l[i] == b;
      FirstDigitRunMeaning(routes[i].shortName);
    }
  }

  // ---------------------------------------------------------------- stops

  /** `address ? address.trim() : ''`. */
  function Address(a: Option<string>): string {
    if a.Some? && a.value != "" then Trim(a.value) else ""
  }

  /** One stop of a bus's stop list: the first occurrence of a name creates
      its record and counts it; every occurrence appends the line. */
  function StopVisit(st: Stops, s: StopInfo, linea: string): Stops {
    var created := if s.name in st.byName then st
      else Stops(st.byName[s.name := LegacyStop(s.id, Address(s.address), [])], st.nStops + 1);
    var rec := created.byName[s.name];
    created.(byName := created.byName[s.name := rec.(busList := rec.busList + [linea])])
  }

  /** The first `k` stops of a bus's stop list. */
  function StopsUpTo(st: Stops, list: seq<StopInfo>, linea: string, k: nat): Stops
    requires k <= |list|
  {
    if k == 0 then st else StopVisit(StopsUpTo(st, list, linea, k - 1), list[k - 1], linea)
  }

  /** The inner loop over the stops of one bus. */
  method AddStops(byName: map<string, LegacyStop>, nStops: nat, list: seq<StopInfo>, linea: string)
    returns (byName': map<string, LegacyStop>, nStops': nat)
    ensures Stops(byName', nStops') == StopsUpTo(Stops(byName, nStops), list, linea, |list|)
  {
    byName', nStops' := byName, nStops;
    for j := 0 to |list|
      invariant Stops(byName', nStops') == StopsUpTo(Stops(byName, nStops), list, linea, j)
    {
      var name := list[j].name;
      if name !in byName' {
        byName' := byName'[name := LegacyStop(list[j].id, Address(list[j].address), [])];
        nStops' := nStops' + 1;
      }
      byName' := byName'[name := byName'[name].(busList := byName'[name].busList + [linea])];
    }
  }

  /** A stop met for the first time is created with its id, its trimmed
      address and the line as its only entry, and counted; a stop met again
      keeps its id and address and gains the line at the end; nothing else
      changes. */
  lemma StopVisitMeaning(st: Stops, s: StopInfo, linea: string)
    ensures var r := StopVisit(st, s, linea);
      r.byName.Keys == st.byName.Keys + {s.name} &&
      (s.name !in st.byName ==> r.byName[s.name] == LegacyStop(s.id, Address(s.address), [linea]) && r.nStops == st.nStops + 1) &&
      (s.name in st.byName ==>
        r.byName[s.name] == st.byName[s.name].(busList := st.byName[s.name].busList + [linea]) && r.nStops == st.nStops) &&
      (forall n :: n in st.byName && n != s.name ==> r.byName[n] == st.byName[n])
  {
  }

  /** How many of the first `k` stops carry the name `name`. */
  function Occurrences(list: seq<StopInfo>, name: string, k: nat): nat
    requires k <= |list|
  {
    if k == 0 then 0 else Occurrences(list, name, k - 1) + (if list[k - 1].name == name then 1 else 0)
  }

  /** After a bus's stop list a stop holds its former lines followed by the
      bus's line once per occurrence of its name in the list. */
  lemma {:induction false} StopsUpToOccurrences(st: Stops, list: seq<StopInfo>, linea: string, k: nat, name: string)
    requires k <= |list|
    ensures name in StopsUpTo(st, list, linea, k).byName <==> name in st.byName || Occurrences(list, name, k) > 0
    ensures name in StopsUpTo(st, list, linea, k).byName ==>
      StopsUpTo(st, list, linea, k).byName[name].busList ==
        (if name in st.byName then st.byName[name].busList else []) + Repeat(linea, Occurrences(list, name, k))
    decreases k
  {
    if k > 0 {
      StopsUpToOccurrences(st, list, linea, k - 1, name);
      var prev := StopsUpTo(st, list, linea, k - 1);
      StopVisitMeaning(prev, list[k - 1], linea);
      var before := if name in st.byName then st.byName[name].busList else [];
      if list[k - 1].name == name {
        var n := Occurrences(list, name, k - 1);
        assert Repeat(linea, n + 1) == Repeat(linea, n) + [linea];
        if name !in prev.byName {
          assert n == 0 && name !in st.byName;
        }
      }
    }
  }

  // ---------------------------------------------------------------- buses

  /** One bus of a query's list: a new line number is stored with its colour
      and its stops are filed; it is counted only when its stop list was
      found. */
  function BusVisit(st: Scan, b: BusInfo, stopsOf: string -> Option<seq<StopInfo>>): Scan {
    if b.linea != "" && b.linea !in st.buses then
      var stored := st.(buses := st.buses[b.linea := b.(color := LegacyColor(b.linea))]);
      var stops := stopsOf(b.id);
      if stops.Some? then
        stored.(stops := StopsUpTo(st.stops, stops.value, b.linea, |stops.value|), nBuses := st.nBuses + 1)
      else stored
    else st
  }

  /** The first `j` buses of a list. */
  function ListUpTo(st: Scan, list: seq<BusInfo>, stopsOf: string -> Option<seq<StopInfo>>, j: nat): Scan
    requires j <= |list|
  {
    if j == 0 then st else BusVisit(ListUpTo(st, list, stopsOf, j - 1), list[j - 1], stopsOf)
  }

  /** The body of the loop over the buses of one query. */
  method AddBus(st: Scan, bus: BusInfo, stopsOf: string -> Option<seq<StopInfo>>) returns (r: Scan)
    ensures r == BusVisit(st, bus, stopsOf)
  {
    r := st;
    var linea := bus.linea;
    if linea != "" && linea !in r.buses {
      var busColor := LegacyColorIndex(linea);
      var color := if linea == "100" || linea == "101" then MetroEmoji else BusColorList[busColor];
      r := r.(buses := r.buses[linea := bus.(color := color)]);
      var stops := stopsOf(bus.id);
      if stops.None? {
        return;
      }
      var byName, nStops := AddStops(r.stops.byName, r.stops.nStops, stops.value, linea);
      r := r.(stops := Stops(byName, nStops), nBuses := r.nBuses + 1);
    }
  }

  /** The loop over the buses of one query. */
  method AddBuses(st: Scan, busList: seq<BusInfo>, stopsOf: string -> Option<seq<StopInfo>>) returns (r: Scan)
    ensures r == ListUpTo(st, busList, stopsOf, |busList|)
  {
    r := st;
    for j := 0 to |busList|
      invariant r == ListUpTo(st, busList, stopsOf, j)
    {
      r := AddBus(r, busList[j], stopsOf);
    }
  }

  /** A new line is stored with its colour whether or not its stops are
      found; only a bus whose stop list was found is counted. A line already
      stored leaves everything as it was. */
  lemma BusVisitCounts(st: Scan, b: BusInfo, stopsOf: string -> Option<seq<StopInfo>>)
    requires b.linea != ""
    ensures var r := BusVisit(st, b, stopsOf);
      (b.linea in st.buses ==> r == st) &&
      (b.linea !in st.buses ==>
        r.buses == st.buses[b.linea := b.(color := LegacyColor(b.linea))] &&
        r.nBuses == (if stopsOf(b.id).Some? then st.nBuses + 1 else st.nBuses) &&
        (stopsOf(b.id).None? ==> r.stops == st.stops))
  {
  }

  // ------------------------------------------------------------- the scan

  /** One query of the scan: an answer without a list leaves the state as
      it is, a list runs the bus loop, a failure ends the scan. */
  function ScanStep(r: Result<Scan, string>, answer: Result<Option<seq<BusInfo>>, string>,
                    stopsOf: string -> Option<seq<StopInfo>>): Result<Scan, string> {
    match r
    case Failure(e) => Failure(e)
    case Success(st) =>
      match answer
      case Failure(e) => Failure(e)
      case Success(None) => Success(st)
      case Success(Some(list)) => Success(ListUpTo(st, list, stopsOf, |list|))
  }

  /** The state after the queries `0 .. i - 1`; a short name without digits
      ends the scan with the error. */
  function ScanUpTo(routes: nat -> Option<seq<Route>>, stopsOf: string -> Option<seq<StopInfo>>, i: nat): Result<Scan, string> {
    if i == 0 then Success(EmptyScan) else ScanStep(ScanUpTo(routes, stopsOf, i - 1), BusesInfoSpec(routes(i - 1)), stopsOf)
  }

  /** A failed query ends the scan with its error. */
  lemma {:induction false} ScanFails(routes: nat -> Option<seq<Route>>, stopsOf: string -> Option<seq<StopInfo>>, i: nat, n: nat)
    requires i <= n && ScanUpTo(routes, stopsOf, i).Failure?
    ensures ScanUpTo(routes, stopsOf, n) == ScanUpTo(routes, stopsOf, i)
    decreases n
  {
    if n > i {
      ScanFails(routes, stopsOf, i, n - 1);
    }
  }

  /** `get_mendotran_database` up to the file write. */
  method GetMendotranDatabase(routes: nat -> Option<seq<Route>>, stopsOf: string -> Option<seq<StopInfo>>)
    returns (r: Result<Scan, string>)
    ensures r == ScanUpTo(routes, stopsOf, Queries)
  {
    var st := EmptyScan;
    for i := 0 to Queries
      invariant ScanUpTo(routes, stopsOf, i) == Success(st)
    {
      var busList := GetBusesInfo(routes(i));
      if busList.Failure? {
        assert ScanUpTo(routes, stopsOf, i + 1) == Failure(busList.error);
        ScanFails(routes, stopsOf, i + 1, Queries);
        return Failure(busList.error);
      }
      if busList.value.Some? {
        st := AddBuses(st, busList.value.value, stopsOf);
      }
    }
    return Success(st);
  }

  // ---------------------------------------------------------- properties

  /** One query's answer added to the buses gathered so far. */
  function Gather(r: Result<seq<BusInfo>, string>, answer: Result<Option<seq<BusInfo>>, string>): Result<seq<BusInfo>, string> {
    match r
    case Failure(e) => Failure(e)
    case Success(l) =>
      match answer
      case Failure(e) => Failure(e)
      case Success(None) => Success(l)
      case Success(Some(list)) => Success(l + list)
  }

  /** The buses of the queries `0 .. i - 1`, in scan order. */
  function Scanned(routes: nat -> Option<seq<Route>>, i: nat): Result<seq<BusInfo>, string> {
    if i == 0 then Success([]) else Gather(Scanned(routes, i - 1), BusesInfoSpec(routes(i - 1)))
  }

  lemma {:induction false} ListUpToAppend(st: Scan, a: seq<BusInfo>, b: seq<BusInfo>, stopsOf: string -> Option<seq<StopInfo>>, k: nat)
    requires k <= |b|
    ensures ListUpTo(st, a + b, stopsOf, |a| + k) == ListUpTo(ListUpTo(st, a, stopsOf, |a|), b, stopsOf, k)
    decreases k
  {
    if k == 0 {
      ListUpToPrefix(st, a, b, stopsOf, |a|);
    } else {
      ListUpToAppend(st, a, b, stopsOf, k - 1);
      assert (a + b)[|a| + k - 1] == b[k - 1];
    }
  }

  lemma {:induction false} ListUpToPrefix(st: Scan, a: seq<BusInfo>, b: seq<BusInfo>, stopsOf: string -> Option<seq<StopInfo>>, j: nat)
    requires j <= |a|
    ensures ListUpTo(st, a + b, stopsOf, j) == ListUpTo(st, a, stopsOf, j)
    decreases j
  {
    if j > 0 {
      ListUpToPrefix(st, a, b, stopsOf, j - 1);
      assert (a + b)[j - 1] == a[j - 1];
    }
  }

  /** The scan fails exactly when some query's list fails. */
  lemma {:induction false} ScanSucceeds(routes: nat -> Option<seq<Route>>, stopsOf: string -> Option<seq<StopInfo>>, i: nat)
    ensures ScanUpTo(routes, stopsOf, i).Success? <==> Scanned(routes, i).Success?
    decreases i
  {
    if i > 0 {
      ScanSucceeds(routes, stopsOf, i - 1);
    }
  }

  /** A query run on the state the bus loop reaches on the buses gathered
      so far reaches the state of the bus loop on the buses gathered with
      it. */
  lemma StepGather(l: seq<BusInfo>, answer: Result<Option<seq<BusInfo>>, string>, stopsOf: string -> Option<seq<StopInfo>>)
    requires Gather(Success(l), answer).Success?
    ensures var all := Gather(Success(l), answer).value;
      ScanStep(Success(ListUpTo(EmptyScan, l, stopsOf, |l|)), answer, stopsOf) == Success(ListUpTo(EmptyScan, all, stopsOf, |all|))
  {
    if answer.value.Some? {
      ListUpToAppend(EmptyScan, l, answer.value.value, stopsOf, |answer.value.value|);
    }
  }

  /** The scan is one pass over all the buses answered, query after query:
      it ends in the state the bus loop reaches on the whole list. */
  lemma {:induction false} ScanIsOneList(routes: nat -> Option<seq<Route>>, stopsOf: string -> Option<seq<StopInfo>>, i: nat)
    requires Scanned(routes, i).Success?
    ensures ScanUpTo(routes, stopsOf, i) == Success(ListUpTo(EmptyScan, Scanned(routes, i).value, stopsOf, |Scanned(routes, i).value|))
    decreases i
  {
    if i > 0 {
      ScanIsOneList(routes, stopsOf, i - 1);
      StepGather(Scanned(routes, i - 1).value, BusesInfoSpec(routes(i - 1)), stopsOf);
    }
  }

  /** The position of the first bus with line number `linea` among the
      first `j`. */
  function FirstWith(list: seq<BusInfo>, linea: string, j: nat): (r: Option<nat>)
    requires j <= |list|
    ensures r.Some? ==> r.value < j && list[r.value].linea == linea
    ensures r.None? ==> forall i :: 0 <= i < j ==> list[i].linea != linea
  {
    if j == 0 then None
    else match FirstWith(list, linea, j - 1)
      case Some(i) => Some(i)
      case None => if list[j - 1].linea == linea then Some(j - 1) else None
  }

  /** Starting from the empty scan, a (non-empty) line number is stored
      exactly when some bus has it, and what is stored is the first such
      bus with the line's colour. */
  lemma {:induction false} FirstBusWins(list: seq<BusInfo>, stopsOf: string -> Option<seq<StopInfo>>, j: nat, linea: string)
    requires j <= |list| && linea != ""
    ensures linea in ListUpTo(EmptyScan, list, stopsOf, j).buses <==> FirstWith(list, linea, j).Some?
    ensures FirstWith(list, linea, j).Some? ==>
      ListUpTo(EmptyScan, list, stopsOf, j).buses[linea] == list[FirstWith(list, linea, j).value].(color := LegacyColor(linea))
    decreases j
  {
    if j > 0 {
      FirstBusWins(list, stopsOf, j - 1, linea);
      var st := ListUpTo(EmptyScan, list, stopsOf, j - 1);
      var b := list[j - 1];
      if b.linea != "" && b.linea !in st.buses {
        assert ListUpTo(EmptyScan, list, stopsOf, j).buses == st.buses[b.linea := b.(color := LegacyColor(b.linea))];
      } else {
        assert ListUpTo(EmptyScan, list, stopsOf, j) == st;
      }
    }
  }

  /** What every state of the scan satisfies: `nStops` is the number of
      stops, no more buses are counted than stored, every stop lists at least
      one line and only stored lines, and every stored bus is filed under its
      own line number with that line's colour. */
  ghost predicate ScanValid(st: Scan) {
    st.stops.nStops == |st.stops.byName| &&
    st.nBuses <= |st.buses| &&
    (forall n :: n in st.stops.byName ==> st.stops.byName[n].busList != []) &&
    (forall n, i :: n in st.stops.byName && 0 <= i < |st.stops.byName[n].busList| ==> st.stops.byName[n].busList[i] in st.buses) &&
    (forall l :: l in st.buses ==> st.buses[l].linea == l && st.buses[l].color == LegacyColor(l))
  }

  /** The stop part of `ScanValid`, for a line already stored. */
  ghost predicate StopsValid(s: Stops, buses: map<string, BusInfo>) {
    s.nStops == |s.byName| &&
    (forall n :: n in s.byName ==> s.byName[n].busList != []) &&
    (forall n, i :: n in s.byName && 0 <= i < |s.byName[n].busList| ==> s.byName[n].busList[i] in buses)
  }

  lemma StopVisitValid(s: Stops, buses: map<string, BusInfo>, info: StopInfo, linea: string)
    requires StopsValid(s, buses) && linea in buses
    ensures StopsValid(StopVisit(s, info, linea), buses)
  {
    var r := StopVisit(s, info, linea);
    var name := info.name;
    StopVisitMeaning(s, info, linea);
    forall n, i | n in r.byName && 0 <= i < |r.byName[n].busList| ensures r.byName[n].busList[i] in buses {
      if n == name {
        var before := if name in s.byName then s.byName[name].busList else [];
        assert r.byName[n].busList == before + [linea];
        if i < |before| {
          assert r.byName[n].busList[i] == before[i];
        }
      }
    }
  }

  lemma {:induction false} StopsUpToValid(s: Stops, buses: map<string, BusInfo>, list: seq<StopInfo>, linea: string, k: nat)
    requires k <= |list| && StopsValid(s, buses) && linea in buses
    ensures StopsValid(StopsUpTo(s, list, linea, k), buses)
    decreases k
  {
    if k > 0 {
      StopsUpToValid(s, buses, list, linea, k - 1);
      StopVisitValid(StopsUpTo(s, list, linea, k - 1), buses, list[k - 1], linea);
    }
  }

  lemma BusVisitValid(st: Scan, b: BusInfo, stopsOf: string -> Option<seq<StopInfo>>)
    requires ScanValid(st)
    ensures ScanValid(BusVisit(st, b, stopsOf))
  {
    if b.linea != "" && b.linea !in st.buses {
      var buses := st.buses[b.linea := b.(color := LegacyColor(b.linea))];
      assert StopsValid(st.stops, buses);
      var stops := stopsOf(b.id);
      if stops.Some? {
        StopsUpToValid(st.stops, buses, stops.value, b.linea, |stops.value|);
      }
    }
  }

  lemma {:induction false} ListUpToValid(st: Scan, list: seq<BusInfo>, stopsOf: string -> Option<seq<StopInfo>>, j: nat)
    requires j <= |list| && ScanValid(st)
    ensures ScanValid(ListUpTo(st, list, stopsOf, j))
    decreases j
  {
    if j > 0 {
      ListUpToValid(st, list, stopsOf, j - 1);
      BusVisitValid(ListUpTo(st, list, stopsOf, j - 1), list[j - 1], stopsOf);
    }
  }

  /** Every state the scan reaches, and so its result, is valid. */
  lemma {:induction false} ScanUpToValid(routes: nat -> Option<seq<Route>>, stopsOf: string -> Option<seq<StopInfo>>, i: nat)
    requires ScanUpTo(routes, stopsOf, i).Success?
    ensures ScanValid(ScanUpTo(routes, stopsOf, i).value)
    decreases i
  {
    if i > 0 {
      ScanUpToValid(routes, stopsOf, i - 1);
      var answer := BusesInfoSpec(routes(i - 1));
      if answer.value.Some? {
        ListUpToValid(ScanUpTo(routes, stopsOf, i - 1).value, answer.value.value, stopsOf, |answer.value.value|);
      }
    }
  }
}
