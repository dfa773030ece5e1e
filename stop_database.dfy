/** `getMendotranDatabase` of src/modules/mendotran/generateDatabase.ts: the
    stop table and the bus table built from the two search answers, first
    record wins, and every line attached to the stops its service calls at.
    The answers of the server are inputs: the two search lists and, for the
    service of each line, its list of stop ids. */
module StopDatabase {
  import opened Wrappers
  import opened Text
  import opened Emojis
  import opened Mendotran

  // ------------------------------------------------------------ records

  /** A record of the stop search; `None` is a field that is `undefined`.
      Only the presence of the coordinates matters. */
  datatype StopRecord = StopRecord(stopId: Option<int>, code: Option<string>, location: Option<string>, hasCoordinates: bool)

  /** A record of the bus search; `None` or `false` is a field that is
      `undefined` or `null`. Only the presence of group, name and colour
      matters. */
  datatype BusRecord = BusRecord(serviceId: Option<int>, hasGroupId: bool, code: Option<string>, hasName: bool, hasColor: bool)

  const NoStopSearch: string := "No se pudo obtener la lista de paradas de colectivos del servidor de Mendotran."
  const EmptyStopTable: string := "Ocurri\U{F3} un error al intentar generar la lista de paradas de colectivos."
  const NoBusSearch: string := "No se pudo obtener la lista de colectivos del servidor de Mendotran."
  const EmptyBusTable: string := "Ocurri\U{F3} un error al intentar generar la lista de colectivos."
  const NothingAttached: string := "No se pudieron a\U{F1}adir los colectivos a la lista de colectivos que pasan por cada parada."

  // --------------------------------------------------------- stop table

  /** A stop record with all four fields. */
  predicate StopComplete(r: StopRecord) {
    r.stopId.Some? && r.code.Some? && r.location.Some? && r.hasCoordinates
  }

  /** `stopList` and `stopIDDictionary` (stop id to stop code). */
  datatype StopTables = StopTables(stops: map<string, StopData>, ids: map<int, string>)

  /** One record of the stop loop: a complete record with a new code is
      stored with an empty line list and its id entered in the dictionary. */
  function StopStep(t: StopTables, r: StopRecord): StopTables {
    if StopComplete(r) && r.code.value !in t.stops then
      StopTables(t.stops[r.code.value := StopData(r.stopId.value, r.location.value, [])],
                 t.ids[r.stopId.value := r.code.value])
    else t
  }

  /** The tables after the first `k` records. */
  function StopsUpTo(recs: seq<StopRecord>, k: nat): StopTables
    requires k <= |recs|
  {
    if k == 0 then StopTables(map[], map[]) else StopStep(StopsUpTo(recs, k - 1), recs[k - 1])
  }

  /** The loop over `stopListJSON.search`. */
  method BuildStops(search: seq<StopRecord>) returns (stopList: map<string, StopData>, stopIDDictionary: map<int, string>)
    ensures StopTables(stopList, stopIDDictionary) == StopsUpTo(search, |search|)
  {
    stopList := map[];
    stopIDDictionary := map[];
    for i := 0 to |search|
      invariant StopTables(stopList, stopIDDictionary) == StopsUpTo(search, i)
    {
      var stopInfo := search[i];
      if StopComplete(stopInfo) {
        if stopInfo.code.value in stopList {
          continue;
        }
        stopList := stopList[stopInfo.code.value := StopData(stopInfo.stopId.value, stopInfo.location.value, [])];
        stopIDDictionary := stopIDDictionary[stopInfo.stopId.value := stopInfo.code.value];
      }
    }
  }

  /** The position of the first complete record with code `c` among the
      first `k`. */
  function FirstStop(recs: seq<StopRecord>, c: string, k: nat): (r: Option<nat>)
    requires k <= |recs|
    ensures r.Some? ==> r.value < k && StopComplete(recs[r.value]) && recs[r.value].code == Some(c)
  {
    if k == 0 then None
    else match FirstStop(recs, c, k - 1)
      case Some(i) => Some(i)
      case None => if StopComplete(recs[k - 1]) && recs[k - 1].code == Some(c) then Some(k - 1) else None
  }

  /** The dictionary points only at stored stops, at the one whose id it is;
      every stored stop's id is in it, and every line list is empty. */
  predicate StopTablesValid(t: StopTables) {
    (forall x :: x in t.ids ==> t.ids[x] in t.stops && t.stops[t.ids[x]].stopId == x) &&
    (forall c :: c in t.stops ==> t.stops[c].stopId in t.ids && t.stops[c].busList == [])
  }

  /** A code is stored exactly when some complete record has it, and holds
      the id and location of the first such record; the tables stay
      consistent. */
  lemma {:induction false} StopsFirstWins(recs: seq<StopRecord>, k: nat, c: string)
    requires k <= |recs|
    ensures StopTablesValid(StopsUpTo(recs, k))
    ensures c in StopsUpTo(recs, k).stops <==> FirstStop(recs, c, k).Some?
    ensures FirstStop(recs, c, k).Some? ==>
      var r := recs[FirstStop(recs, c, k).value];
      StopsUpTo(recs, k).stops[c] == StopData(r.stopId.value, r.location.value, [])
    decreases k
  {
    if k > 0 {
      StopsFirstWins(recs, k - 1, c);
      StopStepValid(StopsUpTo(recs, k - 1), recs[k - 1]);
    }
  }

  lemma StopStepValid(t: StopTables, r: StopRecord)
    requires StopTablesValid(t)
    ensures StopTablesValid(StopStep(t, r))
  {
    if StopComplete(r) && r.code.value !in t.stops {
      var t' := StopStep(t, r);
      var c, x := r.code.value, r.stopId.value;
      forall y | y in t'.ids ensures t'.ids[y] in t'.stops && t'.stops[t'.ids[y]].stopId == y {
        if y != x {
          assert t'.ids[y] == t.ids[y] && t.ids[y] != c;
        }
      }
    }
  }

  /** A record that repeats a stored code, or that lacks a field, changes
      neither the stops nor the dictionary. */
  lemma StopIgnored(t: StopTables, r: StopRecord)
    requires !StopComplete(r) || r.code.value in t.stops
    ensures StopStep(t, r) == t
  {
  }

  // ---------------------------------------------------------- bus table

  /** A bus record with all five fields. */
  predicate BusComplete(r: BusRecord) {
    r.serviceId.Some? && r.hasGroupId && r.code.Some? && r.hasName && r.hasColor
  }

  /** `busesList`, with its keys in the order they were added. */
  datatype BusTable = BusTable(buses: map<string, BusData>, order: seq<string>)

  /** One record of the bus loop: a complete record with a new code is
      stored with the colour of its line number. */
  function BusStep(t: BusTable, r: BusRecord): BusTable {
    if BusComplete(r) && r.code.value !in t.buses then
      BusTable(t.buses[r.code.value := BusData(r.serviceId.value, GetBusColor(r.code.value))], t.order + [r.code.value])
    else t
  }

  function BusesUpTo(recs: seq<BusRecord>, k: nat): BusTable
    requires k <= |recs|
  {
    if k == 0 then BusTable(map[], []) else BusStep(BusesUpTo(recs, k - 1), recs[k - 1])
  }

  /** The loop over `busesListJSON.search`. */
  method BuildBuses(search: seq<BusRecord>) returns (busesList: map<string, BusData>, order: seq<string>)
    ensures BusTable(busesList, order) == BusesUpTo(search, |search|)
  {
    busesList := map[];
    order := [];
    for i := 0 to |search|
      invariant BusTable(busesList, order) == BusesUpTo(search, i)
    {
      var busInfo := search[i];
      if BusComplete(busInfo) {
        if busInfo.code.value in busesList {
          continue;
        }
        busesList := busesList[busInfo.code.value := BusData(busInfo.serviceId.value, GetBusColor(busInfo.code.value))];
        order := order + [busInfo.code.value];
      }
    }
  }

  /** The position of the first complete bus record with code `c`. */
  function FirstBus(recs: seq<BusRecord>, c: string, k: nat): (r: Option<nat>)
    requires k <= |recs|
    ensures r.Some? ==> r.value < k && BusComplete(recs[r.value]) && recs[r.value].code == Some(c)
  {
    if k == 0 then None
    else match FirstBus(recs, c, k - 1)
      case Some(i) => Some(i)
      case None => if BusComplete(recs[k - 1]) && recs[k - 1].code == Some(c) then Some(k - 1) else None
  }

  predicate NoDuplicates(s: seq<string>) {
    forall i, j :: 0 <= i < j < |s| ==> s[i] != s[j]
  }

  /** The order lists every key once. */
  ghost predicate BusTableValid(t: BusTable) {
    NoDuplicates(t.order) && forall c :: c in t.buses <==> c in t.order
  }

  lemma AppendFresh(s: seq<string>, x: string)
    requires NoDuplicates(s) && x !in s
    ensures NoDuplicates(s + [x])
  {
    var o := s + [x];
    forall i, j | 0 <= i < j < |o| ensures o[i] != o[j] {
      assert o[i] == s[i];
      if j < |s| {
        assert o[j] == s[j];
      }
    }
  }

  /** The order lists each stored code once, and nothing else. */
  lemma {:induction false} BusesValid(recs: seq<BusRecord>, k: nat)
    requires k <= |recs|
    ensures BusTableValid(BusesUpTo(recs, k))
    decreases k
  {
    if k > 0 {
      BusesValid(recs, k - 1);
      var t := BusesUpTo(recs, k - 1);
      var r := recs[k - 1];
      if BusComplete(r) && r.code.value !in t.buses {
        AppendFresh(t.order, r.code.value);
      }
    }
  }

  /** A code is stored exactly when some complete record has it, with the
      service of the first such record and the colour of the code. */
  lemma {:induction false} BusesFirstWins(recs: seq<BusRecord>, k: nat, c: string)
    requires k <= |recs|
    ensures c in BusesUpTo(recs, k).buses <==> FirstBus(recs, c, k).Some?
    ensures FirstBus(recs, c, k).Some? ==>
      BusesUpTo(recs, k).buses[c] == BusData(recs[FirstBus(recs, c, k).value].serviceId.value, GetBusColor(c))
    decreases k
  {
    if k > 0 {
      BusesFirstWins(recs, k - 1, c);
      var t := BusesUpTo(recs, k - 1);
      var r := recs[k - 1];
      if BusComplete(r) && r.code.value !in t.buses {
        var color := GetBusColor(r.code.value);
        assert BusesUpTo(recs, k).buses == t.buses[r.code.value := BusData(r.serviceId.value, color)];
        if r.code.value == c {
          assert FirstBus(recs, c, k - 1).None? && FirstBus(recs, c, k) == Some(k - 1);
        } else {
          assert FirstBus(recs, c, k) == FirstBus(recs, c, k - 1);
        }
      } else {
        assert BusesUpTo(recs, k) == t;
        assert FirstBus(recs, c, k).Some? ==> FirstBus(recs, c, k) == FirstBus(recs, c, k - 1);
      }
    }
  }

  // ------------------------------------------------- for..in key order

  /** A canonical array index: digits without a leading zero, below 2^32 - 1.
      `for..in` visits such keys first, in ascending numeric order, then the
      other keys in the order they were added. */
  predicate IsArrayIndex(k: string) {
    IsDigits(k) && (k[0] != '0' || |k| == 1) && DigitsValue(k) < 0xFFFF_FFFF
  }

  function KeyValue(k: string): nat {
    if AllDigits(k) then DigitsValue(k) else 0
  }

  function IndexKeys(keys: seq<string>): (r: seq<string>)
    ensures forall k :: k in r ==> IsArrayIndex(k)
  {
    if keys == [] then []
    else IndexKeys(keys[..|keys| - 1]) + (if IsArrayIndex(keys[|keys| - 1]) then [keys[|keys| - 1]] else [])
  }

  function NamedKeys(keys: seq<string>): (r: seq<string>)
    ensures forall k :: k in r ==> !IsArrayIndex(k)
  {
    if keys == [] then []
    else NamedKeys(keys[..|keys| - 1]) + (if IsArrayIndex(keys[|keys| - 1]) then [] else [keys[|keys| - 1]])
  }

  /** Inserts `k` before the first key of larger value. */
  function InsertKey(sorted: seq<string>, k: string): (r: seq<string>)
    ensures multiset(r) == multiset(sorted) + multiset{k}
    ensures |r| == |sorted| + 1
  {
    if sorted == [] then [k]
    else if KeyValue(k) < KeyValue(sorted[0]) then [k] + sorted
    else assert sorted == [sorted[0]] + sorted[1..]; [sorted[0]] + InsertKey(sorted[1..], k)
  }

  function SortKeys(keys: seq<string>): seq<string> {
    if keys == [] then [] else InsertKey(SortKeys(keys[..|keys| - 1]), keys[|keys| - 1])
  }

  /** The order in which `for (const linea in busesList)` visits the keys
      added in the order `keys`. */
  function ForInOrder(keys: seq<string>): seq<string> {
    SortKeys(IndexKeys(keys)) + NamedKeys(keys)
  }

  predicate AscendingValues(s: seq<string>) {
    forall i, j :: 0 <= i < j < |s| ==> KeyValue(s[i]) <= KeyValue(s[j])
  }

  lemma {:induction false} SplitKeys(keys: seq<string>)
    ensures multiset(IndexKeys(keys)) + multiset(NamedKeys(keys)) == multiset(keys)
    decreases |keys|
  {
    if keys != [] {
      SplitKeys(keys[..|keys| - 1]);
      assert keys == keys[..|keys| - 1] + [keys[|keys| - 1]];
    }
  }

  lemma {:induction false} SortKeysPermutes(keys: seq<string>)
    ensures multiset(SortKeys(keys)) == multiset(keys)
    decreases |keys|
  {
    if keys != [] {
      SortKeysPermutes(keys[..|keys| - 1]);
      assert keys == keys[..|keys| - 1] + [keys[|keys| - 1]];
    }
  }

  /** No key of `s` has a value below `v`. */
  predicate LowerBound(v: nat, s: seq<string>) {
    forall i :: 0 <= i < |s| ==> v <= KeyValue(s[i])
  }

  lemma {:induction false} InsertKeyBound(sorted: seq<string>, k: string, v: nat)
    requires LowerBound(v, sorted) && v <= KeyValue(k)
    ensures LowerBound(v, InsertKey(sorted, k))
    decreases |sorted|
  {
    if sorted != [] && KeyValue(k) >= KeyValue(sorted[0]) {
      var tail := sorted[1..];
      assert LowerBound(v, tail) by {
        forall i | 0 <= i < |tail| ensures v <= KeyValue(tail[i]) {
          assert tail[i] == sorted[i + 1];
        }
      }
      InsertKeyBound(tail, k, v);
      var r := InsertKey(tail, k);
      assert InsertKey(sorted, k) == [sorted[0]] + r;
    }
  }

  lemma ConsAscending(h: string, r: seq<string>)
    requires AscendingValues(r) && LowerBound(KeyValue(h), r)
    ensures AscendingValues([h] + r)
  {
    var s := [h] + r;
    forall i, j | 0 <= i < j < |s| ensures KeyValue(s[i]) <= KeyValue(s[j]) {
      assert s[j] == r[j - 1];
      if i > 0 {
        assert s[i] == r[i - 1];
      }
    }
  }

  lemma {:induction false} InsertKeyAscending(sorted: seq<string>, k: string)
    requires AscendingValues(sorted)
    ensures AscendingValues(InsertKey(sorted, k))
    decreases |sorted|
  {
    if sorted == [] {
    } else if KeyValue(k) < KeyValue(sorted[0]) {
      assert LowerBound(KeyValue(k), sorted) by {
        forall i | 0 <= i < |sorted| ensures KeyValue(k) <= KeyValue(sorted[i]) {
          assert KeyValue(sorted[0]) <= KeyValue(sorted[i]);
        }
      }
      ConsAscending(k, sorted);
    } else {
      var h := sorted[0];
      var tail := sorted[1..];
      assert AscendingValues(tail) && LowerBound(KeyValue(h), tail) by {
        forall i, j | 0 <= i < j < |tail| ensures KeyValue(tail[i]) <= KeyValue(tail[j]) {
          assert tail[i] == sorted[i + 1] && tail[j] == sorted[j + 1];
        }
        forall i | 0 <= i < |tail| ensures KeyValue(h) <= KeyValue(tail[i]) {
          assert tail[i] == sorted[i + 1];
        }
      }
      InsertKeyAscending(tail, k);
      InsertKeyBound(tail, k, KeyValue(h));
      ConsAscending(h, InsertKey(tail, k));
    }
  }

  lemma {:induction false} SortKeysAscending(keys: seq<string>)
    ensures AscendingValues(SortKeys(keys))
    decreases |keys|
  {
    if keys != [] {
      SortKeysAscending(keys[..|keys| - 1]);
      InsertKeyAscending(SortKeys(keys[..|keys| - 1]), keys[|keys| - 1]);
    }
  }

  /** `for..in` visits every key exactly as often as it was added. */
  lemma ForInPermutes(keys: seq<string>)
    ensures multiset(ForInOrder(keys)) == multiset(keys)
  {
    SplitKeys(keys);
    SortKeysPermutes(IndexKeys(keys));
  }

  lemma {:induction false} SortKeysLength(keys: seq<string>)
    ensures |SortKeys(keys)| == |keys|
    decreases |keys|
  {
    if keys != [] {
      SortKeysLength(keys[..|keys| - 1]);
    }
  }

  /** Reordering keeps every key an array index. */
  lemma PermutedIndexKeys(a: seq<string>, b: seq<string>)
    requires multiset(a) == multiset(b) && forall k :: k in b ==> IsArrayIndex(k)
    ensures forall i :: 0 <= i < |a| ==> IsArrayIndex(a[i])
  {
    forall i | 0 <= i < |a| ensures IsArrayIndex(a[i]) {
      assert a[i] in multiset(a);
      assert a[i] in b by {
        assert a[i] in multiset(b);
      }
    }
  }

  /** `for..in` visits the array-index keys first, in ascending numeric
      order, and the other keys after them. */
  lemma ForInIndexKeysFirst(keys: seq<string>)
    ensures var n := |IndexKeys(keys)|;
      n <= |ForInOrder(keys)| &&
      AscendingValues(ForInOrder(keys)[..n]) &&
      (forall i :: 0 <= i < n ==> IsArrayIndex(ForInOrder(keys)[i])) &&
      (forall i :: n <= i < |ForInOrder(keys)| ==> !IsArrayIndex(ForInOrder(keys)[i]))
  {
    var index := IndexKeys(keys);
    var sorted := SortKeys(index);
    var named := NamedKeys(keys);
    SortKeysLength(index);
    SortKeysPermutes(index);
    SortKeysAscending(index);
    PermutedIndexKeys(sorted, index);
    var r := sorted + named;
    assert r == ForInOrder(keys);
    assert r[..|sorted|] == sorted;
    forall i | 0 <= i < |sorted| ensures IsArrayIndex(r[i]) {
      assert r[i] == sorted[i];
    }
    forall i | |sorted| <= i < |r| ensures !IsArrayIndex(r[i]) {
      assert r[i] == named[i - |sorted|];
    }
  }

  /** The keys `for..in` visits are the keys of the table. */
  lemma ForInVisitsKeys(t: BusTable)
    requires BusTableValid(t)
    ensures forall l :: l in ForInOrder(t.order) <==> l in t.buses
  {
    ForInPermutes(t.order);
    forall l ensures l in ForInOrder(t.order) <==> l in t.order {
      assert l in ForInOrder(t.order) <==> l in multiset(ForInOrder(t.order));
      assert l in t.order <==> l in multiset(t.order);
    }
  }

  // --------------------------------------------------------- attachment

  /** The stop table while lines are attached, and `busesAñadidos`. */
  datatype Attachment = Attachment(stops: map<string, StopData>, added: bool)

  /** One stop id of a line: a known id gets the line pushed onto its stop. */
  function Push(a: Attachment, ids: map<int, string>, linea: string, stopId: int): Attachment {
    if stopId in ids && ids[stopId] in a.stops then
      var code := ids[stopId];
      Attachment(a.stops[code := a.stops[code].(busList := a.stops[code].busList + [linea])], true)
    else a
  }

  /** The first `j` stop ids of a line. */
  function AttachLine(a: Attachment, ids: map<int, string>, linea: string, stopIds: seq<int>, j: nat): Attachment
    requires j <= |stopIds|
  {
    if j == 0 then a else Push(AttachLine(a, ids, linea, stopIds, j - 1), ids, linea, stopIds[j - 1])
  }

  /** The server gave a non-empty stop list for the service. */
  predicate HasStops(s: Option<seq<int>>) {
    s.Some? && |s.value| > 0
  }

  /** The first `k` lines of `lines`. */
  function AttachUpTo(stops: map<string, StopData>, ids: map<int, string>, buses: map<string, BusData>,
                      lines: seq<string>, serviceStops: int -> Option<seq<int>>, k: nat): Attachment
    requires k <= |lines| && forall l :: l in lines ==> l in buses
  {
    if k == 0 then Attachment(stops, false)
    else
      var a := AttachUpTo(stops, ids, buses, lines, serviceStops, k - 1);
      var linea := lines[k - 1];
      var s := serviceStops(buses[linea].serviceId);
      if HasStops(s) then AttachLine(a, ids, linea, s.value, |s.value|) else a
  }

  /** The `for..in` loop over the lines and its inner loop over the stop
      ids of each line's service. */
  method AttachBuses(stopList: map<string, StopData>, stopIDDictionary: map<int, string>, busesList: map<string, BusData>,
                     lines: seq<string>, serviceStops: int -> Option<seq<int>>)
    returns (stops: map<string, StopData>, added: bool)
    requires forall l :: l in lines ==> l in busesList
    ensures Attachment(stops, added) == AttachUpTo(stopList, stopIDDictionary, busesList, lines, serviceStops, |lines|)
  {
    stops := stopList;
    added := false;
    for k := 0 to |lines|
      invariant Attachment(stops, added) == AttachUpTo(stopList, stopIDDictionary, busesList, lines, serviceStops, k)
    {
      var linea := lines[k];
      var busStops := serviceStops(busesList[linea].serviceId);
      if HasStops(busStops) {
        ghost var before := Attachment(stops, added);
        for j := 0 to |busStops.value|
          invariant Attachment(stops, added) == AttachLine(before, stopIDDictionary, linea, busStops.value, j)
        {
          var stopId := busStops.value[j];
          if stopId in stopIDDictionary && stopIDDictionary[stopId] in stops {
            var code := stopIDDictionary[stopId];
            stops := stops[code := stops[code].(busList := stops[code].busList + [linea])];
            added := true;
          }
        }
      }
    }
  }

  /** How many of the first `j` stop ids the dictionary maps to `code`. */
  function Hits(stopIds: seq<int>, ids: map<int, string>, code: string, j: nat): nat
    requires j <= |stopIds|
  {
    if j == 0 then 0 else Hits(stopIds, ids, code, j - 1) + (if stopIds[j - 1] in ids && ids[stopIds[j - 1]] == code then 1 else 0)
  }

  /** Some of the first `j` stop ids is known. */
  predicate AnyKnown(stopIds: seq<int>, ids: map<int, string>, codes: set<string>, j: nat)
    requires j <= |stopIds|
  {
    exists i :: 0 <= i < j && stopIds[i] in ids && ids[stopIds[i]] in codes
  }

  /** One line's stop ids leave every stop's id and location as they were
      and append the line once per id of the stop in the list; the flag is
      raised exactly when some id is known. */
  lemma {:induction false} AttachLineMeaning(a: Attachment, ids: map<int, string>, linea: string, stopIds: seq<int>, j: nat)
    requires j <= |stopIds|
    ensures AttachLine(a, ids, linea, stopIds, j).stops.Keys == a.stops.Keys
    ensures forall c :: c in a.stops ==>
      AttachLine(a, ids, linea, stopIds, j).stops[c] ==
        a.stops[c].(busList := a.stops[c].busList + Repeat(linea, Hits(stopIds, ids, c, j)))
    ensures AttachLine(a, ids, linea, stopIds, j).added == (a.added || AnyKnown(stopIds, ids, a.stops.Keys, j))
    decreases j
  {
    if j > 0 {
      AttachLineMeaning(a, ids, linea, stopIds, j - 1);
      var b := AttachLine(a, ids, linea, stopIds, j - 1);
      var x := stopIds[j - 1];
      forall c | c in a.stops
        ensures AttachLine(a, ids, linea, stopIds, j).stops[c] ==
          a.stops[c].(busList := a.stops[c].busList + Repeat(linea, Hits(stopIds, ids, c, j)))
      {
        if x in ids && ids[x] == c {
          assert Repeat(linea, Hits(stopIds, ids, c, j)) == Repeat(linea, Hits(stopIds, ids, c, j - 1)) + [linea];
        }
      }
      if x in ids && ids[x] in a.stops.Keys {
        assert AnyKnown(stopIds, ids, a.stops.Keys, j);
      } else if AnyKnown(stopIds, ids, a.stops.Keys, j) {
        var i :| 0 <= i < j && stopIds[i] in ids && ids[stopIds[i]] in a.stops.Keys;
        assert i < j - 1;
      }
    }
  }

  /** The lines a stop receives from the first `k` lines, in order. */
  function LinesAt(ids: map<int, string>, buses: map<string, BusData>, lines: seq<string>,
                   serviceStops: int -> Option<seq<int>>, code: string, k: nat): seq<string>
    requires k <= |lines| && forall l :: l in lines ==> l in buses
  {
    if k == 0 then []
    else
      var linea := lines[k - 1];
      var s := serviceStops(buses[linea].serviceId);
      LinesAt(ids, buses, lines, serviceStops, code, k - 1) +
        (if HasStops(s) then Repeat(linea, Hits(s.value, ids, code, |s.value|)) else [])
  }

  /** Some line among the first `k` has a stop list with a known stop in it. */
  predicate SomeLineKnown(ids: map<int, string>, buses: map<string, BusData>, lines: seq<string>,
                          serviceStops: int -> Option<seq<int>>, codes: set<string>, k: nat)
    requires k <= |lines| && forall l :: l in lines ==> l in buses
  {
    exists i :: 0 <= i < k && HasStops(serviceStops(buses[lines[i]].serviceId)) &&
      AnyKnown(serviceStops(buses[lines[i]].serviceId).value, ids, codes, |serviceStops(buses[lines[i]].serviceId).value|)
  }

  /** The loop keeps the keys of the stop table. */
  lemma {:induction false} AttachKeys(stops: map<string, StopData>, ids: map<int, string>, buses: map<string, BusData>,
                                      lines: seq<string>, serviceStops: int -> Option<seq<int>>, k: nat)
    requires k <= |lines| && forall l :: l in lines ==> l in buses
    ensures AttachUpTo(stops, ids, buses, lines, serviceStops, k).stops.Keys == stops.Keys
    decreases k
  {
    if k > 0 {
      AttachKeys(stops, ids, buses, lines, serviceStops, k - 1);
      var s := serviceStops(buses[lines[k - 1]].serviceId);
      if HasStops(s) {
        AttachLineMeaning(AttachUpTo(stops, ids, buses, lines, serviceStops, k - 1), ids, lines[k - 1], s.value, |s.value|);
      }
    }
  }

  /** After the loop each stop has the same id and location, and its line
      list gained, in the visiting order, each line once per occurrence of
      the stop's id in the line's stop list. */
  lemma {:induction false} AttachLines(stops: map<string, StopData>, ids: map<int, string>, buses: map<string, BusData>,
                                       lines: seq<string>, serviceStops: int -> Option<seq<int>>, k: nat, c: string)
    requires k <= |lines| && forall l :: l in lines ==> l in buses
    requires c in stops
    ensures c in AttachUpTo(stops, ids, buses, lines, serviceStops, k).stops
    ensures AttachUpTo(stops, ids, buses, lines, serviceStops, k).stops[c] ==
      stops[c].(busList := stops[c].busList + LinesAt(ids, buses, lines, serviceStops, c, k))
    decreases k
  {
    if k > 0 {
      AttachLines(stops, ids, buses, lines, serviceStops, k - 1, c);
      var a := AttachUpTo(stops, ids, buses, lines, serviceStops, k - 1);
      var linea := lines[k - 1];
      var s := serviceStops(buses[linea].serviceId);
      var prev := LinesAt(ids, buses, lines, serviceStops, c, k - 1);
      if HasStops(s) {
        AttachLineMeaning(a, ids, linea, s.value, |s.value|);
        var more := Repeat(linea, Hits(s.value, ids, c, |s.value|));
        assert LinesAt(ids, buses, lines, serviceStops, c, k) == prev + more;
        assert stops[c].busList + prev + more == stops[c].busList + (prev + more);
      } else {
        assert LinesAt(ids, buses, lines, serviceStops, c, k) == prev + [] == prev;
      }
    }
  }

  /** The flag says whether any line was attached at all: some line has a
      stop list with a known stop in it. */
  lemma {:induction false} AttachAdded(stops: map<string, StopData>, ids: map<int, string>, buses: map<string, BusData>,
                                       lines: seq<string>, serviceStops: int -> Option<seq<int>>, k: nat)
    requires k <= |lines| && forall l :: l in lines ==> l in buses
    ensures AttachUpTo(stops, ids, buses, lines, serviceStops, k).added ==
      SomeLineKnown(ids, buses, lines, serviceStops, stops.Keys, k)
    decreases k
  {
    if k > 0 {
      AttachAdded(stops, ids, buses, lines, serviceStops, k - 1);
      AttachKeys(stops, ids, buses, lines, serviceStops, k - 1);
      var s := serviceStops(buses[lines[k - 1]].serviceId);
      if HasStops(s) {
        AttachLineMeaning(AttachUpTo(stops, ids, buses, lines, serviceStops, k - 1), ids, lines[k - 1], s.value, |s.value|);
      }
      SomeLineKnownStep(ids, buses, lines, serviceStops, stops.Keys, k);
    }
  }

  lemma SomeLineKnownStep(ids: map<int, string>, buses: map<string, BusData>, lines: seq<string>,
                          serviceStops: int -> Option<seq<int>>, codes: set<string>, k: nat)
    requires 0 < k <= |lines| && forall l :: l in lines ==> l in buses
    ensures var s := serviceStops(buses[lines[k - 1]].serviceId);
      SomeLineKnown(ids, buses, lines, serviceStops, codes, k) ==
        (SomeLineKnown(ids, buses, lines, serviceStops, codes, k - 1) || (HasStops(s) && AnyKnown(s.value, ids, codes, |s.value|)))
  {
    if SomeLineKnown(ids, buses, lines, serviceStops, codes, k) {
      var i :| 0 <= i < k && HasStops(serviceStops(buses[lines[i]].serviceId)) &&
        AnyKnown(serviceStops(buses[lines[i]].serviceId).value, ids, codes, |serviceStops(buses[lines[i]].serviceId).value|);
      if i < k - 1 {
        assert SomeLineKnown(ids, buses, lines, serviceStops, codes, k - 1);
      }
    }
  }

  // ---------------------------------------------------------- the whole

  /** The two tables the function writes out. */
  datatype Tables = Tables(stops: map<string, StopData>, buses: map<string, BusData>)

  /** The stop search answer and the stop table, up to line 48. */
  function StopPhase(stopSearch: Option<seq<StopRecord>>): Result<StopTables, string> {
    if stopSearch.None? || |stopSearch.value| == 0 then Failure(NoStopSearch)
    else
      var t := StopsUpTo(stopSearch.value, |stopSearch.value|);
      if |t.stops| == 0 then Failure(EmptyStopTable) else Success(t)
  }

  /** The stop table after every line is attached, in `for..in` order. */
  function Attached(st: StopTables, bt: BusTable, serviceStops: int -> Option<seq<int>>): Attachment
    requires BusTableValid(bt)
  {
    ForInVisitsKeys(bt);
    var lines := ForInOrder(bt.order);
    AttachUpTo(st.stops, st.ids, bt.buses, lines, serviceStops, |lines|)
  }

  /** The attachment and the check on `busesAñadidos`. */
  function AttachPhase(st: StopTables, bt: BusTable, serviceStops: int -> Option<seq<int>>): Result<Tables, string>
    requires BusTableValid(bt)
  {
    var a := Attached(st, bt, serviceStops);
    if a.added then Success(Tables(a.stops, bt.buses)) else Failure(NothingAttached)
  }

  /** `getMendotranDatabase` as written: the check after the bus loop tests
      the stop table again. */
  function DatabaseAsWritten(stopSearch: Option<seq<StopRecord>>, busSearch: Option<seq<BusRecord>>,
                             serviceStops: int -> Option<seq<int>>): Result<Tables, string>
  {
    match StopPhase(stopSearch)
    case Failure(e) => Failure(e)
    case Success(st) =>
      if busSearch.None? || |busSearch.value| == 0 then Failure(NoBusSearch)
      else
        var bt := BusesUpTo(busSearch.value, |busSearch.value|);
        BusesValid(busSearch.value, |busSearch.value|);
        if |st.stops| == 0 then Failure(EmptyBusTable)
        else AttachPhase(st, bt, serviceStops)
  }

  /** `getMendotranDatabase` as evidently intended: the check after the bus
      loop tests the bus table. */
  function DatabaseIntended(stopSearch: Option<seq<StopRecord>>, busSearch: Option<seq<BusRecord>>,
                            serviceStops: int -> Option<seq<int>>): Result<Tables, string>
  {
    match StopPhase(stopSearch)
    case Failure(e) => Failure(e)
    case Success(st) =>
      if busSearch.None? || |busSearch.value| == 0 then Failure(NoBusSearch)
      else
        var bt := BusesUpTo(busSearch.value, |busSearch.value|);
        BusesValid(busSearch.value, |busSearch.value|);
        if |bt.buses| == 0 then Failure(EmptyBusTable)
        else AttachPhase(st, bt, serviceStops)
  }

  /** `getMendotranDatabase` up to the file writes. */
  method GetMendotranDatabase(stopSearch: Option<seq<StopRecord>>, busSearch: Option<seq<BusRecord>>,
                              serviceStops: int -> Option<seq<int>>)
    returns (r: Result<Tables, string>)
    ensures r == DatabaseAsWritten(stopSearch, busSearch, serviceStops)
  {
    if stopSearch.None? || |stopSearch.value| == 0 {
      return Failure(NoStopSearch);
    }
    var stopList, stopIDDictionary := BuildStops(stopSearch.value);
    if |stopList| == 0 {
      return Failure(EmptyStopTable);
    }
    if busSearch.None? || |busSearch.value| == 0 {
      return Failure(NoBusSearch);
    }
    var busesList, order := BuildBuses(busSearch.value);
    if |stopList| == 0 {
      return Failure(EmptyBusTable);
    }
    BusesValid(busSearch.value, |busSearch.value|);
    ForInVisitsKeys(BusTable(busesList, order));
    var stops, busesAdded := AttachBuses(stopList, stopIDDictionary, busesList, ForInOrder(order), serviceStops);
    if !busesAdded {
      return Failure(NothingAttached);
    }
    return Success(Tables(stops, busesList));
  }

  // ------------------------------------------------------------ findings

  lemma MessagesDistinct()
    ensures NoStopSearch != EmptyBusTable && EmptyStopTable != EmptyBusTable
    ensures NoBusSearch != EmptyBusTable && NothingAttached != EmptyBusTable
  {
    assert |NoStopSearch| != |EmptyBusTable| && |EmptyStopTable| != |EmptyBusTable|;
    assert |NoBusSearch| != |EmptyBusTable| && |NothingAttached| != |EmptyBusTable|;
  }

  /** As written, the bus-table error can never be raised: the stop table it
      tests was already found non-empty. */
  lemma BusTableCheckNeverFires(stopSearch: Option<seq<StopRecord>>, busSearch: Option<seq<BusRecord>>,
                                serviceStops: int -> Option<seq<int>>)
    ensures DatabaseAsWritten(stopSearch, busSearch, serviceStops) != Failure(EmptyBusTable)
  {
    var r := DatabaseAsWritten(stopSearch, busSearch, serviceStops);
    MessagesDistinct();
    if StopPhase(stopSearch).Success? && busSearch.Some? && |busSearch.value| > 0 {
      assert |StopPhase(stopSearch).value.stops| > 0;
    }
  }

  /** One complete stop and one bus record without its colour: the bus
      table is empty, yet as written the run goes on and fails with the
      attachment error, where the bus-table error was meant. */
  lemma EmptyBusTableMisreported()
    ensures var stops := Some([StopRecord(Some(1), Some("M1000"), Some("Centro"), true)]);
      var buses := Some([BusRecord(Some(7), true, Some("100"), true, false)]);
      var none := (id: int) => None;
      DatabaseAsWritten(stops, buses, none) == Failure(NothingAttached) &&
      DatabaseIntended(stops, buses, none) == Failure(EmptyBusTable)
  {
    var recs := [StopRecord(Some(1), Some("M1000"), Some("Centro"), true)];
    assert StopsUpTo(recs, 1).stops == map["M1000" := StopData(1, "Centro", [])];
    var brecs := [BusRecord(Some(7), true, Some("100"), true, false)];
    assert BusesUpTo(brecs, 1) == BusTable(map[], []);
    assert ForInOrder([]) == [];
  }

  /** The intended check raises the bus-table error exactly when the stop
      phase and the bus search succeed but no bus record is complete, and
      otherwise behaves as written. */
  lemma IntendedBusTableCheck(stopSearch: Option<seq<StopRecord>>, busSearch: Option<seq<BusRecord>>,
                              serviceStops: int -> Option<seq<int>>)
    ensures DatabaseIntended(stopSearch, busSearch, serviceStops) == Failure(EmptyBusTable) <==>
      StopPhase(stopSearch).Success? && busSearch.Some? && |busSearch.value| > 0 &&
      |BusesUpTo(busSearch.value, |busSearch.value|).buses| == 0
    ensures busSearch.Some? && |busSearch.value| > 0 && |BusesUpTo(busSearch.value, |busSearch.value|).buses| > 0 ==>
      DatabaseIntended(stopSearch, busSearch, serviceStops) == DatabaseAsWritten(stopSearch, busSearch, serviceStops)
  {
    BusTableCheckNeverFires(stopSearch, busSearch, serviceStops);
    if StopPhase(stopSearch).Success? && busSearch.Some? && |busSearch.value| > 0 {
      assert |StopPhase(stopSearch).value.stops| > 0;
    }
  }

  /** A successful intended run has a bus table with a bus in it and
      the attached stop table. */
  lemma IntendedSuccessShape(stopSearch: Option<seq<StopRecord>>, busSearch: Option<seq<BusRecord>>,
                             serviceStops: int -> Option<seq<int>>)
    requires DatabaseIntended(stopSearch, busSearch, serviceStops).Success?
    ensures StopPhase(stopSearch).Success? && busSearch.Some? && |busSearch.value| > 0
    ensures var bt := BusesUpTo(busSearch.value, |busSearch.value|);
      BusTableValid(bt) && |bt.buses| > 0 &&
      var a := Attached(StopPhase(stopSearch).value, bt, serviceStops);
      a.added && DatabaseIntended(stopSearch, busSearch, serviceStops).value == Tables(a.stops, bt.buses)
  {
    BusesValid(busSearch.value, |busSearch.value|);
  }

  /** Once the flag is raised, some stop of the table lists a line. */
  lemma AddedMeansListed(st: StopTables, bt: BusTable, serviceStops: int -> Option<seq<int>>)
    requires BusTableValid(bt) && Attached(st, bt, serviceStops).added
    ensures var a := Attached(st, bt, serviceStops);
      exists c :: c in a.stops && a.stops[c].busList != []
  {
    ForInVisitsKeys(bt);
    var lines := ForInOrder(bt.order);
    AttachAdded(st.stops, st.ids, bt.buses, lines, serviceStops, |lines|);
    var i :| 0 <= i < |lines| && HasStops(serviceStops(bt.buses[lines[i]].serviceId)) &&
      AnyKnown(serviceStops(bt.buses[lines[i]].serviceId).value, st.ids, st.stops.Keys, |serviceStops(bt.buses[lines[i]].serviceId).value|);
    var s := serviceStops(bt.buses[lines[i]].serviceId).value;
    var j :| 0 <= j < |s| && s[j] in st.ids && st.ids[s[j]] in st.stops.Keys;
    var c := st.ids[s[j]];
    LinesAtGrows(st.ids, bt.buses, lines, serviceStops, c, i, |lines|, j);
    AttachLines(st.stops, st.ids, bt.buses, lines, serviceStops, |lines|, c);
  }

  /** With the intended check, a run that succeeds has at least one bus and
      some stop that lists a line. */
  lemma IntendedSuccess(stopSearch: Option<seq<StopRecord>>, busSearch: Option<seq<BusRecord>>,
                        serviceStops: int -> Option<seq<int>>)
    requires DatabaseIntended(stopSearch, busSearch, serviceStops).Success?
    ensures var t := DatabaseIntended(stopSearch, busSearch, serviceStops).value;
      |t.buses| > 0 && exists c :: c in t.stops && t.stops[c].busList != []
  {
    IntendedSuccessShape(stopSearch, busSearch, serviceStops);
    AddedMeansListed(StopPhase(stopSearch).value, BusesUpTo(busSearch.value, |busSearch.value|), serviceStops);
  }

  /** A line whose stop list holds the stop's id at `j` leaves that line in
      the stop's list. */
  lemma {:induction false} LinesAtGrows(ids: map<int, string>, buses: map<string, BusData>, lines: seq<string>,
                                        serviceStops: int -> Option<seq<int>>, code: string, i: nat, k: nat, j: nat)
    requires i < k <= |lines| && forall l :: l in lines ==> l in buses
    requires HasStops(serviceStops(buses[lines[i]].serviceId))
    requires var s := serviceStops(buses[lines[i]].serviceId).value; j < |s| && s[j] in ids && ids[s[j]] == code
    ensures LinesAt(ids, buses, lines, serviceStops, code, k) != []
    decreases k
  {
    if i < k - 1 {
      LinesAtGrows(ids, buses, lines, serviceStops, code, i, k - 1, j);
    } else {
      var s := serviceStops(buses[lines[i]].serviceId).value;
      HitsPositive(s, ids, code, |s|, j);
    }
  }

  lemma {:induction false} HitsPositive(stopIds: seq<int>, ids: map<int, string>, code: string, n: nat, j: nat)
    requires j < n <= |stopIds| && stopIds[j] in ids && ids[stopIds[j]] == code
    ensures Hits(stopIds, ids, code, n) > 0
    decreases n
  {
    if j < n - 1 {
      HitsPositive(stopIds, ids, code, n - 1, j);
    }
  }
}
