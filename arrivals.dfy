/** The arrival formatting of src/modules/mendotran/mendotran.ts:
    `sortByArrivalTime` and `arrivalsToString`, which turn a stop's arrivals
    into the text sent to the user (one header per run of arrivals of the
    same line, then the time, the time left and the delay of each). The
    current time `now`, the local clock fields of a timestamp and the emoji
    `timeToEmoji` picks for it are inputs. */
module Arrivals {
  import opened Wrappers
  import opened Text
  import opened TimeString

  /** An arrival as the Mendotran server reports it. `arrivalTime` is not in
      the server's data: 0 stands for it being absent (both are falsy).
      `predicted` is 0 when the server has no prediction. */
  datatype Arrival = Arrival(
    arrivalTime: int,
    serviceId: int,
    stopSequence: int,
    scheduled: int,
    predicted: int,
    vehicleId: int,
    tripId: string)

  /** The reference data of one service: the line number and the banner. */
  datatype Service = Service(code: string, name: string)

  /** `ArrivalsResponse`: either part may be missing. */
  datatype ArrivalsResponse = ArrivalsResponse(arrivals: Option<seq<Arrival>>, services: Option<map<int, Service>>)

  /** The clock fields of a timestamp in the local time zone, and the emoji
      `timeToEmoji` gives it. */
  datatype Locale = Locale(clock: int -> Clock, timeEmoji: int -> string)

  // ------------------------------------------------------------ sorting

  /** `a.predicted ? a.predicted : a.scheduled`. */
  function Estimated(a: Arrival): int {
    if a.predicted != 0 then a.predicted else a.scheduled
  }

  /** The comparator's side effect: a falsy `arrivalTime` is filled in. */
  function Normalize(a: Arrival): Arrival {
    if a.arrivalTime == 0 then a.(arrivalTime := Estimated(a)) else a
  }

  function NormalizeAll(s: seq<Arrival>): (r: seq<Arrival>)
    ensures |r| == |s| && forall i :: 0 <= i < |s| ==> r[i] == Normalize(s[i])
  {
    if s == [] then [] else NormalizeAll(s[..|s| - 1]) + [Normalize(s[|s| - 1])]
  }

  /** Inserts `x` after every element whose time is not later than its own. */
  function Insert(sorted: seq<Arrival>, x: Arrival): (r: seq<Arrival>)
    ensures multiset(r) == multiset(sorted) + multiset{x}
  {
    if sorted == [] then [x]
    else if x.arrivalTime < sorted[0].arrivalTime then [x] + sorted
    else assert sorted == [sorted[0]] + sorted[1..]; [sorted[0]] + Insert(sorted[1..], x)
  }

  /** A stable sort by `arrivalTime`, as `Array.prototype.sort` is. */
  function InsertionSort(s: seq<Arrival>): seq<Arrival> {
    if s == [] then [] else Insert(InsertionSort(s[..|s| - 1]), s[|s| - 1])
  }

  /** What `sortByArrivalTime` returns: a single arrival always gets its time
      recomputed; with two or more, every arrival takes part in a comparison,
      so every falsy time is filled in, and the list is sorted by time. */
  function SortSpec(s: seq<Arrival>): seq<Arrival> {
    if |s| == 1 then [s[0].(arrivalTime := Estimated(s[0]))] else InsertionSort(NormalizeAll(s))
  }

  /** `sortByArrivalTime`, on the values of the list. */
  method SortByArrivalTime(arrivals: seq<Arrival>) returns (sorted: seq<Arrival>)
    ensures sorted == SortSpec(arrivals)
  {
    if |arrivals| == 1 {
      return [arrivals[0].(arrivalTime := Estimated(arrivals[0]))];
    }
    var normalized := NormalizeAll(arrivals);
    sorted := [];
    for i := 0 to |normalized|
      invariant sorted == InsertionSort(normalized[..i])
    {
      assert normalized[..i + 1][..i] == normalized[..i];
      sorted := Insert(sorted, normalized[i]);
    }
    assert normalized[..|normalized|] == normalized;
  }

  predicate SortedByTime(s: seq<Arrival>) {
    forall i, j :: 0 <= i < j < |s| ==> s[i].arrivalTime <= s[j].arrivalTime
  }

  /** The arrivals of `s` due exactly at `t`, in their order in `s`. */
  function DueAt(s: seq<Arrival>, t: int): seq<Arrival> {
    if s == [] then [] else DueAt(s[..|s| - 1], t) + (if s[|s| - 1].arrivalTime == t then [s[|s| - 1]] else [])
  }

  lemma {:induction false} DueAtCons(x: Arrival, s: seq<Arrival>, t: int)
    ensures DueAt([x] + s, t) == (if x.arrivalTime == t then [x] else []) + DueAt(s, t)
    decreases |s|
  {
    if s == [] {
      assert [x] + s == [x];
      assert [x][..0] == [];
    } else {
      var s' := s[..|s| - 1];
      assert ([x] + s)[..|s|] == [x] + s';
      DueAtCons(x, s', t);
    }
  }

  /** Putting an arrival no later than any of a sorted list in front keeps it sorted. */
  lemma ConsSorted(h: Arrival, r: seq<Arrival>)
    requires SortedByTime(r) && forall y :: y in r ==> h.arrivalTime <= y.arrivalTime
    ensures SortedByTime([h] + r)
  {
    var s := [h] + r;
    forall i, j | 0 <= i < j < |s| ensures s[i].arrivalTime <= s[j].arrivalTime {
      assert s[j] == r[j - 1];
      if i > 0 {
        assert s[i] == r[i - 1];
      } else {
        assert r[j - 1] in r;
      }
    }
  }

  lemma SortedTail(s: seq<Arrival>)
    requires SortedByTime(s) && s != []
    ensures SortedByTime(s[1..])
  {
    var tail := s[1..];
    forall i, j | 0 <= i < j < |tail| ensures tail[i].arrivalTime <= tail[j].arrivalTime {
      assert tail[i] == s[i + 1] && tail[j] == s[j + 1];
    }
  }

  lemma {:induction false} InsertSorted(sorted: seq<Arrival>, x: Arrival)
    requires SortedByTime(sorted)
    ensures SortedByTime(Insert(sorted, x))
    ensures forall y :: y in Insert(sorted, x) <==> y in sorted || y == x
    decreases |sorted|
  {
    if sorted == [] {
    } else if x.arrivalTime < sorted[0].arrivalTime {
      forall y | y in sorted ensures x.arrivalTime <= y.arrivalTime {
        var i :| 0 <= i < |sorted| && sorted[i] == y;
        assert i == 0 || sorted[0].arrivalTime <= sorted[i].arrivalTime;
      }
      ConsSorted(x, sorted);
    } else {
      var tail := sorted[1..];
      SortedTail(sorted);
      InsertSorted(tail, x);
      var r := Insert(tail, x);
      forall y | y in r ensures sorted[0].arrivalTime <= y.arrivalTime {
        if y != x {
          var i :| 0 <= i < |tail| && tail[i] == y;
          assert y == sorted[i + 1];
        }
      }
      ConsSorted(sorted[0], r);
      assert sorted == [sorted[0]] + tail;
    }
  }

  /** Inserting `x` puts it after every arrival due at its own time. */
  lemma {:induction false} InsertStable(sorted: seq<Arrival>, x: Arrival, t: int)
    requires SortedByTime(sorted)
    ensures DueAt(Insert(sorted, x), t) == DueAt(sorted, t) + (if x.arrivalTime == t then [x] else [])
    decreases |sorted|
  {
    if sorted == [] {
      assert [x][..0] == [];
    } else if x.arrivalTime < sorted[0].arrivalTime {
      assert Insert(sorted, x) == [x] + sorted;
      DueAtFront(sorted, x, t);
    } else {
      var tail := sorted[1..];
      assert Insert(sorted, x) == [sorted[0]] + Insert(tail, x);
      SortedTail(sorted);
      InsertStable(tail, x, t);
      assert sorted == [sorted[0]] + tail;
      DueAtStep(sorted[0], tail, Insert(tail, x), x, t);
    }
  }

  /** An arrival earlier than every arrival of a sorted list comes first
      among those due at its own time. */
  lemma DueAtFront(sorted: seq<Arrival>, x: Arrival, t: int)
    requires SortedByTime(sorted) && sorted != [] && x.arrivalTime < sorted[0].arrivalTime
    ensures DueAt([x] + sorted, t) == DueAt(sorted, t) + (if x.arrivalTime == t then [x] else [])
  {
    DueAtCons(x, sorted, t);
    if x.arrivalTime == t {
      DueAtNone(sorted, t);
      assert DueAt([x] + sorted, t) == [x] + [];
    } else {
      assert DueAt([x] + sorted, t) == [] + DueAt(sorted, t);
    }
  }

  /** Putting the same arrival in front of two lists keeps the relation
      between their arrivals due at `t`. */
  lemma DueAtStep(h: Arrival, tail: seq<Arrival>, r: seq<Arrival>, x: Arrival, t: int)
    requires DueAt(r, t) == DueAt(tail, t) + (if x.arrivalTime == t then [x] else [])
    ensures DueAt([h] + r, t) == DueAt([h] + tail, t) + (if x.arrivalTime == t then [x] else [])
  {
    var c0 := if h.arrivalTime == t then [h] else [];
    var cx := if x.arrivalTime == t then [x] else [];
    var dt, dr := DueAt(tail, t), DueAt(r, t);
    DueAtCons(h, tail, t);
    DueAtCons(h, r, t);
    assert DueAt([h] + r, t) == c0 + dr;
    assert dr == dt + cx;
    assert c0 + (dt + cx) == (c0 + dt) + cx;
  }

  /** No arrival of a list sorted by time that starts later than `t` is due at `t`. */
  lemma {:induction false} DueAtNone(s: seq<Arrival>, t: int)
    requires SortedByTime(s) && s != [] && t < s[0].arrivalTime
    ensures DueAt(s, t) == []
    decreases |s|
  {
    if |s| > 1 {
      DueAtNone(s[..|s| - 1], t);
    } else {
      assert s[..0] == [];
    }
  }

  /** The insertion sort orders by time. */
  lemma {:induction false} InsertionSortSorted(s: seq<Arrival>)
    ensures SortedByTime(InsertionSort(s))
    decreases |s|
  {
    if s != [] {
      var init := s[..|s| - 1];
      InsertionSortSorted(init);
      InsertSorted(InsertionSort(init), s[|s| - 1]);
    }
  }

  /** The insertion sort keeps every arrival, as often as it occurs. */
  lemma {:induction false} InsertionSortPermutes(s: seq<Arrival>)
    ensures multiset(InsertionSort(s)) == multiset(s)
    decreases |s|
  {
    if s != [] {
      var init, last := s[..|s| - 1], s[|s| - 1];
      InsertionSortPermutes(init);
      assert multiset(InsertionSort(s)) == multiset(InsertionSort(init)) + multiset{last};
      assert s == init + [last];
    }
  }

  /** The insertion sort keeps the arrivals due at the same time in their
      original order. */
  lemma {:induction false} InsertionSortStable(s: seq<Arrival>, t: int)
    ensures DueAt(InsertionSort(s), t) == DueAt(s, t)
    decreases |s|
  {
    if s != [] {
      var init, last := s[..|s| - 1], s[|s| - 1];
      InsertionSortStable(init, t);
      InsertionSortSorted(init);
      InsertStable(InsertionSort(init), last, t);
    }
  }

  /** `sortByArrivalTime` returns the arrivals, each with its time filled in,
      ordered by time, with ties left in their original order. */
  lemma SortByArrivalTimeCorrect(s: seq<Arrival>)
    requires |s| != 1
    ensures SortedByTime(SortSpec(s))
    ensures multiset(SortSpec(s)) == multiset(NormalizeAll(s))
    ensures forall t :: DueAt(SortSpec(s), t) == DueAt(NormalizeAll(s), t)
  {
    InsertionSortSorted(NormalizeAll(s));
    InsertionSortPermutes(NormalizeAll(s));
    forall t ensures DueAt(SortSpec(s), t) == DueAt(NormalizeAll(s), t) {
      InsertionSortStable(NormalizeAll(s), t);
    }
  }

  /** A filled-in time is the prediction when there is one, the schedule
      otherwise; a time already set is kept. */
  lemma NormalizeMeaning(a: Arrival)
    ensures a.arrivalTime != 0 ==> Normalize(a) == a
    ensures a.arrivalTime == 0 && a.predicted != 0 ==> Normalize(a).arrivalTime == a.predicted
    ensures a.arrivalTime == 0 && a.predicted == 0 ==> Normalize(a).arrivalTime == a.scheduled
    ensures Normalize(a).(arrivalTime := a.arrivalTime) == a
  {
  }

  // ------------------------------------------------------- time and delay

  function Plural(n: int): string {
    if n > 1 then "s" else ""
  }

  /** `Math.floor((arrivalTime - Date.now()) / 60000)`; Dafny's division by a
      positive number rounds down, as `Math.floor` does. */
  function MinutesLeft(a: Arrival, now: int): int {
    (a.arrivalTime - now) / 60000
  }

  /** `Math.floor((scheduled - predicted) / 60000)`: positive when the bus
      is early, negative when it is late. */
  function Delay(a: Arrival): int {
    (a.scheduled - a.predicted) / 60000
  }

  /** The closing emoji after an hour or more. */
  function Mood(m: int): string {
    if m < 90 then "\U{1F629}" else if m < 120 then "\U{1F62D}" else "\U{1F480}"
  }

  /** The time left for an hour or more: hours, the minutes when there are
      any, and the closing emoji. */
  function HoursText(m: int): string
    requires m >= 60
  {
    var hours := m / 60;
    var minutes := m % 60;
    "\n> \U{23F3} En " + NatToString(hours) + " hora" + Plural(hours) + " " +
    (if minutes != 0 then "y " + NatToString(minutes) + " minuto" + Plural(minutes) + " " else "") +
    Mood(m)
  }

  /** The time left below an hour. */
  function MinutesText(m: int): string
    requires m > 0
  {
    "\n> \U{23F3} En " + NatToString(m) + " minuto" + Plural(m)
  }

  function TimeLeftText(m: int): string
    requires m > 0
  {
    if m >= 60 then HoursText(m) else MinutesText(m)
  }

  /** The remark added for a late bus. */
  function LateRemark(d: int): string {
    (if d <= -10 && d > -15 then " \U{1F62C}" else "") +
    (if d <= -15 && d > -20 then "... A\U{00FA}n hay esperanzas \U{1FAE0}" else "") +
    (if d <= -20 then "... Quiz\U{00E1} deba buscar una alternativa \U{1FAE5}" else "")
  }

  /** The punctuality line. */
  function DelayText(a: Arrival): string {
    if a.predicted != 0 then
      var d := Delay(a);
      if d == 0 then "\n> \U{1F7E2} A tiempo"
      else if d > 0 then "\n> \U{1F534} " + NatToString(d) + " minuto" + Plural(d) + " antes"
      else "\n> \U{1F535} " + NatToString(-d) + " minuto" + (if d < -1 then "s" else "") + " tarde" + LateRemark(d)
    else "\n> \U{26AB} Planificada"
  }

  const ArrivingText: string := "\n> \U{1F68D} *Arribando*"

  /** `> <clock emoji> HH:MM hs`. */
  function TimeLine(a: Arrival, loc: Locale): string {
    "> " + loc.timeEmoji(a.arrivalTime) + " " +
    Render(TimeValues(loc.clock(a.arrivalTime), true, true, false, false)) + " hs"
  }

  /** The lines of one arrival. */
  function Block(a: Arrival, loc: Locale, now: int): string {
    var m := MinutesLeft(a, now);
    if m > 0 then TimeLine(a, loc) + TimeLeftText(m) + DelayText(a)
    else TimeLine(a, loc) + ArrivingText
  }

  /** Lines 107-155 of `arrivalsToString`: the lines of one arrival. */
  method ArrivalLines(a: Arrival, loc: Locale, now: int) returns (block: string)
    ensures block == Block(a, loc, now)
  {
    var hhmm := GetTimeString(loc.clock(a.arrivalTime), true, true, false, false);
    block := "> " + loc.timeEmoji(a.arrivalTime) + " " + hhmm + " hs";
    var minutesLeft := (a.arrivalTime - now) / 60000;
    if minutesLeft > 0 {
      if minutesLeft >= 60 {
        block := block + HoursText(minutesLeft);
      } else {
        block := block + MinutesText(minutesLeft);
      }
      block := block + DelayText(a);
    } else {
      block := block + ArrivingText;
    }
  }

  /** A bus due within the minute, or overdue, is "arriving", whatever its
      delay. */
  lemma ArrivingWithinAMinute(a: Arrival, loc: Locale, now: int)
    requires a.arrivalTime - now < 60000
    ensures Block(a, loc, now) == TimeLine(a, loc) + ArrivingText
  {
  }

  /** Below an hour the minutes are shown, with a plural "s" from 2 on. */
  lemma MinutesLeftShown(m: int)
    requires 0 < m < 60
    ensures TimeLeftText(m) == "\n> \U{23F3} En " + NatToString(m) + " minuto" + (if m == 1 then "" else "s")
  {
  }

  /** From an hour on, the hours are `m div 60`, the minute part appears
      exactly when `m mod 60` is not zero, and the emoji grows with the
      wait. */
  lemma HoursLeftShown(m: int)
    requires m >= 60
    ensures var minutes := m % 60;
      TimeLeftText(m) ==
        "\n> \U{23F3} En " + NatToString(m / 60) + " hora" + (if m / 60 == 1 then "" else "s") + " " +
        (if minutes == 0 then "" else "y " + NatToString(minutes) + " minuto" + (if minutes == 1 then "" else "s") + " ") +
        Mood(m)
    ensures m < 90 ==> Mood(m) == "\U{1F629}"
    ensures 90 <= m < 120 ==> Mood(m) == "\U{1F62D}"
    ensures m >= 120 ==> Mood(m) == "\U{1F480}"
  {
  }

  /** The punctuality classes: no prediction is "planned"; otherwise on
      time, early or late by the rounded-down difference in minutes. */
  lemma DelayClasses(a: Arrival)
    ensures a.predicted == 0 ==> DelayText(a) == "\n> \U{26AB} Planificada"
    ensures a.predicted != 0 && a.scheduled - a.predicted >= 0 && a.scheduled - a.predicted < 60000 ==>
      DelayText(a) == "\n> \U{1F7E2} A tiempo"
    ensures a.predicted != 0 && a.scheduled - a.predicted >= 60000 ==>
      DelayText(a) == "\n> \U{1F534} " + NatToString(Delay(a)) + " minuto" + Plural(Delay(a)) + " antes"
    ensures a.predicted != 0 && a.scheduled - a.predicted < 0 ==>
      DelayText(a) == "\n> \U{1F535} " + NatToString(-Delay(a)) + " minuto" + (if Delay(a) < -1 then "s" else "") +
                      " tarde" + LateRemark(Delay(a))
  {
  }

  /** At most one remark is added for a late bus: none below ten minutes, a
      grimace from 10 to 14, hope from 15 to 19, and a suggestion to look
      for another way from 20 on. */
  lemma LateRemarks(d: int)
    ensures d > -10 ==> LateRemark(d) == ""
    ensures -15 < d <= -10 ==> LateRemark(d) == " \U{1F62C}"
    ensures -20 < d <= -15 ==> LateRemark(d) == "... A\U{00FA}n hay esperanzas \U{1FAE0}"
    ensures d <= -20 ==> LateRemark(d) == "... Quiz\U{00E1} deba buscar una alternativa \U{1FAE5}"
  {
  }

  /** The minutes are rounded down: 59.9 seconds before the time is still
      zero minutes, one millisecond late is minus one. */
  lemma MinutesRoundDown(a: Arrival, now: int)
    ensures a.arrivalTime - now < 0 ==> MinutesLeft(a, now) < 0
    ensures 0 <= a.arrivalTime - now < 60000 ==> MinutesLeft(a, now) == 0
    ensures 60000 * MinutesLeft(a, now) <= a.arrivalTime - now < 60000 * (MinutesLeft(a, now) + 1)
  {
  }

  // ---------------------------------------------------------- rendering

  /** The arrivals among the first `k` that have a service reference, in
      order; the others are skipped. */
  function VisibleUpTo(arrs: seq<Arrival>, services: map<int, Service>, k: nat): (vs: seq<Arrival>)
    requires k <= |arrs|
    ensures |vs| <= k
  {
    if k == 0 then []
    else if arrs[k - 1].serviceId in services then VisibleUpTo(arrs, services, k - 1) + [arrs[k - 1]]
    else VisibleUpTo(arrs, services, k - 1)
  }

  /** How many arrivals the loop looks at: `i < limit && i < arrivals.length`. */
  function Examined(n: nat, limit: int): (k: nat)
    ensures k <= n && k <= if limit < 0 then 0 else limit
  {
    if limit <= 0 then 0 else if limit < n then limit else n
  }

  /** The `service_id` of the arrival rendered before the `j`-th, 0 at first. */
  function LastId(vs: seq<Arrival>, j: nat): int
    requires j <= |vs|
  {
    if j == 0 then 0 else vs[j - 1].serviceId
  }

  /** The `j`-th rendered arrival starts a new header. */
  predicate NeedsHeader(vs: seq<Arrival>, j: nat)
    requires j < |vs|
  {
    vs[j].serviceId != LastId(vs, j)
  }

  /** `${color} *${code} - ${letrero}* ${color}\n\n`. */
  function Header(color: string, code: string, letrero: string): string {
    color + " *" + code + " - " + letrero + "* " + color + "\n\n"
  }

  /** The banner of a line, trimmed and in capitals. */
  function Letrero(name: string): string {
    Upper(Trim(name))
  }

  /** The bus colour of every line whose header is printed is in the bus
      table; otherwise `MENDOTRAN_BUSES_DATABASE[code].color` throws. */
  predicate ColorsKnown(vs: seq<Arrival>, services: map<int, Service>, colors: map<string, string>, k: nat)
    requires k <= |vs|
  {
    forall j :: 0 <= j < k && NeedsHeader(vs, j) ==>
      vs[j].serviceId in services && services[vs[j].serviceId].code in colors
  }

  /** The header of the service `id`, when its colour is known. */
  function HeaderFor(services: map<int, Service>, colors: map<string, string>, id: int): string {
    if id in services && services[id].code in colors then
      Header(colors[services[id].code], services[id].code, Letrero(services[id].name))
    else ""
  }

  function HeaderFn(services: map<int, Service>, colors: map<string, string>): int -> string {
    id => HeaderFor(services, colors, id)
  }

  function BlockFn(loc: Locale, now: int): Arrival -> string {
    a => Block(a, loc, now)
  }

  /** The text after the first `k` rendered arrivals. */
  function Joined(vs: seq<Arrival>, k: nat, header: int -> string, block: Arrival -> string): string
    requires k <= |vs|
  {
    if k == 0 then ""
    else
      var j := k - 1;
      var prev := Joined(vs, j, header, block);
      if NeedsHeader(vs, j) then (if j > 0 then prev + "\n\n" else prev) + header(vs[j].serviceId) + block(vs[j])
      else prev + "\n\n" + block(vs[j])
  }

  /** The error `arrivalsToString` throws for a line missing from the bus
      table. */
  const TypeErrorName: string := "TypeError"

  /** `arrivalsToString(arrivalsResponse, limit)`. */
  function ArrivalsText(resp: ArrivalsResponse, limit: int, colors: map<string, string>, loc: Locale, now: int): Result<string, string> {
    if resp.arrivals.None? || |resp.arrivals.value| == 0 || resp.services.None? then Success("")
    else
      var sorted := SortSpec(resp.arrivals.value);
      var services := resp.services.value;
      var vs := VisibleUpTo(sorted, services, Examined(|sorted|, limit));
      if ColorsKnown(vs, services, colors, |vs|) then
        Success(Joined(vs, |vs|, HeaderFn(services, colors), BlockFn(loc, now)))
      else Failure(TypeErrorName)
  }

  lemma JoinedNonEmpty(vs: seq<Arrival>, k: nat, header: int -> string, block: Arrival -> string)
    requires k <= |vs| && forall a :: |block(a)| > 0
    ensures |Joined(vs, k, header, block)| > 0 <==> k > 0
  {
  }

  lemma TimeLineNonEmpty(loc: Locale, now: int)
    ensures forall a :: |BlockFn(loc, now)(a)| > 0
  {
  }

  /** The text of the first `k` arrivals depends on those arrivals only. */
  lemma {:induction false} JoinedPrefix(vs: seq<Arrival>, ws: seq<Arrival>, k: nat, header: int -> string, block: Arrival -> string)
    requires k <= |vs| && k <= |ws| && vs[..k] == ws[..k]
    ensures Joined(vs, k, header, block) == Joined(ws, k, header, block)
    decreases k
  {
    if k > 0 {
      assert vs[..k - 1] == ws[..k - 1] by {
        assert vs[..k - 1] == vs[..k][..k - 1];
        assert ws[..k - 1] == ws[..k][..k - 1];
      }
      assert vs[k - 1] == vs[..k][k - 1] == ws[..k][k - 1] == ws[k - 1];
      if k > 1 {
        assert vs[k - 2] == vs[..k][k - 2] == ws[..k][k - 2] == ws[k - 2];
      }
      JoinedPrefix(vs, ws, k - 1, header, block);
    }
  }

  /** A shorter prefix of the arrivals shows a prefix of the same list. */
  lemma {:induction false} VisiblePrefix(arrs: seq<Arrival>, services: map<int, Service>, a: nat, b: nat)
    requires a <= b <= |arrs|
    ensures VisibleUpTo(arrs, services, a) <= VisibleUpTo(arrs, services, b)
    decreases b - a
  {
    if a < b {
      VisiblePrefix(arrs, services, a, b - 1);
    }
  }

  /** The loop of `arrivalsToString`, once the list is sorted: `header`
      gives the header of a line and `block` the lines of an arrival. */
  method RenderArrivals(arrivals: seq<Arrival>, services: map<int, Service>, limit: int, colors: map<string, string>,
                        header: int -> string, block: Arrival -> string)
    returns (r: Result<string, string>)
    requires forall a :: |block(a)| > 0
    ensures var vs := VisibleUpTo(arrivals, services, Examined(|arrivals|, limit));
      r == if ColorsKnown(vs, services, colors, |vs|)
           then Success(Joined(vs, |vs|, header, block))
           else Failure(TypeErrorName)
  {
    var text := "";
    var lastServiceID := 0;
    ghost var vs: seq<Arrival> := [];
    var i := 0;
    while i < limit && i < |arrivals|
      invariant 0 <= i <= Examined(|arrivals|, limit)
      invariant Progress(arrivals, services, colors, header, block, i, vs, text, lastServiceID)
    {
      var failed;
      failed, text, lastServiceID, vs := RenderOne(arrivals, services, colors, header, block, i, vs, text, lastServiceID);
      if failed {
        VisibleColorsPrefix(arrivals, services, colors, i + 1, Examined(|arrivals|, limit));
        return Failure(TypeErrorName);
      }
      i := i + 1;
    }
    return Success(text);
  }

  /** The state of the loop after the first `i` arrivals: `vs` are those
      rendered, all with a known colour, and `text` is their text. */
  ghost predicate Progress(arrivals: seq<Arrival>, services: map<int, Service>, colors: map<string, string>,
                           header: int -> string, block: Arrival -> string, i: nat, vs: seq<Arrival>,
                           text: string, lastServiceID: int)
  {
    i <= |arrivals| && vs == VisibleUpTo(arrivals, services, i) && ColorsKnown(vs, services, colors, |vs|) &&
    text == Joined(vs, |vs|, header, block) && lastServiceID == LastId(vs, |vs|)
  }

  /** One iteration of the loop, on the arrival at index `i`: an arrival
      without a service reference is skipped; `failed` when the colour of a
      new line is missing. */
  method RenderOne(arrivals: seq<Arrival>, services: map<int, Service>, colors: map<string, string>,
                   header: int -> string, block: Arrival -> string, i: nat, ghost vs: seq<Arrival>,
                   text: string, lastServiceID: int)
    returns (failed: bool, text': string, lastServiceID': int, ghost vs': seq<Arrival>)
    requires i < |arrivals| && forall a :: |block(a)| > 0
    requires Progress(arrivals, services, colors, header, block, i, vs, text, lastServiceID)
    ensures vs' == VisibleUpTo(arrivals, services, i + 1)
    ensures failed <==> !ColorsKnown(vs', services, colors, |vs'|)
    ensures !failed ==> Progress(arrivals, services, colors, header, block, i + 1, vs', text', lastServiceID')
  {
    var arrival := arrivals[i];
    if arrival.serviceId !in services {
      return false, text, lastServiceID, vs;
    }
    var referencia := services[arrival.serviceId];
    vs' := vs + [arrival];
    var next := AppendArrival(text, lastServiceID, arrival, referencia, colors, header, block);
    if next.None? {
      RenderFails(arrivals, services, colors, i, vs);
      return true, text, lastServiceID, vs';
    }
    RenderStep(arrivals, services, colors, header, block, i, vs, text, next.value);
    return false, next.value, arrival.serviceId, vs';
  }

  /** The body of the loop for an arrival whose line has a reference: a
      header when the line differs from the previous one, whose colour lookup
      fails when the line is not in the bus table, then the arrival's lines. */
  method AppendArrival(text: string, lastServiceID: int, arrival: Arrival, referencia: Service, colors: map<string, string>,
                       header: int -> string, block: Arrival -> string)
    returns (r: Option<string>)
    ensures r.None? <==> arrival.serviceId != lastServiceID && referencia.code !in colors
    ensures r.Some? && arrival.serviceId != lastServiceID ==>
      r.value == (if |text| > 0 then text + "\n\n" else text) + header(arrival.serviceId) + block(arrival)
    ensures r.Some? && arrival.serviceId == lastServiceID ==> r.value == text + "\n\n" + block(arrival)
  {
    var t := text;
    if arrival.serviceId != lastServiceID {
      if referencia.code !in colors {
        return None;
      }
      if |t| > 0 {
        t := t + "\n\n";
      }
      t := t + header(arrival.serviceId);
    } else {
      t := t + "\n\n";
    }
    t := t + block(arrival);
    return Some(t);
  }

  /** One iteration of the loop keeps its invariants. */
  lemma RenderStep(arrivals: seq<Arrival>, services: map<int, Service>, colors: map<string, string>,
                   header: int -> string, block: Arrival -> string, i: nat, vs: seq<Arrival>, text: string, t: string)
    requires i < |arrivals| && arrivals[i].serviceId in services && forall a :: |block(a)| > 0
    requires vs == VisibleUpTo(arrivals, services, i) && ColorsKnown(vs, services, colors, |vs|)
    requires text == Joined(vs, |vs|, header, block)
    requires arrivals[i].serviceId != LastId(vs, |vs|) ==>
      services[arrivals[i].serviceId].code in colors &&
      t == (if |text| > 0 then text + "\n\n" else text) + header(arrivals[i].serviceId) + block(arrivals[i])
    requires arrivals[i].serviceId == LastId(vs, |vs|) ==> t == text + "\n\n" + block(arrivals[i])
    ensures var ws := vs + [arrivals[i]];
      ws == VisibleUpTo(arrivals, services, i + 1) && ColorsKnown(ws, services, colors, |ws|) &&
      t == Joined(ws, |ws|, header, block) && arrivals[i].serviceId == LastId(ws, |ws|)
  {
    JoinedNonEmpty(vs, |vs|, header, block);
    JoinedSnoc(vs, arrivals[i], header, block);
    ColorsKnownSnoc(vs, arrivals[i], services, colors);
  }

  /** A line without a colour met in the loop makes the shown prefix fail. */
  lemma RenderFails(arrivals: seq<Arrival>, services: map<int, Service>, colors: map<string, string>,
                    i: nat, vs: seq<Arrival>)
    requires i < |arrivals| && vs == VisibleUpTo(arrivals, services, i)
    requires arrivals[i].serviceId in services && arrivals[i].serviceId != LastId(vs, |vs|)
    requires services[arrivals[i].serviceId].code !in colors
    ensures var ws := VisibleUpTo(arrivals, services, i + 1);
      !ColorsKnown(ws, services, colors, |ws|)
  {
    var ws := vs + [arrivals[i]];
    assert ws == VisibleUpTo(arrivals, services, i + 1);
    assert NeedsHeader(ws, |vs|);
  }

  /** A failing prefix makes every longer prefix fail. */
  lemma VisibleColorsPrefix(arrivals: seq<Arrival>, services: map<int, Service>, colors: map<string, string>, a: nat, b: nat)
    requires a <= b <= |arrivals|
    requires var vs := VisibleUpTo(arrivals, services, a); !ColorsKnown(vs, services, colors, |vs|)
    ensures var ws := VisibleUpTo(arrivals, services, b); !ColorsKnown(ws, services, colors, |ws|)
  {
    var vs := VisibleUpTo(arrivals, services, a);
    var ws := VisibleUpTo(arrivals, services, b);
    VisiblePrefix(arrivals, services, a, b);
    var j :| 0 <= j < |vs| && NeedsHeader(vs, j) && !(vs[j].serviceId in services && services[vs[j].serviceId].code in colors);
    assert ws[j] == vs[j];
    assert j > 0 ==> ws[j - 1] == vs[j - 1];
    assert NeedsHeader(ws, j);
  }

  /** Rendering one more arrival appends its separation, its header when the
      line changes, and its lines. */
  lemma JoinedSnoc(vs: seq<Arrival>, a: Arrival, header: int -> string, block: Arrival -> string)
    ensures var ws := vs + [a];
      (NeedsHeader(ws, |vs|) <==> a.serviceId != LastId(vs, |vs|)) &&
      Joined(ws, |ws|, header, block) ==
        var prev := Joined(vs, |vs|, header, block);
        if NeedsHeader(ws, |vs|) then (if |vs| > 0 then prev + "\n\n" else prev) + header(a.serviceId) + block(a)
        else prev + "\n\n" + block(a)
  {
    var ws := vs + [a];
    assert ws[..|vs|] == vs[..|vs|];
    JoinedPrefix(vs, ws, |vs|, header, block);
  }

  lemma ColorsKnownSnoc(vs: seq<Arrival>, a: Arrival, services: map<int, Service>, colors: map<string, string>)
    requires a.serviceId in services && ColorsKnown(vs, services, colors, |vs|)
    requires a.serviceId != LastId(vs, |vs|) ==> services[a.serviceId].code in colors
    ensures ColorsKnown(vs + [a], services, colors, |vs| + 1)
  {
    var ws := vs + [a];
    forall j | 0 <= j < |ws| && NeedsHeader(ws, j) ensures ws[j].serviceId in services && services[ws[j].serviceId].code in colors {
      if j < |vs| {
        assert ws[j] == vs[j];
        assert LastId(ws, j) == LastId(vs, j);
        assert NeedsHeader(vs, j);
      }
    }
  }

  /** `arrivalsToString`. */
  method ArrivalsToString(resp: ArrivalsResponse, limit: int, colors: map<string, string>, loc: Locale, now: int)
    returns (r: Result<string, string>)
    ensures r == ArrivalsText(resp, limit, colors, loc, now)
  {
    if resp.arrivals.None? || |resp.arrivals.value| == 0 || resp.services.None? {
      return Success("");
    }
    var sorted := SortByArrivalTime(resp.arrivals.value);
    TimeLineNonEmpty(loc, now);
    r := RenderArrivals(sorted, resp.services.value, limit, colors, HeaderFn(resp.services.value, colors), BlockFn(loc, now));
  }

  // ------------------------------------------------------------ properties

  /** No arrivals, or no references, render as the empty text. */
  lemma NothingToRender(resp: ArrivalsResponse, limit: int, colors: map<string, string>, loc: Locale, now: int)
    requires resp.arrivals.None? || resp.arrivals.value == [] || resp.services.None?
    ensures ArrivalsText(resp, limit, colors, loc, now) == Success("")
  {
  }

  /** Which arrivals are rendered: in order, those of the first `limit`
      sorted arrivals that have a service reference; so at most `limit`. */
  lemma {:induction false} VisibleMeaning(arrs: seq<Arrival>, services: map<int, Service>, k: nat)
    requires k <= |arrs|
    ensures |VisibleUpTo(arrs, services, k)| <= k
    ensures forall a :: a in VisibleUpTo(arrs, services, k) <==> a in arrs[..k] && a.serviceId in services
    decreases k
  {
    if k > 0 {
      VisibleMeaning(arrs, services, k - 1);
      assert arrs[..k] == arrs[..k - 1] + [arrs[k - 1]];
    }
  }

  /** When `NeedsHeader` holds: for the first rendered arrival unless its
      `service_id` is 0, and for every rendered arrival whose line differs
      from the previous RENDERED one (an arrival skipped for lack of a
      reference is not compared against). An unfolding of `NeedsHeader`;
      HeaderPrinted states what it means for the rendered text. */
  lemma HeaderRule(vs: seq<Arrival>, j: nat)
    requires j < |vs|
    ensures j == 0 ==> (NeedsHeader(vs, j) <==> vs[0].serviceId != 0)
    ensures j > 0 ==> (NeedsHeader(vs, j) <==> vs[j].serviceId != vs[j - 1].serviceId)
  {
  }

  /** The text of the first `k` rendered arrivals is a prefix of the text of
      the first `n`: rendering only appends. */
  lemma {:induction false} JoinedGrows(vs: seq<Arrival>, k: nat, n: nat, header: int -> string, block: Arrival -> string)
    requires k <= n <= |vs|
    ensures Joined(vs, k, header, block) <= Joined(vs, n, header, block)
    decreases n - k
  {
    if k < n {
      JoinedGrows(vs, k, n - 1, header, block);
      var prev := Joined(vs, n - 1, header, block);
      var step := Joined(vs, n, header, block);
      assert prev <= step by {
        if NeedsHeader(vs, n - 1) {
          var mid := if n - 1 > 0 then prev + "\n\n" else prev;
          assert step == mid + (header(vs[n - 1].serviceId) + block(vs[n - 1]));
          assert prev <= mid;
        } else {
          assert step == prev + ("\n\n" + block(vs[n - 1]));
        }
      }
    }
  }

  /** What separates the `j`-th rendered arrival from the text before it:
      a blank line, except before the header of the first one
      (`text.length > 0` fails there). An arrival of the same line as the
      one before gets the blank line even when it is the first, as the
      first arrival does when its `service_id` is 0. */
  function Sep(vs: seq<Arrival>, j: nat): string
    requires j < |vs|
  {
    if j == 0 && NeedsHeader(vs, j) then "" else "\n\n"
  }

  /** What the `j`-th rendered arrival adds after its separation: its line's
      header when the line changes, then its own lines. */
  function Shown(vs: seq<Arrival>, j: nat, header: int -> string, block: Arrival -> string): string
    requires j < |vs|
  {
    if NeedsHeader(vs, j) then header(vs[j].serviceId) + block(vs[j]) else block(vs[j])
  }

  /** One more rendered arrival appends its separation and what it shows. */
  lemma JoinedUnfold(vs: seq<Arrival>, j: nat, header: int -> string, block: Arrival -> string)
    requires j < |vs|
    ensures Joined(vs, j + 1, header, block) == Joined(vs, j, header, block) + Sep(vs, j) + Shown(vs, j, header, block)
  {
    var prev := Joined(vs, j, header, block);
    if NeedsHeader(vs, j) {
      var h := header(vs[j].serviceId);
      var b := block(vs[j]);
      assert (prev + Sep(vs, j)) + h + b == (prev + Sep(vs, j)) + (h + b);
    } else {
    }
  }

  /** The header rule read off the whole rendered text: after the text of
      the arrivals before it and its separation (a blank line but before the
      first header), each rendered arrival shows
      its line's header exactly when the line differs from the previous
      rendered one, and then its own lines. */
  lemma HeaderPrinted(vs: seq<Arrival>, j: nat, header: int -> string, block: Arrival -> string)
    requires j < |vs|
    ensures var text := Joined(vs, |vs|, header, block);
      var from := |Joined(vs, j, header, block)|;
      from + |Sep(vs, j)| <= |text| &&
      text[from..from + |Sep(vs, j)|] == Sep(vs, j) &&
      Shown(vs, j, header, block) <= text[from + |Sep(vs, j)|..]
  {
    JoinedGrows(vs, j + 1, |vs|, header, block);
    JoinedUnfold(vs, j, header, block);
    PrefixAt(Joined(vs, j, header, block), Sep(vs, j), Shown(vs, j, header, block), Joined(vs, |vs|, header, block));
  }

  /** Where the pieces of a prefix sit in the longer sequence. */
  lemma PrefixAt<T>(a: seq<T>, b: seq<T>, c: seq<T>, t: seq<T>)
    requires a + b + c <= t
    ensures |a| + |b| <= |t| && t[|a|..|a| + |b|] == b && c <= t[|a| + |b|..]
  {
    assert t[|a|..|a| + |b|] == (a + b + c)[|a|..|a| + |b|];
    assert t[|a| + |b|..][..|c|] == (a + b + c)[|a| + |b|..];
  }

  /** An arrival without a reference between two arrivals of the same line
      does not make the second one print the header again. */
  lemma SkippedArrivalKeepsLine(x: Arrival, y: Arrival, z: Arrival, services: map<int, Service>)
    requires x.serviceId in services && y.serviceId !in services && z.serviceId == x.serviceId
    ensures VisibleUpTo([x, y, z], services, 3) == [x, z]
    ensures !NeedsHeader([x, z], 1)
  {
    assert VisibleUpTo([x, y, z], services, 1) == [x];
    assert VisibleUpTo([x, y, z], services, 2) == [x];
  }

  /** The text of `k > 0` arrivals is the text of the first `k - 1` followed
      by a separation, the header when the line changes, and the arrival's
      lines: an unfolding of `Joined`, one case per branch. */
  lemma JoinedStep(vs: seq<Arrival>, k: nat, header: int -> string, block: Arrival -> string)
    requires 0 < k <= |vs|
    ensures NeedsHeader(vs, k - 1) && k > 1 ==>
      Joined(vs, k, header, block) == Joined(vs, k - 1, header, block) + "\n\n" + header(vs[k - 1].serviceId) + block(vs[k - 1])
    ensures NeedsHeader(vs, k - 1) && k == 1 ==>
      Joined(vs, k, header, block) == header(vs[0].serviceId) + block(vs[0])
    ensures !NeedsHeader(vs, k - 1) ==>
      Joined(vs, k, header, block) == Joined(vs, k - 1, header, block) + "\n\n" + block(vs[k - 1])
  {
  }
}
