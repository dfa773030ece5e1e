/** The per-sender command cooldown of src/modules/commands/cooldown.ts: a
    history of the last (at most five) command timestamps of each sender,
    an exponential back-off read from `COOLDOWN_MULTIPLIER`, and a periodic
    sweep of idle senders. Times are integer milliseconds passed in as `now`;
    the multipliers are kept in tenths so that every comparison is an integer
    comparison (`elapsed < base * m / 10` is `10 * elapsed < base * m`). */
module Cooldown {

  /** `COOLDOWN_MULTIPLIER = [1, 1.2, 1.4, 2, 3]`, in tenths. */
  const Multipliers: seq<nat> := [10, 12, 14, 20, 30]

  /** A sender's history, oldest timestamp first. */
  type History = seq<int>

  /** Every tracked history holds between one and five timestamps. */
  predicate HistoriesValid(h: map<string, History>) {
    forall u :: u in h ==> 1 <= |h[u]| <= |Multipliers|
  }

  /** A known sender's history after the oldest entry is evicted from a full
      history and `now` is appended. */
  function Pushed(hist: History, now: int): (u: History)
    requires 1 <= |hist| <= |Multipliers|
    ensures 2 <= |u| <= |Multipliers| && u[|u| - 1] == now
  {
    (if |hist| >= |Multipliers| then hist[1..] else hist) + [now]
  }

  /** `COOLDOWN` in tenths of a millisecond, for a history of length `len`
      after the append. */
  function Required(base: nat, len: nat): nat
    requires 1 <= len <= |Multipliers|
  {
    base * Multipliers[len - 1]
  }

  /** The time between the last two entries, in tenths of a millisecond. */
  function Elapsed(u: History): int
    requires |u| >= 2
  {
    10 * (u[|u| - 1] - u[|u| - 2])
  }

  /** `timeElapsed < COOLDOWN`. */
  predicate TooSoon(base: nat, u: History)
    requires 2 <= |u| <= |Multipliers|
  {
    Elapsed(u) < Required(base, |u|)
  }

  /** `timeElapsed > COOLDOWN + initialCoolDown`. */
  predicate LongIdle(base: nat, u: History)
    requires 2 <= |u| <= |Multipliers|
  {
    Elapsed(u) > Required(base, |u|) + 10 * base
  }

  /** The answer of `checkUserCoolDown` and the history it leaves. */
  datatype Verdict = Verdict(allowed: bool, history: map<string, History>)

  /** `checkUserCoolDown` for a message from `from`; `executing` is the set
      `USERS_EXECUTING_COMMANDS`, which this function only reads. */
  function CheckSpec(h: map<string, History>, base: nat, fromMe: bool, from: string, now: int, executing: set<string>): Verdict
    requires HistoriesValid(h)
  {
    if fromMe then Verdict(true, h)
    else if from in h then
      var u := Pushed(h[from], now);
      if TooSoon(base, u) then Verdict(false, h[from := u])
      else Verdict(from !in executing, h[from := if LongIdle(base, u) then [now] else u])
    else Verdict(from !in executing, h[from := [now]])
  }

  /** The sweep's test: the last timestamp is more than
      `initialCoolDown * COOLDOWN_MULTIPLIER[last]` before `now`. */
  predicate Expired(hist: History, base: nat, now: int) {
    |hist| > 0 && 10 * (now - hist[|hist| - 1]) > base * Multipliers[|Multipliers| - 1]
  }

  /** The history the sweep leaves: the senders that have not expired. */
  function SweepSpec(h: map<string, History>, base: nat, now: int): map<string, History> {
    map u | u in h && !Expired(h[u], base, now) :: h[u]
  }

  /** The module-level `MESSAGES_HISTORY` map together with the configured
      `initialCoolDown`. */
  class CooldownGuard {
    var history: map<string, History>
    const base: nat

    ghost predicate Valid()
      reads this
    {
      HistoriesValid(history)
    }

    constructor (initialCoolDown: nat)
      ensures Valid() && history == map[] && base == initialCoolDown
    {
      history := map[];
      base := initialCoolDown;
    }

    /** `checkUserCoolDown`. */
    method Check(fromMe: bool, from: string, now: int, executing: set<string>) returns (ok: bool)
      requires Valid()
      modifies this
      ensures Valid()
      ensures Verdict(ok, history) == CheckSpec(old(history), base, fromMe, from, now, executing)
    {
      if fromMe {
        return true;
      }
      if from in history {
        var userHistory := history[from];
        if |userHistory| >= |Multipliers| {
          userHistory := userHistory[1..];
        }
        userHistory := userHistory + [now];
        history := history[from := userHistory];
        var cooldown := Required(base, |userHistory|);
        var timeElapsed := Elapsed(userHistory);
        if timeElapsed < cooldown {
          return false;
        }
        if timeElapsed > cooldown + 10 * base {
          userHistory := userHistory[|userHistory| - 1..];
          history := history[from := userHistory];
        }
      } else {
        history := history[from := [now]];
      }
      if from in executing {
        return false;
      }
      return true;
    }

    /** The body of the periodic sweep: delete every expired sender. */
    method Sweep(now: int)
      requires Valid()
      modifies this
      ensures Valid()
      ensures history == SweepSpec(old(history), base, now)
    {
      if |history| == 0 {
        return;
      }
      ghost var original := history;
      var users := history.Keys;
      while users != {}
        invariant users <= original.Keys
        invariant history == map u | u in original && (u in users || !Expired(original[u], base, now)) :: original[u]
        decreases users
      {
        var user :| user in users;
        var timestampList := history[user];
        if Expired(timestampList, base, now) {
          history := history - {user};
        }
        users := users - {user};
      }
    }
  }

  // ------------------------------------------------------------ properties

  /** A message of the bot's own passes and changes nothing. */
  lemma FromMeUnchanged(h: map<string, History>, base: nat, from: string, now: int, executing: set<string>)
    requires HistoriesValid(h)
    ensures CheckSpec(h, base, true, from, now, executing) == Verdict(true, h)
  {
  }

  /** A sender with no history gets `[now]` and is let through unless it is
      already executing a command. */
  lemma NewSender(h: map<string, History>, base: nat, from: string, now: int, executing: set<string>)
    requires HistoriesValid(h) && from !in h
    ensures CheckSpec(h, base, false, from, now, executing) == Verdict(from !in executing, h[from := [now]])
  {
  }

  /** Every check keeps the histories between one and five entries long,
      leaves `now` last in the sender's history, and touches no other
      sender. */
  lemma CheckKeepsHistoriesValid(h: map<string, History>, base: nat, fromMe: bool, from: string, now: int, executing: set<string>)
    requires HistoriesValid(h)
    ensures HistoriesValid(CheckSpec(h, base, fromMe, from, now, executing).history)
    ensures !fromMe ==> from in CheckSpec(h, base, fromMe, from, now, executing).history
    ensures !fromMe ==>
      var u := CheckSpec(h, base, fromMe, from, now, executing).history[from];
      u[|u| - 1] == now
    ensures forall v :: v != from ==>
      (v in CheckSpec(h, base, fromMe, from, now, executing).history <==> v in h)
    ensures forall v :: v != from && v in h ==> CheckSpec(h, base, fromMe, from, now, executing).history[v] == h[v]
  {
  }

  /** A known sender's full history loses its oldest entry; a shorter one
      only grows; either way `now` is appended. */
  lemma Eviction(hist: History, now: int)
    requires 1 <= |hist| <= |Multipliers|
    ensures |hist| == |Multipliers| ==> Pushed(hist, now) == hist[1..] + [now]
    ensures |hist| < |Multipliers| ==> Pushed(hist, now) == hist + [now]
    ensures |Pushed(hist, now)| == if |hist| == |Multipliers| then |hist| else |hist| + 1
  {
  }

  /** A known sender is refused exactly when the time since the previous
      command is below the required cooldown for the grown history, or when
      it is executing a command; the appended timestamp stays either way. */
  lemma KnownSenderVerdict(h: map<string, History>, base: nat, from: string, now: int, executing: set<string>)
    requires HistoriesValid(h) && from in h
    ensures var u := Pushed(h[from], now);
      var r := CheckSpec(h, base, false, from, now, executing);
      (!r.allowed <==> TooSoon(base, u) || from in executing) &&
      (TooSoon(base, u) ==> r.history[from] == u)
  {
  }

  /** After a long enough pause the history collapses to `[now]`. */
  lemma Collapse(h: map<string, History>, base: nat, from: string, now: int, executing: set<string>)
    requires HistoriesValid(h) && from in h
    requires !TooSoon(base, Pushed(h[from], now)) && LongIdle(base, Pushed(h[from], now))
    ensures CheckSpec(h, base, false, from, now, executing).history[from] == [now]
  {
  }

  /** A sender that is executing a command is refused however long ago its
      last command was, and its history changes exactly as it would if it
      were not executing. */
  lemma ExecutingRejects(h: map<string, History>, base: nat, from: string, now: int, executing: set<string>)
    requires HistoriesValid(h) && from in executing
    ensures !CheckSpec(h, base, false, from, now, executing).allowed
    ensures CheckSpec(h, base, false, from, now, executing).history ==
            CheckSpec(h, base, false, from, now, {}).history
  {
  }

  /** The multipliers never decrease, so the required cooldown never shrinks
      as a history grows, and it tops out at three times the base. */
  lemma RequiredMonotone(base: nat, len1: nat, len2: nat)
    requires 1 <= len1 <= len2 <= |Multipliers|
    ensures Required(base, len1) <= Required(base, len2) <= Required(base, |Multipliers|) == 30 * base
  {
    assert Multipliers[len1 - 1] <= Multipliers[len2 - 1] <= Multipliers[4];
  }

  /** Since a known sender's history is never empty, the grown history has
      at least two entries: the first multiplier (1) is never applied to a
      check, the smallest cooldown is 1.2 times the base. */
  lemma FirstMultiplierUnused(h: map<string, History>, base: nat, from: string, now: int)
    requires HistoriesValid(h) && from in h
    ensures Required(base, |Pushed(h[from], now)|) >= 12 * base
  {
    RequiredMonotone(base, 2, |Pushed(h[from], now)|);
  }

  /** The sweep deletes exactly the expired senders and leaves every other
      entry as it was; sweeping twice at the same time is sweeping once. */
  lemma SweepMeaning(h: map<string, History>, base: nat, now: int)
    requires HistoriesValid(h)
    ensures forall u :: u in SweepSpec(h, base, now) <==> u in h && !Expired(h[u], base, now)
    ensures forall u :: u in SweepSpec(h, base, now) ==> SweepSpec(h, base, now)[u] == h[u]
    ensures HistoriesValid(SweepSpec(h, base, now))
    ensures SweepSpec(SweepSpec(h, base, now), base, now) == SweepSpec(h, base, now)
  {
  }

  /** A sender swept at `now` was idle for longer than the longest cooldown
      the check can demand. */
  lemma SweptSendersAreIdle(h: map<string, History>, base: nat, now: int, u: string)
    requires HistoriesValid(h) && u in h && u !in SweepSpec(h, base, now)
    ensures 10 * (now - h[u][|h[u]| - 1]) > Required(base, |Multipliers|)
  {
  }
}
