/** Request pacing, budgets and cooldown (luatvietnam_crawler/safety.py); times are microseconds since the epoch. */
module RequestSafety {
  import opened Prelude

  const Day := 86_400_000_000

  /** The UTC day of a time; Dafny's integer division floors for a positive divisor. */
  function DayOf(t: int): int { t / Day }

  datatype Config = Config(minDelay: int, maxDelay: int, perRun: int, daily: int, cooldown: int)

  const Second := 1_000_000

  /** What the constructor accepts; a cooldown is at least one second. */
  predicate ValidConfig(c: Config) {
    0 <= c.minDelay <= c.maxDelay && 1 <= c.perRun <= c.daily && c.cooldown >= Second
  }

  /** The state file. */
  datatype Stored = Stored(day: int, today: nat, last: Option<int>, blockedUntil: Option<int>, reason: Option<string>)

  datatype Refusal = CoolingDown(until: int) | RunBudget | DailyBudget

  function Loaded(file: Option<Stored>, now: int): Stored {
    match file
    case None => Stored(DayOf(now), 0, None, None, None)
    case Some(s) => s
  }

  function ResetDaily(s: Stored, now: int): Stored {
    if s.day != DayOf(now) then s.(day := DayOf(now), today := 0) else s
  }

  /** How long to sleep before the request. */
  function Pause(s: Stored, now: int, delay: int): int {
    if s.last.Some? && s.last.value + delay - now > 0 then s.last.value + delay - now else 0
  }

  /** `woken` is the clock after the sleep; it is only read when there was one. */
  function Stamp(s: Stored, now: int, delay: int, woken: int): int {
    if Pause(s, now, delay) > 0 then woken else now
  }

  function BeforeRequest(c: Config, file: Option<Stored>, thisRun: nat, now: int, delay: int, woken: int)
    : Result<Stored, Refusal>
  {
    var s := ResetDaily(Loaded(file, now), now);
    if s.blockedUntil.Some? && s.blockedUntil.value > now then Err(CoolingDown(s.blockedUntil.value))
    else if thisRun >= c.perRun then Err(RunBudget)
    else if s.today >= c.daily then Err(DailyBudget)
    else Ok(s.(last := Some(Stamp(s, now, delay, woken)), today := s.today + 1))
  }

  function Max(a: int, b: int): int { if a >= b then a else b }

  function Block(c: Config, file: Option<Stored>, now: int, reason: string, retryAfter: Option<int>): Stored {
    var s := ResetDaily(Loaded(file, now), now);
    var cooldown := Max(c.cooldown, if retryAfter.Some? then retryAfter.value else 0);
    var current := if s.blockedUntil.Some? then s.blockedUntil.value else 0;
    s.(blockedUntil := Some(Max(current, now + cooldown)), reason := Some(reason))
  }

  class RequestSafetyPolicy {
    const config: Config
    var file: Option<Stored>
    var requestsThisRun: nat

    constructor (config: Config, file: Option<Stored>)
      requires ValidConfig(config)
      ensures this.config == config && this.file == file && requestsThisRun == 0
    {
      this.config, this.file, requestsThisRun := config, file, 0;
    }

    method BeforeNext(now: int, delay: int, woken: int) returns (refusal: Option<Refusal>)
      modifies this
      ensures var r := BeforeRequest(config, old(file), old(requestsThisRun), now, delay, woken);
        match r
        case Err(e) => refusal == Some(e) && file == old(file) && requestsThisRun == old(requestsThisRun)
        case Ok(s) => refusal == None && file == Some(s) && requestsThisRun == old(requestsThisRun) + 1
    {
      var state := Loaded(file, now);
      state := ResetDaily(state, now);
      if state.blockedUntil.Some? && state.blockedUntil.value > now {
        return Some(CoolingDown(state.blockedUntil.value));
      }
      if requestsThisRun >= config.perRun {
        return Some(RunBudget);
      }
      if state.today >= config.daily {
        return Some(DailyBudget);
      }
      var at := now;
      if state.last.Some? {
        var remaining := state.last.value + delay - at;
        if remaining > 0 {
          at := woken;
        }
      }
      state := state.(last := Some(at), today := state.today + 1);
      requestsThisRun := requestsThisRun + 1;
      file := Some(state);
      refusal := None;
    }

    method BlockUntil(now: int, reason: string, retryAfter: Option<int>)
      modifies this`file
      ensures file == Some(Block(config, old(file), now, reason, retryAfter))
    {
      var state := ResetDaily(Loaded(file, now), now);
      var cooldown := Max(config.cooldown, if retryAfter.Some? then retryAfter.value else 0);
      var current := if state.blockedUntil.Some? then state.blockedUntil.value else 0;
      file := Some(state.(blockedUntil := Some(Max(current, now + cooldown)), reason := Some(reason)));
    }
  }

  // -- one request, one block -------------------------------------------------------------

  /** The day of the file is that of the clock. */
  ghost predicate IsToday(day: int, now: int) { day * Day <= now < (day + 1) * Day }

  lemma TodayIs(day: int, now: int)
    ensures IsToday(day, now) <==> day == DayOf(now)
  {
    var d := DayOf(now);
    assert d * Day <= now < d * Day + Day;
    if day < d {
      assert (day + 1) * Day <= d * Day;
    } else if day > d {
      assert (d + 1) * Day <= day * Day;
    }
  }

  /** Requests already charged today. */
  ghost predicate ChargedToday(file: Option<Stored>, now: int, n: nat) {
    match file
    case None => n == 0
    case Some(s) => n == if IsToday(s.day, now) then s.today else 0
  }

  ghost predicate CooledUntil(file: Option<Stored>, now: int, until: int) {
    file.Some? && file.value.blockedUntil == Some(until) && until > now
  }

  /** The time a request is stamped with: now if the last one is long enough ago, otherwise when the sleep ended. */
  ghost predicate StampedAt(file: Option<Stored>, now: int, delay: int, woken: int, at: int) {
    if file.Some? && file.value.last.Some? && file.value.last.value + delay > now then at == woken else at == now
  }

  /**
    A request is refused while a cooldown lasts, then for the budget of the run, then for that of the day; otherwise it
    is charged to today and stamped, and nothing else in the file changes.
   */
  lemma AskingIs(c: Config, file: Option<Stored>, thisRun: nat, now: int, delay: int, woken: int) returns (charged: nat)
    ensures ChargedToday(file, now, charged)
    ensures var r := BeforeRequest(c, file, thisRun, now, delay, woken);
      var cooling := exists until :: CooledUntil(file, now, until);
      && (forall until :: CooledUntil(file, now, until) ==> r == Err(CoolingDown(until)))
      && (!cooling && thisRun >= c.perRun ==> r == Err(RunBudget))
      && (!cooling && thisRun < c.perRun && charged >= c.daily ==> r == Err(DailyBudget))
      && (!cooling && thisRun < c.perRun && charged < c.daily ==>
            && r.Ok? && IsToday(r.value.day, now) && r.value.today == charged + 1
            && (exists at :: StampedAt(file, now, delay, woken, at) && r.value.last == Some(at))
            && r.value.blockedUntil == (if file.Some? then file.value.blockedUntil else None)
            && r.value.reason == (if file.Some? then file.value.reason else None))
  {
    TodayIs(DayOf(now), now);
    if file.Some? { TodayIs(file.value.day, now); }
    charged := ResetDaily(Loaded(file, now), now).today;
    assert StampedAt(file, now, delay, woken, Stamp(ResetDaily(Loaded(file, now), now), now, delay, woken));
    var until := Loaded(file, now).blockedUntil;
    assert until.Some? && until.value > now ==> CooledUntil(file, now, until.value);
  }

  ghost predicate IsGreatest(n: int, bounds: set<int>) { n in bounds && forall b | b in bounds :: b <= n }

  /** A block lasts to the latest of its configured end, the end the site asks for and the end already stored. */
  lemma BlockingIs(c: Config, file: Option<Stored>, now: int, reason: string, retryAfter: Option<int>)
    requires ValidConfig(c)
    ensures var s := Block(c, file, now, reason, retryAfter);
      && s.blockedUntil.Some?
      && IsGreatest(s.blockedUntil.value,
           {now + c.cooldown} + (if retryAfter.Some? then {now + retryAfter.value} else {})
           + {if file.Some? && file.value.blockedUntil.Some? then file.value.blockedUntil.value else 0})
      && s.reason == Some(reason) && IsToday(s.day, now) && ChargedToday(file, now, s.today)
      && s.last == if file.Some? then file.value.last else None
  {
    TodayIs(DayOf(now), now);
    if file.Some? { TodayIs(file.value.day, now); }
  }

  // -- runs -------------------------------------------------------------------------------

  /** A recorded request: when it was stamped and the day whose counter it was charged to. */
  datatype Request = Request(at: int, charged: int)

  /** The file, the counter of the current process, the latest clock reading and the requests let through so far. */
  datatype World = World(file: Option<Stored>, thisRun: nat, clock: int, requests: seq<Request>)

  datatype Event =
    | NewRun
    | Ask(now: int, delay: int, woken: int)
    | Blocked(now: int, reason: string, retryAfter: Option<int>)

  function Start(clock: int): World { World(None, 0, clock, []) }

  /** The clock never goes back, the jitter stays in its range, and a sleep lasts at least as long as asked. */
  predicate Enabled(c: Config, w: World, e: Event) {
    match e
    case NewRun => true
    case Ask(now, delay, woken) =>
      && w.clock <= now && c.minDelay <= delay <= c.maxDelay
      && woken >= now + Pause(ResetDaily(Loaded(w.file, now), now), now, delay)
    case Blocked(now, _, _) => w.clock <= now
  }

  function Next(c: Config, w: World, e: Event): World {
    match e
    case NewRun => w.(thisRun := 0)
    case Ask(now, delay, woken) =>
      (match BeforeRequest(c, w.file, w.thisRun, now, delay, woken)
       case Err(_) => w.(clock := now)
       case Ok(s) => World(Some(s), w.thisRun + 1, s.last.value, w.requests + [Request(s.last.value, DayOf(now))]))
    case Blocked(now, reason, retryAfter) =>
      w.(file := Some(Block(c, w.file, now, reason, retryAfter)), clock := now)
  }

  /** The world after the events; `None` when the environment broke one of its assumptions. */
  function After(c: Config, clock: int, events: seq<Event>): (r: Option<World>) {
    if events == [] then Some(Start(clock))
    else
      match After(c, clock, events[..|events| - 1])
      case None => None
      case Some(w) => if Enabled(c, w, events[|events| - 1]) then Some(Next(c, w, events[|events| - 1])) else None
  }

  /** Requests charged to a day. */
  function Charged(rs: seq<Request>, day: int): nat {
    if rs == [] then 0 else Charged(rs[..|rs| - 1], day) + if rs[|rs| - 1].charged == day then 1 else 0
  }

  /** Requests stamped on a day. */
  function Stamped(rs: seq<Request>, day: int): nat {
    if rs == [] then 0 else Stamped(rs[..|rs| - 1], day) + if DayOf(rs[|rs| - 1].at) == day then 1 else 0
  }

  ghost predicate Spaced(c: Config, rs: seq<Request>) {
    forall i | 0 < i < |rs| :: rs[i - 1].at + c.minDelay <= rs[i].at
  }

  /** A request is charged no later than it is stamped, and no earlier than the one before it was stamped. */
  ghost predicate ChargedInOrder(rs: seq<Request>) {
    && (forall i | 0 <= i < |rs| :: rs[i].charged <= DayOf(rs[i].at))
    && (forall i | 0 < i < |rs| :: DayOf(rs[i - 1].at) <= rs[i].charged)
  }

  ghost predicate FileMatches(c: Config, w: World) {
    match w.file
    case None => w.requests == []
    case Some(s) =>
      && s.today <= c.daily && s.today == Charged(w.requests, s.day)
      && s.day <= DayOf(w.clock)
      && (s.last == None <==> w.requests == [])
      && (w.requests != [] ==> s.last == Some(w.requests[|w.requests| - 1].at) && s.last.value <= w.clock
                               && w.requests[|w.requests| - 1].charged <= s.day)
  }

  ghost predicate Inv(c: Config, w: World) {
    && Spaced(c, w.requests) && ChargedInOrder(w.requests) && FileMatches(c, w)
    && w.thisRun <= c.perRun
    && (forall day :: Charged(w.requests, day) <= c.daily)
  }

  lemma DayMonotone(a: int, b: int)
    requires a <= b
    ensures DayOf(a) <= DayOf(b)
  {}

  lemma {:induction false} NoneChargedLater(rs: seq<Request>, day: int)
    requires ChargedInOrder(rs) && rs != [] && rs[|rs| - 1].charged < day
    ensures Charged(rs, day) == 0
  {
    if |rs| > 1 {
      var init := rs[..|rs| - 1];
      assert init[|init| - 1] == rs[|rs| - 2];
      assert ChargedInOrder(init) by {
        forall i | 0 < i < |init| ensures DayOf(init[i - 1].at) <= init[i].charged { assert rs[i - 1] == init[i - 1]; }
      }
      assert DayOf(rs[|rs| - 1 - 1].at) <= rs[|rs| - 1].charged;
      NoneChargedLater(init, day);
    }
  }

  /** The request that an accepted call records, and where it stands among the earlier ones. */
  lemma AcceptedRequest(c: Config, w: World, now: int, delay: int, woken: int)
    requires ValidConfig(c) && Inv(c, w) && Enabled(c, w, Ask(now, delay, woken))
    requires BeforeRequest(c, w.file, w.thisRun, now, delay, woken).Ok?
    ensures var s := ResetDaily(Loaded(w.file, now), now); var at := Stamp(s, now, delay, woken);
      && now <= at && DayOf(now) <= DayOf(at)
      && s.today == Charged(w.requests, DayOf(now))
      && (w.requests != [] ==>
            var last := w.requests[|w.requests| - 1].at; last + c.minDelay <= at && DayOf(last) <= DayOf(now))
  {
    var s := ResetDaily(Loaded(w.file, now), now);
    DayMonotone(now, Stamp(s, now, delay, woken));
    DayMonotone(w.clock, now);
    if w.requests != [] {
      DayMonotone(w.requests[|w.requests| - 1].at, now);
      if w.file.value.day != DayOf(now) { NoneChargedLater(w.requests, DayOf(now)); }
    }
  }

  lemma AskKeepsInv(c: Config, w: World, now: int, delay: int, woken: int)
    requires ValidConfig(c) && Inv(c, w) && Enabled(c, w, Ask(now, delay, woken))
    requires BeforeRequest(c, w.file, w.thisRun, now, delay, woken).Ok?
    ensures Inv(c, Next(c, w, Ask(now, delay, woken)))
  {
    AcceptedRequest(c, w, now, delay, woken);
    var r := Request(Stamp(ResetDaily(Loaded(w.file, now), now), now, delay, woken), DayOf(now));
    SpacedAppend(c, w.requests, r);
    ChargedAppend(w.requests, r);
    CountAppend(c, w.requests, r);
    RecordedMatches(c, w, now, delay, woken, r);
  }

  lemma RecordedMatches(c: Config, w: World, now: int, delay: int, woken: int, r: Request)
    requires BeforeRequest(c, w.file, w.thisRun, now, delay, woken).Ok?
    requires r == Request(Stamp(ResetDaily(Loaded(w.file, now), now), now, delay, woken), DayOf(now))
    requires DayOf(now) <= DayOf(r.at)
    requires Charged(w.requests + [r], r.charged) == ResetDaily(Loaded(w.file, now), now).today + 1
    ensures var t := Next(c, w, Ask(now, delay, woken));
      t.requests == w.requests + [r] && FileMatches(c, t) && t.thisRun <= c.perRun
  {}

  lemma SpacedAppend(c: Config, rs: seq<Request>, r: Request)
    requires Spaced(c, rs) && (rs != [] ==> rs[|rs| - 1].at + c.minDelay <= r.at)
    ensures Spaced(c, rs + [r])
  {}

  lemma ChargedAppend(rs: seq<Request>, r: Request)
    requires ChargedInOrder(rs) && r.charged <= DayOf(r.at)
    requires rs != [] ==> DayOf(rs[|rs| - 1].at) <= r.charged
    ensures ChargedInOrder(rs + [r])
  {
    var all := rs + [r];
    forall i | 0 < i < |all| ensures DayOf(all[i - 1].at) <= all[i].charged {
      if i < |rs| { assert DayOf(rs[i - 1].at) <= rs[i].charged; }
    }
  }

  lemma CountAppend(c: Config, rs: seq<Request>, r: Request)
    requires (forall day :: Charged(rs, day) <= c.daily) && Charged(rs, r.charged) < c.daily
    ensures forall day :: Charged(rs + [r], day) <= c.daily
    ensures Charged(rs + [r], r.charged) == Charged(rs, r.charged) + 1
  {
    assert (rs + [r])[..|rs + [r]| - 1] == rs;
  }

  lemma StepKeepsInv(c: Config, w: World, e: Event)
    requires ValidConfig(c) && Inv(c, w) && Enabled(c, w, e)
    ensures Inv(c, Next(c, w, e))
  {
    match e
    case NewRun =>
    case Ask(now, delay, woken) =>
      DayMonotone(w.clock, now);
      if BeforeRequest(c, w.file, w.thisRun, now, delay, woken).Ok? { AskKeepsInv(c, w, now, delay, woken); }
    case Blocked(now, reason, retryAfter) =>
      DayMonotone(w.clock, now);
      if w.requests != [] && w.file.value.day != DayOf(now) {
        NoneChargedLater(w.requests, DayOf(now));
      }
  }

  lemma {:induction false} RunKeepsInv(c: Config, clock: int, events: seq<Event>)
    requires ValidConfig(c) && After(c, clock, events).Some?
    ensures Inv(c, After(c, clock, events).value)
  {
    if events != [] {
      var init := events[..|events| - 1];
      RunKeepsInv(c, clock, init);
      StepKeepsInv(c, After(c, clock, init).value, events[|events| - 1]);
    }
  }

  /** Requests stamped on a day but charged to an earlier one: their pause ended on it. */
  function Into(rs: seq<Request>, day: int): nat {
    if rs == [] then 0
    else
      var r := rs[|rs| - 1];
      Into(rs[..|rs| - 1], day) + if DayOf(r.at) == day && r.charged != day then 1 else 0
  }

  /** Requests charged to a day but stamped on a later one: their pause began on it. */
  function OutOf(rs: seq<Request>, day: int): nat {
    if rs == [] then 0
    else
      var r := rs[|rs| - 1];
      OutOf(rs[..|rs| - 1], day) + if r.charged == day && DayOf(r.at) != day then 1 else 0
  }

  /** What a day loses to the next one it gains from an earlier one, up to the difference of the two counts. */
  lemma {:induction false} StampedAndCharged(rs: seq<Request>, day: int)
    ensures Stamped(rs, day) + OutOf(rs, day) == Charged(rs, day) + Into(rs, day)
  {
    if rs != [] { StampedAndCharged(rs[..|rs| - 1], day); }
  }

  /** Only one pause can end on a day and only one can leave it: later requests are charged from the last stamp on. */
  lemma {:induction false} CrossingsAtMostOnce(rs: seq<Request>, day: int)
    requires ChargedInOrder(rs)
    ensures Into(rs, day) <= 1 && OutOf(rs, day) <= 1
    ensures Into(rs, day) == 1 ==> DayOf(rs[|rs| - 1].at) >= day
    ensures OutOf(rs, day) == 1 ==> DayOf(rs[|rs| - 1].at) > day
  {
    if rs != [] {
      var init, r := rs[..|rs| - 1], rs[|rs| - 1];
      assert ChargedInOrder(init) by {
        forall i | 0 < i < |init| ensures DayOf(init[i - 1].at) <= init[i].charged { assert rs[i - 1] == init[i - 1]; }
      }
      CrossingsAtMostOnce(init, day);
      if init != [] {
        assert DayOf(rs[|rs| - 1 - 1].at) <= r.charged;
        assert init[|init| - 1] == rs[|rs| - 2];
      }
    }
  }

  /**
    Over every run of processes, requests and blocks: recorded requests are at least the minimum delay apart, the stored
    counter never exceeds the daily budget, and at most one request more than the budget is stamped on one UTC day.
   */
  lemma RequestsArePaced(c: Config, clock: int, events: seq<Event>, day: int)
    requires ValidConfig(c) && After(c, clock, events).Some?
    ensures var w := After(c, clock, events).value;
      && Spaced(c, w.requests)
      && (w.file.Some? ==> w.file.value.today <= c.daily)
      && w.thisRun <= c.perRun
      && Charged(w.requests, day) <= c.daily
      && Stamped(w.requests, day) <= c.daily + 1
  {
    RunKeepsInv(c, clock, events);
    StampedAndCharged(After(c, clock, events).value.requests, day);
    CrossingsAtMostOnce(After(c, clock, events).value.requests, day);
  }

  /**
    Exactly when the daily budget holds on a UTC day: unless the day's counter was used up, a pause begun on an earlier
    day ended on it, and none of its own requests was carried over to a later day.
   */
  lemma BudgetHoldsExactly(c: Config, clock: int, events: seq<Event>, day: int)
    requires ValidConfig(c) && After(c, clock, events).Some?
    ensures var rs := After(c, clock, events).value.requests;
      Stamped(rs, day) <= c.daily
      <==> !(Charged(rs, day) == c.daily && Into(rs, day) == 1 && OutOf(rs, day) == 0)
  {
    var rs := After(c, clock, events).value.requests;
    RunKeepsInv(c, clock, events);
    StampedAndCharged(rs, day);
    CrossingsAtMostOnce(rs, day);
  }

  /** The pause of a request that was let through ends on the day it began. */
  predicate PauseStaysOnDay(c: Config, w: World, e: Event) {
    match e
    case Ask(now, delay, woken) =>
      (match BeforeRequest(c, w.file, w.thisRun, now, delay, woken)
       case Err(_) => true
       case Ok(s) => DayOf(Stamp(ResetDaily(Loaded(w.file, now), now), now, delay, woken)) == DayOf(now))
    case _ => true
  }

  /** No pause of the run crosses midnight. */
  predicate NoPauseCrosses(c: Config, clock: int, events: seq<Event>) {
    events == []
    || (var init := events[..|events| - 1];
        NoPauseCrosses(c, clock, init)
        && (After(c, clock, init).Some? ==> PauseStaysOnDay(c, After(c, clock, init).value, events[|events| - 1])))
  }

  lemma {:induction false} NothingCarriedOver(c: Config, clock: int, events: seq<Event>, day: int)
    requires After(c, clock, events).Some? && NoPauseCrosses(c, clock, events)
    ensures Into(After(c, clock, events).value.requests, day) == 0
  {
    if events != [] {
      var init, e := events[..|events| - 1], events[|events| - 1];
      NothingCarriedOver(c, clock, init, day);
      var before, after := After(c, clock, init).value, After(c, clock, events).value;
      if after.requests != before.requests {
        assert after.requests[..|after.requests| - 1] == before.requests;
      }
    }
  }

  /** What a caller can check before each request: while no pause crosses midnight, the budget holds on every day. */
  lemma BudgetHoldsWithinDays(c: Config, clock: int, events: seq<Event>, day: int)
    requires ValidConfig(c) && After(c, clock, events).Some? && NoPauseCrosses(c, clock, events)
    ensures Stamped(After(c, clock, events).value.requests, day) <= c.daily
  {
    NothingCarriedOver(c, clock, events, day);
    BudgetHoldsExactly(c, clock, events, day);
  }

  function BlockedUntil(w: World): int {
    if w.file.Some? && w.file.value.blockedUntil.Some? then w.file.value.blockedUntil.value else 0
  }

  /** The end of a cooldown never moves back, and a request is let through only after it. */
  lemma CooldownHolds(c: Config, w: World, e: Event)
    requires ValidConfig(c) && Inv(c, w) && Enabled(c, w, e)
    ensures var t := Next(c, w, e);
      && (w.file.Some? && w.file.value.blockedUntil.Some? ==>
            t.file.Some? && t.file.value.blockedUntil.Some? && BlockedUntil(w) <= BlockedUntil(t))
      && (t.requests != w.requests ==>
            && |t.requests| == |w.requests| + 1
            && (w.file.Some? && w.file.value.blockedUntil.Some? ==> BlockedUntil(w) <= t.requests[|w.requests|].at))
      && (e.Blocked? ==> e.now + c.cooldown <= BlockedUntil(t))
  {}

  ghost predicate NoneBefore(rs: seq<Request>, from: nat, until: int) {
    forall i | from <= i < |rs| :: until <= rs[i].at
  }

  /** Once a block has set a cooldown, no request of the rest of the run falls before its end. */
  lemma {:induction false} NoRequestDuringCooldown(c: Config, clock: int, events: seq<Event>, more: seq<Event>)
    requires ValidConfig(c) && After(c, clock, events).Some? && After(c, clock, events + more).Some?
    requires var w := After(c, clock, events).value; w.file.Some? && w.file.value.blockedUntil.Some?
    ensures var w, t := After(c, clock, events).value, After(c, clock, events + more).value;
      && t.file.Some? && t.file.value.blockedUntil.Some? && BlockedUntil(w) <= BlockedUntil(t)
      && w.requests <= t.requests && NoneBefore(t.requests, |w.requests|, BlockedUntil(w))
  {
    if more == [] {
      assert events + more == events;
    } else {
      var init := more[..|more| - 1];
      assert (events + more)[..|events + more| - 1] == events + init;
      NoRequestDuringCooldown(c, clock, events, init);
      RunKeepsInv(c, clock, events + init);
      CooldownHolds(c, After(c, clock, events + init).value, more[|more| - 1]);
    }
  }

  /** The extra request is real: with a budget of two, three requests can be stamped on day one. */
  lemma BudgetPlusOne()
    ensures var c := Config(10, 10, 2, 2, Second);
      var events := [Ask(Day - 10, 10, Day - 10), Ask(Day - 5, 10, Day), NewRun,
                     Ask(Day + 10, 10, Day + 10), Ask(Day + 20, 10, Day + 20)];
      && ValidConfig(c) && After(c, 0, events).Some?
      && Stamped(After(c, 0, events).value.requests, 1) == c.daily + 1
  {
    var c := Config(10, 10, 2, 2, Second);
    var e1, e2 := Ask(Day - 10, 10, Day - 10), Ask(Day - 5, 10, Day);
    var e3, e4 := Ask(Day + 10, 10, Day + 10), Ask(Day + 20, 10, Day + 20);
    var w1 := Next(c, Start(0), e1);
    var w2 := Next(c, w1, e2);
    var w3 := Next(c, w2, NewRun);
    var w4 := Next(c, w3, e3);
    var w5 := Next(c, w4, e4);
    assert [e1][..0] == [];
    assert After(c, 0, [e1]) == Some(w1);
    assert [e1, e2][..1] == [e1];
    assert After(c, 0, [e1, e2]) == Some(w2);
    assert [e1, e2, NewRun][..2] == [e1, e2];
    assert After(c, 0, [e1, e2, NewRun]) == Some(w3);
    assert [e1, e2, NewRun, e3][..3] == [e1, e2, NewRun];
    assert After(c, 0, [e1, e2, NewRun, e3]) == Some(w4);
    assert [e1, e2, NewRun, e3, e4][..4] == [e1, e2, NewRun, e3];
    assert After(c, 0, [e1, e2, NewRun, e3, e4]) == Some(w5);
    var rs := w5.requests;
    assert rs == [Request(Day - 10, 0), Request(Day, 0), Request(Day + 10, 1), Request(Day + 20, 1)];
    assert rs[..3] == [Request(Day - 10, 0), Request(Day, 0), Request(Day + 10, 1)];
    assert rs[..3][..2] == [Request(Day - 10, 0), Request(Day, 0)];
    assert rs[..3][..2][..1] == [Request(Day - 10, 0)];
    assert Stamped(rs[..3][..2][..1], 1) == 0;
    assert Stamped(rs[..3][..2], 1) == 1;
    assert Stamped(rs[..3], 1) == 2;
  }
}
