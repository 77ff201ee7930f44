/** The trailing stop and the exit decision (joker/execution/exit_manager.py). */
module ExitManager {
  import opened Options

  datatype Config = Config(
    eodSecond: int,
    activate: real,
    giveback: real,
    tightenMinutes: real,
    floorPct: real)

  /** 15:55, 35 % gain to activate, 20 % giveback, 45 minutes, 35 % floor. */
  const DEFAULTS := Config(57_300, 0.35, 0.20, 45.0, 0.35)

  datatype Trade = Trade(
    entry: real,
    stop: real,
    takeProfit: real,
    entryTime: int,
    timeStopMinutes: Option<int>,
    invalidated: bool,
    peak: Option<real>,
    trailActive: bool,
    trailStop: Option<real>)

  datatype Reason = Invalidation | StopLoss | TakeProfit | TimeStop | EndOfDay

  function Max(a: real, b: real): real { if a >= b then a else b }

  /** Local second of the day of an instant in local seconds. */
  function SecondOfDay(t: int): int { t % 86_400 }
  function MinuteOfDay(t: int): int { SecondOfDay(t) / 60 }

  /** The favourable excursion has reached the activation share of the entry. */
  predicate Reached(cfg: Config, entry: real, peak: real) {
    entry > 0.0 && (peak - entry) / entry >= cfg.activate
  }

  function Trail(cfg: Config, peak: real): real {
    Scaled(peak, 1.0 - cfg.giveback)
  }

  function Scaled(amount: real, share: real): real {
    amount * share
  }

  /** Never loosens: the candidate counts only above what is already there. */
  function Ratchet(trail: Option<real>, candidate: real): Option<real> {
    if trail.None? || candidate > trail.value then Some(candidate) else trail
  }

  function UpdateTrailing(cfg: Config, ctx: Trade, premium: real): Trade {
    var peak := Max(ctx.peak.GetOr(ctx.entry), premium);
    if Reached(cfg, ctx.entry, peak) then
      ctx.(peak := Some(peak), trailActive := true,
           trailStop := Ratchet(ctx.trailStop, Max(ctx.stop, Trail(cfg, peak))))
    else ctx.(peak := Some(peak))
  }

  function EffectiveStop(cfg: Config, ctx: Trade, now: int): real {
    var trailed := if ctx.trailActive && ctx.trailStop.Some? then Max(ctx.stop, ctx.trailStop.value) else ctx.stop;
    var minutesToClose := (960 - MinuteOfDay(now)) as real;
    if 0.0 <= minutesToClose <= cfg.tightenMinutes && ctx.entry > 0.0
    then Max(trailed, ctx.entry * (1.0 - cfg.floorPct))
    else trailed
  }

  function CheckExit(cfg: Config, ctx: Trade, premium: real, now: int): Option<Reason> {
    if ctx.invalidated then Some(Invalidation)
    else if premium <= EffectiveStop(cfg, ctx, now) then Some(StopLoss)
    else if premium >= ctx.takeProfit then Some(TakeProfit)
    else if ctx.timeStopMinutes.Some? && (now - ctx.entryTime) as real / 60.0 >= ctx.timeStopMinutes.value as real
    then Some(TimeStop)
    else if SecondOfDay(now) >= cfg.eodSecond then Some(EndOfDay)
    else None
  }

  // ---- which reason, and which stop -------------------------------------------------------------

  /** Neither invalidated, nor at or below the stop, nor at or above the target. */
  predicate Running(cfg: Config, ctx: Trade, premium: real, now: int) {
    !ctx.invalidated && EffectiveStop(cfg, ctx, now) < premium < ctx.takeProfit
  }

  /** The trade has been held for its minutes: sixty seconds each, counted from the entry. */
  predicate HeldItsMinutes(ctx: Trade, now: int) {
    ctx.timeStopMinutes.Some? && now - ctx.entryTime >= 60 * ctx.timeStopMinutes.value
  }

  /** Each reason, exactly: the earlier ones in the list take precedence, and no reason means to hold on. */
  lemma ReasonExactly(cfg: Config, ctx: Trade, premium: real, now: int)
    ensures var reason, stop := CheckExit(cfg, ctx, premium, now), EffectiveStop(cfg, ctx, now);
      && (reason == Some(Invalidation) <==> ctx.invalidated)
      && (reason == Some(StopLoss) <==> !ctx.invalidated && premium <= stop)
      && (reason == Some(TakeProfit) <==> !ctx.invalidated && stop < premium && ctx.takeProfit <= premium)
      && (reason == Some(TimeStop) <==> Running(cfg, ctx, premium, now) && HeldItsMinutes(ctx, now))
      && (reason == Some(EndOfDay) <==>
            Running(cfg, ctx, premium, now) && !HeldItsMinutes(ctx, now) && SecondOfDay(now) >= cfg.eodSecond)
      && (reason == None <==>
            Running(cfg, ctx, premium, now) && !HeldItsMinutes(ctx, now) && SecondOfDay(now) < cfg.eodSecond)
  {
    if ctx.timeStopMinutes.Some? {
      MinutesAndSeconds(now - ctx.entryTime, ctx.timeStopMinutes.value);
    }
  }

  lemma MinutesAndSeconds(elapsed: int, minutes: int)
    ensures elapsed as real / 60.0 >= minutes as real <==> elapsed >= 60 * minutes
  {
  }

  /** The three levels a stop may be at, each where it is in force. */
  ghost predicate InForce(cfg: Config, ctx: Trade, now: int, level: real) {
    || level == ctx.stop
    || (ctx.trailActive && ctx.trailStop == Some(level))
    || (ctx.entry > 0.0 && InLateDay(cfg, now) && level == ctx.entry * (1.0 - cfg.floorPct))
  }

  /** Within the last minutes up to 16:00:59, counting whole minutes. */
  predicate InLateDay(cfg: Config, now: int) {
    SecondOfDay(now) <= 57_659 && (MinuteOfDay(now) as real) >= 960.0 - cfg.tightenMinutes
  }

  /** The effective stop is the highest level in force. */
  lemma StopIsTheHighestInForce(cfg: Config, ctx: Trade, now: int)
    ensures InForce(cfg, ctx, now, EffectiveStop(cfg, ctx, now))
    ensures forall level :: InForce(cfg, ctx, now, level) ==> level <= EffectiveStop(cfg, ctx, now)
  {
  }

  // ---- a path of premiums ---------------------------------------------------------------------

  function After(cfg: Config, ctx: Trade, path: seq<real>): Trade {
    if path == [] then ctx else UpdateTrailing(cfg, After(cfg, ctx, path[..|path| - 1]), path[|path| - 1])
  }

  function Peak(entry: real, path: seq<real>): real {
    if path == [] then entry else Max(Peak(entry, path[..|path| - 1]), path[|path| - 1])
  }

  predicate Fresh(ctx: Trade) {
    ctx.peak.None? && !ctx.trailActive && ctx.trailStop.None?
  }

  /** The peak is at least (1 + activation) times the entry. */
  predicate Activated(cfg: Config, entry: real, peak: real) {
    entry > 0.0 && peak >= (1.0 + cfg.activate) * entry
  }

  /** The state a path with this peak should leave. */
  function AtPeak(cfg: Config, ctx: Trade, peak: real): Trade {
    var active := Activated(cfg, ctx.entry, peak);
    ctx.(peak := Some(peak), trailActive := active,
         trailStop := if active then Some(Max(ctx.stop, Trail(cfg, peak))) else None)
  }

  /** The state the whole path should leave, without looking at its steps. */
  function ClosedForm(cfg: Config, ctx: Trade, path: seq<real>): Trade {
    AtPeak(cfg, ctx, Peak(ctx.entry, path))
  }

  lemma ScaleLe(x: real, y: real, n: real)
    requires x <= y && n >= 0.0
    ensures x * n <= y * n
  {
  }

  lemma ScaleLt(x: real, y: real, n: real)
    requires x < y && n > 0.0
    ensures x * n < y * n
  {
  }

  lemma ShareOfEntry(entry: real, gain: real, share: real, a: real)
    requires entry > 0.0 && share * entry == gain
    ensures share >= a <==> gain >= a * entry
  {
    if share >= a {
      ScaleLe(a, share, entry);
    } else {
      ScaleLt(share, a, entry);
    }
  }

  lemma DivideBack(gain: real, entry: real)
    requires entry > 0.0
    ensures gain / entry * entry == gain
  {
  }

  lemma GainAgainstThreshold(entry: real, gain: real, a: real)
    requires entry > 0.0
    ensures gain / entry >= a <==> gain >= a * entry
  {
    DivideBack(gain, entry);
    ShareOfEntry(entry, gain, gain / entry, a);
  }

  lemma ReachedIsActivated(cfg: Config, entry: real, peak: real)
    ensures Reached(cfg, entry, peak) <==> Activated(cfg, entry, peak)
  {
    if entry > 0.0 {
      GainAgainstThreshold(entry, peak - entry, cfg.activate);
      assert (1.0 + cfg.activate) * entry == entry + cfg.activate * entry;
    }
  }

  lemma TrailRises(cfg: Config, p: real, q: real)
    requires p <= q && cfg.giveback <= 1.0
    ensures Trail(cfg, p) <= Trail(cfg, q)
  {
    ScaleLe(p, q, 1.0 - cfg.giveback);
  }

  lemma ActivatedStays(cfg: Config, entry: real, p: real, q: real)
    requires p <= q && Activated(cfg, entry, p)
    ensures Activated(cfg, entry, q)
  {
  }

  /** One update takes the closed form at one peak to the closed form at the next. */
  lemma UpdateFollowsPeak(cfg: Config, ctx: Trade, was: real, premium: real)
    requires cfg.giveback <= 1.0 && Fresh(ctx)
    ensures UpdateTrailing(cfg, AtPeak(cfg, ctx, was), premium) == AtPeak(cfg, ctx, Max(was, premium))
  {
    var peak := Max(was, premium);
    ReachedIsActivated(cfg, ctx.entry, peak);
    TrailRises(cfg, was, peak);
    if Activated(cfg, ctx.entry, was) {
      ActivatedStays(cfg, ctx.entry, was, peak);
      RatchetTakesLarger(ctx.stop, Trail(cfg, was), Trail(cfg, peak));
    }
  }

  lemma RatchetTakesLarger(stop: real, a: real, b: real)
    requires a <= b
    ensures Ratchet(Some(Max(stop, a)), Max(stop, b)) == Some(Max(stop, b))
  {
  }

  lemma FirstUpdate(cfg: Config, ctx: Trade, premium: real)
    requires Fresh(ctx)
    ensures UpdateTrailing(cfg, ctx, premium) == AtPeak(cfg, ctx, Max(ctx.entry, premium))
  {
    ReachedIsActivated(cfg, ctx.entry, Max(ctx.entry, premium));
  }

  /** With a giveback of at most everything, stepping along the path is the closed form. */
  lemma {:induction false} TrailingIsClosedForm(cfg: Config, ctx: Trade, path: seq<real>)
    requires cfg.giveback <= 1.0 && Fresh(ctx) && path != []
    ensures After(cfg, ctx, path) == ClosedForm(cfg, ctx, path)
  {
    var front, premium := path[..|path| - 1], path[|path| - 1];
    if front == [] {
      assert After(cfg, ctx, front) == ctx && Peak(ctx.entry, front) == ctx.entry;
      FirstUpdate(cfg, ctx, premium);
    } else {
      TrailingIsClosedForm(cfg, ctx, front);
      UpdateFollowsPeak(cfg, ctx, Peak(ctx.entry, front), premium);
    }
  }

  /** The closed form is right for every trade and path exactly when the giveback is at most one. */
  lemma ClosedFormExactly(cfg: Config)
    ensures cfg.giveback <= 1.0 <==>
      forall ctx, path :: Fresh(ctx) && path != [] ==> After(cfg, ctx, path) == ClosedForm(cfg, ctx, path)
  {
    if cfg.giveback <= 1.0 {
      forall ctx, path | Fresh(ctx) && path != [] ensures After(cfg, ctx, path) == ClosedForm(cfg, ctx, path) {
        TrailingIsClosedForm(cfg, ctx, path);
      }
    } else {
      var x := Max(1.0 + cfg.activate, 1.0);
      var ctx := Trade(1.0, Trail(cfg, x + 1.0) - 1.0, 0.0, 0, None, false, None, false, None);
      RatchetOutlivesClosedForm(cfg, ctx, x, x + 1.0);
      assert Fresh(ctx) && [x, x + 1.0] != [];
    }
  }

  lemma ScaleDown(x: real, y: real, m: real)
    requires x < y && m < 0.0
    ensures Scaled(y, m) < Scaled(x, m)
  {
    ScaleLt(x, y, -m);
    assert x * -m == -(x * m);
    assert y * -m == -(y * m);
  }

  lemma TrailFalls(cfg: Config, x: real, y: real)
    requires x < y && cfg.giveback > 1.0
    ensures Trail(cfg, y) < Trail(cfg, x)
  {
    ScaleDown(x, y, 1.0 - cfg.giveback);
  }

  /** With more than everything given back, a higher peak would lower the trail; the ratchet keeps it. */
  lemma RatchetOutlivesClosedForm(cfg: Config, ctx: Trade, x: real, y: real)
    requires cfg.giveback > 1.0 && Fresh(ctx) && ctx.entry == 1.0
    requires x >= 1.0 + cfg.activate && x >= 1.0 && y > x && ctx.stop < Trail(cfg, y)
    ensures After(cfg, ctx, [x, y]) != ClosedForm(cfg, ctx, [x, y])
  {
    assert [x, y][..1] == [x] && [x][..0] == [];
    assert After(cfg, ctx, [x]) == UpdateTrailing(cfg, ctx, x);
    assert After(cfg, ctx, [x, y]) == UpdateTrailing(cfg, After(cfg, ctx, [x]), y);
    assert Peak(1.0, [x]) == Max(Peak(1.0, []), x) == x;
    assert Peak(1.0, [x, y]) == Max(Peak(1.0, [x]), y) == y;
    FirstUpdate(cfg, ctx, x);
    ReachedIsActivated(cfg, 1.0, y);
    TrailFalls(cfg, x, y);
    assert Activated(cfg, 1.0, x) && Activated(cfg, 1.0, y);
    RatchetKeeps(ctx.stop, Trail(cfg, x), Trail(cfg, y));
  }

  lemma RatchetKeeps(stop: real, a: real, b: real)
    requires stop < b < a
    ensures Ratchet(Some(Max(stop, a)), Max(stop, b)) == Some(a) != Some(Max(stop, b))
  {
  }

  /** Once the trail is active it locks in the activation gain less the giveback. */
  lemma ActiveTrailLocksGain(cfg: Config, ctx: Trade, path: seq<real>, now: int)
    requires cfg.giveback <= 1.0 && Fresh(ctx) && After(cfg, ctx, path).trailActive
    ensures EffectiveStop(cfg, After(cfg, ctx, path), now) >= Trail(cfg, (1.0 + cfg.activate) * ctx.entry)
  {
    TrailingIsClosedForm(cfg, ctx, path);
    LockedAtPeak(cfg, ctx, Peak(ctx.entry, path));
    StopCoversTrail(cfg, After(cfg, ctx, path), now);
  }

  lemma LockedAtPeak(cfg: Config, ctx: Trade, peak: real)
    requires cfg.giveback <= 1.0 && AtPeak(cfg, ctx, peak).trailActive
    ensures AtPeak(cfg, ctx, peak).trailStop.Some?
    ensures AtPeak(cfg, ctx, peak).trailStop.value >= Trail(cfg, (1.0 + cfg.activate) * ctx.entry)
  {
    TrailRises(cfg, (1.0 + cfg.activate) * ctx.entry, peak);
  }

  lemma StopCoversTrail(cfg: Config, ctx: Trade, now: int)
    requires ctx.trailActive && ctx.trailStop.Some?
    ensures EffectiveStop(cfg, ctx, now) >= ctx.trailStop.value
  {
  }

  // ---- the stop over a day ---------------------------------------------------------------------------

  /** `later` is an update or more after `earlier`: same trade, a trail that has not loosened. */
  predicate Tightened(earlier: Trade, later: Trade) {
    && later == earlier.(peak := later.peak, trailActive := later.trailActive, trailStop := later.trailStop)
    && (earlier.trailActive ==> later.trailActive)
    && (earlier.trailStop.Some? ==> later.trailStop.Some? && later.trailStop.value >= earlier.trailStop.value)
  }

  lemma {:induction false} UpdatesOnlyTighten(cfg: Config, ctx: Trade, path: seq<real>, more: seq<real>)
    ensures Tightened(After(cfg, ctx, path), After(cfg, ctx, path + more))
    decreases |more|
  {
    if more == [] {
      assert path + more == path;
    } else {
      var n := |more| - 1;
      assert (path + more)[..|path + more| - 1] == path + more[..n];
      UpdatesOnlyTighten(cfg, ctx, path, more[..n]);
    }
  }

  lemma StopFollowsTrail(cfg: Config, earlier: Trade, later: Trade, t: int, t': int)
    requires Tightened(earlier, later)
    requires 0 <= SecondOfDay(t) <= SecondOfDay(t') && MinuteOfDay(t') <= 960
    ensures EffectiveStop(cfg, earlier, t) <= EffectiveStop(cfg, later, t')
  {
    assert MinuteOfDay(t) <= MinuteOfDay(t');
  }

  /**
   Within one day and up to 16:00 the effective stop never falls, whatever the premiums do and
   whatever the configuration: later updates and later minutes only raise it.
   */
  lemma EffectiveStopNeverFalls(cfg: Config, ctx: Trade, path: seq<real>, more: seq<real>, t: int, t': int)
    requires 0 <= SecondOfDay(t) <= SecondOfDay(t') && MinuteOfDay(t') <= 960
    ensures EffectiveStop(cfg, After(cfg, ctx, path), t) <= EffectiveStop(cfg, After(cfg, ctx, path + more), t')
  {
    UpdatesOnlyTighten(cfg, ctx, path, more);
    StopFollowsTrail(cfg, After(cfg, ctx, path), After(cfg, ctx, path + more), t, t');
  }

  /** From the end-of-day time on, every check exits. */
  lemma EndOfDayAlwaysExits(cfg: Config, ctx: Trade, premium: real, now: int)
    requires SecondOfDay(now) >= cfg.eodSecond
    ensures CheckExit(cfg, ctx, premium, now).Some?
  {
  }

  /**
   The late-day floor is dropped after 16:00, so the stop can fall while a position is still
   held unless every check after that minute exits or the floor never counts.
   */
  predicate FloorOutlastsTheDay(cfg: Config) {
    cfg.eodSecond <= 57_660 || cfg.tightenMinutes < 0.0
  }

  /** Before the end-of-day time of such a manager the stop never falls. */
  lemma StopNeverFallsBeforeEnd(cfg: Config, ctx: Trade, path: seq<real>, more: seq<real>, t: int, t': int)
    requires FloorOutlastsTheDay(cfg) && SecondOfDay(t) <= SecondOfDay(t') < cfg.eodSecond
    ensures EffectiveStop(cfg, After(cfg, ctx, path), t) <= EffectiveStop(cfg, After(cfg, ctx, path + more), t')
  {
    if MinuteOfDay(t') <= 960 {
      EffectiveStopNeverFalls(cfg, ctx, path, more, t, t');
    } else {
      UpdatesOnlyTighten(cfg, ctx, path, more);
    }
  }

  /** A position still held is above every stop it has had that day, however the premium moved. */
  lemma {:induction false} HeldIsAboveEveryEarlierStop(cfg: Config, ctx: Trade, path: seq<real>, more: seq<real>,
                                                       premium: real, t: int, t': int)
    requires FloorOutlastsTheDay(cfg) && SecondOfDay(t) <= SecondOfDay(t')
    requires CheckExit(cfg, After(cfg, ctx, path + more), premium, t').None?
    ensures premium > EffectiveStop(cfg, After(cfg, ctx, path), t)
    ensures premium < ctx.takeProfit && SecondOfDay(t') < cfg.eodSecond
  {
    UpdatesKeepTerms(cfg, ctx, path + more);
    HeldMeans(cfg, After(cfg, ctx, path + more), premium, t');
    StopNeverFallsBeforeEnd(cfg, ctx, path, more, t, t');
  }

  /** The stop in force at `t` still stands at `t'`. */
  predicate StopStands(cfg: Config, ctx: Trade, path: seq<real>, more: seq<real>, t: int, t': int) {
    SecondOfDay(t) <= SecondOfDay(t') < cfg.eodSecond ==>
      EffectiveStop(cfg, After(cfg, ctx, path), t) <= EffectiveStop(cfg, After(cfg, ctx, path + more), t')
  }

  /** If the position is held at `t'`, its premium is above the stop it had at `t`. */
  predicate HeldAbove(cfg: Config, ctx: Trade, path: seq<real>, more: seq<real>, premium: real, t: int, t': int) {
    SecondOfDay(t) <= SecondOfDay(t') && CheckExit(cfg, After(cfg, ctx, path + more), premium, t').None? ==>
      premium > EffectiveStop(cfg, After(cfg, ctx, path), t)
  }

  /** Both hold for every trade, path and time exactly when the floor outlasts the day. */
  lemma LateDayExactly(cfg: Config)
    ensures FloorOutlastsTheDay(cfg) <==>
      forall ctx, path, more, t, t' :: StopStands(cfg, ctx, path, more, t, t')
    ensures FloorOutlastsTheDay(cfg) <==>
      forall ctx, path, more, premium, t, t' :: HeldAbove(cfg, ctx, path, more, premium, t, t')
  {
    if FloorOutlastsTheDay(cfg) {
      forall ctx, path, more, t, t' ensures StopStands(cfg, ctx, path, more, t, t') {
        if SecondOfDay(t) <= SecondOfDay(t') < cfg.eodSecond {
          StopNeverFallsBeforeEnd(cfg, ctx, path, more, t, t');
        }
      }
      forall ctx, path, more, premium, t, t' ensures HeldAbove(cfg, ctx, path, more, premium, t, t') {
        if SecondOfDay(t) <= SecondOfDay(t') && CheckExit(cfg, After(cfg, ctx, path + more), premium, t').None? {
          HeldIsAboveEveryEarlierStop(cfg, ctx, path, more, premium, t, t');
        }
      }
    } else {
      var floor := 1.0 - cfg.floorPct;
      var ctx := Trade(1.0, floor - 2.0, floor, 0, None, false, None, false, None);
      StopFallsAfterFour(cfg, ctx, floor - 1.0);
    }
  }

  /** At 16:00 the floor is in force, a minute later it is not, and a premium below it is held. */
  lemma StopFallsAfterFour(cfg: Config, ctx: Trade, premium: real)
    requires !FloorOutlastsTheDay(cfg)
    requires ctx.entry > 0.0 && Fresh(ctx) && !ctx.invalidated && ctx.timeStopMinutes.None?
    requires ctx.stop < premium < ctx.entry * (1.0 - cfg.floorPct) && premium < ctx.takeProfit
    ensures EffectiveStop(cfg, ctx, 57_600) > premium > EffectiveStop(cfg, ctx, 57_660)
    ensures CheckExit(cfg, ctx, premium, 57_660).None?
    ensures !StopStands(cfg, ctx, [], [], 57_600, 57_660)
    ensures !HeldAbove(cfg, ctx, [], [], premium, 57_600, 57_660)
  {
    assert After(cfg, ctx, []) == ctx;
  }

  /** The default settings end the day in time; with its end put at 16:06:40, a stop of 65 falls back to 50. */
  lemma DefaultsAndALaterEnd() returns (late: Config, ctx: Trade)
    ensures FloorOutlastsTheDay(DEFAULTS)
    ensures late == DEFAULTS.(eodSecond := 58_000)
    ensures EffectiveStop(late, ctx, 57_600) == 65.0 && EffectiveStop(late, ctx, 57_660) == 50.0
    ensures CheckExit(late, ctx, 60.0, 57_600) == Some(StopLoss) && CheckExit(late, ctx, 60.0, 57_660) == None
  {
    late := DEFAULTS.(eodSecond := 58_000);
    ctx := Trade(100.0, 50.0, 200.0, 50_000, None, false, None, false, None);
  }

  lemma HeldMeans(cfg: Config, ctx: Trade, premium: real, now: int)
    requires CheckExit(cfg, ctx, premium, now).None?
    ensures premium > EffectiveStop(cfg, ctx, now) && premium < ctx.takeProfit
    ensures SecondOfDay(now) < cfg.eodSecond && !ctx.invalidated
  {
  }

  lemma {:induction false} UpdatesKeepTerms(cfg: Config, ctx: Trade, path: seq<real>)
    ensures var after := After(cfg, ctx, path);
      after == ctx.(peak := after.peak, trailActive := after.trailActive, trailStop := after.trailStop)
  {
    if path != [] {
      UpdatesKeepTerms(cfg, ctx, path[..|path| - 1]);
    }
  }
}
