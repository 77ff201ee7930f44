/** The five-minute bars dominate the one-minute bars built beside them. */
module BarDominance {
  import opened Options
  import opened Bars
  import opened BarConservation

  // ---- what is asked of the feed -----------------------------------------------------------------

  /** Every observation is received strictly after every earlier close reference. */
  ghost predicate ReceivedAfterCloses(cs: seq<Command>) {
    forall i, j :: 0 <= i < j < |cs| && cs[i].Close? && cs[j].Ingest? ==> cs[j].observation.received > cs[i].now
  }

  /** An id fixes its source and received times. */
  ghost predicate IdsFixTimes(cs: seq<Command>) {
    forall i, j :: 0 <= i < |cs| && 0 <= j < |cs| && cs[i].Ingest? && cs[j].Ingest? ==>
      cs[i].observation.id == cs[j].observation.id ==>
        cs[i].observation.source == cs[j].observation.source && cs[i].observation.received == cs[j].observation.received
  }

  ghost predicate OrderlyFeed(cs: seq<Command>) {
    ReceivedAfterCloses(cs) && IdsFixTimes(cs)
  }

  // ---- intervals nest ----------------------------------------------------------------------------

  lemma IntervalsNest(ts: int)
    ensures FloorToInterval(ts, M5) <= FloorToInterval(ts, M1) <= ts
    ensures IntervalEnd(FloorToInterval(ts, M1), M1) <= IntervalEnd(FloorToInterval(ts, M5), M5)
    ensures FloorToInterval(FloorToInterval(ts, M1), M5) == FloorToInterval(ts, M5)
  {
    var m := ts / 60_000_000;
    assert FloorToInterval(ts, M1) == 60_000_000 * m;
    var f := ts / 300_000_000;
    assert FloorToInterval(ts, M5) == 300_000_000 * f;
    assert 5 * f <= m < 5 * f + 5;
    assert (60_000_000 * m) / 300_000_000 == f;
  }

  // ---- the link between the two timeframes ---------------------------------------------------------

  /** Every emitted interval was ready at some close, and every assigned id was ingested. */
  ghost predicate Caused(st: BarState, cs: seq<Command>, tolerance: int) {
    && (forall k :: k in st.emitted ==> exists c :: c in cs && c.Close? && Ready(k, c.now, tolerance))
    && (forall p :: p in st.assignedObs ==> exists c :: c in cs && c.Ingest? && c.observation.id == p.0)
  }

  predicate FiveOnly(st: BarState, id: nat) {
    (id, M5) in st.assignedObs && (id, M1) !in st.assignedObs
  }

  /** What one minute accepted, five minutes did too; the converse fails only for the late. */
  ghost predicate Linked(st: BarState, cs: seq<Command>, tolerance: int) {
    && (forall id :: (id, M1) in st.assignedObs ==> (id, M5) in st.assignedObs)
    && (forall c :: c in cs && c.Ingest? && FiveOnly(st, c.observation.id) ==> TooLate(c.observation, M1, tolerance))
  }

  lemma ApplyEffects(st: BarState, o: Observation, tf: Timeframe, volume: int, tolerance: int)
    ensures var st' := ApplyTo(st, o, tf, volume, tolerance);
      && st'.emitted == st.emitted
      && st'.assignedObs == (if Accepts(st, o, tf, tolerance) then st.assignedObs + {(o.id, tf)} else st.assignedObs)
  {
  }

  /** The one-minute step does not disturb the five-minute decision. */
  lemma IngestEffects(st: BarState, o: Observation, tolerance: int)
    ensures var st', volume := Ingested(st, o, tolerance), VolumeOf(st, o);
      var one := Contributes(o, volume) && Accepts(st, o, M1, tolerance);
      var five := Contributes(o, volume) && Accepts(st, o, M5, tolerance);
      && st'.emitted == st.emitted
      && st'.assignedObs == st.assignedObs + (if one then {(o.id, M1)} else {}) + (if five then {(o.id, M5)} else {})
      && IngestedEntries(st, o, tolerance)
         == (if one then [EntryOf(o, M1, volume)] else []) + (if five then [EntryOf(o, M5, volume)] else [])
  {
    var volume, counted := VolumeOf(st, o), AfterVolume(st, o);
    if Contributes(o, volume) {
      BothEffects(counted, o, volume, tolerance, ApplyTo(counted, o, M1, volume, tolerance));
    }
  }

  lemma BothEffects(st: BarState, o: Observation, volume: int, tolerance: int, mid: BarState)
    requires mid == ApplyTo(st, o, M1, volume, tolerance)
    ensures var st' := ApplyTo(mid, o, M5, volume, tolerance);
      && st'.emitted == st.emitted
      && (Accepts(mid, o, M5, tolerance) <==> Accepts(st, o, M5, tolerance))
      && st'.assignedObs == st.assignedObs + (if Accepts(st, o, M1, tolerance) then {(o.id, M1)} else {})
                                           + (if Accepts(st, o, M5, tolerance) then {(o.id, M5)} else {})
  {
    ApplyEffects(st, o, M1, volume, tolerance);
    ApplyEffects(mid, o, M5, volume, tolerance);
  }

  /** In an orderly feed, what one minute accepts five minutes accepts. */
  lemma OneImpliesFive(st: BarState, cs: seq<Command>, o: Observation, tolerance: int)
    requires Caused(st, cs, tolerance) && Linked(st, cs, tolerance) && OrderlyFeed(cs + [Ingest(o)])
    requires Accepts(st, o, M1, tolerance)
    ensures Accepts(st, o, M5, tolerance)
  {
    IntervalsNest(o.source);
    ReceivedLast(cs, o);
    SameTimesAsBefore(cs, o);
    assert KeyOf(o, M5) !in st.emitted;
    assert (o.id, M5) !in st.assignedObs;
  }

  /** The feed's two demands, as they read for the observation that comes next. */
  lemma ReceivedLast(cs: seq<Command>, o: Observation)
    requires ReceivedAfterCloses(cs + [Ingest(o)])
    ensures forall c :: c in cs && c.Close? ==> o.received > c.now
  {
    var all := cs + [Ingest(o)];
    forall c | c in cs && c.Close? ensures o.received > c.now {
      var i :| 0 <= i < |cs| && cs[i] == c;
      assert all[i] == c && all[|cs|] == Ingest(o);
    }
  }

  lemma SameTimesAsBefore(cs: seq<Command>, o: Observation)
    requires IdsFixTimes(cs + [Ingest(o)])
    ensures forall c :: c in cs && c.Ingest? && c.observation.id == o.id ==>
      c.observation.source == o.source && c.observation.received == o.received
  {
    forall c | c in cs && c.Ingest? && c.observation.id == o.id
      ensures c.observation.source == o.source && c.observation.received == o.received
    {
      SameTimes(cs, c, o);
    }
  }

  /** Where five minutes accepts and one does not, the observation came too late for the minute. */
  lemma FiveWithoutOneIsLate(st: BarState, cs: seq<Command>, o: Observation, tolerance: int)
    requires Caused(st, cs, tolerance) && Linked(st, cs, tolerance) && OrderlyFeed(cs + [Ingest(o)])
    requires Accepts(st, o, M5, tolerance) && !Accepts(st, o, M1, tolerance)
    ensures TooLate(o, M1, tolerance)
  {
    ReceivedLast(cs, o);
  }

  lemma IngestKeepsLink(st: BarState, cs: seq<Command>, o: Observation, tolerance: int)
    requires Caused(st, cs, tolerance) && Linked(st, cs, tolerance) && OrderlyFeed(cs + [Ingest(o)])
    ensures Linked(Ingested(st, o, tolerance), cs + [Ingest(o)], tolerance)
  {
    IngestEffects(st, o, tolerance);
    if Accepts(st, o, M1, tolerance) {
      OneImpliesFive(st, cs, o, tolerance);
    } else if Accepts(st, o, M5, tolerance) {
      FiveWithoutOneIsLate(st, cs, o, tolerance);
    }
    var st', all := Ingested(st, o, tolerance), cs + [Ingest(o)];
    assert all[|cs|] == Ingest(o);
    forall c | c in all && c.Ingest? && FiveOnly(st', c.observation.id)
      ensures TooLate(c.observation, M1, tolerance)
    {
      if c.observation.id == o.id {
        SameTimes(cs, c, o);
        if (o.id, M5) in st.assignedObs {
          var d :| d in cs && d.Ingest? && d.observation.id == o.id;
          SameTimes(cs, d, o);
        }
      } else {
        assert c in cs;
      }
    }
  }

  lemma SameTimes(cs: seq<Command>, c: Command, o: Observation)
    requires IdsFixTimes(cs + [Ingest(o)]) && c in cs + [Ingest(o)] && c.Ingest? && c.observation.id == o.id
    ensures c.observation.source == o.source && c.observation.received == o.received
  {
    var all := cs + [Ingest(o)];
    var i :| 0 <= i < |all| && all[i] == c;
    assert all[|cs|] == Ingest(o);
  }

  lemma IngestKeepsCause(st: BarState, cs: seq<Command>, o: Observation, tolerance: int)
    requires Caused(st, cs, tolerance)
    ensures Caused(Ingested(st, o, tolerance), cs + [Ingest(o)], tolerance)
  {
    IngestEffects(st, o, tolerance);
    var st', all := Ingested(st, o, tolerance), cs + [Ingest(o)];
    assert all[|cs|] == Ingest(o) && Ingest(o) in all;
    forall k | k in st'.emitted ensures exists c :: c in all && c.Close? && Ready(k, c.now, tolerance) {
      var c :| c in cs && c.Close? && Ready(k, c.now, tolerance);
      assert c in all;
    }
    forall p | p in st'.assignedObs ensures exists c :: c in all && c.Ingest? && c.observation.id == p.0 {
      if p in st.assignedObs {
        var c :| c in cs && c.Ingest? && c.observation.id == p.0;
        assert c in all;
      }
    }
  }

  lemma CloseKeepsBoth(st: BarState, cs: seq<Command>, now: int, tolerance: int)
    requires WellOrdered(st) && Caused(st, cs, tolerance) && Linked(st, cs, tolerance)
    ensures Caused(Closed(st, now, tolerance), cs + [Close(now)], tolerance)
    ensures Linked(Closed(st, now, tolerance), cs + [Close(now)], tolerance)
  {
    CloseFacts(st, now, tolerance);
    var st', all := Closed(st, now, tolerance), cs + [Close(now)];
    assert all[|cs|] == Close(now) && Close(now) in all;
    forall k | k in st'.emitted ensures exists c :: c in all && c.Close? && Ready(k, c.now, tolerance) {
      if k in st.emitted {
        var c :| c in cs && c.Close? && Ready(k, c.now, tolerance);
        assert c in all;
      } else {
        assert Ready(k, Close(now).now, tolerance);
      }
    }
    forall p | p in st'.assignedObs ensures exists c :: c in all && c.Ingest? && c.observation.id == p.0 {
      var c :| c in cs && c.Ingest? && c.observation.id == p.0;
      assert c in all;
    }
  }

  lemma OrderlyPrefix(cs: seq<Command>)
    requires cs != [] && OrderlyFeed(cs)
    ensures OrderlyFeed(cs[..|cs| - 1])
  {
    var front := cs[..|cs| - 1];
    assert forall i :: 0 <= i < |front| ==> front[i] == cs[i];
  }

  lemma {:induction false} RunIsLinked(cs: seq<Command>, tolerance: int)
    requires OrderlyFeed(cs)
    ensures Caused(Run(cs, tolerance), cs, tolerance) && Linked(Run(cs, tolerance), cs, tolerance)
  {
    if cs != [] {
      var front, last := cs[..|cs| - 1], cs[|cs| - 1];
      assert cs == front + [last];
      OrderlyPrefix(cs);
      RunIsLinked(front, tolerance);
      match last {
        case Ingest(o) =>
          IngestKeepsCause(Run(front, tolerance), front, o, tolerance);
          IngestKeepsLink(Run(front, tolerance), front, o, tolerance);
        case Close(now) =>
          CloseKeepsBoth(Run(front, tolerance), front, now, tolerance);
      }
    }
  }

  // ---- volume and range ----------------------------------------------------------------------------

  function Minute(symbol: string, start: int, i: int): Key {
    Key(symbol, M1, start + 60_000_000 * i)
  }

  /** The volume of the first `n` one-minute bars of the five minutes from `start`. */
  function MinuteVolume(log: seq<Entry>, symbol: string, start: int, n: nat): int {
    if n == 0 then 0 else MinuteVolume(log, symbol, start, n - 1) + Summarise(log, Minute(symbol, start, n - 1)).volume
  }

  function Counted(volume: int): int {
    if volume > 0 then volume else 0
  }

  /** The minute's place within the five minutes from `start`, counted from there. */
  predicate Within(key: Key, symbol: string, start: int, n: nat) {
    exists i :: 0 <= i < n && key == Minute(symbol, start, i)
  }

  lemma {:induction false} MinuteVolumeGrows(log: seq<Entry>, e: Entry, symbol: string, start: int, n: nat)
    ensures MinuteVolume(log + [e], symbol, start, n)
      == MinuteVolume(log, symbol, start, n) + (if Within(e.key, symbol, start, n) then Counted(e.volume) else 0)
  {
    if n > 0 {
      MinuteVolumeGrows(log, e, symbol, start, n - 1);
      SummariseAppend(log, e, Minute(symbol, start, n - 1));
      assert Within(e.key, symbol, start, n)
        <==> Within(e.key, symbol, start, n - 1) || e.key == Minute(symbol, start, n - 1);
    }
  }

  lemma {:induction false} NoMinuteVolume(symbol: string, start: int, n: nat)
    ensures MinuteVolume([], symbol, start, n) == 0
  {
    if n > 0 {
      NoMinuteVolume(symbol, start, n - 1);
    }
  }

  lemma MinuteWithinFive(o: Observation, symbol: string, start: int)
    requires start % 300_000_000 == 0
    ensures Within(KeyOf(o, M1), symbol, start, 5) <==> KeyOf(o, M5) == Key(symbol, M5, start)
  {
    var m, f := o.source / 60_000_000, o.source / 300_000_000;
    assert FloorToInterval(o.source, M1) == 60_000_000 * m && FloorToInterval(o.source, M5) == 300_000_000 * f;
    assert 5 * f <= m < 5 * f + 5;
    var g := start / 300_000_000;
    assert start == 300_000_000 * g;
    if KeyOf(o, M5) == Key(symbol, M5, start) {
      assert f == g;
      assert KeyOf(o, M1) == Minute(symbol, start, m - 5 * f);
    }
    if Within(KeyOf(o, M1), symbol, start, 5) {
      var i :| 0 <= i < 5 && KeyOf(o, M1) == Minute(symbol, start, i);
      assert 60_000_000 * m == 300_000_000 * g + 60_000_000 * i;
      assert f == g;
    }
  }

  /** The five-minute bar covers a one-minute bar: it is priced, and its range is wider. */
  predicate Covers(five: Summary, one: Summary) {
    one.ticks > 0 ==> five.ticks > 0 && five.low <= one.low && one.high <= five.high
  }

  ghost predicate Dominates(log: seq<Entry>, symbol: string, start: int) {
    var five := Summarise(log, Key(symbol, M5, start));
    && five.volume >= MinuteVolume(log, symbol, start, 5)
    && (forall i :: 0 <= i < 5 ==> Covers(five, Summarise(log, Minute(symbol, start, i))))
  }

  lemma OtherKeysKeepDominance(log: seq<Entry>, e: Entry, symbol: string, start: int)
    requires Dominates(log, symbol, start)
    requires e.key.tf == M5
    ensures Dominates(log + [e], symbol, start)
  {
    MinuteVolumeGrows(log, e, symbol, start, 5);
    SummariseAppend(log, e, Key(symbol, M5, start));
    assert !Within(e.key, symbol, start, 5);
    forall i | 0 <= i < 5
      ensures Covers(Summarise(log + [e], Key(symbol, M5, start)), Summarise(log + [e], Minute(symbol, start, i)))
    {
      SummariseAppend(log, e, Minute(symbol, start, i));
      assert Covers(Summarise(log, Key(symbol, M5, start)), Summarise(log, Minute(symbol, start, i)));
    }
  }

  /** One observation entering both of its bars keeps the five-minute bar dominant. */
  lemma PairKeepsDominance(log: seq<Entry>, o: Observation, volume: int, symbol: string, start: int)
    requires Dominates(log, symbol, start) && start % 300_000_000 == 0
    ensures Dominates(log + [EntryOf(o, M1, volume), EntryOf(o, M5, volume)], symbol, start)
    ensures var e1, e5 := EntryOf(o, M1, volume), EntryOf(o, M5, volume);
      Summarise(log + [e1, e5], Key(symbol, M5, start)).volume - MinuteVolume(log + [e1, e5], symbol, start, 5)
      == Summarise(log, Key(symbol, M5, start)).volume - MinuteVolume(log, symbol, start, 5)
  {
    var e1, e5, five := EntryOf(o, M1, volume), EntryOf(o, M5, volume), Key(symbol, M5, start);
    assert log + [e1, e5] == log + [e1] + [e5];
    MinuteWithinFive(o, symbol, start);
    MinuteVolumeGrows(log, e1, symbol, start, 5);
    MinuteVolumeGrows(log + [e1], e5, symbol, start, 5);
    SummariseAppend(log, e1, five);
    SummariseAppend(log + [e1], e5, five);
    forall i | 0 <= i < 5
      ensures Covers(Summarise(log + [e1, e5], five), Summarise(log + [e1, e5], Minute(symbol, start, i)))
    {
      var one := Minute(symbol, start, i);
      SummariseAppend(log, e1, one);
      SummariseAppend(log + [e1], e5, one);
      assert Covers(Summarise(log, five), Summarise(log, one));
      assert e1.key == one ==> e5.key == five;
      CoveringGrows(Summarise(log, five), Summarise(log, one), o.id, o.Price(), volume);
    }
  }

  lemma CoveringGrows(five: Summary, one: Summary, id: nat, price: Option<real>, volume: int)
    requires Covers(five, one)
    ensures Covers(AddEntry(five, id, price, volume), one)
    ensures Covers(AddEntry(five, id, price, volume), AddEntry(one, id, price, volume))
  {
  }

  /** In an orderly feed an ingest logs nothing, a five-minute entry, or a matching pair. */
  lemma {:induction false} EntriesComeInPairs(cs: seq<Command>, tolerance: int)
    requires cs != [] && OrderlyFeed(cs) && cs[|cs| - 1].Ingest?
    ensures var st, o := Run(cs[..|cs| - 1], tolerance), cs[|cs| - 1].observation;
      var added, volume := IngestedEntries(st, o, tolerance), VolumeOf(st, o);
      || added == []
      || (added == [EntryOf(o, M5, volume)] && Dropped(st, o, M1, tolerance) && Contributes(o, volume))
      || added == [EntryOf(o, M1, volume), EntryOf(o, M5, volume)]
  {
    var front, o := cs[..|cs| - 1], cs[|cs| - 1].observation;
    var st := Run(front, tolerance);
    assert cs == front + [Ingest(o)];
    OrderlyPrefix(cs);
    RunIsLinked(front, tolerance);
    IngestEffects(st, o, tolerance);
    if Accepts(st, o, M1, tolerance) {
      OneImpliesFive(st, front, o, tolerance);
    } else if Accepts(st, o, M5, tolerance) {
      FiveWithoutOneIsLate(st, front, o, tolerance);
    }
  }

  /** A finding that one minute turned an observation of `symbol` away. */
  predicate MinuteDrop(f: Finding, symbol: string) {
    f.tf == Some(M1) && f.symbol == symbol && !f.code.CumulativeVolumeRegression?
  }

  lemma ApplyAddsFindings(st: BarState, o: Observation, tf: Timeframe, volume: int, tolerance: int)
    ensures st.findings <= ApplyTo(st, o, tf, volume, tolerance).findings
    ensures Dropped(st, o, tf, tolerance) ==> DropFinding(st, o, tf) in ApplyTo(st, o, tf, volume, tolerance).findings
  {
  }

  lemma StepAddsFindings(st: BarState, c: Command, tolerance: int)
    requires WellOrdered(st)
    ensures st.findings <= Step(st, c, tolerance).findings
    ensures
      && c.Ingest? && Contributes(c.observation, VolumeOf(st, c.observation))
      && Dropped(st, c.observation, M1, tolerance)
      ==> exists f :: f in Step(st, c, tolerance).findings && MinuteDrop(f, c.observation.symbol)
  {
    if c.Ingest? {
      var o := c.observation;
      var volume, counted := VolumeOf(st, o), AfterVolume(st, o);
      var mid := ApplyTo(counted, o, M1, volume, tolerance);
      ApplyAddsFindings(counted, o, M1, volume, tolerance);
      ApplyAddsFindings(mid, o, M5, volume, tolerance);
      if Contributes(o, volume) && Dropped(st, o, M1, tolerance) {
        var f := DropFinding(counted, o, M1);
        assert f in mid.findings && MinuteDrop(f, o.symbol);
        assert f in Step(st, c, tolerance).findings;
      }
    }
  }

  /**
   Five-minute dominance: for every symbol and five-minute interval of an orderly feed, the
   five-minute bar holds at least the volume of its minutes and covers each priced minute.
   With no one-minute drop for the symbol the volumes are equal.
   */
  lemma {:induction false} FiveMinutesDominate(cs: seq<Command>, tolerance: int, symbol: string, start: int)
    requires OrderlyFeed(cs) && start % 300_000_000 == 0
    ensures Dominates(Log(cs, tolerance), symbol, start)
    ensures (forall f :: f in Run(cs, tolerance).findings ==> !MinuteDrop(f, symbol)) ==>
      Summarise(Log(cs, tolerance), Key(symbol, M5, start)).volume == MinuteVolume(Log(cs, tolerance), symbol, start, 5)
  {
    if cs == [] {
      NoMinuteVolume(symbol, start, 5);
    } else {
      var front, last := cs[..|cs| - 1], cs[|cs| - 1];
      var st, log := Run(front, tolerance), Log(front, tolerance);
      OrderlyPrefix(cs);
      FiveMinutesDominate(front, tolerance, symbol, start);
      StepAddsFindings(st, last, tolerance);
      assert forall f :: f in st.findings ==> f in Run(cs, tolerance).findings;
      if last.Close? {
        assert log + [] == log;
      } else {
        EntriesComeInPairs(cs, tolerance);
        StepKeepsDominance(log, st, last.observation, tolerance, symbol, start);
      }
    }
  }

  lemma StepKeepsDominance(log: seq<Entry>, st: BarState, o: Observation, tolerance: int, symbol: string, start: int)
    requires Dominates(log, symbol, start) && start % 300_000_000 == 0
    requires var added, volume := IngestedEntries(st, o, tolerance), VolumeOf(st, o);
      || added == []
      || (added == [EntryOf(o, M5, volume)] && Dropped(st, o, M1, tolerance) && Contributes(o, volume))
      || added == [EntryOf(o, M1, volume), EntryOf(o, M5, volume)]
    ensures var log', five := log + IngestedEntries(st, o, tolerance), Key(symbol, M5, start);
      && Dominates(log', symbol, start)
      && (!(Dropped(st, o, M1, tolerance) && Contributes(o, VolumeOf(st, o)) && o.symbol == symbol) ==>
            Summarise(log', five).volume - MinuteVolume(log', symbol, start, 5)
            == Summarise(log, five).volume - MinuteVolume(log, symbol, start, 5))
  {
    var added, volume := IngestedEntries(st, o, tolerance), VolumeOf(st, o);
    if added == [] {
      assert log + [] == log;
    } else if |added| == 1 {
      OtherKeysKeepDominance(log, added[0], symbol, start);
      MinuteVolumeGrows(log, added[0], symbol, start, 5);
      SummariseAppend(log, added[0], Key(symbol, M5, start));
    } else {
      PairKeepsDominance(log, o, volume, symbol, start);
    }
  }

  // ---- the same for the bars themselves --------------------------------------------------------------

  function ClosedSummary(bars: seq<MarketBar>, k: Key): Summary {
    if bars == [] then NOTHING
    else if bars[|bars| - 1].key == k then bars[|bars| - 1].summary
    else ClosedSummary(bars[..|bars| - 1], k)
  }

  /** The bar of interval `k`, open or closed; nothing where there is none. */
  function BarAt(st: BarState, k: Key): Summary {
    if k in st.open then st.open[k].summary else ClosedSummary(st.closed, k)
  }

  lemma {:induction false} ClosedSummaryIsLogged(bars: seq<MarketBar>, k: Key, log: seq<Entry>)
    requires forall b :: b in bars ==> b.summary == Summarise(log, b.key)
    ensures HasBar(bars, k) ==> ClosedSummary(bars, k) == Summarise(log, k)
    ensures !HasBar(bars, k) ==> ClosedSummary(bars, k) == NOTHING
  {
    if bars != [] {
      var front, last := bars[..|bars| - 1], bars[|bars| - 1];
      assert bars == front + [last];
      ClosedSummaryIsLogged(front, k, log);
    }
  }

  lemma {:induction false} BarAtIsLogged(cs: seq<Command>, tolerance: int, k: Key)
    ensures BarAt(Run(cs, tolerance), k) == Summarise(Log(cs, tolerance), k)
  {
    RunIsSound(cs, tolerance);
    var st, log := Run(cs, tolerance), Log(cs, tolerance);
    ClosedSummaryIsLogged(st.closed, k, log);
    if k !in st.open && !HasBar(st.closed, k) {
      NothingLogged(log, k);
    }
  }

  /** The volume of the bars of the first `n` minutes from `start`. */
  function MinuteBarVolume(st: BarState, symbol: string, start: int, n: nat): int {
    if n == 0 then 0 else MinuteBarVolume(st, symbol, start, n - 1) + BarAt(st, Minute(symbol, start, n - 1)).volume
  }

  lemma {:induction false} MinuteBarVolumeIsLogged(st: BarState, log: seq<Entry>, symbol: string, start: int, n: nat)
    requires forall k :: BarAt(st, k) == Summarise(log, k)
    ensures MinuteBarVolume(st, symbol, start, n) == MinuteVolume(log, symbol, start, n)
  {
    if n > 0 {
      MinuteBarVolumeIsLogged(st, log, symbol, start, n - 1);
    }
  }

  /** The minutes' bars are each covered by the five-minute bar, whatever is open or closed. */
  lemma {:induction false} FiveMinuteBarDominates(cs: seq<Command>, tolerance: int, symbol: string, start: int)
    requires OrderlyFeed(cs) && start % 300_000_000 == 0
    ensures var st, five := Run(cs, tolerance), BarAt(Run(cs, tolerance), Key(symbol, M5, start));
      && (forall i :: 0 <= i < 5 ==> Covers(five, BarAt(st, Minute(symbol, start, i))))
      && five.volume >= MinuteBarVolume(st, symbol, start, 5)
      && ((forall f :: f in st.findings ==> !MinuteDrop(f, symbol)) ==>
            five.volume == MinuteBarVolume(st, symbol, start, 5))
  {
    var st := Run(cs, tolerance);
    FiveMinutesDominate(cs, tolerance, symbol, start);
    forall k ensures BarAt(st, k) == Summarise(Log(cs, tolerance), k) {
      BarAtIsLogged(cs, tolerance, k);
    }
    MinuteBarVolumeIsLogged(st, Log(cs, tolerance), symbol, start, 5);
  }
}
