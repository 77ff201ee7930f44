/** Every bar is exactly what fed it, is emitted once and never changes afterwards. */
module BarConservation {
  import opened Options
  import opened Bars

  // ---- the invariant --------------------------------------------------------------------------

  /** Open and emitted intervals are disjoint; each emitted interval has one closed bar. */
  ghost predicate OnceEach(st: BarState) {
    && WellOrdered(st)
    && (forall k :: k in st.open ==> k !in st.emitted)
    && (forall b :: b in st.closed ==> b.key in st.emitted)
    && (forall k :: k in st.emitted ==> HasBar(st.closed, k))
    && DistinctBars(st.closed)
  }

  ghost predicate HasBar(bars: seq<MarketBar>, k: Key) {
    exists b :: b in bars && b.key == k
  }

  predicate DistinctBars(bars: seq<MarketBar>) {
    forall i, j :: 0 <= i < j < |bars| ==> bars[i].key != bars[j].key
  }

  /** Every bar, open or closed, summarises the entries logged for its interval. */
  ghost predicate BarsMatch(st: BarState, log: seq<Entry>) {
    && (forall k :: k in st.open ==> st.open[k].summary == Summarise(log, k))
    && (forall b :: b in st.closed ==> b.summary == Summarise(log, b.key))
    && (forall e :: e in log ==> e.key in st.open || e.key in st.emitted)
  }

  /** An observation id feeds at most one bar of each timeframe. */
  ghost predicate FedOnce(st: BarState, log: seq<Entry>) {
    && (forall e :: e in log ==> (e.id, e.key.tf) in st.assignedObs)
    && (forall p :: p in st.assignedObs ==> exists e :: e in log && e.id == p.0 && e.key.tf == p.1)
    && (forall i, j :: 0 <= i < j < |log| ==> log[i].id != log[j].id || log[i].key.tf != log[j].key.tf)
  }

  ghost predicate Sound(st: BarState, log: seq<Entry>) {
    OnceEach(st) && BarsMatch(st, log) && FedOnce(st, log)
  }

  // ---- one timeframe --------------------------------------------------------------------------

  lemma SummariseAppend(log: seq<Entry>, e: Entry, k: Key)
    ensures Summarise(log + [e], k)
      == if e.key == k then AddEntry(Summarise(log, k), e.id, e.price, e.volume) else Summarise(log, k)
  {
    assert (log + [e])[..|log|] == log;
  }

  lemma {:induction false} NothingLogged(log: seq<Entry>, k: Key)
    requires forall e :: e in log ==> e.key != k
    ensures Summarise(log, k) == NOTHING
  {
    if log != [] {
      assert log[|log| - 1] in log;
      NothingLogged(log[..|log| - 1], k);
    }
  }

  lemma {:induction false} WithBarKeepsSound(st: BarState, log: seq<Entry>, o: Observation, tf: Timeframe)
    requires Sound(st, log) && KeyOf(o, tf) !in st.emitted
    ensures var ready := WithBar(st, o, tf);
      && OnceEach(ready) && BarsMatch(ready, log) && FedOnce(ready, log) && KeyOf(o, tf) in ready.open
  {
    WithBarKeepsOnceEach(st, o, tf);
    WithBarKeepsMatch(st, log, o, tf);
  }

  lemma WithBarKeepsOnceEach(st: BarState, o: Observation, tf: Timeframe)
    requires OnceEach(st) && KeyOf(o, tf) !in st.emitted
    ensures OnceEach(WithBar(st, o, tf)) && KeyOf(o, tf) in WithBar(st, o, tf).open
  {
    if KeyOf(o, tf) !in st.open {
      DistinctAppend(st.order, KeyOf(o, tf));
    }
  }

  lemma WithBarKeepsMatch(st: BarState, log: seq<Entry>, o: Observation, tf: Timeframe)
    requires OnceEach(st) && BarsMatch(st, log) && KeyOf(o, tf) !in st.emitted
    ensures BarsMatch(WithBar(st, o, tf), log)
  {
    if KeyOf(o, tf) !in st.open {
      NothingLogged(log, KeyOf(o, tf));
    }
  }

  lemma ApplyKeepsSound(st: BarState, log: seq<Entry>, o: Observation, tf: Timeframe, volume: int, tolerance: int,
                        log': seq<Entry>)
    requires Sound(st, log)
    requires log' == log + EntriesOf(st, o, tf, volume, tolerance)
    ensures Sound(ApplyTo(st, o, tf, volume, tolerance), log')
  {
    if Dropped(st, o, tf, tolerance) {
      assert log' == log;
    } else {
      WithBarKeepsSound(st, log, o, tf);
      if (o.id, tf) in st.assignedObs {
        assert log' == log;
      } else {
        AcceptKeepsSound(WithBar(st, o, tf), log, EntryOf(o, tf, volume));
      }
    }
  }

  function Accepted(st: BarState, e: Entry): BarState
    requires e.key in st.open
  {
    st.(open := Fed(st.open, e.key, e.id, e.price, e.volume),
        assignedObs := st.assignedObs + {(e.id, e.key.tf)})
  }

  lemma AcceptKeepsFedOnce(st: BarState, log: seq<Entry>, e: Entry)
    requires FedOnce(st, log) && e.key in st.open && (e.id, e.key.tf) !in st.assignedObs
    ensures FedOnce(Accepted(st, e), log + [e])
  {
    var st', log' := Accepted(st, e), log + [e];
    assert forall x :: x in log' <==> x in log || x == e;
    forall p | p in st'.assignedObs ensures exists x :: x in log' && x.id == p.0 && x.key.tf == p.1 {
      if p in st.assignedObs {
        var x :| x in log && x.id == p.0 && x.key.tf == p.1;
        assert x in log';
      } else {
        assert e in log';
      }
    }
    forall i | 0 <= i < |log| ensures log[i].id != e.id || log[i].key.tf != e.key.tf {
      assert log[i] in log;
    }
  }

  lemma AcceptKeepsMatch(st: BarState, log: seq<Entry>, e: Entry)
    requires OnceEach(st) && BarsMatch(st, log) && e.key in st.open
    ensures BarsMatch(Accepted(st, e), log + [e])
  {
    forall k ensures Summarise(log + [e], k)
      == if e.key == k then AddEntry(Summarise(log, k), e.id, e.price, e.volume) else Summarise(log, k)
    {
      SummariseAppend(log, e, k);
    }
    assert forall x :: x in log + [e] <==> x in log || x == e;
  }

  lemma AcceptKeepsSound(st: BarState, log: seq<Entry>, e: Entry)
    requires Sound(st, log) && e.key in st.open && (e.id, e.key.tf) !in st.assignedObs
    ensures Sound(Accepted(st, e), log + [e])
  {
    AcceptKeepsFedOnce(st, log, e);
    AcceptKeepsMatch(st, log, e);
    assert OnceEach(Accepted(st, e));
  }

  // ---- closing ---------------------------------------------------------------------------------

  lemma {:induction false} EmitAllShape(keys: seq<Key>, open: map<Key, Bar>)
    requires forall k :: k in keys ==> k in open
    ensures forall b :: b in EmitAll(keys, open) ==> b.key in keys && b == Emit(b.key, open[b.key])
    ensures forall k :: k in keys ==> Emit(k, open[k]) in EmitAll(keys, open)
    ensures Distinct(keys) ==> DistinctBars(EmitAll(keys, open))
  {
    if keys != [] {
      var front, last := keys[..|keys| - 1], keys[|keys| - 1];
      EmitAllShape(front, open);
      assert keys == front + [last];
      var emitted := EmitAll(front, open);
      if Distinct(keys) {
        forall i | 0 <= i < |emitted| ensures emitted[i].key != last {
          assert emitted[i] in emitted;
        }
      }
    }
  }

  lemma DistinctConcat(a: seq<MarketBar>, b: seq<MarketBar>)
    requires DistinctBars(a) && DistinctBars(b)
    requires forall x, y :: x in a && y in b ==> x.key != y.key
    ensures DistinctBars(a + b)
  {
    forall i, j | 0 <= i < |a| && 0 <= j < |b| ensures a[i].key != b[j].key {
      assert a[i] in a && b[j] in b;
    }
  }

  /** What a close does to the keys, with the loops summed up. */
  lemma CloseFacts(st: BarState, now: int, tolerance: int)
    requires WellOrdered(st)
    ensures var st', ready := Closed(st, now, tolerance), ReadyKeys(st.order, now, tolerance);
      && WellOrdered(st')
      && Distinct(ready)
      && (forall k :: k in ready <==> k in st.open && Ready(k, now, tolerance))
      && (forall k :: k in st'.open <==> k in st.open && k !in ready)
      && (forall k :: k in st'.open ==> st'.open[k] == st.open[k])
      && (forall k :: k in st'.emitted <==> k in st.emitted || k in ready)
      && st'.closed == st.closed + EmitAll(ready, st.open)
  {
    HeldKeysDistinct(st.order, now, tolerance);
    ReadyAndHeld(st.order, now, tolerance);
    StepKeepsOrder(st, Close(now), tolerance);
  }

  lemma CloseKeepsOnceEach(st: BarState, now: int, tolerance: int)
    requires OnceEach(st)
    ensures OnceEach(Closed(st, now, tolerance))
  {
    CloseFacts(st, now, tolerance);
    var st', ready := Closed(st, now, tolerance), ReadyKeys(st.order, now, tolerance);
    var added := EmitAll(ready, st.open);
    EmitAllShape(ready, st.open);
    DistinctConcat(st.closed, added);
    forall k | k in st'.emitted ensures HasBar(st'.closed, k) {
      if k in ready {
        assert Emit(k, st.open[k]) in st'.closed;
      } else {
        var b :| b in st.closed && b.key == k;
        assert b in st'.closed;
      }
    }
  }

  lemma CloseKeepsMatch(st: BarState, log: seq<Entry>, now: int, tolerance: int)
    requires OnceEach(st) && BarsMatch(st, log)
    ensures BarsMatch(Closed(st, now, tolerance), log)
  {
    CloseFacts(st, now, tolerance);
    EmitAllShape(ReadyKeys(st.order, now, tolerance), st.open);
  }

  lemma CloseKeepsSound(st: BarState, log: seq<Entry>, now: int, tolerance: int)
    requires Sound(st, log)
    ensures Sound(Closed(st, now, tolerance), log)
  {
    CloseKeepsOnceEach(st, now, tolerance);
    CloseKeepsMatch(st, log, now, tolerance);
    assert Closed(st, now, tolerance).assignedObs == st.assignedObs;
  }

  lemma {:induction false} RunIsSound(cs: seq<Command>, tolerance: int)
    ensures Sound(Run(cs, tolerance), Log(cs, tolerance))
  {
    if cs != [] {
      var front := cs[..|cs| - 1];
      RunIsSound(front, tolerance);
      StepKeepsSound(Run(front, tolerance), Log(front, tolerance), cs[|cs| - 1], tolerance);
    }
  }

  lemma StepKeepsSound(st: BarState, log: seq<Entry>, c: Command, tolerance: int)
    requires Sound(st, log)
    ensures Sound(Step(st, c, tolerance), log + StepEntries(st, c, tolerance))
  {
    match c {
      case Ingest(o) => IngestKeepsSound(st, log, o, tolerance);
      case Close(now) =>
        CloseKeepsSound(st, log, now, tolerance);
        assert log + [] == log;
    }
  }

  lemma CountingKeepsSound(st: BarState, log: seq<Entry>, o: Observation)
    requires Sound(st, log)
    ensures Sound(AfterVolume(st, o), log)
  {
    var counted := AfterVolume(st, o);
    assert counted == st.(lastCum := counted.lastCum, findings := counted.findings);
  }

  lemma TwoTimeframesKeepSound(counted: BarState, log: seq<Entry>, o: Observation, volume: int, tolerance: int,
                               mid: BarState, log1: seq<Entry>, log5: seq<Entry>)
    requires Sound(counted, log)
    requires mid == ApplyTo(counted, o, M1, volume, tolerance)
    requires log1 == log + EntriesOf(counted, o, M1, volume, tolerance)
    requires log5 == log1 + EntriesOf(mid, o, M5, volume, tolerance)
    ensures Sound(ApplyTo(mid, o, M5, volume, tolerance), log5)
  {
    ApplyKeepsSound(counted, log, o, M1, volume, tolerance, log1);
    ApplyKeepsSound(mid, log1, o, M5, volume, tolerance, log5);
  }

  lemma IngestKeepsSound(st: BarState, log: seq<Entry>, o: Observation, tolerance: int)
    requires Sound(st, log)
    ensures Sound(Ingested(st, o, tolerance), log + IngestedEntries(st, o, tolerance))
  {
    var volume, counted := VolumeOf(st, o), AfterVolume(st, o);
    CountingKeepsSound(st, log, o);
    if Contributes(o, volume) {
      var mid := ApplyTo(counted, o, M1, volume, tolerance);
      var e1, e5 := EntriesOf(counted, o, M1, volume, tolerance), EntriesOf(mid, o, M5, volume, tolerance);
      assert log + (e1 + e5) == log + e1 + e5;
      TwoTimeframesKeepSound(counted, log, o, volume, tolerance, mid, log + e1, log + e1 + e5);
    } else {
      assert log + [] == log;
    }
  }

  // ---- what the invariant gives ------------------------------------------------------------------

  lemma ApplyKeepsClosed(st: BarState, o: Observation, tf: Timeframe, volume: int, tolerance: int)
    ensures ApplyTo(st, o, tf, volume, tolerance).closed == st.closed
  {
  }

  lemma StepExtendsClosed(st: BarState, c: Command, tolerance: int)
    requires WellOrdered(st)
    ensures st.closed <= Step(st, c, tolerance).closed
  {
    if c.Ingest? {
      var o := c.observation;
      var volume, counted := VolumeOf(st, o), AfterVolume(st, o);
      ApplyKeepsClosed(counted, o, M1, volume, tolerance);
      ApplyKeepsClosed(ApplyTo(counted, o, M1, volume, tolerance), o, M5, volume, tolerance);
    } else {
      CloseFacts(st, c.now, tolerance);
    }
  }

  lemma {:induction false} RunExtendsClosed(cs: seq<Command>, c: Command, tolerance: int)
    ensures Run(cs, tolerance).closed <= Run(cs + [c], tolerance).closed
  {
    assert (cs + [c])[..|cs|] == cs;
    StepExtendsClosed(Run(cs, tolerance), c, tolerance);
  }

  /** A bar, once closed, stays in the record unchanged for the rest of the run. */
  lemma {:induction false} ClosedBarsArePermanent(cs: seq<Command>, more: seq<Command>, tolerance: int)
    ensures Run(cs, tolerance).closed <= Run(cs + more, tolerance).closed
    decreases |more|
  {
    if more == [] {
      assert cs + more == cs;
    } else {
      var before := cs + more[..|more| - 1];
      assert cs + more == before + [more[|more| - 1]];
      ClosedBarsArePermanent(cs, more[..|more| - 1], tolerance);
      RunExtendsClosed(before, more[|more| - 1], tolerance);
    }
  }

  /** An interval is emitted at most once, and never while it is still open. */
  lemma {:induction false} EmittedExactlyOnce(cs: seq<Command>, tolerance: int)
    ensures var st := Run(cs, tolerance);
      && DistinctBars(st.closed)
      && (forall k :: k in st.emitted <==> HasBar(st.closed, k))
      && (forall k :: k in st.open ==> k !in st.emitted)
  {
    RunIsSound(cs, tolerance);
  }

  /** Every observation id is in at most one bar per timeframe, and a bar's summary is its entries'. */
  lemma {:induction false} BarsAreTheirEntries(cs: seq<Command>, tolerance: int)
    ensures var st, log := Run(cs, tolerance), Log(cs, tolerance);
      && (forall k :: k in st.open ==> st.open[k].summary == Summarise(log, k))
      && (forall b :: b in st.closed ==> b.summary == Summarise(log, b.key))
      && (forall i, j :: 0 <= i < j < |log| && log[i].id == log[j].id ==> log[i].key.tf != log[j].key.tf)
  {
    RunIsSound(cs, tolerance);
  }

  /** Lows and highs bound every price of the interval; open and close are among them. */
  lemma {:induction false} SummaryBounds(log: seq<Entry>, k: Key)
    ensures var s := Summarise(log, k);
      && s.low <= s.open <= s.high && s.low <= s.close <= s.high
      && (forall e :: e in log && e.key == k && e.price.Some? ==> s.ticks > 0 && s.low <= e.price.value <= s.high)
      && (s.ticks > 0 ==> LoggedPrice(log, k, s.low) && LoggedPrice(log, k, s.high)
                          && LoggedPrice(log, k, s.open) && LoggedPrice(log, k, s.close))
      && (s.ticks == 0 ==> s.open == s.high == s.low == s.close == 0.0)
  {
    if log != [] {
      var front, last := log[..|log| - 1], log[|log| - 1];
      SummaryBounds(front, k);
      assert log == front + [last];
      var s, s' := Summarise(front, k), Summarise(log, k);
      EntryBounds(s, last.id, last.price, last.volume);
      if s.ticks > 0 {
        StillLogged(front, last, k, s.low);
        StillLogged(front, last, k, s.high);
        StillLogged(front, last, k, s.open);
        StillLogged(front, last, k, s.close);
      }
      if last.key == k && last.price.Some? {
        assert last in log && LoggedPrice(log, k, last.price.value);
        assert s' == AddEntry(s, last.id, last.price, last.volume);
      } else {
        assert s' == s.(volume := s'.volume);
      }
    }
  }

  /** Range and ends of a summary after one more priced or unpriced entry. */
  lemma EntryBounds(s: Summary, id: nat, price: Option<real>, volume: int)
    requires s.low <= s.open <= s.high && s.low <= s.close <= s.high
    ensures var s' := AddEntry(s, id, price, volume);
      && (price.None? ==> s' == s.(volume := s'.volume))
      && (price.Some? ==>
            && s'.ticks > 0 && s'.low <= s'.open <= s'.high && s'.low <= s'.close <= s'.high
            && s'.low <= price.value <= s'.high
            && (s.ticks > 0 ==> s'.low <= s.low && s.high <= s'.high)
            && s'.low in {s.low, price.value} && s'.high in {s.high, price.value}
            && s'.open in {s.open, price.value} && s'.close == price.value
            && (s.ticks == 0 ==> s'.low == s'.high == s'.open == price.value))
  {
  }

  ghost predicate LoggedPrice(log: seq<Entry>, k: Key, price: real) {
    exists e :: e in log && e.key == k && e.price == Some(price)
  }

  lemma StillLogged(front: seq<Entry>, last: Entry, k: Key, price: real)
    requires LoggedPrice(front, k, price)
    ensures LoggedPrice(front + [last], k, price)
  {
    var e :| e in front && e.key == k && e.price == Some(price);
    assert e in front + [last];
  }

  // ---- volume is conserved -----------------------------------------------------------------------

  /** The volume logged for one timeframe. */
  function LoggedVolume(log: seq<Entry>, tf: Timeframe): int {
    if log == [] then 0
    else
      var last := log[|log| - 1];
      LoggedVolume(log[..|log| - 1], tf) + (if last.key.tf == tf && last.volume > 0 then last.volume else 0)
  }

  /** The volume of the summaries of the listed intervals of one timeframe. */
  function SummedVolume(keys: seq<Key>, tf: Timeframe, log: seq<Entry>): int {
    if keys == [] then 0
    else
      var last := keys[|keys| - 1];
      SummedVolume(keys[..|keys| - 1], tf, log) + (if last.tf == tf then Summarise(log, last).volume else 0)
  }

  lemma {:induction false} SummedGrows(keys: seq<Key>, tf: Timeframe, log: seq<Entry>, e: Entry)
    requires Distinct(keys)
    ensures SummedVolume(keys, tf, log + [e])
      == SummedVolume(keys, tf, log) + (if e.key in keys && e.key.tf == tf && e.volume > 0 then e.volume else 0)
  {
    if keys != [] {
      var front, last := keys[..|keys| - 1], keys[|keys| - 1];
      assert keys == front + [last];
      SummedGrows(front, tf, log, e);
      SummariseAppend(log, e, last);
    }
  }

  lemma {:induction false} NothingSummed(keys: seq<Key>, tf: Timeframe)
    ensures SummedVolume(keys, tf, []) == 0
  {
    if keys != [] {
      NothingSummed(keys[..|keys| - 1], tf);
    }
  }

  lemma {:induction false} SummedIsLogged(keys: seq<Key>, tf: Timeframe, log: seq<Entry>)
    requires Distinct(keys)
    requires forall e :: e in log && e.key.tf == tf ==> e.key in keys
    ensures SummedVolume(keys, tf, log) == LoggedVolume(log, tf)
  {
    if log == [] {
      NothingSummed(keys, tf);
    } else {
      var front, last := log[..|log| - 1], log[|log| - 1];
      assert log == front + [last];
      SummedIsLogged(keys, tf, front);
      SummedGrows(keys, tf, front, last);
    }
  }

  /** The volume of all bars of one timeframe, open ones in dictionary order, then closed ones. */
  function BarVolume(st: BarState, tf: Timeframe): int
    requires forall k :: k in st.order ==> k in st.open
  {
    OpenVolume(st.order, st.open, tf) + ClosedVolume(st.closed, tf)
  }

  function OpenVolume(keys: seq<Key>, open: map<Key, Bar>, tf: Timeframe): int
    requires forall k :: k in keys ==> k in open
  {
    if keys == [] then 0
    else
      var last := keys[|keys| - 1];
      OpenVolume(keys[..|keys| - 1], open, tf) + (if last.tf == tf then open[last].summary.volume else 0)
  }

  function ClosedVolume(bars: seq<MarketBar>, tf: Timeframe): int {
    if bars == [] then 0
    else
      var last := bars[|bars| - 1];
      ClosedVolume(bars[..|bars| - 1], tf) + (if last.key.tf == tf then last.summary.volume else 0)
  }

  function KeysOf(bars: seq<MarketBar>): seq<Key> {
    seq(|bars|, i requires 0 <= i < |bars| => bars[i].key)
  }

  lemma {:induction false} OpenIsSummed(keys: seq<Key>, open: map<Key, Bar>, tf: Timeframe, log: seq<Entry>)
    requires forall k :: k in keys ==> k in open && open[k].summary == Summarise(log, k)
    ensures OpenVolume(keys, open, tf) == SummedVolume(keys, tf, log)
  {
    if keys != [] {
      OpenIsSummed(keys[..|keys| - 1], open, tf, log);
    }
  }

  lemma {:induction false} ClosedIsSummed(keys: seq<Key>, bars: seq<MarketBar>, tf: Timeframe, log: seq<Entry>)
    requires forall b :: b in bars ==> b.summary == Summarise(log, b.key)
    ensures SummedVolume(keys + KeysOf(bars), tf, log) == SummedVolume(keys, tf, log) + ClosedVolume(bars, tf)
  {
    if bars == [] {
      assert keys + KeysOf(bars) == keys;
    } else {
      var front, last := bars[..|bars| - 1], bars[|bars| - 1];
      assert last in bars;
      ClosedIsSummed(keys, front, tf, log);
      var all := keys + KeysOf(bars);
      assert all[..|all| - 1] == keys + KeysOf(front);
    }
  }

  /** Per timeframe, the bars together hold exactly the volume of the accepted observations. */
  lemma {:induction false} VolumeIsConserved(cs: seq<Command>, tolerance: int, tf: Timeframe)
    ensures BarVolume(Run(cs, tolerance), tf) == LoggedVolume(Log(cs, tolerance), tf)
  {
    RunIsSound(cs, tolerance);
    var st, log := Run(cs, tolerance), Log(cs, tolerance);
    OpenIsSummed(st.order, st.open, tf, log);
    ClosedIsSummed(st.order, st.closed, tf, log);
    var keys := st.order + KeysOf(st.closed);
    AllKeysListed(st, log);
    SummedIsLogged(keys, tf, log);
  }

  lemma AllKeysListed(st: BarState, log: seq<Entry>)
    requires Sound(st, log)
    ensures Distinct(st.order + KeysOf(st.closed))
    ensures forall e :: e in log ==> e.key in st.order + KeysOf(st.closed)
  {
    var ks := KeysOf(st.closed);
    forall e | e in log ensures e.key in st.order + ks {
      if e.key !in st.open {
        var b :| b in st.closed && b.key == e.key;
        var i :| 0 <= i < |st.closed| && st.closed[i] == b;
        assert ks[i] == e.key;
      }
    }
    forall i, j | 0 <= i < |st.order| && 0 <= j < |ks| ensures st.order[i] != ks[j] {
      assert st.order[i] in st.open && st.closed[j] in st.closed;
    }
  }

  // ---- the volume policy ---------------------------------------------------------------------------

  /** The volumes resolved for one symbol over a run. */
  function ResolvedTotal(cs: seq<Command>, tolerance: int, symbol: string): int {
    if cs == [] then 0
    else
      var front, last := cs[..|cs| - 1], cs[|cs| - 1];
      ResolvedTotal(front, tolerance, symbol)
      + (if last.Ingest? && last.observation.symbol == symbol then VolumeOf(Run(front, tolerance), last.observation)
         else 0)
  }

  /** The first cumulative volume reported for the symbol. */
  function FirstCum(cs: seq<Command>, symbol: string): Option<int> {
    if cs == [] then None
    else
      var before, last := FirstCum(cs[..|cs| - 1], symbol), cs[|cs| - 1];
      if before.Some? then before
      else if last.Ingest? && last.observation.symbol == symbol then last.observation.cumulative
      else None
  }

  /** Quotes only for the symbol, whose cumulative volume never falls. */
  ghost predicate SteadyQuotes(cs: seq<Command>, tolerance: int, symbol: string) {
    forall i :: 0 <= i < |cs| && cs[i].Ingest? && cs[i].observation.symbol == symbol ==>
      && !cs[i].observation.Trade?
      && (cs[i].observation.cumulative.Some? && LastCum(Run(cs[..i], tolerance), symbol).Some? ==>
            cs[i].observation.cumulative.value >= LastCum(Run(cs[..i], tolerance), symbol).value)
  }

  lemma ApplyKeepsCum(st: BarState, o: Observation, tf: Timeframe, volume: int, tolerance: int)
    ensures ApplyTo(st, o, tf, volume, tolerance).lastCum == st.lastCum
  {
  }

  lemma StepCum(st: BarState, c: Command, tolerance: int, symbol: string)
    requires WellOrdered(st)
    ensures LastCum(Step(st, c, tolerance), symbol)
      == if c.Ingest? && c.observation.symbol == symbol && c.observation.cumulative.Some? then c.observation.cumulative
         else LastCum(st, symbol)
  {
    if c.Ingest? {
      var o := c.observation;
      var volume, counted := VolumeOf(st, o), AfterVolume(st, o);
      ApplyKeepsCum(counted, o, M1, volume, tolerance);
      ApplyKeepsCum(ApplyTo(counted, o, M1, volume, tolerance), o, M5, volume, tolerance);
    }
  }

  /** For such a feed the resolved volumes add up to last minus first. */
  lemma {:induction false} SteadyVolumesTelescope(cs: seq<Command>, tolerance: int, symbol: string)
    requires SteadyQuotes(cs, tolerance, symbol)
    ensures var last, first := LastCum(Run(cs, tolerance), symbol), FirstCum(cs, symbol);
      && (last.Some? <==> first.Some?)
      && ResolvedTotal(cs, tolerance, symbol) == if last.Some? then last.value - first.value else 0
  {
    if cs != [] {
      var front, c := cs[..|cs| - 1], cs[|cs| - 1];
      assert forall i :: 0 <= i < |front| ==> front[i] == cs[i] && front[..i] == cs[..i];
      SteadyVolumesTelescope(front, tolerance, symbol);
      StepCum(Run(front, tolerance), c, tolerance, symbol);
    }
  }
}
