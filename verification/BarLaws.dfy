/** What a bar says about its feed: prices, marks, findings and volumes, for every run. */
module BarLaws {
  import opened Options
  import opened Bars
  import opened BarConservation
  import opened BarDominance

  // ---- prices and ids -----------------------------------------------------------------------------

  /** The priced entries logged for interval `k`, in order. */
  function PricedOf(log: seq<Entry>, k: Key): (priced: seq<Entry>)
    ensures forall e :: e in priced ==> e in log && e.key == k && e.price.Some?
  {
    if log == [] then []
    else
      var front, e := log[..|log| - 1], log[|log| - 1];
      assert log == front + [e];
      if e.key == k && e.price.Some? then PricedOf(front, k) + [e] else PricedOf(front, k)
  }

  /** The volume logged for interval `k`. */
  function VolumeFor(log: seq<Entry>, k: Key): int {
    if log == [] then 0
    else
      var e := log[|log| - 1];
      VolumeFor(log[..|log| - 1], k) + if e.key == k && e.volume > 0 then e.volume else 0
  }

  /** A summary of priced entries: their number, the first and last price, the extremes, the ids in order. */
  ghost predicate Describes(s: Summary, priced: seq<Entry>) {
    && s.ticks == |priced| == |s.ids|
    && (forall i :: 0 <= i < |priced| ==> s.ids[i] == priced[i].id)
    && (forall e :: e in priced ==> e.price.Some? && s.low <= e.price.value <= s.high)
    && (priced == [] ==> s.open == s.high == s.low == s.close == 0.0)
    && (priced != [] ==>
          && Some(s.open) == priced[0].price && Some(s.close) == priced[|priced| - 1].price
          && (exists e :: e in priced && e.price == Some(s.low))
          && (exists e :: e in priced && e.price == Some(s.high)))
  }

  lemma EntryDescribes(s: Summary, priced: seq<Entry>, e: Entry)
    requires Describes(s, priced) && e.price.Some?
    ensures Describes(AddEntry(s, e.id, e.price, e.volume), priced + [e])
  {
    var s', priced' := AddEntry(s, e.id, e.price, e.volume), priced + [e];
    assert forall x :: x in priced' <==> x in priced || x == e;
    if priced != [] {
      var low :| low in priced && low.price == Some(s.low);
      var high :| high in priced && high.price == Some(s.high);
      assert low in priced' && high in priced' && e in priced';
      assert priced'[0] == priced[0];
    }
  }

  lemma {:induction false} SummaryLaw(log: seq<Entry>, k: Key)
    ensures Describes(Summarise(log, k), PricedOf(log, k))
    ensures Summarise(log, k).volume == VolumeFor(log, k)
  {
    if log != [] {
      var front, e := log[..|log| - 1], log[|log| - 1];
      SummaryLaw(front, k);
      if e.key == k && e.price.Some? {
        EntryDescribes(Summarise(front, k), PricedOf(front, k), e);
      }
    }
  }

  /**
   Every bar of every run, open or closed: its open is the first price logged for its interval, its
   close the last, low and high the extremes, its ids theirs in order, its volume the sum of theirs.
   */
  lemma {:induction false} BarsDescribeTheirPrices(cs: seq<Command>, tolerance: int)
    ensures var st, log := Run(cs, tolerance), Log(cs, tolerance);
      && (forall k :: k in st.open ==>
            Describes(st.open[k].summary, PricedOf(log, k)) && st.open[k].summary.volume == VolumeFor(log, k))
      && (forall b :: b in st.closed ==>
            Describes(b.summary, PricedOf(log, b.key)) && b.summary.volume == VolumeFor(log, b.key))
  {
    RunIsSound(cs, tolerance);
    forall k ensures Describes(Summarise(Log(cs, tolerance), k), PricedOf(Log(cs, tolerance), k))
      ensures Summarise(Log(cs, tolerance), k).volume == VolumeFor(Log(cs, tolerance), k)
    {
      SummaryLaw(Log(cs, tolerance), k);
    }
  }

  // ---- intervals -----------------------------------------------------------------------------------

  /** The start of an instant's interval is the one multiple of the width that the instant is in. */
  lemma IntervalExactly(ts: int, tf: Timeframe, start: int)
    ensures start == FloorToInterval(ts, tf)
      <==> start % (Minutes(tf) * 60_000_000) == 0 && start <= ts < start + Minutes(tf) * 60_000_000
  {
    match tf {
      case M1 => MinuteExactly(ts, start);
      case M5 => FiveMinutesExactly(ts, start);
    }
  }

  lemma MinuteExactly(ts: int, start: int)
    ensures start == ts - ts % 60_000_000 <==> start % 60_000_000 == 0 && start <= ts < start + 60_000_000
  {
    var q, r := start / 60_000_000, ts / 60_000_000;
    assert start == 60_000_000 * q + start % 60_000_000 && ts == 60_000_000 * r + ts % 60_000_000;
  }

  lemma FiveMinutesExactly(ts: int, start: int)
    ensures start == ts - ts % 300_000_000 <==> start % 300_000_000 == 0 && start <= ts < start + 300_000_000
  {
    var q, r := start / 300_000_000, ts / 300_000_000;
    assert start == 300_000_000 * q + start % 300_000_000 && ts == 300_000_000 * r + ts % 300_000_000;
  }

  // ---- what is let in ---------------------------------------------------------------------------------

  /** The command brings an observation that interval `k` lets in. */
  predicate LetIn(st: BarState, c: Command, k: Key, tolerance: int) {
    && c.Ingest? && c.observation.symbol == k.symbol && k.start == FloorToInterval(c.observation.source, k.tf)
    && (c.observation.Price().Some? || VolumeOf(st, c.observation) > 0)
    && k !in st.emitted && c.observation.received <= k.End() + tolerance * 1_000_000
  }

  predicate LetInLate(st: BarState, c: Command, k: Key, tolerance: int) {
    LetIn(st, c, k, tolerance) && c.observation.received >= k.End()
  }

  /** While `k` is open the command opens a later interval of the same symbol and timeframe. */
  predicate OpensLater(st: BarState, c: Command, k: Key, tolerance: int) {
    && k in st.open && c.Ingest?
    && var later := Key(k.symbol, k.tf, FloorToInterval(c.observation.source, k.tf));
       LetIn(st, c, later, tolerance) && later !in st.open && k.start < later.start
  }

  /** The command closes `k`. */
  predicate Closes(st: BarState, c: Command, k: Key, tolerance: int) {
    c.Close? && k in st.open && c.now >= k.End() + tolerance * 1_000_000
  }

  function MarkSet(late: bool, gap: bool): set<string> {
    (if late then {"late_data"} else {}) + (if gap then {"gap_before_next_interval"} else {})
  }

  /** The bar is marked as late and as followed by a gap exactly as given, and its flags say so. */
  predicate Marked(b: Bar, late: bool, gap: bool) {
    b.lateData == late && b.incomplete == gap && b.flags == MarkSet(late, gap)
  }

  predicate Tidy(b: Bar) {
    Marked(b, b.lateData, b.incomplete)
  }

  predicate AllTidy(open: map<Key, Bar>) {
    forall k :: k in open ==> Tidy(open[k])
  }

  lemma BarsWithMarks(open: map<Key, Bar>, key: Key, late: bool, k: Key)
    requires AllTidy(open) && k in BarsWith(open, key, late)
    ensures Marked(BarsWith(open, key, late)[k],
      (k in open && open[k].lateData) || (k == key && late),
      k in open && (open[k].incomplete
                    || (key !in open && k.symbol == key.symbol && k.tf == key.tf && k.start < key.start)))
  {
  }

  /** One timeframe's share of an observation moves the marks of that timeframe's bars only. */
  lemma ApplyMarks(st: BarState, o: Observation, tf: Timeframe, volume: int, tolerance: int, k: Key)
    requires AllTidy(st.open)
    ensures var st', key := ApplyTo(st, o, tf, volume, tolerance), KeyOf(o, tf);
      var dropped := Dropped(st, o, tf, tolerance);
      && (k in st'.open <==> k in st.open || (k == key && !dropped))
      && (k in st'.open ==> Marked(st'.open[k],
            (k in st.open && st.open[k].lateData) || (k == key && !dropped && o.received >= key.End()),
            k in st.open && (st.open[k].incomplete
              || (!dropped && key !in st.open && k.symbol == key.symbol && k.tf == key.tf && k.start < key.start))))
  {
    if !Dropped(st, o, tf, tolerance) {
      BarsWithKeys(st.open, KeyOf(o, tf), o.received >= KeyOf(o, tf).End());
      if k in BarsWith(st.open, KeyOf(o, tf), o.received >= KeyOf(o, tf).End()) {
        BarsWithMarks(st.open, KeyOf(o, tf), o.received >= KeyOf(o, tf).End(), k);
      }
    }
  }

  lemma ApplyLeavesOthers(st: BarState, o: Observation, tf: Timeframe, volume: int, tolerance: int)
    requires AllTidy(st.open)
    ensures var st' := ApplyTo(st, o, tf, volume, tolerance);
      && AllTidy(st'.open) && st'.emitted == st.emitted
      && (forall k: Key :: k.tf != tf ==> (k in st'.open <==> k in st.open))
      && (forall k: Key :: k.tf != tf && k in st.open ==> st'.open[k] == st.open[k])
  {
    if !Dropped(st, o, tf, tolerance) {
      BarsWithLeavesOthers(st.open, KeyOf(o, tf), o.received >= KeyOf(o, tf).End());
    }
  }

  lemma BarsWithLeavesOthers(open: map<Key, Bar>, key: Key, late: bool)
    requires AllTidy(open)
    ensures var open' := BarsWith(open, key, late);
      && key in open' && AllTidy(open')
      && (forall k: Key :: k.tf != key.tf ==> (k in open' <==> k in open))
      && (forall k: Key :: k.tf != key.tf && k in open ==> open'[k] == open[k])
  {
  }

  /** What a contributing observation does to the bar of `k` is decided in its own timeframe. */
  lemma IngestIsOneApply(st: BarState, o: Observation, tolerance: int, k: Key)
    requires AllTidy(st.open) && Contributes(o, VolumeOf(st, o))
    ensures var st' := Ingested(st, o, tolerance);
      var one := ApplyTo(AfterVolume(st, o), o, k.tf, VolumeOf(st, o), tolerance);
      && (k in st'.open <==> k in one.open)
      && (k in one.open ==> st'.open[k].lateData == one.open[k].lateData && st'.open[k].flags == one.open[k].flags
                            && st'.open[k].incomplete == one.open[k].incomplete)
  {
    var volume, counted := VolumeOf(st, o), AfterVolume(st, o);
    var mid := ApplyTo(counted, o, M1, volume, tolerance);
    ApplyLeavesOthers(counted, o, M1, volume, tolerance);
    ApplyLeavesOthers(mid, o, M5, volume, tolerance);
    if k.tf == M5 {
      ApplyMarks(counted, o, M5, volume, tolerance, k);
      ApplyMarks(mid, o, M5, volume, tolerance, k);
    }
  }

  lemma IngestMarks(st: BarState, o: Observation, tolerance: int, k: Key)
    requires AllTidy(st.open)
    ensures var st', c := Ingested(st, o, tolerance), Ingest(o);
      && (k in st'.open <==> k in st.open || LetIn(st, c, k, tolerance))
      && (k in st'.open ==> Marked(st'.open[k],
            (k in st.open && st.open[k].lateData) || LetInLate(st, c, k, tolerance),
            k in st.open && (st.open[k].incomplete || OpensLater(st, c, k, tolerance))))
  {
    var volume := VolumeOf(st, o);
    if Contributes(o, volume) {
      IngestIsOneApply(st, o, tolerance, k);
      ApplyMarks(AfterVolume(st, o), o, k.tf, volume, tolerance, k);
    }
  }

  lemma ApplyKeepsEmitted(st: BarState, o: Observation, tf: Timeframe, volume: int, tolerance: int)
    ensures ApplyTo(st, o, tf, volume, tolerance).emitted == st.emitted
  {
  }

  lemma IngestKeepsEmitted(st: BarState, o: Observation, tolerance: int)
    ensures Ingested(st, o, tolerance).emitted == st.emitted
  {
    var volume, counted := VolumeOf(st, o), AfterVolume(st, o);
    ApplyKeepsEmitted(counted, o, M1, volume, tolerance);
    ApplyKeepsEmitted(ApplyTo(counted, o, M1, volume, tolerance), o, M5, volume, tolerance);
  }

  lemma CloseMarks(st: BarState, now: int, tolerance: int, k: Key)
    requires WellOrdered(st)
    ensures var st' := Closed(st, now, tolerance);
      && (k in st'.open <==> k in st.open && !Closes(st, Close(now), k, tolerance))
      && (k in st'.open ==> st'.open[k] == st.open[k])
      && (k in st'.emitted <==> k in st.emitted || Closes(st, Close(now), k, tolerance))
  {
    CloseFacts(st, now, tolerance);
  }

  // ---- marks over runs ----------------------------------------------------------------------------------

  /** What can happen to an interval. */
  datatype Happening = IsLetIn | IsLate | IsOvertaken | IsClosed

  predicate Happens(h: Happening, st: BarState, c: Command, tolerance: int, k: Key) {
    match h
    case IsLetIn => LetIn(st, c, k, tolerance)
    case IsLate => LetInLate(st, c, k, tolerance)
    case IsOvertaken => OpensLater(st, c, k, tolerance)
    case IsClosed => Closes(st, c, k, tolerance)
  }

  predicate HappensAt(h: Happening, cs: seq<Command>, tolerance: int, k: Key, i: int) {
    0 <= i < |cs| && Happens(h, Run(cs[..i], tolerance), cs[i], tolerance, k)
  }

  ghost predicate Happened(h: Happening, cs: seq<Command>, tolerance: int, k: Key) {
    exists i :: HappensAt(h, cs, tolerance, k, i)
  }

  lemma HappenedBy(h: Happening, front: seq<Command>, c: Command, tolerance: int, k: Key)
    ensures Happened(h, front + [c], tolerance, k)
      <==> Happened(h, front, tolerance, k) || Happens(h, Run(front, tolerance), c, tolerance, k)
  {
    var cs := front + [c];
    forall i | 0 <= i < |front| ensures HappensAt(h, cs, tolerance, k, i) <==> HappensAt(h, front, tolerance, k, i) {
      assert cs[..i] == front[..i];
    }
    assert cs[..|front|] == front;
    assert HappensAt(h, cs, tolerance, k, |front|) <==> Happens(h, Run(front, tolerance), c, tolerance, k);
  }

  /** A closed bar carries the marks of the open one, and says when it is incomplete, late or empty. */
  predicate ClosedMarked(b: MarketBar, late: bool, gap: bool) {
    && b.lateData == late && (b.incomplete <==> gap || b.summary.ticks == 0)
    && b.flags == MarkSet(late, gap)
                  + (if late then {"includes_late_ticks"} else {})
                  + (if b.incomplete then {"incomplete"} else {})
                  + (if b.summary.ticks == 0 then {"empty_interval"} else {})
  }

  ghost predicate MarksAre(cs: seq<Command>, tolerance: int, st: BarState) {
    && (forall k :: k in st.open ==>
          Marked(st.open[k], Happened(IsLate, cs, tolerance, k), Happened(IsOvertaken, cs, tolerance, k)))
    && (forall b :: b in st.closed ==>
          ClosedMarked(b, Happened(IsLate, cs, tolerance, b.key), Happened(IsOvertaken, cs, tolerance, b.key)))
    && (forall k :: k in st.emitted <==> Happened(IsClosed, cs, tolerance, k))
    && (forall k :: k in st.open || k in st.emitted <==> Happened(IsLetIn, cs, tolerance, k))
    && (forall k :: Happened(IsLate, cs, tolerance, k) || Happened(IsOvertaken, cs, tolerance, k) ==>
          Happened(IsLetIn, cs, tolerance, k))
  }

  lemma EmittedMarks(keys: seq<Key>, open: map<Key, Bar>, b: MarketBar)
    requires (forall k :: k in keys ==> k in open) && AllTidy(open) && b in EmitAll(keys, open)
    ensures b.key in keys && ClosedMarked(b, open[b.key].lateData, open[b.key].incomplete)
  {
    EmitAllShape(keys, open);
  }

  /** What happens to an interval's bar, in one step of a run. */
  lemma StepMarks(st: BarState, c: Command, tolerance: int, k: Key)
    requires WellOrdered(st) && AllTidy(st.open)
    ensures var st' := Step(st, c, tolerance);
      && (k in st'.open <==> (k in st.open && !Closes(st, c, k, tolerance)) || LetIn(st, c, k, tolerance))
      && (k in st'.emitted <==> k in st.emitted || Closes(st, c, k, tolerance))
      && (k in st'.open ==> Marked(st'.open[k],
            (k in st.open && st.open[k].lateData) || LetInLate(st, c, k, tolerance),
            k in st.open && (st.open[k].incomplete || OpensLater(st, c, k, tolerance))))
  {
    match c {
      case Ingest(o) =>
        IngestMarks(st, o, tolerance, k);
        IngestKeepsEmitted(st, o, tolerance);
      case Close(now) => CloseMarks(st, now, tolerance, k);
    }
  }

  /**
   The marks of every bar of every run, open or closed. An interval has a bar once an observation is
   let in, and has been emitted once a close reached it; its bar is late exactly when some
   observation was let in at or after the end, and incomplete exactly when it was overtaken or empty.
   */
  lemma {:induction false} MarksExactly(cs: seq<Command>, tolerance: int)
    ensures MarksAre(cs, tolerance, Run(cs, tolerance))
  {
    if cs != [] {
      var front, c := cs[..|cs| - 1], cs[|cs| - 1];
      MarksExactly(front, tolerance);
      assert cs == front + [c];
      MarksStep(front, c, tolerance, Run(front, tolerance));
    }
  }

  lemma {:induction false} AllHappenedBy(front: seq<Command>, c: Command, tolerance: int, st: BarState, k: Key)
    requires st == Run(front, tolerance)
    ensures forall h :: Happened(h, front + [c], tolerance, k) <==>
      Happened(h, front, tolerance, k) || Happens(h, st, c, tolerance, k)
  {
    forall h ensures Happened(h, front + [c], tolerance, k) <==>
      Happened(h, front, tolerance, k) || Happens(h, st, c, tolerance, k)
    {
      HappenedBy(h, front, c, tolerance, k);
    }
  }

  lemma {:induction false} MarksStep(front: seq<Command>, c: Command, tolerance: int, st: BarState)
    requires st == Run(front, tolerance) && MarksAre(front, tolerance, st)
    ensures MarksAre(front + [c], tolerance, Step(st, c, tolerance))
  {
    RunIsSound(front, tolerance);
    var st' := Step(st, c, tolerance);
    forall k
      ensures k in st'.open ==> Marked(st'.open[k], Happened(IsLate, front + [c], tolerance, k),
                                       Happened(IsOvertaken, front + [c], tolerance, k))
      ensures k in st'.emitted <==> Happened(IsClosed, front + [c], tolerance, k)
      ensures k in st'.open || k in st'.emitted <==> Happened(IsLetIn, front + [c], tolerance, k)
      ensures Happened(IsLate, front + [c], tolerance, k) || Happened(IsOvertaken, front + [c], tolerance, k) ==>
        Happened(IsLetIn, front + [c], tolerance, k)
    {
      AllHappenedBy(front, c, tolerance, st, k);
      StepMarks(st, c, tolerance, k);
    }
    ClosedMarksStep(front, c, tolerance, st);
  }

  lemma ClosedMarksStep(front: seq<Command>, c: Command, tolerance: int, st: BarState)
    requires st == Run(front, tolerance) && MarksAre(front, tolerance, st) && OnceEach(st)
    ensures forall b :: b in Step(st, c, tolerance).closed ==>
      ClosedMarked(b, Happened(IsLate, front + [c], tolerance, b.key),
                   Happened(IsOvertaken, front + [c], tolerance, b.key))
  {
    forall b | b in Step(st, c, tolerance).closed
      ensures ClosedMarked(b, Happened(IsLate, front + [c], tolerance, b.key),
                           Happened(IsOvertaken, front + [c], tolerance, b.key))
    {
      AllHappenedBy(front, c, tolerance, st, b.key);
      if b !in st.closed {
        NewlyClosed(st, c, tolerance, b);
      }
    }
  }

  lemma NewlyClosed(st: BarState, c: Command, tolerance: int, b: MarketBar)
    requires WellOrdered(st) && AllTidy(st.open) && b in Step(st, c, tolerance).closed && b !in st.closed
    ensures c.Close? && b.key in st.open && ClosedMarked(b, st.open[b.key].lateData, st.open[b.key].incomplete)
  {
    match c {
      case Ingest(o) =>
        var volume, counted := VolumeOf(st, o), AfterVolume(st, o);
        ApplyKeepsClosed(counted, o, M1, volume, tolerance);
        ApplyKeepsClosed(ApplyTo(counted, o, M1, volume, tolerance), o, M5, volume, tolerance);
      case Close(now) =>
        CloseFacts(st, now, tolerance);
        EmittedMarks(ReadyKeys(st.order, now, tolerance), st.open, b);
    }
  }

  // ---- what is logged -----------------------------------------------------------------------------------

  /** The id has fed no interval of the timeframe yet. */
  predicate NewTo(log: seq<Entry>, id: nat, tf: Timeframe) {
    forall e :: e in log ==> e.id != id || e.key.tf != tf
  }

  /** What one timeframe logs of a command. */
  function LoggedOf(st: BarState, log: seq<Entry>, c: Command, tf: Timeframe, tolerance: int): seq<Entry> {
    if c.Close? then []
    else
      var o, k := c.observation, Key(c.observation.symbol, tf, FloorToInterval(c.observation.source, tf));
      if LetIn(st, c, k, tolerance) && NewTo(log, o.id, tf) then [Entry(k, o.id, o.Price(), VolumeOf(st, o))] else []
  }

  lemma AcceptedIsNew(st: BarState, log: seq<Entry>, o: Observation, tf: Timeframe)
    requires FedOnce(st, log)
    ensures (o.id, tf) !in st.assignedObs <==> NewTo(log, o.id, tf)
  {
    var p := (o.id, tf);
    if p in st.assignedObs {
      var e :| e in log && e.id == p.0 && e.key.tf == p.1;
    }
  }

  lemma EntriesExactly(st: BarState, log: seq<Entry>, o: Observation, tolerance: int)
    requires FedOnce(st, log)
    ensures IngestedEntries(st, o, tolerance)
      == LoggedOf(st, log, Ingest(o), M1, tolerance) + LoggedOf(st, log, Ingest(o), M5, tolerance)
  {
    AcceptedIsNew(st, log, o, M1);
    AcceptedIsNew(st, log, o, M5);
    IngestEffects(st, o, tolerance);
  }

  /** An interval logs exactly what it lets in, once for each observation and timeframe, and nothing else. */
  lemma {:induction false} LogExactly(cs: seq<Command>, c: Command, tolerance: int)
    ensures var st, log := Run(cs, tolerance), Log(cs, tolerance);
      Log(cs + [c], tolerance) == log + (LoggedOf(st, log, c, M1, tolerance) + LoggedOf(st, log, c, M5, tolerance))
  {
    var st, log := Run(cs, tolerance), Log(cs, tolerance);
    assert (cs + [c])[..|cs|] == cs;
    RunIsSound(cs, tolerance);
    if c.Ingest? {
      EntriesExactly(st, log, c.observation, tolerance);
    }
  }

  // ---- findings --------------------------------------------------------------------------------------------

  /** One timeframe's complaint about a contributing observation that its interval turns away. */
  function DropsOf(st: BarState, c: Command, tf: Timeframe, tolerance: int): seq<Finding> {
    if c.Close? || (c.observation.Price().None? && VolumeOf(st, c.observation) <= 0) then []
    else
      var o, k := c.observation, Key(c.observation.symbol, tf, FloorToInterval(c.observation.source, tf));
      if k in st.emitted then [Finding(DroppedAfterClose, o.symbol, Some(tf), Some(o.id))]
      else if o.received > k.End() + tolerance * 1_000_000
      then [Finding(DroppedTooLate, o.symbol, Some(tf), Some(o.id))]
      else []
  }

  /** A cumulative volume below the one reported before. */
  function RegressionOf(cs: seq<Command>, c: Command): seq<Finding> {
    if c.Ingest? && c.observation.cumulative.Some? && LastReport(cs, c.observation.symbol).Some?
       && c.observation.cumulative.value < LastReport(cs, c.observation.symbol).value
    then [Finding(CumulativeVolumeRegression, c.observation.symbol, None, None)]
    else []
  }

  /** The cumulative volume last reported for the symbol. */
  function LastReport(cs: seq<Command>, symbol: string): Option<int> {
    if cs == [] then None
    else
      var c := cs[|cs| - 1];
      if c.Ingest? && c.observation.symbol == symbol && c.observation.cumulative.Some? then c.observation.cumulative
      else LastReport(cs[..|cs| - 1], symbol)
  }

  lemma {:induction false} LastReportIsKept(cs: seq<Command>, tolerance: int, symbol: string)
    ensures LastCum(Run(cs, tolerance), symbol) == LastReport(cs, symbol)
  {
    if cs != [] {
      LastReportIsKept(cs[..|cs| - 1], tolerance, symbol);
      StepCum(Run(cs[..|cs| - 1], tolerance), cs[|cs| - 1], tolerance, symbol);
    }
  }

  function FindingsOf(cs: seq<Command>, tolerance: int): seq<Finding> {
    if cs == [] then []
    else
      var front, c := cs[..|cs| - 1], cs[|cs| - 1];
      var st := Run(front, tolerance);
      FindingsOf(front, tolerance)
      + RegressionOf(front, c) + DropsOf(st, c, M1, tolerance) + DropsOf(st, c, M5, tolerance)
  }

  lemma ApplyFindings(st: BarState, counted: BarState, o: Observation, tf: Timeframe, volume: int, tolerance: int)
    requires volume == VolumeOf(st, o) && Contributes(o, volume) && counted.emitted == st.emitted
    ensures ApplyTo(counted, o, tf, volume, tolerance).findings
      == counted.findings + DropsOf(st, Ingest(o), tf, tolerance)
  {
  }

  lemma IngestFindings(cs: seq<Command>, o: Observation, tolerance: int, st: BarState)
    requires st == Run(cs, tolerance)
    ensures Ingested(st, o, tolerance).findings
      == st.findings + RegressionOf(cs, Ingest(o)) + DropsOf(st, Ingest(o), M1, tolerance)
         + DropsOf(st, Ingest(o), M5, tolerance)
  {
    LastReportIsKept(cs, tolerance, o.symbol);
    var volume, counted := VolumeOf(st, o), AfterVolume(st, o);
    assert counted.findings == st.findings + RegressionOf(cs, Ingest(o));
    if Contributes(o, volume) {
      ApplyFindings(st, counted, o, M1, volume, tolerance);
      ApplyKeepsEmitted(counted, o, M1, volume, tolerance);
      ApplyFindings(st, ApplyTo(counted, o, M1, volume, tolerance), o, M5, volume, tolerance);
    }
  }

  /** The findings of every run: each regression and each observation turned away, once per timeframe, in order. */
  lemma {:induction false} FindingsExactly(cs: seq<Command>, tolerance: int)
    ensures Run(cs, tolerance).findings == FindingsOf(cs, tolerance)
  {
    if cs != [] {
      var front, c := cs[..|cs| - 1], cs[|cs| - 1];
      FindingsExactly(front, tolerance);
      if c.Ingest? {
        IngestFindings(front, c.observation, tolerance, Run(front, tolerance));
      }
    }
  }

  // ---- the volume policy -------------------------------------------------------------------------------------

  /** The cumulative volumes reported for the symbol, in order. */
  function Reports(cs: seq<Command>, symbol: string): seq<int> {
    if cs == [] then []
    else
      var front, c := Reports(cs[..|cs| - 1], symbol), cs[|cs| - 1];
      if c.Ingest? && c.observation.symbol == symbol && c.observation.cumulative.Some?
      then front + [c.observation.cumulative.value] else front
  }

  /** The sum of the rises from each report to the next. */
  function Rises(reports: seq<int>): int {
    if |reports| < 2 then 0
    else
      var n := |reports|;
      Rises(reports[..n - 1]) + if reports[n - 1] > reports[n - 2] then reports[n - 1] - reports[n - 2] else 0
  }

  /** The trade carries no cumulative volume that continues an earlier one. */
  predicate SizeCounts(cs: seq<Command>, o: Observation) {
    && o.Trade?
    && (o.cumulative.None? || LastReport(cs, o.symbol).None? || o.cumulative.value < LastReport(cs, o.symbol).value)
  }

  /** The sizes of those trades. */
  function CountedSizes(cs: seq<Command>, symbol: string): int {
    if cs == [] then 0
    else
      var front, c := cs[..|cs| - 1], cs[|cs| - 1];
      CountedSizes(front, symbol)
      + if c.Ingest? && c.observation.symbol == symbol && SizeCounts(front, c.observation) then c.observation.size
        else 0
  }

  lemma {:induction false} LastOfReports(cs: seq<Command>, symbol: string)
    ensures var reports := Reports(cs, symbol);
      LastReport(cs, symbol) == if reports == [] then None else Some(reports[|reports| - 1])
  {
    if cs != [] {
      LastOfReports(cs[..|cs| - 1], symbol);
    }
  }

  lemma {:induction false} RisesOfMore(reports: seq<int>, next: int)
    ensures Rises(reports + [next])
      == Rises(reports) + if reports != [] && next > reports[|reports| - 1] then next - reports[|reports| - 1] else 0
  {
    assert (reports + [next])[..|reports|] == reports;
  }

  /** What the next report adds to the rises. */
  function NextRise(reports: seq<int>, next: Option<int>): int {
    if next.Some? && reports != [] && next.value > reports[|reports| - 1]
    then next.value - reports[|reports| - 1] else 0
  }

  lemma {:induction false} OneVolume(cs: seq<Command>, o: Observation, tolerance: int)
    ensures VolumeOf(Run(cs, tolerance), o)
      == NextRise(Reports(cs, o.symbol), o.cumulative) + if SizeCounts(cs, o) then o.size else 0
  {
    LastReportIsKept(cs, tolerance, o.symbol);
    LastOfReports(cs, o.symbol);
  }

  lemma {:induction false} RisesOfNext(cs: seq<Command>, c: Command, symbol: string)
    ensures Rises(Reports(cs + [c], symbol)) == Rises(Reports(cs, symbol))
      + if c.Ingest? && c.observation.symbol == symbol then NextRise(Reports(cs, symbol), c.observation.cumulative)
        else 0
  {
    assert (cs + [c])[..|cs|] == cs;
    if c.Ingest? && c.observation.symbol == symbol && c.observation.cumulative.Some? {
      RisesOfMore(Reports(cs, symbol), c.observation.cumulative.value);
    }
  }

  /**
   The volume policy over every feed: what is resolved for a symbol is every rise of its cumulative
   volume, which wins over a trade's size, and the sizes of the trades without a valid rise.
   */
  lemma {:induction false} VolumesAreRisesAndSizes(cs: seq<Command>, tolerance: int, symbol: string)
    ensures ResolvedTotal(cs, tolerance, symbol) == Rises(Reports(cs, symbol)) + CountedSizes(cs, symbol)
  {
    if cs != [] {
      var front, c := cs[..|cs| - 1], cs[|cs| - 1];
      assert cs == front + [c];
      VolumesAreRisesAndSizes(front, tolerance, symbol);
      RisesOfNext(front, c, symbol);
      if c.Ingest? && c.observation.symbol == symbol {
        OneVolume(front, c.observation, tolerance);
      }
    }
  }

  // ---- prices of quotes -----------------------------------------------------------------------------------------

  /** Both sides are quoted, and not crossed. */
  predicate ValidPair(bid: Option<real>, ask: Option<real>) {
    bid.Some? && ask.Some? && 0.0 < bid.value <= ask.value
  }

  /** The first of the listed prices that is positive. */
  function FirstPositive(prices: seq<Option<real>>): Option<real> {
    if prices == [] then None
    else if prices[0].Some? && prices[0].value > 0.0 then prices[0]
    else FirstPositive(prices[1..])
  }

  /** A quote is worth the middle of a valid pair, else last, bid or ask, the first of them that is positive. */
  lemma QuotePriceExactly(bid: Option<real>, ask: Option<real>, last: Option<real>)
    ensures ValidPair(bid, ask) ==>
      var p := QuotePrice(bid, ask, last);
      p.Some? && bid.value <= p.value <= ask.value && p.value - bid.value == ask.value - p.value
    ensures !ValidPair(bid, ask) ==> QuotePrice(bid, ask, last) == FirstPositive([last, bid, ask])
  {
    assert FirstPositive([last, bid, ask]) ==
      if Positive(last) then last else if Positive(bid) then bid else if Positive(ask) then ask else None by {
      assert [last, bid, ask][1..] == [bid, ask] && [bid, ask][1..] == [ask] && [ask][1..] == [];
      assert FirstPositive([ask]) == if Positive(ask) then ask else None;
      assert FirstPositive([bid, ask]) == if Positive(bid) then bid else FirstPositive([ask]);
    }
  }
}
