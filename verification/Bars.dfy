/**
 Bar aggregation as a state machine (joker/market/bars.py). Besides the next state every
 step yields the entries it accepted, so that bars can be compared with what fed them.
 */
module Bars {
  import opened Options

  /** Instants are microseconds of exchange wall-clock time. */
  const TICKS_PER_SECOND := 1_000_000

  datatype Timeframe = M1 | M5

  function Minutes(tf: Timeframe): int {
    match tf
    case M1 => 1
    case M5 => 5
  }

  function Width(tf: Timeframe): int {
    Minutes(tf) * 60 * TICKS_PER_SECOND
  }

  function FloorToInterval(ts: int, tf: Timeframe): int {
    match tf
    case M1 => ts - ts % 60_000_000
    case M5 => ts - ts % 300_000_000
  }

  function IntervalEnd(start: int, tf: Timeframe): int {
    start + Width(tf)
  }

  datatype Observation =
    | Quote(id: nat, symbol: string, source: int, received: int, cumulative: Option<int>,
            bid: Option<real>, ask: Option<real>, last: Option<real>)
    | Underlying(id: nat, symbol: string, source: int, received: int, cumulative: Option<int>,
                 bid: Option<real>, ask: Option<real>, last: Option<real>)
    | Trade(id: nat, symbol: string, source: int, received: int, cumulative: Option<int>,
            price: real, size: nat)
  {
    function Price(): Option<real> {
      if Trade? then Some(price) else QuotePrice(bid, ask, last)
    }

    function TradeSize(): Option<int> {
      if Trade? then Some(size) else None
    }
  }

  predicate Positive(x: Option<real>) {
    x.Some? && x.value > 0.0
  }

  function QuotePrice(bid: Option<real>, ask: Option<real>, last: Option<real>): Option<real> {
    if Positive(bid) && Positive(ask) && ask.value >= bid.value then Some((bid.value + ask.value) / 2.0)
    else if Positive(last) then last
    else if Positive(bid) then bid
    else if Positive(ask) then ask
    else None
  }

  datatype Key = Key(symbol: string, tf: Timeframe, start: int) {
    function End(): int { IntervalEnd(start, tf) }
  }

  function KeyOf(o: Observation, tf: Timeframe): Key {
    Key(o.symbol, tf, FloorToInterval(o.source, tf))
  }

  /** What the accepted entries of an interval amount to. */
  datatype Summary = Summary(ticks: nat, open: real, high: real, low: real, close: real, volume: int, ids: seq<nat>)

  const NOTHING := Summary(0, 0.0, 0.0, 0.0, 0.0, 0, [])

  datatype Bar = Bar(summary: Summary, lateData: bool, incomplete: bool, flags: set<string>)

  datatype MarketBar = MarketBar(key: Key, summary: Summary, flags: set<string>, incomplete: bool, lateData: bool)

  datatype FindingCode = CumulativeVolumeRegression | DroppedAfterClose | DroppedTooLate

  datatype Finding = Finding(code: FindingCode, symbol: string, tf: Option<Timeframe>, id: Option<nat>)

  /** `order` is the insertion order of the dictionary of open bars. */
  datatype BarState = BarState(
    open: map<Key, Bar>,
    order: seq<Key>,
    emitted: set<Key>,
    lastCum: map<string, int>,
    closed: seq<MarketBar>,
    findings: seq<Finding>,
    assignedObs: set<(nat, Timeframe)>)

  const INITIAL := BarState(map[], [], {}, map[], [], [], {})

  /** One contribution to one bar. */
  datatype Entry = Entry(key: Key, id: nat, price: Option<real>, volume: int)

  // ---- volume policy ----------------------------------------------------------------------

  /** The volume of one observation: a non-negative cumulative delta, else a positive trade size. */
  function ResolvedVolume(prev: Option<int>, cumulative: Option<int>, tradeSize: Option<int>): int {
    if cumulative.Some? && prev.Some? && cumulative.value >= prev.value then cumulative.value - prev.value
    else if tradeSize.Some? && tradeSize.value > 0 then tradeSize.value
    else 0
  }

  function LastCum(st: BarState, symbol: string): Option<int> {
    if symbol in st.lastCum then Some(st.lastCum[symbol]) else None
  }

  function VolumeOf(st: BarState, o: Observation): int {
    ResolvedVolume(LastCum(st, o.symbol), o.cumulative, o.TradeSize())
  }

  function AfterVolume(st: BarState, o: Observation): BarState {
    if o.cumulative.None? then st
    else
      var prev := LastCum(st, o.symbol);
      st.(lastCum := st.lastCum[o.symbol := o.cumulative.value],
          findings := if prev.Some? && o.cumulative.value < prev.value
                      then st.findings + [Finding(CumulativeVolumeRegression, o.symbol, None, None)]
                      else st.findings)
  }

  // ---- one timeframe ------------------------------------------------------------------------

  predicate TooLate(o: Observation, tf: Timeframe, tolerance: int) {
    o.received > KeyOf(o, tf).End() + tolerance * TICKS_PER_SECOND
  }

  /** The interval turns the observation away. */
  predicate Dropped(st: BarState, o: Observation, tf: Timeframe, tolerance: int) {
    KeyOf(o, tf) in st.emitted || TooLate(o, tf, tolerance)
  }

  predicate Accepts(st: BarState, o: Observation, tf: Timeframe, tolerance: int) {
    !Dropped(st, o, tf, tolerance) && (o.id, tf) !in st.assignedObs
  }

  function AddEntry(s: Summary, id: nat, price: Option<real>, volume: int): Summary {
    var priced :=
      if price.None? then s
      else if s.ticks == 0 then
        s.(ticks := 1, open := price.value, high := price.value, low := price.value, close := price.value,
           ids := s.ids + [id])
      else
        s.(ticks := s.ticks + 1,
           high := if price.value > s.high then price.value else s.high,
           low := if price.value < s.low then price.value else s.low,
           close := price.value,
           ids := s.ids + [id]);
    priced.(volume := priced.volume + (if volume > 0 then volume else 0))
  }

  function MarkLate(b: Bar): Bar {
    b.(lateData := true, flags := b.flags + {"late_data"})
  }

  function MarkGap(b: Bar): Bar {
    b.(incomplete := true, flags := b.flags + {"gap_before_next_interval"})
  }

  /** A newer interval marks the open bars before it as incomplete. */
  function WithGaps(open: map<Key, Bar>, key: Key): map<Key, Bar> {
    map k | k in open ::
      if k.symbol == key.symbol && k.tf == key.tf && k.start < key.start then MarkGap(open[k]) else open[k]
  }

  function Blank(late: bool): Bar {
    if late then MarkLate(Bar(NOTHING, false, false, {})) else Bar(NOTHING, false, false, {})
  }

  /** The open bars once interval `key` has one, marked if the observation is late. */
  function BarsWith(open: map<Key, Bar>, key: Key, late: bool): map<Key, Bar> {
    if key in open then
      if late then open[key := MarkLate(open[key])] else open
    else
      WithGaps(open, key)[key := Blank(late)]
  }

  function OrderWith(open: map<Key, Bar>, order: seq<Key>, key: Key): seq<Key> {
    if key in open then order else order + [key]
  }

  /** The state in which the observation's bar exists. */
  function WithBar(st: BarState, o: Observation, tf: Timeframe): BarState {
    var key := KeyOf(o, tf);
    st.(open := BarsWith(st.open, key, o.received >= key.End()), order := OrderWith(st.open, st.order, key))
  }

  /** The open bars once `key` has taken one contribution. */
  function Fed(open: map<Key, Bar>, key: Key, id: nat, price: Option<real>, volume: int): map<Key, Bar>
    requires key in open
  {
    open[key := open[key].(summary := AddEntry(open[key].summary, id, price, volume))]
  }

  function DropFinding(st: BarState, o: Observation, tf: Timeframe): Finding {
    Finding(if KeyOf(o, tf) in st.emitted then DroppedAfterClose else DroppedTooLate, o.symbol, Some(tf), Some(o.id))
  }

  function ApplyTo(st: BarState, o: Observation, tf: Timeframe, volume: int, tolerance: int): BarState {
    var key := KeyOf(o, tf);
    if Dropped(st, o, tf, tolerance) then st.(findings := st.findings + [DropFinding(st, o, tf)])
    else
      var ready := WithBar(st, o, tf);
      if (o.id, tf) in st.assignedObs then ready
      else
        ready.(open := Fed(ready.open, key, o.id, o.Price(), volume),
               assignedObs := ready.assignedObs + {(o.id, tf)})
  }

  function EntryOf(o: Observation, tf: Timeframe, volume: int): Entry {
    Entry(KeyOf(o, tf), o.id, o.Price(), volume)
  }

  function EntriesOf(st: BarState, o: Observation, tf: Timeframe, volume: int, tolerance: int): seq<Entry> {
    if Accepts(st, o, tf, tolerance) then [EntryOf(o, tf, volume)] else []
  }

  // ---- ingesting and closing ------------------------------------------------------------------

  predicate Contributes(o: Observation, volume: int) {
    o.Price().Some? || volume > 0
  }

  function Ingested(st: BarState, o: Observation, tolerance: int): BarState {
    var volume, counted := VolumeOf(st, o), AfterVolume(st, o);
    if !Contributes(o, volume) then counted
    else ApplyTo(ApplyTo(counted, o, M1, volume, tolerance), o, M5, volume, tolerance)
  }

  function IngestedEntries(st: BarState, o: Observation, tolerance: int): seq<Entry> {
    var volume, counted := VolumeOf(st, o), AfterVolume(st, o);
    if !Contributes(o, volume) then []
    else
      EntriesOf(counted, o, M1, volume, tolerance)
      + EntriesOf(ApplyTo(counted, o, M1, volume, tolerance), o, M5, volume, tolerance)
  }

  predicate Ready(k: Key, now: int, tolerance: int) {
    now >= k.End() + tolerance * TICKS_PER_SECOND
  }

  function ReadyKeys(keys: seq<Key>, now: int, tolerance: int): seq<Key> {
    if keys == [] then []
    else
      var front, last := keys[..|keys| - 1], keys[|keys| - 1];
      if Ready(last, now, tolerance) then ReadyKeys(front, now, tolerance) + [last]
      else ReadyKeys(front, now, tolerance)
  }

  function HeldKeys(keys: seq<Key>, now: int, tolerance: int): seq<Key> {
    if keys == [] then []
    else
      var front, last := keys[..|keys| - 1], keys[|keys| - 1];
      if Ready(last, now, tolerance) then HeldKeys(front, now, tolerance)
      else HeldKeys(front, now, tolerance) + [last]
  }

  function Emit(key: Key, b: Bar): MarketBar {
    var incomplete := b.summary.ticks == 0 || b.incomplete;
    MarketBar(key, b.summary,
              b.flags
              + (if b.lateData then {"includes_late_ticks"} else {})
              + (if incomplete then {"incomplete"} else {})
              + (if b.summary.ticks == 0 then {"empty_interval"} else {}),
              incomplete, b.lateData)
  }

  function EmitAll(keys: seq<Key>, open: map<Key, Bar>): seq<MarketBar>
    requires forall k :: k in keys ==> k in open
  {
    if keys == [] then []
    else EmitAll(keys[..|keys| - 1], open) + [Emit(keys[|keys| - 1], open[keys[|keys| - 1]])]
  }

  /** The dictionary of open bars and its order name the same keys, each once. */
  ghost predicate WellOrdered(st: BarState) {
    Lists(st.order, st.open.Keys)
  }

  ghost predicate Lists(order: seq<Key>, keys: set<Key>) {
    (forall k :: k in order <==> k in keys) && Distinct(order)
  }

  lemma ListsWithKey(order: seq<Key>, keys: set<Key>, key: Key)
    requires Lists(order, keys)
    ensures Lists(if key in keys then order else order + [key], keys + {key})
  {
    if key in keys {
      assert keys + {key} == keys;
    } else {
      DistinctAppend(order, key);
    }
  }

  lemma {:induction false} ReadyAndHeld(keys: seq<Key>, now: int, tolerance: int)
    ensures forall k :: k in ReadyKeys(keys, now, tolerance) <==> k in keys && Ready(k, now, tolerance)
    ensures forall k :: k in HeldKeys(keys, now, tolerance) <==> k in keys && !Ready(k, now, tolerance)
  {
    if keys != [] {
      ReadyAndHeld(keys[..|keys| - 1], now, tolerance);
      assert keys == keys[..|keys| - 1] + [keys[|keys| - 1]];
    }
  }

  function Closed(st: BarState, now: int, tolerance: int): BarState
    requires forall k :: k in st.order ==> k in st.open
  {
    ReadyAndHeld(st.order, now, tolerance);
    var ready := ReadyKeys(st.order, now, tolerance);
    st.(open := st.open - (set k | k in ready),
        order := HeldKeys(st.order, now, tolerance),
        emitted := st.emitted + (set k | k in ready),
        closed := st.closed + EmitAll(ready, st.open))
  }

  // ---- runs -------------------------------------------------------------------------------------

  datatype Command = Ingest(observation: Observation) | Close(now: int)

  function Step(st: BarState, c: Command, tolerance: int): BarState
    requires forall k :: k in st.order ==> k in st.open
  {
    match c
    case Ingest(o) => Ingested(st, o, tolerance)
    case Close(now) => Closed(st, now, tolerance)
  }

  lemma BarsWithKeys(open: map<Key, Bar>, key: Key, late: bool)
    ensures BarsWith(open, key, late).Keys == open.Keys + {key}
  {
    if key !in open {
      assert WithGaps(open, key).Keys == open.Keys;
    }
  }

  lemma ApplyKeys(st: BarState, o: Observation, tf: Timeframe, volume: int, tolerance: int)
    ensures var st' := ApplyTo(st, o, tf, volume, tolerance);
      && (Dropped(st, o, tf, tolerance) ==> st'.open == st.open && st'.order == st.order)
      && (!Dropped(st, o, tf, tolerance) ==>
            && st'.open.Keys == st.open.Keys + {KeyOf(o, tf)}
            && st'.order == if KeyOf(o, tf) in st.open.Keys then st.order else st.order + [KeyOf(o, tf)])
  {
    var key := KeyOf(o, tf);
    BarsWithKeys(st.open, key, o.received >= key.End());
  }

  lemma ApplyKeepsOrder(st: BarState, o: Observation, tf: Timeframe, volume: int, tolerance: int)
    requires WellOrdered(st)
    ensures WellOrdered(ApplyTo(st, o, tf, volume, tolerance))
  {
    ApplyKeys(st, o, tf, volume, tolerance);
    ListsWithKey(st.order, st.open.Keys, KeyOf(o, tf));
  }

  predicate Distinct(keys: seq<Key>) {
    forall i, j :: 0 <= i < j < |keys| ==> keys[i] != keys[j]
  }

  lemma DistinctAppend(keys: seq<Key>, k: Key)
    requires Distinct(keys) && k !in keys
    ensures Distinct(keys + [k])
  {
  }

  lemma {:induction false} HeldKeysDistinct(keys: seq<Key>, now: int, tolerance: int)
    requires Distinct(keys)
    ensures Distinct(HeldKeys(keys, now, tolerance)) && Distinct(ReadyKeys(keys, now, tolerance))
  {
    if keys != [] {
      var front, last := keys[..|keys| - 1], keys[|keys| - 1];
      HeldKeysDistinct(front, now, tolerance);
      ReadyAndHeld(front, now, tolerance);
      assert last !in front;
      DistinctAppend(HeldKeys(front, now, tolerance), last);
      DistinctAppend(ReadyKeys(front, now, tolerance), last);
    }
  }

  lemma StepKeepsOrder(st: BarState, c: Command, tolerance: int)
    requires WellOrdered(st)
    ensures WellOrdered(Step(st, c, tolerance))
  {
    match c {
      case Ingest(o) =>
        var volume, counted := VolumeOf(st, o), AfterVolume(st, o);
        assert WellOrdered(counted);
        ApplyKeepsOrder(counted, o, M1, volume, tolerance);
        ApplyKeepsOrder(ApplyTo(counted, o, M1, volume, tolerance), o, M5, volume, tolerance);
      case Close(now) =>
        HeldKeysDistinct(st.order, now, tolerance);
        ReadyAndHeld(st.order, now, tolerance);
        assert forall k :: k in Closed(st, now, tolerance).open <==> k in st.open && !Ready(k, now, tolerance);
    }
  }

  function Run(cs: seq<Command>, tolerance: int): (st: BarState)
    ensures WellOrdered(st)
  {
    if cs == [] then INITIAL
    else
      var before := Run(cs[..|cs| - 1], tolerance);
      StepKeepsOrder(before, cs[|cs| - 1], tolerance);
      Step(before, cs[|cs| - 1], tolerance)
  }

  function StepEntries(st: BarState, c: Command, tolerance: int): seq<Entry> {
    match c
    case Ingest(o) => IngestedEntries(st, o, tolerance)
    case Close(_) => []
  }

  /** Everything the run accepted, in order. */
  function Log(cs: seq<Command>, tolerance: int): seq<Entry> {
    if cs == [] then []
    else Log(cs[..|cs| - 1], tolerance) + StepEntries(Run(cs[..|cs| - 1], tolerance), cs[|cs| - 1], tolerance)
  }

  /** The bar the log gives interval `k`. */
  function Summarise(log: seq<Entry>, k: Key): Summary {
    if log == [] then NOTHING
    else
      var before, e := Summarise(log[..|log| - 1], k), log[|log| - 1];
      if e.key == k then AddEntry(before, e.id, e.price, e.volume) else before
  }
}
