/** `BarBuilder` as it runs: open bars are objects updated in place (joker/market/bars.py). */
module BarBuilder {
  import opened Options
  import opened Bars
  import opened Sorting
  import opened Text

  class OpenBar {
    const key: Key
    var open: real
    var high: real
    var low: real
    var close: real
    var volume: int
    var lateData: bool
    var incomplete: bool
    var flags: set<string>
    var ids: seq<nat>
    var ticks: nat

    constructor (key: Key)
      ensures this.key == key && View() == Blank(false)
    {
      this.key := key;
      open, high, low, close, volume := 0.0, 0.0, 0.0, 0.0, 0;
      lateData, incomplete, flags, ids, ticks := false, false, {}, [], 0;
    }

    function View(): Bar
      reads this
    {
      Bar(Summary(ticks, open, high, low, close, volume, ids), lateData, incomplete, flags)
    }

    method ApplyPrice(price: real, id: nat)
      modifies this`open, this`high, this`low, this`close, this`ticks, this`ids
      ensures id !in old(ids) ==> View() == old(View()).(summary := AddEntry(old(View()).summary, id, Some(price), 0))
    {
      if ticks == 0 {
        open, high, low, close := price, price, price, price;
      } else {
        if price > high {
          high := price;
        }
        if price < low {
          low := price;
        }
        close := price;
      }
      ticks := ticks + 1;
      if id !in ids {
        ids := ids + [id];
      }
    }

    method AddVolume(size: int)
      modifies this`volume, this`flags
      ensures size >= 0 ==>
        View() == old(View()).(summary := old(View()).summary.(volume := old(volume) + size))
      ensures size < 0 ==> View() == old(View()).(flags := old(flags) + {"negative_volume_ignored"})
    {
      if size < 0 {
        flags := flags + {"negative_volume_ignored"};
        return;
      }
      volume := volume + size;
    }

    /** One accepted contribution: its price, if any, then its volume, if any. */
    method Take(id: nat, price: Option<real>, volume: int)
      requires id !in ids
      modifies this`open, this`high, this`low, this`close, this`ticks, this`ids, this`volume, this`flags
      ensures View() == old(View()).(summary := AddEntry(old(View()).summary, id, price, volume))
      ensures forall i :: i in ids ==> i in old(ids) || i == id
    {
      if price.Some? {
        ApplyPrice(price.value, id);
      }
      if volume > 0 {
        AddVolume(volume);
      }
    }

    method MarkAsLate()
      modifies this`lateData, this`flags
      ensures View() == MarkLate(old(View()))
    {
      lateData, flags := true, flags + {"late_data"};
    }

    method MarkAsGap()
      modifies this`incomplete, this`flags
      ensures View() == MarkGap(old(View()))
    {
      incomplete, flags := true, flags + {"gap_before_next_interval"};
    }
  }

  /** `WithGaps` restricted to the listed intervals. */
  ghost function WithGapsIn(open: map<Key, Bar>, key: Key, keys: seq<Key>): map<Key, Bar> {
    map k | k in open :: if k in keys then WithGaps(open, key)[k] else open[k]
  }

  lemma NextGap(open: map<Key, Bar>, key: Key, order: seq<Key>, i: nat)
    requires i < |order| && Distinct(order) && order[i] in open
    ensures var k, before, after := order[i], WithGapsIn(open, key, order[..i]), WithGapsIn(open, key, order[..i + 1]);
      && k in before
      && after == if k.symbol == key.symbol && k.tf == key.tf && k.start < key.start
                  then before[k := MarkGap(before[k])] else before
  {
    var k := order[i];
    assert order[..i + 1] == order[..i] + [k] && k !in order[..i];
  }

  class BarBuilder {
    const lateToleranceSeconds: int
    var open: map<Key, OpenBar>
    var order: seq<Key>
    var emitted: set<Key>
    var lastCumVol: map<string, int>
    var closedBars: seq<MarketBar>
    var findings: seq<Finding>
    var assignedObs: set<(nat, Timeframe)>

    constructor (lateToleranceSeconds: int)
      ensures Valid() && State() == INITIAL && this.lateToleranceSeconds == lateToleranceSeconds
      ensures open == map[]
    {
      this.lateToleranceSeconds := lateToleranceSeconds;
      open, order, emitted, lastCumVol := map[], [], {}, map[];
      closedBars, findings, assignedObs := [], [], {};
    }

    /** Different intervals are different objects; the open and emitted intervals are disjoint. */
    ghost predicate Shaped()
      reads this`open, this`order, this`emitted
    {
      && (forall k :: k in order <==> k in open)
      && Distinct(order)
      && (forall k :: k in open ==> k !in emitted && open[k].key == k)
      && (forall j, k :: j in open && k in open && j != k ==> open[j] != open[k])
    }

    /** Whatever is in a bar has been assigned. */
    ghost predicate IdsAssigned()
      reads this`open, this`assignedObs, open.Values`ids
    {
      forall k, id :: k in open && id in open[k].ids ==> (id, k.tf) in assignedObs
    }

    ghost predicate Valid()
      reads this`open, this`order, this`emitted, this`assignedObs, open.Values`ids
    {
      Shaped() && IdsAssigned()
    }

    function Views(): map<Key, Bar>
      reads this`open, open.Values
    {
      map k | k in open :: open[k].View()
    }

    function State(): BarState
      reads this, open.Values
    {
      BarState(Views(), order, emitted, lastCumVol, closedBars, findings, assignedObs)
    }

    /** Computes the volume once per observation and remembers the cumulative volume. */
    method ResolveVolume(o: Observation) returns (volume: int)
      modifies this`lastCumVol, this`findings
      ensures volume == VolumeOf(old(State()), o) >= 0
      ensures lastCumVol == AfterVolume(old(State()), o).lastCum && findings == AfterVolume(old(State()), o).findings
    {
      if o.cumulative.Some? {
        var cumulative := o.cumulative.value;
        var prev := if o.symbol in lastCumVol then Some(lastCumVol[o.symbol]) else None;
        lastCumVol := lastCumVol[o.symbol := cumulative];
        if prev.Some? {
          var delta := cumulative - prev.value;
          if delta >= 0 {
            return delta;
          }
          findings := findings + [Finding(CumulativeVolumeRegression, o.symbol, None, None)];
        }
      }
      var size := o.TradeSize();
      volume := if size.Some? && size.value > 0 then size.value else 0;
    }

    method MarkGapIn(key: Key)
      requires Shaped() && key in open
      modifies (open[key] as OpenBar)`incomplete, (open[key] as OpenBar)`flags
      ensures Views() == old(Views())[key := MarkGap(old(Views())[key])]
    {
      open[key].MarkAsGap();
    }

    /** Marks the symbol's earlier open intervals as incomplete. */
    method MarkGapsBefore(key: Key)
      requires Shaped()
      modifies open.Values`incomplete, open.Values`flags
      ensures Views() == WithGaps(old(Views()), key)
    {
      ghost var was := Views();
      for i := 0 to |order|
        invariant Views() == WithGapsIn(was, key, order[..i])
      {
        var k := order[i];
        NextGap(was, key, order, i);
        if k.symbol == key.symbol && k.tf == key.tf && k.start < key.start {
          MarkGapIn(k);
        }
      }
      assert order[..|order|] == order;
    }

    /** The views after one bar changed or joined. */
    lemma OneViewChanged(was: map<Key, Bar>, key: Key, view: Bar)
      requires key in open && open[key].View() == view
      requires forall k :: k in open <==> k in was || k == key
      requires forall k :: k in open && k != key ==> open[k].View() == was[k]
      ensures Views() == was[key := view]
    {
    }

    method InsertBar(bar: OpenBar, ghost view: Bar)
      requires Valid() && bar.key !in open && bar.key !in emitted && bar !in open.Values && bar.ids == []
      requires bar.View() == view
      modifies this`open, this`order
      ensures Valid() && open == old(open)[bar.key := bar] && order == old(order) + [bar.key]
      ensures Views() == old(Views())[bar.key := view]
    {
      ghost var was := Views();
      DistinctAppend(order, bar.key);
      open, order := open[bar.key := bar], order + [bar.key];
      OneViewChanged(was, bar.key, view);
    }

    method NewBar(key: Key, late: bool) returns (bar: OpenBar)
      ensures fresh(bar) && bar.key == key && bar.View() == Blank(late) && bar.ids == []
    {
      bar := new OpenBar(key);
      if late {
        bar.MarkAsLate();
      }
    }

    method AddBar(key: Key, late: bool) returns (bar: OpenBar)
      requires Valid() && key !in open && key !in emitted
      modifies this`open, this`order
      ensures Valid() && fresh(bar) && open == old(open)[key := bar] && order == old(order) + [key]
      ensures Views() == old(Views())[key := Blank(late)]
    {
      bar := NewBar(key, late);
      InsertBar(bar, Blank(late));
    }

    method OpenNewBar(key: Key, late: bool) returns (bar: OpenBar)
      requires Valid() && key !in open && key !in emitted
      modifies this`open, this`order, open.Values`incomplete, open.Values`flags
      ensures Valid() && fresh(open.Values - old(open.Values))
      ensures key in open && bar == open[key] && order == old(order) + [key]
      ensures Views() == WithGaps(old(Views()), key)[key := Blank(late)]
    {
      MarkGapsBefore(key);
      bar := AddBar(key, late);
    }

    method MarkLateIn(key: Key)
      requires Shaped() && key in open
      modifies (open[key] as OpenBar)`lateData, (open[key] as OpenBar)`flags
      ensures Views() == old(Views())[key := MarkLate(old(Views())[key])]
    {
      open[key].MarkAsLate();
    }

    /** Turns the observation away, with a finding, when its interval is emitted or long over. */
    method DropCheck(o: Observation, tf: Timeframe) returns (dropped: bool)
      modifies this`findings
      ensures dropped <==> Dropped(old(State()), o, tf, lateToleranceSeconds)
      ensures findings == old(findings) + if dropped then [DropFinding(old(State()), o, tf)] else []
    {
      var key := KeyOf(o, tf);
      if key in emitted {
        findings := findings + [Finding(DroppedAfterClose, o.symbol, Some(tf), Some(o.id))];
        return true;
      }
      if o.received > key.End() + lateToleranceSeconds * TICKS_PER_SECOND {
        findings := findings + [Finding(DroppedTooLate, o.symbol, Some(tf), Some(o.id))];
        return true;
      }
      dropped := false;
    }

    /** The bar the observation belongs to, or none when the interval turns it away. */
    method BarFor(o: Observation, tf: Timeframe) returns (bar: OpenBar?)
      requires Valid()
      modifies this`open, this`order, this`findings, open.Values
      ensures Valid() && fresh(open.Values - old(open.Values))
      ensures bar == null <==> Dropped(old(State()), o, tf, lateToleranceSeconds)
      ensures findings == old(findings) + if bar == null then [DropFinding(old(State()), o, tf)] else []
      ensures bar == null ==> Views() == old(Views()) && order == old(order)
      ensures bar != null ==> KeyOf(o, tf) in open && bar == open[KeyOf(o, tf)]
      ensures bar != null ==> Views() == BarsWith(old(Views()), KeyOf(o, tf), o.received >= KeyOf(o, tf).End())
      ensures bar != null ==> order == OrderWith(old(Views()), old(order), KeyOf(o, tf))
    {
      var dropped := DropCheck(o, tf);
      if dropped {
        return null;
      }
      bar := BarIn(KeyOf(o, tf), o.received >= KeyOf(o, tf).End());
    }

    /** The interval's bar, opened if need be and marked when the observation is late. */
    method BarIn(key: Key, late: bool) returns (bar: OpenBar)
      requires Valid() && key !in emitted
      modifies this`open, this`order, open.Values
      ensures Valid() && fresh(open.Values - old(open.Values))
      ensures key in open && bar == open[key]
      ensures Views() == BarsWith(old(Views()), key, late) && order == OrderWith(old(Views()), old(order), key)
    {
      if key in open {
        bar := open[key];
        if late {
          MarkLateIn(key);
        }
      } else {
        bar := OpenNewBar(key, late);
      }
    }

    method TakeInto(key: Key, id: nat, price: Option<real>, volume: int)
      requires Shaped() && key in open && id !in open[key].ids
      modifies open[key]
      ensures key in old(Views()) && Views() == Fed(old(Views()), key, id, price, volume)
      ensures forall k, i :: k in open && i in open[k].ids ==> i in old(open[k].ids) || (k == key && i == id)
    {
      ghost var was := Views();
      open[key].Take(id, price, volume);
      OneViewChanged(was, key, open[key].View());
    }

    /** Adds one accepted contribution to an open bar. */
    method Feed(key: Key, id: nat, price: Option<real>, volume: int)
      requires Valid() && key in open && (id, key.tf) !in assignedObs
      modifies this`assignedObs, open.Values
      ensures Valid() && assignedObs == old(assignedObs) + {(id, key.tf)}
      ensures key in old(Views()) && Views() == Fed(old(Views()), key, id, price, volume)
    {
      assert id !in open[key].ids;
      assignedObs := assignedObs + {(id, key.tf)};
      TakeInto(key, id, price, volume);
    }

    /** `ApplyTo` by what it changes in each of its three cases. */
    static lemma ApplyToByCase(st: BarState, o: Observation, tf: Timeframe, volume: int, tolerance: int)
      ensures var st', key := ApplyTo(st, o, tf, volume, tolerance), KeyOf(o, tf);
        var bars, order := BarsWith(st.open, key, o.received >= key.End()), OrderWith(st.open, st.order, key);
        && key in bars
        && st' == if Dropped(st, o, tf, tolerance) then st.(findings := st.findings + [DropFinding(st, o, tf)])
                  else if (o.id, tf) in st.assignedObs then st.(open := bars, order := order)
                  else st.(open := Fed(bars, key, o.id, o.Price(), volume), order := order,
                           assignedObs := st.assignedObs + {(o.id, tf)})
    {
    }

    method ApplyTimeframe(o: Observation, tf: Timeframe, volume: int)
      requires Valid()
      modifies this`open, this`order, this`findings, this`assignedObs, open.Values
      ensures Valid() && fresh(open.Values - old(open.Values))
      ensures State() == ApplyTo(old(State()), o, tf, volume, lateToleranceSeconds)
    {
      ghost var was := State();
      ApplyToByCase(was, o, tf, volume, lateToleranceSeconds);
      var bar := BarFor(o, tf);
      if bar == null {
        assert State() == was.(findings := findings);
        return;
      }
      if (o.id, tf) in assignedObs {
        assert State() == was.(open := Views(), order := order);
        return;
      }
      Feed(KeyOf(o, tf), o.id, o.Price(), volume);
      assert State() == was.(open := Views(), order := order, assignedObs := assignedObs);
    }

    /** `ingest_quote`, `ingest_trade` and `ingest_underlying`. */
    method IngestObservation(o: Observation)
      requires Valid()
      modifies this, open.Values
      ensures Valid() && fresh(open.Values - old(open.Values))
      ensures State() == Ingested(old(State()), o, lateToleranceSeconds)
    {
      var volume := ResolveVolume(o);
      assert State() == AfterVolume(old(State()), o);
      if o.Price().None? && volume <= 0 {
        return;
      }
      ApplyTimeframe(o, M1, volume);
      ApplyTimeframe(o, M5, volume);
    }

    /** Emits one open bar for good. */
    method EmitBar(key: Key, ghost view: Bar)
      requires key in open && open[key].View() == view
      modifies this`emitted, this`closedBars
      ensures emitted == old(emitted) + {key} && closedBars == old(closedBars) + [Emit(key, view)]
    {
      var bar := open[key];
      var incomplete := bar.ticks == 0 || bar.incomplete;
      var flags := bar.flags;
      if bar.lateData {
        flags := flags + {"includes_late_ticks"};
      }
      if incomplete {
        flags := flags + {"incomplete"};
      }
      if bar.ticks == 0 {
        flags := flags + {"empty_interval"};
      }
      assert flags == Emit(key, bar.View()).flags;
      emitted := emitted + {key};
      closedBars := closedBars + [MarketBar(key, bar.View().summary, flags, incomplete, bar.lateData)];
    }

    /** Emits what is ready, in dictionary order; an emitted interval is never open, so none is skipped. */
    method EmitReady(now: int, ghost views: map<Key, Bar>) returns (done: seq<Key>, held: seq<Key>)
      requires forall k :: k in order ==> k in open && k in views && open[k].View() == views[k]
      modifies this`emitted, this`closedBars
      ensures done == ReadyKeys(order, now, lateToleranceSeconds)
      ensures held == HeldKeys(order, now, lateToleranceSeconds)
      ensures forall k :: k in done ==> k in views
      ensures closedBars == old(closedBars) + EmitAll(done, views)
      ensures forall k :: k in emitted <==> k in old(emitted) || k in done
    {
      done, held := [], [];
      for i := 0 to |order|
        invariant done == ReadyKeys(order[..i], now, lateToleranceSeconds)
        invariant held == HeldKeys(order[..i], now, lateToleranceSeconds)
        invariant forall k :: k in done ==> k in views
        invariant closedBars == old(closedBars) + EmitAll(done, views)
        invariant forall k :: k in emitted <==> k in old(emitted) || k in done
      {
        var key := order[i];
        NextReady(order, i, now, lateToleranceSeconds);
        if !Ready(key, now, lateToleranceSeconds) {
          held := held + [key];
        } else {
          NextEmission(done, key, views);
          EmitBar(key, views[key]);
          done := done + [key];
        }
      }
      assert order[..|order|] == order;
    }

    /** `close_ready_bars`: returns the bars it emitted by start, timeframe and symbol. */
    method CloseReadyBars(now: int) returns (ready: seq<MarketBar>)
      requires Valid()
      modifies this
      ensures Valid() && open.Values <= old(open.Values)
      ensures State() == Closed(old(State()), now, lateToleranceSeconds)
      ensures closedBars[..|old(closedBars)|] == old(closedBars)
      ensures ready == Sort(closedBars[|old(closedBars)|..], BarLe)
    {
      ghost var was := State();
      var before := |closedBars|;
      ghost var done := EmitAndRemove(now);
      ClosedFromFields(was, now, lateToleranceSeconds, done, Views(), emitted, closedBars);
      ready := Sort(closedBars[before..], BarLe);
    }

    /** Emits and pops what is ready. */
    method EmitAndRemove(now: int) returns (ghost done: seq<Key>)
      requires Valid()
      modifies this`open, this`order, this`emitted, this`closedBars
      ensures Valid() && open.Values <= old(open.Values)
      ensures done == ReadyKeys(old(order), now, lateToleranceSeconds) && forall k :: k in done ==> k in old(open)
      ensures order == HeldKeys(old(order), now, lateToleranceSeconds)
      ensures Views() == old(Views()) - (set k | k in done) && emitted == old(emitted) + (set k | k in done)
      ensures closedBars == old(closedBars) + EmitAll(done, old(Views()))
    {
      ghost var views := Views();
      var ready, held := EmitReady(now, views);
      RemoveBars(ready, held, now);
      ViewsWithout(views, ready);
      done := ready;
    }

    lemma ViewsWithout(views: map<Key, Bar>, done: seq<Key>)
      requires forall k :: k in open <==> k in views && k !in done
      requires forall k :: k in open ==> open[k].View() == views[k]
      ensures Views() == views - (set k | k in done)
    {
    }

    method PopAll(done: seq<Key>)
      modifies this`open
      ensures open == old(open) - (set k | k in done)
    {
      for i := 0 to |done|
        invariant open == old(open) - (set k | k in done[..i])
      {
        assert done[..i + 1] == done[..i] + [done[i]];
        open := open - {done[i]};
      }
      assert done[..|done|] == done;
    }

    /** Pops what was emitted; the rest keeps its order. */
    method RemoveBars(done: seq<Key>, held: seq<Key>, ghost now: int)
      requires done == ReadyKeys(order, now, lateToleranceSeconds)
      requires held == HeldKeys(order, now, lateToleranceSeconds)
      requires forall k :: k in order <==> k in open
      requires Distinct(order) && IdsAssigned()
      requires forall k :: k in open ==> (k !in emitted || k in done) && open[k].key == k
      requires forall j, k :: j in open && k in open && j != k ==> open[j] != open[k]
      modifies this`open, this`order
      ensures order == held && open == old(open) - (set k | k in done)
      ensures Shaped() && IdsAssigned()
    {
      PopAll(done);
      ReadyAndHeld(order, now, lateToleranceSeconds);
      HeldKeysDistinct(order, now, lateToleranceSeconds);
      order := held;
    }
  }

  /** A state is the closed one when the fields that closing changes are. */
  lemma ClosedFromFields(st: BarState, now: int, tolerance: int, done: seq<Key>,
                         open: map<Key, Bar>, emitted: set<Key>, closed: seq<MarketBar>)
    requires forall k :: k in st.order ==> k in st.open
    requires done == ReadyKeys(st.order, now, tolerance) && forall k :: k in done ==> k in st.open
    requires open == st.open - (set k | k in done)
    requires emitted == st.emitted + (set k | k in done) && closed == st.closed + EmitAll(done, st.open)
    ensures Closed(st, now, tolerance)
      == st.(open := open, order := HeldKeys(st.order, now, tolerance), emitted := emitted, closed := closed)
  {
  }

  lemma NextReady(keys: seq<Key>, i: nat, now: int, tolerance: int)
    requires i < |keys|
    ensures ReadyKeys(keys[..i + 1], now, tolerance)
      == ReadyKeys(keys[..i], now, tolerance) + (if Ready(keys[i], now, tolerance) then [keys[i]] else [])
    ensures HeldKeys(keys[..i + 1], now, tolerance)
      == HeldKeys(keys[..i], now, tolerance) + (if Ready(keys[i], now, tolerance) then [] else [keys[i]])
  {
    assert keys[..i + 1][..i] == keys[..i];
  }

  lemma NextEmission(keys: seq<Key>, key: Key, open: map<Key, Bar>)
    requires key in open && forall k :: k in keys ==> k in open
    ensures forall k :: k in keys + [key] ==> k in open
    ensures EmitAll(keys + [key], open) == EmitAll(keys, open) + [Emit(key, open[key])]
  {
    assert (keys + [key])[..|keys|] == keys;
  }

  predicate BarLe(a: MarketBar, b: MarketBar) {
    || a.key.start < b.key.start
    || (a.key.start == b.key.start
        && (Minutes(a.key.tf) < Minutes(b.key.tf)
            || (a.key.tf == b.key.tf && TextLe(a.key.symbol, b.key.symbol))))
  }

  lemma BarLeIsTotal()
    ensures TotalPreorder(BarLe)
  {
    forall x, y ensures BarLe(x, y) || BarLe(y, x) {
      TextLeTotal(x.key.symbol, y.key.symbol);
    }
    forall x, y, z | BarLe(x, y) && BarLe(y, z) ensures BarLe(x, z) {
      if x.key.start == y.key.start == z.key.start && x.key.tf == y.key.tf == z.key.tf {
        TextLeTransitive(x.key.symbol, y.key.symbol, z.key.symbol);
      }
    }
  }

  /** Bars are returned by start, at equal starts the one-minute bars first, and then by symbol. */
  lemma ReadyInOrder(bars: seq<MarketBar>, i: nat, j: nat)
    requires i < j < |Sort(bars, BarLe)|
    ensures var a, b := Sort(bars, BarLe)[i].key, Sort(bars, BarLe)[j].key;
      && a.start <= b.start
      && (a.start == b.start && a.tf != b.tf ==> a.tf == M1)
      && (a.start == b.start && a.tf == b.tf ==> TextLe(a.symbol, b.symbol))
    ensures multiset(Sort(bars, BarLe)) == multiset(bars)
  {
    BarLeIsTotal();
    SortSorts(bars, BarLe);
    SortPermutes(bars, BarLe);
    assert BarLe(Sort(bars, BarLe)[i], Sort(bars, BarLe)[j]);
  }
}
