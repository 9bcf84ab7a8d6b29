/** The Prometheus exporter's counters: each is rebuilt from the successive values of its metric. */
module PrometheusCounters {
  import opened Options

  type Hash = nat

  /** An exported value of the metric with a hash. */
  datatype Sample = Sample(hash: Hash, value: real)

  /** One update of a notification; `number` is None if the value is not numeric. */
  datatype Update = Update(hash: Hash, metricType: string, number: Option<real>)

  const COUNTER := "counter64"

  /** The values of one metric, in the order of their export. */
  function ValuesOf(samples: seq<Sample>, hash: Hash): seq<real> {
    if samples == [] then []
    else
      var before, last := ValuesOf(samples[..|samples| - 1], hash), samples[|samples| - 1];
      if last.hash == hash then before + [last.value] else before
  }

  function Rise(from: real, to: real): real {
    if to >= from then to - from else 0.0
  }

  /** The sum of the rises between neighbours. */
  function Rises(values: seq<real>): (r: real)
    ensures r >= 0.0
  {
    var n := |values|;
    if n < 2 then 0.0 else Rises(values[..n - 1]) + Rise(values[n - 2], values[n - 1])
  }

  predicate NeverDrops(values: seq<real>) {
    forall k :: 0 < k < |values| ==> values[k - 1] <= values[k]
  }

  /** The rises cover the whole way from the first value to the last, and are no more than that exactly when the
      values never drop. */
  lemma {:induction false} RisesCoverTheWay(values: seq<real>)
    requires values != []
    ensures Rises(values) >= values[|values| - 1] - values[0]
    ensures Rises(values) == values[|values| - 1] - values[0] <==> NeverDrops(values)
  {
    var n := |values|;
    if n > 1 {
      var before := values[..n - 1];
      RisesCoverTheWay(before);
      if NeverDrops(before) && values[n - 2] <= values[n - 1] {
        forall k | 0 < k < n
          ensures values[k - 1] <= values[k]
        {
          assert k < n - 1 ==> before[k - 1] <= before[k];
        }
      }
      if NeverDrops(values) {
        assert forall k :: 0 <= k < n - 1 ==> before[k] == values[k];
        assert values[(n - 1) - 1] <= values[n - 1];
      }
    }
  }

  lemma OneMoreValue(values: seq<real>, v: real)
    ensures Rises(values + [v]) == if values == [] then 0.0 else Rises(values) + Rise(values[|values| - 1], v)
    ensures values != [] ==>
      Rises(values + [v]) - Rises(values) == if v > values[|values| - 1] then v - values[|values| - 1] else 0.0
  {
    assert (values + [v])[..|values|] == values;
  }

  lemma OneMoreSample(samples: seq<Sample>, s: Sample, hash: Hash)
    ensures ValuesOf(samples + [s], hash) ==
      if s.hash == hash then ValuesOf(samples, hash) + [s.value] else ValuesOf(samples, hash)
  {
    assert (samples + [s])[..|samples|] == samples;
  }

  class DeltaCalculator {
    var history: map<Hash, real>

    constructor ()
      ensures history == map[]
    {
      history := map[];
    }

    /** The change since the last value with this hash, which is taken to be 0 if there was none. */
    method Calc(hash: Hash, newValue: real) returns (delta: real, known: bool)
      modifies this
      ensures known == (hash in old(history))
      ensures delta == if known then newValue - old(history)[hash] else newValue
      ensures history == old(history)[hash := newValue]
    {
      known := hash in history;
      var oldValue := if known then history[hash] else 0.0;
      history := history[hash := newValue];
      delta := newValue - oldValue;
    }
  }

  class PrometheusExporter {
    const deltaCalc: DeltaCalculator
    var counters: map<Hash, real>
    /** The metrics that are not counters. */
    var others: set<Hash>
    /** Everything numeric that was exported so far. */
    ghost var exported: seq<Sample>

    constructor ()
      ensures Valid() && exported == [] && fresh(deltaCalc)
    {
      deltaCalc := new DeltaCalculator();
      counters, others, exported := map[], {}, [];
    }

    /** A counter shows the sum of its metric's rises, and the delta calculator knows the metric's last value. */
    ghost predicate CounterIsRight(hash: Hash)
      reads this, deltaCalc
    {
      var values := ValuesOf(exported, hash);
      && (values == [] <==> hash !in counters && hash !in others)
      && (hash in counters ==>
            && hash !in others && values != [] && counters[hash] == Rises(values)
            && hash in deltaCalc.history && deltaCalc.history[hash] == values[|values| - 1])
      && (hash in deltaCalc.history ==> hash in counters)
    }

    ghost predicate Valid()
      reads this, deltaCalc
    {
      forall h: Hash :: CounterIsRight(h)
    }

    method ExportUpdate(u: Update)
      requires Valid()
      modifies this, deltaCalc
      ensures Valid()
      ensures exported == if u.number.Some? then old(exported) + [Sample(u.hash, u.number.value)] else old(exported)
      ensures forall h <- old(counters) :: h in counters && old(counters)[h] <= counters[h]
      ensures forall h <- counters :: h in old(counters) || (h == u.hash && u.metricType == "counter64")
      ensures u.number.Some? && u.metricType == "counter64" && u.hash !in old(counters) && u.hash !in old(others) ==>
        u.hash in counters && counters[u.hash] == 0.0
      ensures u.number.Some? && u.hash in old(counters) ==>
        && u.hash in old(deltaCalc.history)
        && var last, now := old(deltaCalc.history)[u.hash], u.number.value;
           counters[u.hash] == old(counters)[u.hash] + if now > last then now - last else 0.0
      ensures forall h <- old(counters) :: h != u.hash || u.number.None? ==> counters[h] == old(counters)[h]
    {
      hide ValuesOf, Rises;
      if u.number.None? {
        return;
      }
      var value := u.number.value;
      assert CounterIsRight(u.hash);
      if u.hash !in counters && u.hash !in others {
        if u.metricType == COUNTER {
          counters := counters[u.hash := 0.0];
        } else {
          others := others + {u.hash};
        }
      }
      if u.hash in counters {
        var delta, known := deltaCalc.Calc(u.hash, value);
        if known && delta >= 0.0 {
          counters := counters[u.hash := counters[u.hash] + delta];
        }
      }
      exported := exported + [Sample(u.hash, value)];
      forall h: Hash
        ensures CounterIsRight(h)
      {
        assert old(CounterIsRight(h));
        OneMoreSample(old(exported), Sample(u.hash, value), h);
        OneMoreValue(old(ValuesOf(exported, h)), value);
      }
    }

    /** Exports the updates of one notification; no counter goes down. */
    method Export(updates: seq<Update>)
      requires Valid()
      modifies this, deltaCalc
      ensures Valid()
      ensures exported == old(exported) + Numeric(updates)
      ensures forall h <- old(counters) :: h in counters && old(counters)[h] <= counters[h]
    {
      for i := 0 to |updates|
        invariant Valid()
        invariant exported == old(exported) + Numeric(updates[..i])
        invariant forall h <- old(counters) :: h in counters && old(counters)[h] <= counters[h]
      {
        ExportUpdate(updates[i]);
        assert updates[..i + 1][..i] == updates[..i];
      }
      assert updates[..|updates|] == updates;
    }

    /** A counter shows at least the whole way of its metric, and exactly that if the metric never dropped. */
    lemma CounterCoversTheWay(hash: Hash)
      requires Valid() && hash in counters
      ensures var values := ValuesOf(exported, hash);
              && values != []
              && counters[hash] >= values[|values| - 1] - values[0]
              && (counters[hash] == values[|values| - 1] - values[0] <==> NeverDrops(values))
    {
      assert CounterIsRight(hash);
      RisesCoverTheWay(ValuesOf(exported, hash));
    }
  }

  function Numeric(updates: seq<Update>): seq<Sample> {
    if updates == [] then []
    else
      var before, last := Numeric(updates[..|updates| - 1]), updates[|updates| - 1];
      if last.number.Some? then before + [Sample(last.hash, last.number.value)] else before
  }

  /** Every update with a number is exported as it is, and no other one. */
  lemma OneMoreUpdate(updates: seq<Update>, u: Update)
    ensures Numeric(updates + [u]) ==
      Numeric(updates) + match u.number case Some(v) => [Sample(u.hash, v)] case None => []
  {
    assert (updates + [u])[..|updates|] == updates;
  }
}
