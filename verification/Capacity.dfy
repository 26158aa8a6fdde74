/**
 Account counts and the capacity they mean: the adapter of
 cloud/cloudx_cloud/account_state.py and the classifier of cloud/cloudx_cloud/capacity.py.
 */
module Capacity {
  import opened Wrappers

  /** A JSON value as far as the counts look at it. */
  datatype Value = Integer(value: int) | Boolean(flag: bool) | OtherValue

  type Document = map<string, Value>

  predicate IsCount(d: Document, key: string) {
    key in d && d[key].Integer? && d[key].value >= 0
  }

  const COUNT_KEYS := ["total", "available", "limited", "unavailable"]
  const SOURCE_KEYS := ["total", "ready", "warning", "limited", "failed"]

  datatype Counts = Counts(total: int, available: int, limited: int, unavailable: int)

  const NO_COUNTS := Counts(0, 0, 0, 0)

  /** The number under a key; 0 stands for whatever is not one. */
  function Number(d: Document, key: string): int {
    if key in d && d[key].Integer? then d[key].value else 0
  }

  /** The counts are taken only when all are there, none is negative and they fit the total. */
  predicate ValidCounts(d: Document) {
    && IsCount(d, "total") && IsCount(d, "available") && IsCount(d, "limited") && IsCount(d, "unavailable")
    && Number(d, "available") + Number(d, "limited") + Number(d, "unavailable") <= Number(d, "total")
  }

  predicate Holds(d: Document, key: string, n: int) {
    key in d && d[key] == Integer(n)
  }

  /** The document's total is the sum of its three known parts and a rest. */
  predicate Splits(d: Document, available: nat, limited: nat, unavailable: nat, rest: nat) {
    && Holds(d, "total", available + limited + unavailable + rest)
    && Holds(d, "available", available) && Holds(d, "limited", limited) && Holds(d, "unavailable", unavailable)
  }

  /** Valid counts are those that split a total without negative parts. */
  lemma ValidCountsIff(d: Document)
    ensures ValidCounts(d) <==> exists available, limited, unavailable, rest :: Splits(d, available, limited, unavailable, rest)
  {
    if ValidCounts(d) {
      var a, l, u := Number(d, "available"), Number(d, "limited"), Number(d, "unavailable");
      assert Splits(d, a, l, u, Number(d, "total") - a - l - u);
    }
  }

  /** The loop over the count keys.  A refused document keeps the counts read before the bad one. */
  method ReadCounts(d: Option<Document>) returns (counts: Counts, unobserved: int, valid: bool)
    ensures valid <==> d.Some? && ValidCounts(d.value)
    ensures valid ==>
              && counts == Counts(Number(d.value, "total"), Number(d.value, "available"), Number(d.value, "limited"), Number(d.value, "unavailable"))
              && counts.total == counts.available + counts.limited + counts.unavailable + unobserved && unobserved >= 0
    ensures !valid ==> unobserved == 0
  {
    var table: map<string, int> := map["total" := 0, "available" := 0, "limited" := 0, "unavailable" := 0];
    if d.None? {
      return NO_COUNTS, 0, false;
    }
    var i := 0;
    while i < |COUNT_KEYS|
      invariant 0 <= i <= |COUNT_KEYS|
      invariant table.Keys == {"total", "available", "limited", "unavailable"}
      invariant forall j :: 0 <= j < i ==> IsCount(d.value, COUNT_KEYS[j]) && table[COUNT_KEYS[j]] == Number(d.value, COUNT_KEYS[j])
    {
      var key := COUNT_KEYS[i];
      if key !in d.value || !d.value[key].Integer? || d.value[key].value < 0 {
        assert key == "total" || key == "available" || key == "limited" || key == "unavailable";
        return Counts(table["total"], table["available"], table["limited"], table["unavailable"]), 0, false;
      }
      table := table[key := d.value[key].value];
      i := i + 1;
    }
    assert COUNT_KEYS[0] == "total" && COUNT_KEYS[1] == "available" && COUNT_KEYS[2] == "limited" && COUNT_KEYS[3] == "unavailable";
    counts := Counts(table["total"], table["available"], table["limited"], table["unavailable"]);
    var classified := counts.available + counts.limited + counts.unavailable;
    if classified > counts.total {
      return counts, 0, false;
    }
    return counts, counts.total - classified, true;
  }

  // ---------------------------------------------------------------- the adapter

  datatype Adapted = Adapted(accountCounts: Document, unobserved: int)

  /** The credential health summary as account counts; refused unless its counts add up. */
  function Adapt(source: Document): Option<Adapted> {
    if !(forall k :: k in SOURCE_KEYS ==> IsCount(source, k)) then None
    else
      var ready, warning, limited, failed := Number(source, "ready"), Number(source, "warning"), Number(source, "limited"), Number(source, "failed");
      if Number(source, "total") != ready + warning + limited + failed then None
      else
        Some(Adapted(map["total" := Integer(Number(source, "total")), "available" := Integer(ready + warning),
                         "limited" := Integer(limited), "unavailable" := Integer(0)], failed))
  }

  /** What the adapter publishes always validates, and the accounts nobody observed are exactly the failed ones. */
  method AdaptedValidates(source: Document) returns (counts: Counts, unobserved: int, valid: bool)
    requires Adapt(source).Some?
    ensures valid && unobserved == Adapt(source).value.unobserved == Number(source, "failed")
    ensures counts.total == counts.available + counts.limited + unobserved && counts.unavailable == 0
    ensures counts.available == Number(source, "ready") + Number(source, "warning") && counts.limited == Number(source, "limited")
  {
    assert IsCount(source, SOURCE_KEYS[0]) && IsCount(source, SOURCE_KEYS[1]) && IsCount(source, SOURCE_KEYS[2]);
    assert IsCount(source, SOURCE_KEYS[3]) && IsCount(source, SOURCE_KEYS[4]);
    counts, unobserved, valid := ReadCounts(Some(Adapt(source).value.accountCounts));
  }

  /** The summary's total is the sum of its four parts. */
  predicate Sums(source: Document, ready: nat, warning: nat, limited: nat, failed: nat) {
    && Holds(source, "total", ready + warning + limited + failed)
    && Holds(source, "ready", ready) && Holds(source, "warning", warning)
    && Holds(source, "limited", limited) && Holds(source, "failed", failed)
  }

  lemma SourceCounts(source: Document)
    ensures (forall k :: k in SOURCE_KEYS ==> IsCount(source, k)) <==>
              && IsCount(source, "total") && IsCount(source, "ready") && IsCount(source, "warning")
              && IsCount(source, "limited") && IsCount(source, "failed")
  {
    hide IsCount;
    assert SOURCE_KEYS[0] == "total" && SOURCE_KEYS[1] == "ready" && SOURCE_KEYS[2] == "warning" && SOURCE_KEYS[3] == "limited" && SOURCE_KEYS[4] == "failed";
    assert |SOURCE_KEYS| == 5;
  }

  /** The adapter refuses exactly the summaries whose four numbers do not make up the total. */
  lemma AdaptIff(source: Document)
    ensures Adapt(source).Some? <==> exists ready, warning, limited, failed :: Sums(source, ready, warning, limited, failed)
  {
    SourceCounts(source);
    if Adapt(source).Some? {
      assert Sums(source, Number(source, "ready"), Number(source, "warning"), Number(source, "limited"), Number(source, "failed"));
    }
  }

  // ---------------------------------------------------------------- the classifier

  const PROTOCOL_MIN := 1
  const PROTOCOL_MAX := 1

  predicate Speaks(min: int, max: int, version: int) {
    min <= version <= max
  }

  datatype Freshness = Fresh | Stale | UnknownFreshness

  datatype Health = Health(
    schemaMatches: bool, protocol: Option<int>, freshness: Option<Freshness>, counts: Option<Document>)

  datatype Gateway = Gateway(healthy: bool, detailOk: bool)

  datatype State =
    | IncompatibleProducer
    | ProbeFailure
    | StaleContract
    | UnknownObservation
    | HealthyCapacity
    | ExhaustedCapacity

  /** The producer's contract is one the consumer understands. */
  ghost predicate Compatible(h: Health, consumerMin: int, consumerMax: int) {
    && h.schemaMatches && h.protocol.Some? && PROTOCOL_MIN <= h.protocol.value <= PROTOCOL_MAX
    && exists v: int :: Speaks(PROTOCOL_MIN, PROTOCOL_MAX, v) && Speaks(consumerMin, consumerMax, v)
  }

  /** A compatible contract behind a working gateway. */
  ghost predicate Observed(h: Health, g: Gateway, consumerMin: int, consumerMax: int) {
    Compatible(h, consumerMin, consumerMax) && g.healthy && g.detailOk
  }

  /** Fresh counts that add up. */
  predicate Counted(h: Health) {
    h.freshness == Some(Fresh) && h.counts.Some? && ValidCounts(h.counts.value)
  }

  /** None is the rejection of an invalid consumer range. */
  method ClassifyCapacity(h: Health, g: Gateway, consumerMin: int, consumerMax: int) returns (state: Option<State>, counts: Counts, unobserved: int)
    ensures state.None? <==> consumerMin < 1 || consumerMax < consumerMin
    ensures state.Some? && Counted(h) ==>
              && unobserved >= 0
              && counts.available == Number(h.counts.value, "available") && counts.limited == Number(h.counts.value, "limited")
              && counts.unavailable == Number(h.counts.value, "unavailable")
              && counts.total == Number(h.counts.value, "total") == counts.available + counts.limited + counts.unavailable + unobserved
    ensures state.Some? ==>
              && (state.value.IncompatibleProducer? <==> !Compatible(h, consumerMin, consumerMax))
              && (state.value.ProbeFailure? <==> Compatible(h, consumerMin, consumerMax) && !(g.healthy && g.detailOk))
              && (state.value.StaleContract? <==> Observed(h, g, consumerMin, consumerMax) && h.freshness == Some(Stale))
              && (state.value.HealthyCapacity? <==> Observed(h, g, consumerMin, consumerMax) && Counted(h) && counts.available > 0)
              && (state.value.ExhaustedCapacity? <==>
                    Observed(h, g, consumerMin, consumerMax) && Counted(h)
                    && counts.available == 0 && counts.total == counts.limited + counts.unavailable)
              && (state.value.UnknownObservation? <==>
                    Observed(h, g, consumerMin, consumerMax) && h.freshness != Some(Stale)
                    && (Counted(h) ==> counts.available == 0 && counts.total > counts.limited + counts.unavailable))
  {
    if consumerMin < 1 || consumerMax < consumerMin {
      return None, NO_COUNTS, 0;
    }
    var valid;
    counts, unobserved, valid := ReadCounts(h.counts);
    var low := if PROTOCOL_MIN >= consumerMin then PROTOCOL_MIN else consumerMin;
    var high := if PROTOCOL_MAX <= consumerMax then PROTOCOL_MAX else consumerMax;
    assert low <= high ==> Speaks(PROTOCOL_MIN, PROTOCOL_MAX, low) && Speaks(consumerMin, consumerMax, low);
    if !h.schemaMatches {
      state := Some(IncompatibleProducer);
    } else if h.protocol.None? || !(PROTOCOL_MIN <= h.protocol.value <= PROTOCOL_MAX) {
      state := Some(IncompatibleProducer);
    } else if low > high {
      state := Some(IncompatibleProducer);
    } else if !g.healthy || !g.detailOk {
      state := Some(ProbeFailure);
    } else if h.freshness == Some(Stale) {
      state := Some(StaleContract);
    } else if h.freshness.None? || h.freshness.value.UnknownFreshness? {
      state := Some(UnknownObservation);
    } else if !valid {
      state := Some(UnknownObservation);
    } else if counts.available > 0 {
      state := Some(HealthyCapacity);
    } else if unobserved > 0 {
      state := Some(UnknownObservation);
    } else {
      state := Some(ExhaustedCapacity);
    }
  }
}
