/** The platform timers that do not read a clock: integer timestamp
    conversions, the rolling sample window behind frame-time statistics, and
    the operation counter. */
module PlatformTimer {
  import Common

  /** Nanoseconds since the Unix epoch, as a `u64`. */
  datatype Timestamp = Timestamp(nanos: Common.usize)
  {
    /** `as_nanos`. */
    function AsNanos(): (n: Common.usize)
      ensures n == nanos
    {
      nanos
    }

    /** `as_micros`: whole microseconds, rounded down. */
    function AsMicros(): (us: nat)
      ensures us * 1000 <= nanos < (us + 1) * 1000
    {
      nanos / 1000
    }

    /** `as_millis`: whole milliseconds, rounded down. */
    function AsMillis(): (ms: nat)
      ensures ms * 1_000_000 <= nanos < (ms + 1) * 1_000_000
    {
      nanos / 1_000_000
    }
  }

  /** Milliseconds are whole thousands of microseconds, and both conversions
      keep the order of timestamps. */
  lemma ConversionsAgree(t: Timestamp, u: Timestamp)
    ensures t.AsMillis() == t.AsMicros() / 1000
    ensures t.nanos <= u.nanos ==> t.AsMicros() <= u.AsMicros() && t.AsMillis() <= u.AsMillis()
  {
    var us, ms := t.AsMicros(), t.AsMillis();
    assert ms * 1000 <= us < (ms + 1) * 1000 by {
      assert ms * 1000 * 1000 <= t.nanos;
      assert us * 1000 <= t.nanos < (us + 1) * 1000;
    }
  }

  // ---------------------------------------------------------------------------
  // The rolling window
  // ---------------------------------------------------------------------------

  /** The sum of a sequence of samples. */
  function Sum(s: seq<real>): real
  {
    if s == [] then 0.0 else Sum(s[..|s| - 1]) + s[|s| - 1]
  }

  /** The smallest sample, 0 for none (`min_by(...).unwrap_or(0.0)`). */
  function SeqMin(s: seq<real>): (m: real)
    ensures s == [] ==> m == 0.0
    ensures s != [] ==> m in s && forall i :: 0 <= i < |s| ==> m <= s[i]
  {
    if |s| <= 1 then (if s == [] then 0.0 else s[0])
    else
      var rest := SeqMin(s[..|s| - 1]);
      assert forall i :: 0 <= i < |s| - 1 ==> s[i] == s[..|s| - 1][i];
      if s[|s| - 1] < rest then s[|s| - 1] else rest
  }

  /** The largest sample, 0 for none. */
  function SeqMax(s: seq<real>): (m: real)
    ensures s == [] ==> m == 0.0
    ensures s != [] ==> m in s && forall i :: 0 <= i < |s| ==> s[i] <= m
  {
    if |s| <= 1 then (if s == [] then 0.0 else s[0])
    else
      var rest := SeqMax(s[..|s| - 1]);
      assert forall i :: 0 <= i < |s| - 1 ==> s[i] == s[..|s| - 1][i];
      if s[|s| - 1] > rest then s[|s| - 1] else rest
  }

  /** The slot that holds the sample recorded `j` records ago, counting back
      from the write position `index` (`(index - 1 - j) mod len`). */
  function Slot(index: nat, len: nat, j: nat): (k: nat)
    requires index < len && j < len
    ensures k < len
  {
    if index >= j + 1 then index - 1 - j else index + len - 1 - j
  }

  /** The ring-buffer invariant over the slot contents `s`: the write position
      is a slot, `count` is the number of samples recorded (capped at the
      capacity), below the capacity the write position is the count, and
      going back from the write position the slots hold the most recent
      samples. */
  ghost predicate Ring(s: seq<real>, index: nat, count: nat, history: seq<real>)
  {
    |s| >= 1 && index < |s| &&
    count == Common.Min(|history|, |s|) &&
    (count < |s| ==> index == count) &&
    forall j :: 0 <= j < count ==> s[Slot(index, |s|, j)] == history[|history| - 1 - j]
  }

  /** Advancing a slot position modulo the capacity wraps to zero past the
      last slot and otherwise steps by one. */
  lemma NextSlot(index: nat, len: nat)
    requires index < len
    ensures (index + 1) % len == if index + 1 < len then index + 1 else 0
  {
  }

  /** Writing a sample at the write position and advancing it keeps the ring
      invariant, with the sample appended to the history. */
  lemma RecordKeepsRing(s: seq<real>, index: nat, count: nat, history: seq<real>, x: real)
    requires Ring(s, index, count, history)
    ensures Ring(s[index := x], if index + 1 < |s| then index + 1 else 0,
                 Common.Min(count + 1, |s|), history + [x])
  {
    var len := |s|;
    var s', index', count', history' := s[index := x], if index + 1 < len then index + 1 else 0,
      Common.Min(count + 1, len), history + [x];
    forall j | 0 <= j < count'
      ensures s'[Slot(index', len, j)] == history'[|history'| - 1 - j]
    {
      if j == 0 {
        assert Slot(index', len, 0) == index;
      } else {
        var k := Slot(index, len, j - 1);
        assert Slot(index', len, j) == k != index;
        assert s[k] == history[|history| - 1 - (j - 1)];
      }
    }
  }

  class RollingTimer {
    const samples: array<real>
    var index: nat
    var count: nat
    /** Every sample ever recorded since the last reset, oldest first. */
    ghost var history: seq<real>

    /** The write position stays in range, the window holds the last `count`
        samples, and `count` is the number recorded, capped at the capacity. */
    ghost predicate Valid()
      reads this, samples
    {
      Ring(samples[..], index, count, history)
    }

    /** `RollingTimer::new`: at least one slot, all zero. */
    constructor (sampleCount: nat)
      ensures Valid() && fresh(samples)
      ensures samples.Length == Common.Max(sampleCount, 1) && index == 0 && count == 0 && history == []
      ensures forall i :: 0 <= i < samples.Length ==> samples[i] == 0.0
    {
      samples := new real[Common.Max(sampleCount, 1)](_ => 0.0);
      index, count := 0, 0;
      history := [];
    }

    /** `record`: the sample overwrites the oldest slot once the window is
        full, the write position wraps, and the count grows up to the
        capacity. */
    method Record(sample: real)
      requires Valid()
      modifies this, samples
      ensures Valid()
      ensures samples[..] == old(samples[..])[old(index) := sample]
      ensures index == (old(index) + 1) % samples.Length
      ensures count == Common.Min(old(count) + 1, samples.Length)
      ensures history == old(history) + [sample]
    {
      var len := samples.Length;
      ghost var before := samples[..];
      RecordKeepsRing(before, index, count, history, sample);
      samples[index] := sample;
      assert samples[..] == before[index := sample];
      NextSlot(index, len);
      index := (index + 1) % len;
      count := Common.Min(count + 1, len);
      history := history + [sample];
    }

    /** The window as a sequence: the first `count` slots. */
    function Window(): (w: seq<real>)
      reads this, samples
      requires Valid()
      ensures |w| == count
    {
      samples[..count]
    }

    /** `average`. */
    function Average(): (a: real)
      reads this, samples
      requires Valid()
      ensures count == 0 ==> a == 0.0
      ensures count > 0 ==> a * (count as real) == Sum(samples[..count])
    {
      if count == 0 then 0.0 else Sum(samples[..count]) / (count as real)
    }

    /** `min`. */
    function Min(): (m: real)
      reads this, samples
      requires Valid()
      ensures count == 0 ==> m == 0.0
      ensures count > 0 ==> (exists i :: 0 <= i < count && m == samples[i]) &&
                            forall i :: 0 <= i < count ==> m <= samples[i]
    {
      var w := samples[..count];
      assert forall i :: 0 <= i < count ==> w[i] == samples[i];
      SeqMin(w)
    }

    /** `max`. */
    function Max(): (m: real)
      reads this, samples
      requires Valid()
      ensures count == 0 ==> m == 0.0
      ensures count > 0 ==> (exists i :: 0 <= i < count && m == samples[i]) &&
                            forall i :: 0 <= i < count ==> samples[i] <= m
    {
      var w := samples[..count];
      assert forall i :: 0 <= i < count ==> w[i] == samples[i];
      SeqMax(w)
    }

    /** `count`. */
    function Count(): (n: nat)
      reads this, samples
      requires Valid()
      ensures n <= samples.Length && n <= |history|
    {
      count
    }

    /** `reset`: every slot zeroed, position and count back to zero. */
    method Reset()
      requires Valid()
      modifies this, samples
      ensures Valid()
      ensures index == 0 && count == 0 && history == []
      ensures forall i :: 0 <= i < samples.Length ==> samples[i] == 0.0
    {
      var i := 0;
      while i < samples.Length
        invariant 0 <= i <= samples.Length
        invariant forall k :: 0 <= k < i ==> samples[k] == 0.0
      {
        samples[i] := 0.0;
        i := i + 1;
      }
      index, count := 0, 0;
      history := [];
    }
  }

  /** Until the window fills, its slots hold exactly the recorded samples in
      the order they were recorded. */
  lemma WindowIsHistoryUntilFull(t: RollingTimer)
    requires t.Valid() && t.count < t.samples.Length
    ensures t.Window() == t.history
  {
    var len := t.samples.Length;
    var w := t.Window();
    assert |t.history| == t.count;
    forall i | 0 <= i < t.count ensures w[i] == t.history[i] {
      var j := t.count - 1 - i;
      assert Slot(t.index, len, j) == i;
    }
  }

  // ---------------------------------------------------------------------------
  // Operation counter
  // ---------------------------------------------------------------------------

  /** A named counter of operations and of their total time. */
  class PerfCounter {
    const name: string
    var count: Common.usize
    var totalNanos: Common.usize

    /** `PerfCounter::new`. */
    constructor (name: string)
      ensures this.name == name && count == 0 && totalNanos == 0
    {
      this.name := name;
      count, totalNanos := 0, 0;
    }

    /** `record`: one more operation, and its duration (in nanoseconds,
        truncated to 64 bits) added to the total; both wrap at 2^64. */
    method Record(durationNanos: nat)
      modifies this
      ensures count == Common.WrappingAdd(old(count), 1)
      ensures totalNanos == Common.WrappingAdd(old(totalNanos), Common.TruncateToU64(durationNanos))
    {
      count := Common.WrappingAdd(count, 1);
      totalNanos := Common.WrappingAdd(totalNanos, Common.TruncateToU64(durationNanos));
    }

    /** `count`. */
    function Count(): (n: Common.usize)
      reads this
      ensures n == count
    {
      count
    }

    /** `total_nanos`. */
    function TotalNanos(): (n: Common.usize)
      reads this
      ensures n == totalNanos
    {
      totalNanos
    }

    /** `reset`. */
    method Reset()
      modifies this
      ensures count == 0 && totalNanos == 0
    {
      count, totalNanos := 0, 0;
    }
  }

  /** Below 2^64 operations and nanoseconds the counter adds exactly. */
  lemma RecordAddsExactly(count: Common.usize, total: Common.usize, d: nat)
    requires count + 1 < Common.U64_MODULUS && total + d < Common.U64_MODULUS
    ensures Common.WrappingAdd(count, 1) == count + 1
    ensures Common.WrappingAdd(total, Common.TruncateToU64(d)) == total + d
  {
  }

  // ---------------------------------------------------------------------------
  // Scenarios from the unit tests
  // ---------------------------------------------------------------------------

  /** The statistics of the three frame times of `test_rolling_timer`. */
  lemma ThreeSampleStats()
    ensures SeqMin([0.016, 0.017, 0.015]) == 0.015
    ensures SeqMax([0.016, 0.017, 0.015]) == 0.017
    ensures Sum([0.016, 0.017, 0.015]) == 0.048
  {
    assert [0.016, 0.017, 0.015][..2] == [0.016, 0.017];
    assert [0.016, 0.017][..1] == [0.016];
    assert [0.016][..0] == [];
  }

  /** Records three frame times into a five-slot window. */
  method RecordThree() returns (t: RollingTimer)
    ensures t.Valid() && t.samples.Length == 5
    ensures t.history == [0.016, 0.017, 0.015]
  {
    t := new RollingTimer(5);
    t.Record(0.016);
    t.Record(0.017);
    t.Record(0.015);
  }

  /** `test_rolling_timer`: count 3, minimum 0.015, maximum 0.017. */
  method RollingScenario()
  {
    var t := RecordThree();
    WindowIsHistoryUntilFull(t);
    assert t.Count() == 3;
    ThreeSampleStats();
    assert t.Min() == 0.015;
    assert t.Max() == 0.017;
    assert t.Average() == 0.016;
  }

  method PerfCounterScenario()
  {
    var c := new PerfCounter("test");
    var i := 0;
    while i < 10
      invariant 0 <= i <= 10 && c.count == i
    {
      c.Record(100_000);
      i := i + 1;
    }
    assert c.Count() == 10;
  }
}
