/** The historian's per-tag ring buffer: recording, range queries and flushing to file, against the
    log of everything recorded. */
module Historian {
  import opened Common
  import opened Ring

  datatype Sample = Sample(timestamp: nat, tagId: int, value: real, quality: int)

  /** One binary record of a data file: the tag is in the file's name. */
  datatype Record = Record(timestamp: nat, value: real, quality: int)

  function ToRecord(s: Sample): Record {
    Record(s.timestamp, s.value, s.quality)
  }

  function ToRecords(s: seq<Sample>): seq<Record> {
    seq(|s|, i requires 0 <= i < |s| => ToRecord(s[i]))
  }

  /** The last `n` entries of a log. */
  function Last<T>(log: seq<T>, n: nat): seq<T> {
    if |log| <= n then log else log[|log| - n..]
  }

  predicate InRange(s: Sample, from: nat, to: nat) {
    from <= s.timestamp <= to
  }

  /** The entries in a time range, in order. */
  function Within(log: seq<Sample>, from: nat, to: nat): seq<Sample> {
    if log == [] then []
    else Within(log[..|log| - 1], from, to) + if InRange(log[|log| - 1], from, to) then [log[|log| - 1]] else []
  }

  function Take<T>(s: seq<T>, n: int): seq<T> {
    if n <= 0 then [] else if n >= |s| then s else s[..n]
  }

  /** The places of the entries that were taken at `from` or later and at `to` or earlier. */
  ghost function Places(log: seq<Sample>, from: nat, to: nat): seq<nat> {
    if log == [] then []
    else
      var n := |log| - 1;
      Places(log[..n], from, to) + if log[n].timestamp < from || log[n].timestamp > to then [] else [n]
  }

  ghost predicate IsPlace(log: seq<Sample>, from: nat, to: nat, i: nat) {
    i < |log| && log[i].timestamp >= from && log[i].timestamp <= to
  }

  /** They are increasing and complete. */
  lemma {:induction false} PlacesExact(log: seq<Sample>, from: nat, to: nat)
    ensures forall i: nat :: i in Places(log, from, to) <==> IsPlace(log, from, to, i)
    ensures forall k, l :: 0 <= k < l < |Places(log, from, to)| ==> Places(log, from, to)[k] < Places(log, from, to)[l]
  {
    if log != [] {
      var n := |log| - 1;
      var front := Places(log[..n], from, to);
      PlacesExact(log[..n], from, to);
      forall k | 0 <= k < |front| ensures front[k] < n {
        assert front[k] in front;
      }
      forall i: nat | i < n ensures IsPlace(log[..n], from, to, i) == IsPlace(log, from, to, i) {
      }
    }
  }

  /** A range query finds exactly the entries at those places, in order. */
  lemma {:induction false} WithinAtPlaces(log: seq<Sample>, from: nat, to: nat, k: nat)
    ensures |Within(log, from, to)| == |Places(log, from, to)|
    ensures k < |Places(log, from, to)| ==>
            Places(log, from, to)[k] < |log| && Within(log, from, to)[k] == log[Places(log, from, to)[k]]
  {
    if log != [] {
      WithinAtPlaces(log[..|log| - 1], from, to, k);
    }
  }

  /** So the answer holds exactly the entries between both bounds, bounds included, in recording order. */
  lemma QueryIsExact(log: seq<Sample>, from: nat, to: nat) returns (places: seq<nat>)
    ensures forall i: nat :: i in places <==> i < |log| && log[i].timestamp >= from && log[i].timestamp <= to
    ensures forall k, l :: 0 <= k < l < |places| ==> places[k] < places[l]
    ensures |Within(log, from, to)| == |places|
    ensures forall k :: 0 <= k < |places| ==> places[k] < |log| && Within(log, from, to)[k] == log[places[k]]
  {
    places := Places(log, from, to);
    PlacesExact(log, from, to);
    WithinAtPlaces(log, from, to, 0);
    forall k | 0 <= k < |places| ensures places[k] < |log| && Within(log, from, to)[k] == log[places[k]] {
      WithinAtPlaces(log, from, to, k);
    }
  }

  lemma {:induction false} WithinPrefix(log: seq<Sample>, from: nat, to: nat, i: nat)
    requires i <= |log|
    ensures Within(log[..i], from, to) <= Within(log, from, to)
  {
    if i < |log| {
      WithinPrefix(log[..|log| - 1], from, to, i);
      assert log[..|log| - 1][..i] == log[..i];
    } else {
      assert log[..i] == log;
    }
  }

  class Tag {
    const tagId: int
    const capacity: nat
    const samples: array<Sample>
    var count: nat
    var writePos: nat
    var totalSamples: nat
    var file: seq<Record>
    ghost var log: seq<Sample>  // recorded since the last flush

    ghost predicate Valid()
      reads this, samples
      ensures Valid() ==> samples.Length == capacity > 0
    {
      && samples.Length == capacity > 0
      && writePos == |log| % capacity
      && count == (if |log| <= capacity then |log| else capacity)
      && forall k :: |log| - count <= k < |log| ==> samples[k % capacity] == log[k]
    }

    /** What the tag holds, as the run lemmas see it. */
    ghost function Holding(): Store
      reads this
    {
      Store(file, log)
    }

    constructor (tagId: int, capacity: nat)
      requires capacity > 0
      ensures Valid() && fresh(samples) && Holding() == Store([], []) && totalSamples == 0
      ensures this.tagId == tagId && this.capacity == capacity
    {
      this.tagId, this.capacity := tagId, capacity;
      samples := new Sample[capacity](_ => Sample(0, 0, 0.0, 0));
      count, writePos, totalSamples, file, log := 0, 0, 0, [], [];
    }

    method AddSample(s: Sample)
      requires Valid()
      modifies this`count, this`writePos, this`log, samples
      ensures Valid() && log == old(log) + [s]
    {
      forall k | |log| - capacity < k < |log| && 0 <= k ensures k % capacity != writePos {
        DifferentSlots(k, |log|, capacity);
      }
      NextSlot(|log|, capacity);
      samples[writePos] := s;
      writePos := (writePos + 1) % capacity;
      if count < capacity {
        count := count + 1;
      }
      log := log + [s];
    }

    method RecordSample(timestamp: nat, value: real, quality: int)
      requires Valid()
      modifies this`count, this`writePos, this`log, this`totalSamples, samples
      ensures Valid() && log == old(log) + [Sample(timestamp, tagId, value, quality)]
      ensures totalSamples == old(totalSamples) + 1
      ensures Holding() == Apply(capacity, old(Holding()), Put(Sample(timestamp, tagId, value, quality)))
    {
      AddSample(Sample(timestamp, tagId, value, quality));
      totalSamples := totalSamples + 1;
    }

    /** The `i`-th oldest buffered sample. */
    method ReadSample(i: nat) returns (s: Sample)
      requires Valid() && i < count
      ensures s == Last(log, capacity)[i]
    {
      ReaderSlot(|log|, count - i, capacity);
      s := samples[(writePos - count + i + capacity) % capacity];
    }

    /** The first `max` buffered samples in the time range, in recording order. */
    method Query(from: nat, to: nat, max: int) returns (out: seq<Sample>)
      requires Valid()
      ensures out == Take(Within(Last(log, capacity), from, to), max)
    {
      out := [];
      var i := 0;
      ghost var buffered := Last(log, capacity);
      while i < count && |out| < max
        invariant 0 <= i <= count == |buffered|
        invariant out == Within(buffered[..i], from, to)
        invariant |out| <= max || (max <= 0 && i == 0 && out == [])
      {
        var s := ReadSample(i);
        assert buffered[..i + 1][..i] == buffered[..i];
        if InRange(s, from, to) {
          out := out + [s];
        }
        i := i + 1;
      }
      WithinPrefix(buffered, from, to, i);
      if i == count {
        assert buffered[..i] == buffered;
      } else if max > 0 {
        assert out == Within(buffered, from, to)[..max];
      }
    }

    /** Append the buffered samples to the data file and empty the buffer; nothing happens when
        the file cannot be written. */
    method Flush(writable: bool) returns (flushed: nat)
      requires Valid()
      modifies this`count, this`writePos, this`log, this`file
      ensures Valid()
      ensures flushed == if writable then |Last(old(log), capacity)| else 0
      ensures file == if writable then old(file) + ToRecords(Last(old(log), capacity)) else old(file)
      ensures log == if writable then [] else old(log)
      ensures Holding() == Apply(capacity, old(Holding()), Save(writable))
    {
      flushed := 0;
      if count == 0 {
        return;
      }
      if !writable {
        return;
      }
      ghost var buffered := Last(log, capacity);
      for i := 0 to count
        invariant flushed == i && Valid() && log == old(log)
        invariant file == old(file) + ToRecords(buffered[..i])
      {
        var s := ReadSample(i);
        ghost var before := file;
        file := file + [ToRecord(s)];
        flushed := flushed + 1;
        assert ToRecords(buffered[..i + 1]) == ToRecords(buffered[..i]) + [ToRecord(s)];
      }
      assert buffered[..count] == buffered;
      count, writePos, log := 0, 0, [];
    }
  }

  // ----- Over whole runs -----

  datatype Op = Put(sample: Sample) | Save(writable: bool)

  /** What one tag holds: its file, and what was recorded since the last flush. */
  datatype Store = Store(file: seq<Record>, log: seq<Sample>)

  ghost function Apply(capacity: nat, s: Store, op: Op): Store {
    match op
    case Put(x) => s.(log := s.log + [x])
    case Save(writable) => if writable then Store(s.file + ToRecords(Last(s.log, capacity)), []) else s
  }

  ghost function After(capacity: nat, ops: seq<Op>): Store {
    if ops == [] then Store([], []) else Apply(capacity, After(capacity, ops[..|ops| - 1]), ops[|ops| - 1])
  }

  /** Everything ever recorded. */
  ghost function Recorded(ops: seq<Op>): seq<Sample> {
    if ops == [] then []
    else Recorded(ops[..|ops| - 1]) + if ops[|ops| - 1].Put? then [ops[|ops| - 1].sample] else []
  }

  /** The number of samples overwritten before they were saved. */
  ghost function Lost(capacity: nat, ops: seq<Op>): nat {
    if ops == [] then 0 else
      var n := |ops| - 1;
      Lost(capacity, ops[..n])
      + if ops[n].Put? && |After(capacity, ops[..n]).log| >= capacity then 1 else 0
  }

  /** The saved file followed by the buffer. */
  ghost function Kept(capacity: nat, s: Store): seq<Record> {
    s.file + ToRecords(Last(s.log, capacity))
  }

  /** Every recorded sample is saved, buffered or lost. */
  lemma {:induction false} SamplesCounted(capacity: nat, ops: seq<Op>)
    requires capacity > 0
    ensures |Kept(capacity, After(capacity, ops))| + Lost(capacity, ops) == |Recorded(ops)|
  {
    if ops != [] {
      SamplesCounted(capacity, ops[..|ops| - 1]);
    }
  }

  /** The records are the samples, field by field and in order. */
  ghost predicate Transcribes(records: seq<Record>, log: seq<Sample>) {
    |records| == |log| && forall k :: 0 <= k < |log| ==>
      && records[k].timestamp == log[k].timestamp && records[k].value == log[k].value
      && records[k].quality == log[k].quality
  }

  lemma TranscribedIff(records: seq<Record>, log: seq<Sample>)
    ensures records == ToRecords(log) <==> Transcribes(records, log)
  {
  }

  lemma {:induction false} NothingLostKeepsAll(capacity: nat, ops: seq<Op>)
    requires capacity > 0 && Lost(capacity, ops) == 0
    ensures Kept(capacity, After(capacity, ops)) == ToRecords(Recorded(ops))
    ensures |After(capacity, ops).log| <= capacity
  {
    if ops != [] {
      var n := |ops| - 1;
      NothingLostKeepsAll(capacity, ops[..n]);
      var before := After(capacity, ops[..n]);
      if ops[n].Put? {
        var x := ops[n].sample;
        assert ToRecords(Recorded(ops[..n]) + [x]) == ToRecords(Recorded(ops[..n])) + [ToRecord(x)];
        assert ToRecords(before.log + [x]) == ToRecords(before.log) + [ToRecord(x)];
        Regroup(before.file, ToRecords(before.log), [ToRecord(x)]);
      }
    }
  }

  /** File and buffer together are the whole log, record for record, exactly when no period between
      two flushes outgrew the buffer. */
  lemma LogKeptIff(capacity: nat, ops: seq<Op>)
    requires capacity > 0
    ensures Transcribes(Kept(capacity, After(capacity, ops)), Recorded(ops))
       <==> forall k :: 0 <= k <= |ops| ==> |After(capacity, ops[..k]).log| <= capacity
  {
    TranscribedIff(Kept(capacity, After(capacity, ops)), Recorded(ops));
    SamplesCounted(capacity, ops);
    LostIff(capacity, ops);
    if Lost(capacity, ops) == 0 {
      NothingLostKeepsAll(capacity, ops);
    }
  }

  lemma {:induction false} LostIff(capacity: nat, ops: seq<Op>)
    requires capacity > 0
    ensures Lost(capacity, ops) == 0 <==> forall k :: 0 <= k <= |ops| ==> |After(capacity, ops[..k]).log| <= capacity
  {
    if ops == [] {
      assert ops[..0] == ops;
    } else {
      var n := |ops| - 1;
      LostIff(capacity, ops[..n]);
      assert ops[..|ops|] == ops;
      assert forall k :: 0 <= k <= n ==> ops[..n][..k] == ops[..k];
      if Lost(capacity, ops) == 0 {
        NothingLostKeepsAll(capacity, ops);
      }
    }
  }
}
