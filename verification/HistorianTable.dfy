/** The historian's table of tags: calls find their tag by id, and touch no other. */
module HistorianTable {
  import opened Status
  import opened Historian

  class Table {
    var tags: seq<Tag>

    ghost predicate Valid()
      reads this, tags, set t | t in tags :: t.samples
    {
      && (forall i, j | 0 <= i < j < |tags| ::
            tags[i].tagId != tags[j].tagId && tags[i] != tags[j] && tags[i].samples != tags[j].samples)
      && (forall i | 0 <= i < |tags| :: tags[i].Valid())
    }

    ghost predicate Known(id: int)
      reads this
    {
      exists k | 0 <= k < |tags| :: tags[k].tagId == id
    }

    /** The position of a tag id, or -1. */
    method Find(id: int) returns (i: int)
      ensures -1 <= i < |tags|
      ensures i >= 0 ==> tags[i].tagId == id
      ensures i < 0 <==> !Known(id)
    {
      i := 0;
      while i < |tags|
        invariant 0 <= i <= |tags|
        invariant forall k | 0 <= k < i :: tags[k].tagId != id
      {
        if tags[i].tagId == id {
          return;
        }
        i := i + 1;
      }
      i := -1;
    }

    method RecordSample(id: int, timestamp: nat, value: real, quality: int) returns (code: Code)
      requires Valid()
      modifies tags, set t | t in tags :: t.samples
      ensures Valid() && tags == old(tags)
      ensures code == if Known(id) then Ok else NotFound
      ensures forall k | 0 <= k < |tags| :: tags[k].Holding() ==
                if tags[k].tagId == id
                then Apply(tags[k].capacity, old(tags[k].Holding()), Put(Sample(timestamp, id, value, quality)))
                else old(tags[k].Holding())
    {
      var i := Find(id);
      if i < 0 {
        return NotFound;
      }
      assert tags[i] in tags;
      tags[i].RecordSample(timestamp, value, quality);
      code := Ok;
    }

    /** The first `max` buffered samples of the tag in the time range, in recording order. */
    method Query(id: int, from: nat, to: nat, max: int) returns (code: Code, out: seq<Sample>)
      requires Valid()
      ensures code == if Known(id) then Ok else NotFound
      ensures forall k | 0 <= k < |tags| && tags[k].tagId == id ::
                out == Take(Within(Last(tags[k].log, tags[k].capacity), from, to), max)
    {
      var i := Find(id);
      if i < 0 {
        return NotFound, [];
      }
      assert forall k | 0 <= k < |tags| && tags[k].tagId == id :: k == i;
      out := tags[i].Query(from, to, max);
      code := Ok;
    }
  }
}
