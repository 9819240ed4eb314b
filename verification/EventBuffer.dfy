/** The growing event array that the expansion passes write, with their limit. */
module EventBuffer {
  import opened Events

  predicate Over(limit: nat, n: nat) { limit > 0 && n > limit }

  class Buffer {
    const limit: nat               // most events, or 0 for any number
    var data: seq<Event>
    var stopped: bool              // the limit was reached
    ghost var asked: seq<Event>    // everything pushed

    ghost predicate Valid()
      reads this
    {
      (stopped <==> Over(limit, |asked|)) && (!stopped ==> data == asked)
    }

    constructor (limit: nat)
      ensures Valid() && asked == [] && this.limit == limit
    {
      this.limit := limit;
      data, stopped, asked := [], false, [];
    }

    /** ebuf_push: nothing goes in once the limit has stopped one. */
    method Push(e: Event)
      requires Valid()
      modifies this
      ensures Valid() && asked == old(asked) + [e]
    {
      asked := asked + [e];
      if stopped { return; }
      if limit > 0 && |data| >= limit {
        stopped := true;
        return;
      }
      data := data + [e];
    }

    /** ebuf_push_range */
    method PushRange(evs: seq<Event>, start: nat, end: nat)
      requires Valid() && start <= end <= |evs|
      modifies this
      ensures Valid() && asked == old(asked) + evs[start..end]
    {
      for i := start to end
        invariant Valid() && asked == old(asked) + evs[start..i]
      {
        Push(evs[i]);
        assert evs[start..i + 1] == evs[start..i] + [evs[i]];
      }
    }
  }
}
