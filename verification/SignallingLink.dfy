/** A link as the object that handles the messages. */
module SignallingLink {
  import opened Common
  import opened Signalling

  class SALink {
    const capacity: real
    const pending: array<int>
    var resvRate: real
    var numfl: int

    function Now(): Link
      reads this, pending
    {
      Link(capacity, resvRate, pending[..], numfl)
    }

    constructor (capacity: real)
      ensures Now() == NewLink(capacity) && fresh(pending)
    {
      this.capacity := capacity;
      pending := new int[NFLOWS](_ => -1);
      resvRate, numfl := 0.0, -1;
      new;
      assert pending[..] == seq(NFLOWS, i => -1);
    }

    /** The add-trace command; attached tells whether there is a trace channel. */
    method StartTrace(attached: bool)
      modifies this
      ensures Now() == if attached then AddTrace(old(Now())) else old(Now())
    {
      if attached { numfl := 0; }
    }

    /** lookup, and get_nxt with -1. */
    method Find(flowid: int) returns (i: nat)
      ensures i == Signalling.Lookup(pending[..], flowid)
    {
      i := 0;
      while i < pending.Length && pending[i] != flowid
        invariant i <= pending.Length && forall k :: 0 <= k < i ==> pending[k] != flowid
      {
        i := i + 1;
      }
      LookupIs(pending[..], flowid, i);
    }

    /** A request; full tells that the simulation ends for lack of a slot. */
    method OnRequest(flowid: int, rate: real, decision: bool) returns (decision': bool, full: bool)
      modifies this, pending
      ensures full <==> Request(old(Now()), flowid, rate).None?
      ensures !full ==> Now() == Request(old(Now()), flowid, rate).value
      ensures decision' == (decision && old(resvRate) + rate <= capacity)
    {
      decision', full := false, false;
      if resvRate + rate <= capacity {
        resvRate := resvRate + rate;
        decision' := decision;
        var j := Find(-1);
        if j == pending.Length { return decision', true; }
        pending[j] := flowid;
        numfl := numfl + 1;
        assert pending[..] == old(pending[..])[j := flowid];
      }
    }

    method OnConfirm(flowid: int, rate: real, decision: bool)
      modifies this, pending
      ensures Now() == Confirm(old(Now()), flowid, rate, decision)
    {
      var j := Find(flowid);
      if j < pending.Length {
        if !decision {
          resvRate := resvRate - rate;
          numfl := numfl - 1;
        }
        pending[j] := -1;
        assert pending[..] == old(pending[..])[j := -1];
      }
    }

    method OnTeardown(rate: real)
      modifies this
      ensures Now() == Teardown(old(Now()), rate)
    {
      resvRate := resvRate - rate;
      numfl := numfl - 1;
    }
  }

  lemma LookupIs(pending: seq<int>, flowid: int, i: nat)
    requires i <= |pending| && (i < |pending| ==> pending[i] == flowid)
    requires forall k :: 0 <= k < i ==> pending[k] != flowid
    ensures Signalling.Lookup(pending, flowid) == i
  {
    var j := Signalling.Lookup(pending, flowid);
    assert j <= i;
  }
}
