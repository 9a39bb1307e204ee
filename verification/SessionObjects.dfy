/** Session and Response as objects. */
module SessionObjects {
  // `Response` and `Session` as objects.  The methods update the fields in place;
  // what they compute is given by the functions of `BoshSession` over which the
  // worker state machine of `BoshServer` steps.

  import opened Collections
  import opened Options
  import opened BoshSession

  datatype ResponseStatus = Pending | Done
  datatype SessionStatus = Starting | Active | Term

  class Response {
    const rid: int
    var status: ResponseStatus
    var aborted: bool

    constructor (rid: int)
      ensures this.rid == rid && status == Pending && !aborted
    {
      this.rid, status, aborted := rid, Pending, false;
    }

    method SetAborted(flag: bool)
      modifies `aborted
      ensures aborted == flag
    {
      aborted := flag;
    }

    /** Rendering and writing are foreign; the response counts as done either way. */
    method Send()
      modifies `status
      ensures status == Done
    {
      status := Done;
    }
  }

  class Session {
    var responses: map<int, Response>
    var lastDoneRID: int
    var status: SessionStatus
    var closed: bool
    var registered: bool
    /** How often everybody waiting at the gate was woken. */
    var bells: nat

    constructor ()
      ensures responses == map[] && lastDoneRID == 0 && status == Active && !closed && registered && bells == 0
    {
      responses, lastDoneRID, status, closed, registered, bells := map[], 0, Active, false, true, 0;
    }

    /** The responses that are done. */
    ghost function DoneSet(): set<Response>
      reads this, responses.Values
    {
      set r | r in responses.Values && r.status == Done
    }

    method AddResponse(r: Response)
      modifies `responses
      ensures responses == Added(old(responses), r.rid, r)
    {
      while |responses| > 0 && |responses| >= MAX_REQUESTS
        invariant Truncated(responses) == Truncated(old(responses))
        decreases |responses|
      {
        var first := FirstKey(responses.Keys);
        assert (responses - {first}).Keys == responses.Keys - {first};
        responses := responses - {first};
      }
      responses := responses[r.rid := r];
    }

    method GetResponse(rid: int) returns (r: Option<Response>)
      ensures r == if rid in responses then Some(responses[rid]) else None
    {
      r := if rid in responses then Some(responses[rid]) else None;
    }

    method CheckValidRID(rid: int) returns (ok: bool)
      ensures ok == ValidRid(responses.Keys, rid)
      ensures ok <==> (exists k :: k in responses && k <= rid) && (exists k :: k in responses && rid <= k + 2)
    {
      if |responses| == 0 {
        ok := false;
        assert responses.Keys == {};
      } else {
        assert FirstKey(responses.Keys) in responses && LastKey(responses.Keys) in responses;
        assert |responses.Keys| == |responses|;
        ok := rid <= LastKey(responses.Keys) + MAX_REQUESTS && rid >= FirstKey(responses.Keys);
      }
    }

    method NumPendingRequests() returns (n: nat)
      ensures n == |PendingKeys(responses, DoneSet())|
      ensures n == |set k | k in responses && responses[k].status == Pending|
    {
      n := 0;
      var rest := responses.Keys;
      while rest != {}
        invariant rest <= responses.Keys
        invariant n == |set k | k in responses && k !in rest && responses[k] !in DoneSet()|
        decreases rest
      {
        ghost var seen := set k | k in responses && k !in rest && responses[k] !in DoneSet();
        ghost var any := Pick(rest);
        var k :| k in rest;
        rest := rest - {k};
        if responses[k].status != Done {
          n := n + 1;
          assert (set j | j in responses && j !in rest && responses[j] !in DoneSet()) == seen + {k};
        } else {
          assert (set j | j in responses && j !in rest && responses[j] !in DoneSet()) == seen;
        }
      }
      assert (set k | k in responses && k !in rest && responses[k] !in DoneSet()) == PendingKeys(responses, DoneSet());
      assert (set k | k in responses && responses[k].status == Pending) == PendingKeys(responses, DoneSet());
    }

    method SetLastDoneRID(rid: int)
      modifies `lastDoneRID
      ensures lastDoneRID == rid
    {
      lastDoneRID := rid;
    }

    /** Closing a socket twice is harmless; the session stays terminated for good, and
        whoever waits is woken each time. */
    method Terminate()
      modifies `status, `closed, `registered, `bells
      ensures status == Term && closed && !registered && bells == old(bells) + 1
    {
      status := Term;
      if !closed {
        closed := true;
      }
      NotifyAll();
      registered := false;
    }

    method NotifyAll()
      modifies `bells
      ensures bells == old(bells) + 1
    {
      bells := bells + 1;
    }

    /** Admission as `doPost` performs it for a request whose rid is a number, when
        nothing interrupts it: resend, refusal, or a new pending response. */
    method Admit(rid: int) returns (r: Option<Response>, admitted: bool)
      modifies this, responses.Values
      ensures rid in old(responses) ==>
        !admitted && r == Some(old(responses)[rid]) && responses == old(responses) && old(responses)[rid].status == Done
      ensures rid !in old(responses) ==>
        (admitted <==> ValidRid(old(responses).Keys, rid) && |old(PendingKeys(responses, DoneSet()))| < MAX_REQUESTS)
      ensures admitted <==> (rid !in old(responses)
        && (exists k :: k in old(responses) && k <= rid) && (exists k :: k in old(responses) && rid <= k + 2)
        && |old(set k | k in responses && responses[k].status == Pending)| < 2)
      ensures admitted ==> r.Some? && r.value.rid == rid && r.value.status == Pending && status == old(status)
      ensures admitted ==> responses == Added(old(responses), rid, r.value)
      ensures forall k :: k in old(responses) ==> r == Some(old(responses)[k]) || unchanged(old(responses)[k])
      ensures !admitted && r.None? ==> responses == old(responses) && status == Term && bells == old(bells) + 1
      ensures admitted || r.Some? ==> bells == old(bells) && lastDoneRID == old(lastDoneRID)
    {
      admitted := false;
      r := GetResponse(rid);
      if r.Some? {
        r.value.SetAborted(true);
        r.value.Send();
        return;
      }
      var ok := CheckValidRID(rid);
      if !ok {
        Terminate();
        return;
      }
      var n := NumPendingRequests();
      assert (set k | k in responses && responses[k].status == Pending)
        == old(set k | k in responses && responses[k].status == Pending);
      if n >= MAX_REQUESTS {
        Terminate();
        return;
      }
      var jresp := new Response(rid);
      AddResponse(jresp);
      r, admitted := Some(jresp), true;
    }
  }
}
