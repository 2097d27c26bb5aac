/** The in-memory cancel signals of one process (`DeployRunManager`), by deploy id. */
module CancelRegistry {

  datatype Op = Register(id: nat) | Cancel(id: nat) | Unregister(id: nat) | CancelAll

  function After(events: map<nat, bool>, op: Op): map<nat, bool> {
    match op
    case Register(id) => if id in events then events else events[id := false]
    case Cancel(id) => events[id := true]
    case Unregister(id) => events - {id}
    case CancelAll => map id | id in events :: true
  }

  class DeployRunManager {
    /** Present ids are in progress on this process; the value says whether the event is set. */
    var events: map<nat, bool>

    constructor ()
      ensures events == map[]
    {
      events := map[];
    }

    /** A set event of an id not yet registered is a cancel that came first: it is kept. */
    method Register(id: nat)
      modifies this
      ensures events == After(old(events), Op.Register(id))
      ensures id in events && events[id] == (id in old(events) && old(events)[id])
    {
      if id !in events {
        events := events[id := false];
      } else if !events[id] {
        events := events[id := false];
      }
    }

    method Cancel(id: nat) returns (ok: bool)
      modifies this
      ensures ok && events == After(old(events), Op.Cancel(id))
    {
      if id !in events {
        events := events[id := false];
      }
      events := events[id := true];
      ok := true;
    }

    predicate IsCancelled(id: nat)
      reads this
    {
      id in events && events[id]
    }

    method Unregister(id: nat)
      modifies this
      ensures events == After(old(events), Op.Unregister(id))
    {
      events := events - {id};
    }

    function ActiveIds(): set<nat>
      reads this
    {
      events.Keys
    }

    /** Sets the events one after the other, as the loop over the dict does. */
    method CancelAll()
      modifies this
      ensures events == After(old(events), Op.CancelAll)
    {
      var todo := events.Keys;
      while todo != {}
        invariant todo <= events.Keys == old(events).Keys
        invariant forall id :: id in events && id !in todo ==> events[id]
        decreases |todo|
      {
        var id :| id in todo;
        events := events[id := true];
        todo := todo - {id};
      }
    }
  }

  function Replay(ops: seq<Op>): map<nat, bool> {
    if ops == [] then map[] else After(Replay(ops[..|ops| - 1]), ops[|ops| - 1])
  }

  /** No unregister of the id in ops[from..]. */
  predicate KeptFrom(ops: seq<Op>, from: nat, id: nat) {
    forall k :: from <= k < |ops| ==> ops[k] != Unregister(id)
  }

  predicate Mentions(op: Op, id: nat) {
    op == Register(id) || op == Cancel(id)
  }

  /** ops[..k] leave the id present: it was registered or cancelled, and not unregistered since. */
  predicate PresentAt(ops: seq<Op>, k: nat, id: nat)
    requires k <= |ops|
  {
    exists i :: 0 <= i < k && Mentions(ops[i], id) && KeptFrom(ops[..k], i, id)
  }

  /** A cancel reached the id at step k: its own, or a cancel of all while it was present. */
  predicate Reached(ops: seq<Op>, k: nat, id: nat)
    requires k < |ops|
  {
    ops[k] == Cancel(id) || (ops[k] == CancelAll && PresentAt(ops, k, id))
  }

  lemma {:induction false} PresenceIsReplay(ops: seq<Op>, id: nat)
    ensures PresentAt(ops, |ops|, id) <==> id in Replay(ops)
  {
    assert ops[..|ops|] == ops;
    if ops != [] {
      var n := |ops| - 1;
      var front := ops[..n];
      PresenceIsReplay(front, id);
      assert front[..n] == front;
      if id in Replay(ops) && id in Replay(front) {
        var i :| 0 <= i < n && Mentions(front[i], id) && KeptFrom(front, i, id);
        assert Mentions(ops[i], id) && KeptFrom(ops, i, id);
      } else if id in Replay(ops) {
        assert Mentions(ops[n], id) && KeptFrom(ops, n, id);
      }
      if PresentAt(ops, |ops|, id) {
        var i :| 0 <= i < |ops| && Mentions(ops[i], id) && KeptFrom(ops, i, id);
        assert ops[n] != Unregister(id);
        if i < n {
          assert Mentions(front[i], id) && KeptFrom(front, i, id);
        }
      }
    }
  }

  /** Cancels are never lost: an id reads as cancelled exactly when some cancel reached it and it
      was not unregistered since, a cancel before the registration included. */
  lemma {:induction false} CancelsAreNeverLost(ops: seq<Op>, id: nat)
    ensures (id in Replay(ops) && Replay(ops)[id]) <==>
            exists k :: 0 <= k < |ops| && Reached(ops, k, id) && KeptFrom(ops, k, id)
  {
    if ops != [] {
      var n := |ops| - 1;
      var front := ops[..n];
      CancelsAreNeverLost(front, id);
      PresenceIsReplay(front, id);
      assert front[..n] == front == ops[..n];
      forall k | 0 <= k < n
        ensures Reached(ops, k, id) == Reached(front, k, id)
        ensures KeptFrom(ops, k, id) <==> KeptFrom(front, k, id) && ops[n] != Unregister(id)
      {
        assert front[..k] == ops[..k];
        assert KeptFrom(front, k, id) && ops[n] != Unregister(id) ==> KeptFrom(ops, k, id);
        if KeptFrom(ops, k, id) {
          assert forall j :: k <= j < n ==> front[j] == ops[j];
        }
      }
      if id in Replay(ops) && Replay(ops)[id] {
        if id in Replay(front) && Replay(front)[id] {
          var k :| 0 <= k < n && Reached(front, k, id) && KeptFrom(front, k, id);
          assert Reached(ops, k, id) && KeptFrom(ops, k, id);
        } else {
          assert Reached(ops, n, id) && KeptFrom(ops, n, id);
        }
      }
    }
  }
}
