/** The recovery manager in its own form: lists walked and relinked entry by entry, the
    callbacks of the clients with their shared static flag, and the broadcast of an event to
    every enabled CRTC. */
module RecoveryDriver {
  import opened RecoveryPool
  import opened RecoveryRuns

  const MAX_CRTCS: nat := 16
  const EINVAL: int := 22

  class RecoveryManager {
    var contexts: seq<Context>      // by CRTC index, at most MAX_CRTCS
    var clients: seq<Client>
    var recFlag: bool               // the static variable of the recover function
    var rcs: seq<int>               // what the callbacks returned so far

    function View(): Manager
      reads this
    {
      Manager(contexts, clients, recFlag, rcs)
    }

    constructor (n: nat, clients: seq<Client>)
      ensures View() == Ready(if n < MAX_CRTCS then n else MAX_CRTCS, clients)
    {
      var cs := [];
      var m := if n < MAX_CRTCS then n else MAX_CRTCS;
      for i := 0 to m
        invariant cs == seq(i, _ => Fresh())
      {
        cs := cs + [Fresh()];
      }
      contexts, this.clients, recFlag, rcs := cs, clients, true, [];
    }

    /** sde_recovery_queue_event. */
    method QueueEvent(i: nat, event: nat) returns (rc: int)
      requires forall j :: 0 <= j < |contexts| ==> InPool(contexts[j])
      requires i < MAX_CRTCS ==> i < |contexts|
      modifies this`contexts
      ensures rc == if i >= MAX_CRTCS then -EINVAL else QueueResult(old(contexts)[i], Entry(event, i))
      ensures contexts == if i >= MAX_CRTCS then old(contexts)
                          else old(contexts)[i := Queue(old(contexts)[i], Entry(event, i))]
      ensures i < MAX_CRTCS ==>
                var c, e := old(contexts)[i], Entry(event, i);
                var reported := exists n :: 0 <= n < |c.pending| && c.pending[n] < |c.db| && c.db[c.pending[n]] == e;
                && rc == (if reported then -EEXIST else if c.free == [] then -ENOMEM else 0)
                && (rc != 0 ==> contexts == old(contexts))
                && (rc == 0 ==>
                      c.free[0] < |c.db|
                      && contexts == old(contexts)[i := c.(db := c.db[c.free[0] := e], free := c.free[1..],
                                                           pending := c.pending + [c.free[0]], queued := true,
                                                           accepted := c.accepted + [e])])
    {
      if i >= MAX_CRTCS { return -EINVAL; }
      var c, e := contexts[i], Entry(event, i);
      ListsInPool(c);
      for n := 0 to |c.pending|
        invariant forall k :: 0 <= k < n ==> Reported(c)[k] != e
      {
        if c.db[c.pending[n]] == e {
          assert Reported(c)[n] == e;
          assert contexts == contexts[i := c];
          return -EEXIST;
        }
      }
      if c.free == [] {
        assert contexts == contexts[i := c];
        return -ENOMEM;
      }
      var t := c.free[0];
      c := c.(free := c.free[1..]);
      c := c.(db := c.db[t := e]);
      c := c.(pending := c.pending + [t], queued := true, accepted := c.accepted + [e]);
      contexts := contexts[i := c];
      rc := 0;
    }

    /** The worker moves the reported events to a list of its own, one by one. */
    method GrabEvents(i: nat)
      requires i < |contexts| && InPool(contexts[i]) && contexts[i].phase.Started? && contexts[i].busy == []
      modifies this`contexts
      ensures contexts == old(contexts)[i := Do(old(contexts)[i], Grab)]
    {
      var c := contexts[i];
      var pos, list := c.pending, [];
      while pos != []
        invariant list + pos == c.pending && contexts == old(contexts)
        decreases |pos|
      {
        assert list + pos == list + [pos[0]] + pos[1..];
        list := list + [pos[0]];
        pos := pos[1..];
      }
      assert list == c.pending;
      contexts := contexts[i := c.(pending := pos, busy := list, phase := Handling(0, ToNotify))];
    }

    /** And gives the entries back when all are handled. */
    method ReleaseEvents(i: nat)
      requires i < |contexts| && InPool(contexts[i]) && Enabled(contexts[i], Release)
      modifies this`contexts
      ensures contexts == old(contexts)[i := Do(old(contexts)[i], Release)]
    {
      var c := contexts[i];
      var pos, free := c.busy, c.free;
      while pos != []
        invariant free + pos == c.free + c.busy && contexts == old(contexts)
        decreases |pos|
      {
        assert free + pos == free + [pos[0]] + pos[1..];
        free := free + [pos[0]];
        pos := pos[1..];
      }
      assert free == c.free + c.busy;
      contexts := contexts[i := c.(free := free, busy := pos, phase := Idle)];
    }

    /** sde_recovery_mgr_recover: exactly the clients that have a callback and the event among
        those they registered for are asked, once each and in the order of the list; answers
        holds what their callbacks return. */
    method RecoverEvent(event: nat, answers: seq<int>) returns (flag: bool, ghost called: seq<nat>)
      requires |answers| == Asked(clients, event)
      modifies this`recFlag, this`rcs
      ensures flag == recFlag == (old(recFlag) && forall i :: 0 <= i < |answers| ==> answers[i] == 0)
      ensures rcs == old(rcs) + answers && |called| == |answers|
      ensures forall a, b :: 0 <= a < b < |called| ==> called[a] < called[b]
      ensures forall k: nat :: k in called <==>
                k < |clients| && clients[k].hasCallback
                && exists j :: 0 <= j < |clients[k].events| && clients[k].events[j] == event
    {
      hide CalledUpTo;
      var asked := 0;
      called := [];
      NoneCalled(clients, event);
      for k := 0 to |clients|
        invariant asked == |called| && asked + Asked(clients[k..], event) == |answers|
        invariant recFlag == (old(recFlag) && NoFailure(answers[..asked])) && rcs == old(rcs) + answers[..asked]
        invariant CalledUpTo(called, clients, event, k)
      {
        assert clients[k..][1..] == clients[k + 1..];
        var client := clients[k];
        var j := 0;
        while j < |client.events| && client.events[j] != event
          invariant 0 <= j <= |client.events| && event !in client.events[..j]
        {
          j := j + 1;
        }
        CalledStep(called, clients, event, k);
        if j < |client.events| && client.hasCallback {
          var rc := answers[asked];
          assert answers[..asked + 1] == answers[..asked] + [rc];
          OneMore(answers[..asked], rc);
          rcs := rcs + [rc];
          if rc != 0 { recFlag := false; }
          asked := asked + 1;
          called := called + [k];
        }
      }
      assert answers[..asked] == answers;
      flag := recFlag;
      AllCalled(called, clients, event);
    }

    /** Of the first n clients, those called are the ones that listed the event. */
    static ghost predicate CalledUpTo(called: seq<nat>, clients: seq<Client>, event: nat, n: nat) {
      && (forall a, b :: 0 <= a < b < |called| ==> called[a] < called[b])
      && (forall a :: 0 <= a < |called| ==> called[a] < n)
      && (forall k: nat :: k in called <==> k < n && k < |clients| && Concerned(clients[k], event))
    }

    static lemma NoneCalled(clients: seq<Client>, event: nat)
      ensures CalledUpTo([], clients, event, 0)
    {
    }

    static lemma CalledStep(called: seq<nat>, clients: seq<Client>, event: nat, k: nat)
      requires CalledUpTo(called, clients, event, k) && k < |clients|
      ensures clients[k].hasCallback && event in clients[k].events <==> Concerned(clients[k], event)
      ensures CalledUpTo(if Concerned(clients[k], event) then called + [k] else called, clients, event, k + 1)
    {
      var now := if Concerned(clients[k], event) then called + [k] else called;
      assert now[..|called|] == called;
      assert forall i: nat :: i in now <==> i in called || (Concerned(clients[k], event) && i == k);
      hide Concerned;
    }

    static lemma AllCalled(called: seq<nat>, clients: seq<Client>, event: nat)
      requires CalledUpTo(called, clients, event, |clients|)
      ensures forall a, b :: 0 <= a < b < |called| ==> called[a] < called[b]
      ensures forall k: nat :: k in called <==>
                k < |clients| && clients[k].hasCallback
                && exists j :: 0 <= j < |clients[k].events| && clients[k].events[j] == event
    {
    }

    static lemma OneMore(rcs: seq<int>, rc: int)
      ensures NoFailure(rcs + [rc]) <==> NoFailure(rcs) && rc == 0
    {
      assert (rcs + [rc])[|rcs|] == rc;
      assert forall i :: 0 <= i < |rcs| ==> (rcs + [rc])[i] == rcs[i];
    }

    static ghost predicate Pooled(cs: seq<Context>) {
      forall j :: 0 <= j < |cs| ==> InPool(cs[j])
    }

    static predicate Hard(rc: int) {
      rc != 0 && rc != -EEXIST
    }

    /** What CRTC k answers; one that is not enabled is not asked. */
    static ghost function Answer(cs: seq<Context>, enabled: seq<bool>, event: nat, k: nat): int
      requires Pooled(cs) && k < |enabled| && (k < MAX_CRTCS ==> k < |cs|)
    {
      if !enabled[k] then 0 else if k >= MAX_CRTCS then -EINVAL else QueueResult(cs[k], Entry(event, k))
    }

    /** What becomes of the pool of CRTC k. */
    static ghost function After(cs: seq<Context>, enabled: seq<bool>, event: nat, k: nat): Context
      requires Pooled(cs) && k < |cs|
    {
      if k < |enabled| && enabled[k] && k < MAX_CRTCS then Queue(cs[k], Entry(event, k)) else cs[k]
    }

    static lemma StaysInPool(c: Context, e: Entry)
      requires InPool(c)
      ensures InPool(Queue(c, e))
    {
      if QueueResult(c, e) == 0 {
        ListsInPool(c);
        var g := Queue(c, e);
        var all := g.free + g.pending + g.busy;
        forall i | 0 <= i < |all| ensures all[i] < EVENTS_LIST_ENTRIES {
          assert all[i] in g.free || all[i] in g.pending || all[i] in g.busy;
        }
      }
    }

    /** sde_recovery_set_event without a CRTC: every enabled CRTC gets the event.  It succeeds
        exactly when no CRTC refuses for another reason than having the event already, and at
        least one took it or none was enabled. */
    method Broadcast(event: nat, enabled: seq<bool>) returns (rc: int, ghost asked: nat)
      requires Pooled(contexts) && |contexts| == (if |enabled| < MAX_CRTCS then |enabled| else MAX_CRTCS)
      modifies this`contexts
      ensures asked <= |enabled| && |contexts| == |old(contexts)| && Pooled(contexts)
      ensures forall k: nat :: k < |contexts| ==>
                contexts[k] == if k < asked then After(old(contexts), enabled, event, k) else old(contexts)[k]
      ensures forall k: nat :: k + 1 < asked ==> !Hard(Answer(old(contexts), enabled, event, k))
      ensures asked < |enabled| ==> asked > 0 && Hard(Answer(old(contexts), enabled, event, asked - 1))
      ensures rc == 0 <==> NoHard(old(contexts), enabled, event, asked)
                           && (SomeTook(old(contexts), enabled, event, asked) || NoneEnabled(enabled, |enabled|))
      ensures rc != 0 ==> rc == if asked > 0 && Hard(Answer(old(contexts), enabled, event, asked - 1))
                                then Answer(old(contexts), enabled, event, asked - 1) else -EEXIST
    {
      hide InPool, Queue, QueueResult;
      rc, asked := 0, 0;
      var queued := false;
      for i := 0 to |enabled|
        invariant asked == i && |contexts| == |old(contexts)| && Pooled(contexts)
        invariant forall k: nat :: k < |contexts| ==>
                    contexts[k] == if k < i then After(old(contexts), enabled, event, k) else old(contexts)[k]
        invariant NoHard(old(contexts), enabled, event, i)
        invariant rc == 0 || rc == -EEXIST
        invariant queued == SomeTook(old(contexts), enabled, event, i)
        invariant rc == 0 && !queued ==> NoneEnabled(enabled, i)
        invariant rc != 0 ==> !NoneEnabled(enabled, i)
      {
        asked := i + 1;
        if enabled[i] {
          if i < MAX_CRTCS { StaysInPool(contexts[i], Entry(event, i)); }
          rc := QueueEvent(i, event);
          assert rc == Answer(old(contexts), enabled, event, i);
          if rc != 0 && rc != -EEXIST { return; }
          if rc == 0 { queued := true; }
        }
      }
      if queued && rc == -EEXIST { rc := 0; }
    }

    static ghost predicate NoHard(cs: seq<Context>, enabled: seq<bool>, event: nat, n: nat)
      requires Pooled(cs) && n <= |enabled| && (|enabled| < MAX_CRTCS ==> |enabled| <= |cs|)
               && (MAX_CRTCS <= |enabled| ==> MAX_CRTCS <= |cs|)
    {
      forall k: nat :: k < n ==> !Hard(Answer(cs, enabled, event, k))
    }

    static ghost predicate SomeTook(cs: seq<Context>, enabled: seq<bool>, event: nat, n: nat)
      requires Pooled(cs) && n <= |enabled| && (|enabled| < MAX_CRTCS ==> |enabled| <= |cs|)
               && (MAX_CRTCS <= |enabled| ==> MAX_CRTCS <= |cs|)
    {
      exists k: nat :: k < n && enabled[k] && Answer(cs, enabled, event, k) == 0
    }

    static predicate NoneEnabled(enabled: seq<bool>, n: nat)
      requires n <= |enabled|
    {
      forall k :: 0 <= k < n ==> !enabled[k]
    }
  }
}
