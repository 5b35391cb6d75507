/** A shard's actor: one task at a time, requests of a player queue while the player is being
    loaded or has a write in flight. */
module Actor {
  const MAX_WAITERS: nat := 256

  datatype Msg = Msg(id: nat)

  /** An accepted request of a player, and later what became of it. */
  datatype Event = Event(uid: nat, msg: Msg)

  /** The messages of one player, in order. */
  ghost function Of(events: seq<Event>, uid: nat): seq<Msg> {
    if events == [] then []
    else
      var e, before := events[|events| - 1], Of(events[..|events| - 1], uid);
      if e.uid == uid then before + [e.msg] else before
  }

  lemma OfMore(events: seq<Event>, e: Event, uid: nat)
    ensures Of(events + [e], uid) == if e.uid == uid then Of(events, uid) + [e.msg] else Of(events, uid)
  {
    assert (events + [e])[..|events|] == events;
  }

  function Queue(waiters: map<nat, seq<Msg>>, uid: nat): seq<Msg> {
    if uid in waiters then waiters[uid] else []
  }

  predicate Busy(players: map<nat, bool>, uid: nat) {
    uid in players && players[uid]
  }

  /** A busy player has exactly one write in flight, nobody else has any. */
  ghost predicate OnePerBusy(inflight: multiset<nat>, players: map<nat, bool>) {
    forall uid: nat :: inflight[uid] == if Busy(players, uid) then 1 else 0
  }

  predicate Bounded(waiters: map<nat, seq<Msg>>) {
    forall uid <- waiters :: |waiters[uid]| <= MAX_WAITERS
  }

  /** A request waits only for a load or a write. */
  predicate Reason(waiters: map<nat, seq<Msg>>, loading: set<nat>, players: map<nat, bool>, uid: nat) {
    Queue(waiters, uid) != [] ==> uid in loading || Busy(players, uid)
  }

  ghost predicate Reasons(waiters: map<nat, seq<Msg>>, loading: set<nat>, players: map<nat, bool>) {
    forall uid: nat :: Reason(waiters, loading, players, uid)
  }

  /** Queues and writes of other players are as before. */
  ghost predicate OthersStay(uid: nat, w: map<nat, seq<Msg>>, w': map<nat, seq<Msg>>, p: map<nat, bool>,
                             p': map<nat, bool>) {
    forall u: nat :: u != uid ==> Queue(w', u) == Queue(w, u) && Busy(p', u) == Busy(p, u)
  }

  lemma StayTwice(uid: nat, w: map<nat, seq<Msg>>, w': map<nat, seq<Msg>>, w'': map<nat, seq<Msg>>,
                  p: map<nat, bool>, p': map<nat, bool>, p'': map<nat, bool>)
    requires OthersStay(uid, w, w', p, p') && w''.Keys >= w'.Keys - {uid} && w'.Keys >= w''.Keys - {uid}
    requires forall u <- w' :: u != uid ==> w''[u] == w'[u]
    requires p''.Keys == p'.Keys && forall u <- p' :: u != uid ==> p''[u] == p'[u]
    ensures OthersStay(uid, w, w'', p, p'')
  {
  }

  /** A change at one player leaves the others' reasons. */
  lemma ReasonsElsewhere(w: map<nat, seq<Msg>>, l: set<nat>, p: map<nat, bool>, w': map<nat, seq<Msg>>, l': set<nat>,
                         p': map<nat, bool>, uid: nat)
    requires Reasons(w, l, p) && Reason(w', l', p', uid)
    requires OthersStay(uid, w, w', p, p')
    requires forall u <- l :: u != uid ==> u in l'
    ensures Reasons(w', l', p')
  {
    forall u: nat ensures Reason(w', l', p', u) { assert Reason(w, l, p, u); }
  }

  /** Every accepted request is settled or waits, in arrival order. */
  ghost predicate InOrder(accepted: seq<Event>, settled: seq<Event>, waiters: map<nat, seq<Msg>>) {
    forall uid: nat :: Of(accepted, uid) == Of(settled, uid) + Queue(waiters, uid)
  }

  lemma EnqueueInOrder(accepted: seq<Event>, settled: seq<Event>, waiters: map<nat, seq<Msg>>, uid: nat, m: Msg)
    requires InOrder(accepted, settled, waiters)
    ensures InOrder(accepted + [Event(uid, m)], settled, waiters[uid := Queue(waiters, uid) + [m]])
  {
    var more := waiters[uid := Queue(waiters, uid) + [m]];
    forall u: nat ensures Of(accepted + [Event(uid, m)], u) == Of(settled, u) + Queue(more, u) {
      OfMore(accepted, Event(uid, m), u);
      assert Of(accepted, u) == Of(settled, u) + Queue(waiters, u);
      if u == uid { AppendLater(Of(settled, u), Queue(waiters, u), m); }
    }
  }

  lemma AppendLater(a: seq<Msg>, q: seq<Msg>, m: Msg)
    ensures (a + q) + [m] == a + (q + [m])
  {
  }

  lemma MoveHead(a: seq<Msg>, q: seq<Msg>)
    requires q != []
    ensures a + q == (a + [q[0]]) + q[1..]
  {
  }

  lemma SettleInOrder(accepted: seq<Event>, settled: seq<Event>, waiters: map<nat, seq<Msg>>, uid: nat)
    requires InOrder(accepted, settled, waiters) && Queue(waiters, uid) != []
    ensures InOrder(accepted, settled + [Event(uid, Queue(waiters, uid)[0])], waiters[uid := Queue(waiters, uid)[1..]])
  {
    var q := Queue(waiters, uid);
    forall u: nat ensures Of(accepted, u) == Of(settled + [Event(uid, q[0])], u) + Queue(waiters[uid := q[1..]], u) {
      OfMore(settled, Event(uid, q[0]), u);
      assert Of(accepted, u) == Of(settled, u) + Queue(waiters, u);
      if u == uid { MoveHead(Of(settled, u), q); }
    }
  }

  lemma DirectInOrder(accepted: seq<Event>, settled: seq<Event>, waiters: map<nat, seq<Msg>>, uid: nat, m: Msg)
    requires InOrder(accepted, settled, waiters) && Queue(waiters, uid) == []
    ensures InOrder(accepted + [Event(uid, m)], settled + [Event(uid, m)], waiters)
  {
    forall u: nat ensures Of(accepted + [Event(uid, m)], u) == Of(settled + [Event(uid, m)], u) + Queue(waiters, u) {
      OfMore(accepted, Event(uid, m), u);
      OfMore(settled, Event(uid, m), u);
      assert Of(accepted, u) == Of(settled, u) + Queue(waiters, u);
    }
  }

  lemma ForgetInOrder(accepted: seq<Event>, settled: seq<Event>, waiters: map<nat, seq<Msg>>, uid: nat)
    requires InOrder(accepted, settled, waiters) && Queue(waiters, uid) == []
    ensures InOrder(accepted, settled, waiters - {uid})
  {
    forall u: nat ensures Of(accepted, u) == Of(settled, u) + Queue(waiters - {uid}, u) {
      assert Of(accepted, u) == Of(settled, u) + Queue(waiters, u);
    }
  }

  /** The player's requests that left the queue were dispatched, in order, and nobody else's. */
  ghost predicate RunsOn(uid: nat, w: map<nat, seq<Msg>>, w': map<nat, seq<Msg>>, r: seq<Event>, r': seq<Event>) {
    && Of(r', uid) + Queue(w', uid) == Of(r, uid) + Queue(w, uid)
    && forall u: nat :: u != uid ==> Of(r', u) == Of(r, u)
  }

  ghost predicate Drains(uid: nat, w: map<nat, seq<Msg>>, w': map<nat, seq<Msg>>, p: map<nat, bool>,
                         p': map<nat, bool>, r: seq<Event>, r': seq<Event>) {
    OthersStay(uid, w, w', p, p') && RunsOn(uid, w, w', r, r')
  }

  lemma HeadRuns(uid: nat, w: map<nat, seq<Msg>>, w': map<nat, seq<Msg>>, r: seq<Event>, r': seq<Event>)
    requires RunsOn(uid, w, w', r, r') && Queue(w', uid) != []
    ensures RunsOn(uid, w, w'[uid := Queue(w', uid)[1..]], r, r' + [Event(uid, Queue(w', uid)[0])])
  {
    var q := Queue(w', uid);
    forall u: nat { OfMore(r', Event(uid, q[0]), u); }
    MoveHead(Of(r', uid), q);
  }

  class Shard {
    /** Resident players, and whether each has a write in flight. */
    var players: map<nat, bool>
    var waiters: map<nat, seq<Msg>>
    var loading: set<nat>
    var closed: bool
    /** Writes sent and not answered. */
    ghost var inflight: multiset<nat>
    ghost var accepted: seq<Event>
    /** Requests dispatched or answered with an error after waiting. */
    ghost var settled: seq<Event>
    /** Those of them that were dispatched. */
    ghost var ran: seq<Event>

    /** What holds even in the middle of a task. */
    ghost predicate Sound()
      reads this
    {
      && OnePerBusy(inflight, players) && loading !! players.Keys && Bounded(waiters)
      && InOrder(accepted, settled, waiters)
    }

    /** Between tasks. A closed shard has answered everything it accepted; its last writes may
        still be under way. */
    ghost predicate Inv()
      reads this
    {
      if closed then
        && players == map[] && waiters == map[] && InOrder(accepted, settled, waiters)
        && forall uid: nat :: inflight[uid] <= 1
      else Sound() && Reasons(waiters, loading, players)
    }

    constructor ()
      ensures Inv() && !closed && players == map[] && accepted == [] && ran == [] && inflight == multiset{}
    {
      players, waiters, loading, closed := map[], map[], {}, false;
      inflight, accepted, settled, ran := multiset{}, [], [], [];
    }

    /** Runs a request; writes tells whether its handler starts a write. */
    method Dispatch(uid: nat, m: Msg, writes: Msg -> bool)
      requires Sound() && uid in players && !players[uid]
      modifies this`players, this`inflight, this`ran
      ensures Sound() && players == old(players)[uid := writes(m)] && ran == old(ran) + [Event(uid, m)]
      ensures inflight == old(inflight) + if writes(m) then multiset{uid} else multiset{}
    {
      ran := ran + [Event(uid, m)];
      if writes(m) {
        players := players[uid := true];
        inflight := inflight + multiset{uid};
      }
    }

    method Enqueue(uid: nat, m: Msg) returns (ok: bool)
      requires Sound()
      modifies this`waiters, this`accepted
      ensures Sound() && ok == (|Queue(old(waiters), uid)| < MAX_WAITERS)
      ensures waiters == if ok then old(waiters)[uid := Queue(old(waiters), uid) + [m]] else old(waiters)
      ensures accepted == if ok then old(accepted) + [Event(uid, m)] else old(accepted)
    {
      var q := Queue(waiters, uid);
      if |q| >= MAX_WAITERS { return false; }
      EnqueueInOrder(accepted, settled, waiters, uid, m);
      waiters, accepted := waiters[uid := q + [m]], accepted + [Event(uid, m)];
      return true;
    }

    /** Takes the first waiting request off the queue. */
    method Pop(uid: nat)
      requires Sound() && Queue(waiters, uid) != []
      modifies this`waiters, this`settled
      ensures Sound() && waiters == old(waiters)[uid := Queue(old(waiters), uid)[1..]]
      ensures settled == old(settled) + [Event(uid, Queue(old(waiters), uid)[0])]
    {
      var q := Queue(waiters, uid);
      SettleInOrder(accepted, settled, waiters, uid);
      settled, waiters := settled + [Event(uid, q[0])], waiters[uid := q[1..]];
    }

    /** Runs a request of an idle resident player without queueing. */
    method RunNow(uid: nat, m: Msg, writes: Msg -> bool)
      requires Inv() && !closed && uid in players && !players[uid] && Queue(waiters, uid) == []
      modifies this`players, this`inflight, this`accepted, this`settled, this`ran
      ensures Inv() && players == old(players)[uid := writes(m)] && ran == old(ran) + [Event(uid, m)]
      ensures accepted == old(accepted) + [Event(uid, m)] && settled == old(settled) + [Event(uid, m)]
    {
      ghost var p := players;
      DirectInOrder(accepted, settled, waiters, uid, m);
      accepted, settled := accepted + [Event(uid, m)], settled + [Event(uid, m)];
      Dispatch(uid, m, writes);
      ReasonsElsewhere(waiters, loading, p, waiters, loading, players, uid);
    }

    /** A request arrives: it runs at once only if the player is resident and idle and nobody
        waits; otherwise it waits, and a load is started unless one is under way. */
    method Handle(uid: nat, m: Msg, writes: Msg -> bool) returns (ok: bool)
      requires Inv() && !closed
      modifies this
      ensures Inv() && !closed
      ensures ok <==> |Queue(old(waiters), uid)| < MAX_WAITERS
      ensures accepted == if ok then old(accepted) + [Event(uid, m)] else old(accepted)
      ensures settled == old(settled) || (ok && settled == old(settled) + [Event(uid, m)])
      ensures settled != old(settled) <==>
        uid in old(players) && !Busy(old(players), uid) && Queue(old(waiters), uid) == []
      ensures ran == if settled != old(settled) then old(ran) + [Event(uid, m)] else old(ran)
      ensures players == if settled != old(settled) then old(players)[uid := writes(m)] else old(players)
      ensures loading == if uid in old(players) then old(loading) else old(loading) + {uid}
    {
      ghost var w, l, p := waiters, loading, players;
      if uid in players && !players[uid] && Queue(waiters, uid) == [] {
        RunNow(uid, m, writes);
        return true;
      }
      assert Reason(w, l, p, uid);
      ok := Enqueue(uid, m);
      if uid !in players && uid !in loading { loading := loading + {uid}; }
      ReasonsElsewhere(w, l, p, waiters, loading, players, uid);
    }

    method ServeNext(uid: nat, writes: Msg -> bool)
      requires Sound() && uid in players && !players[uid] && Queue(waiters, uid) != []
      modifies this`players, this`waiters, this`inflight, this`settled, this`ran
      ensures Sound() && waiters == old(waiters)[uid := Queue(old(waiters), uid)[1..]]
      ensures ran == old(ran) + [Event(uid, Queue(old(waiters), uid)[0])]
      ensures players == old(players)[uid := writes(Queue(old(waiters), uid)[0])]
    {
      var m := Queue(waiters, uid)[0];
      Pop(uid);
      Dispatch(uid, m, writes);
    }

    /** Serves the head of the queue, while draining it from an earlier state. */
    method ServeInTurn(uid: nat, writes: Msg -> bool, ghost w: map<nat, seq<Msg>>, ghost p: map<nat, bool>,
                       ghost r: seq<Event>)
      requires Sound() && uid in players && !players[uid] && Queue(waiters, uid) != []
      requires Drains(uid, w, waiters, p, players, r, ran)
      modifies this`players, this`waiters, this`inflight, this`settled, this`ran
      ensures Sound() && players.Keys == old(players).Keys && |Queue(waiters, uid)| < |Queue(old(waiters), uid)|
      ensures Drains(uid, w, waiters, p, players, r, ran)
    {
      HeadRuns(uid, w, waiters, r, ran);
      ServeNext(uid, writes);
      StayTwice(uid, w, old(waiters), waiters, p, old(players), players);
    }

    /** Runs waiting requests until none is left or the player is busy again. */
    method DrainWaiters(uid: nat, writes: Msg -> bool)
      requires Sound() && uid !in loading
      modifies this`players, this`waiters, this`inflight, this`settled, this`ran
      ensures Sound() && players.Keys == old(players).Keys
      ensures uid in players ==> Reason(waiters, loading, players, uid)
      ensures RunsOn(uid, old(waiters), waiters, old(ran), ran)
      ensures OthersStay(uid, old(waiters), waiters, old(players), players)
    {
      while true
        invariant Sound() && players.Keys == old(players).Keys
        invariant Drains(uid, old(waiters), waiters, old(players), players, old(ran), ran)
        decreases |Queue(waiters, uid)|
      {
        if Queue(waiters, uid) == [] {
          ForgetInOrder(accepted, settled, waiters, uid);
          waiters := waiters - {uid};
          return;
        }
        if uid !in players || players[uid] { return; }
        ServeInTurn(uid, writes, old(waiters), old(players), old(ran));
      }
    }

    /** Answers all waiting requests with an error. */
    method FailWaiters(uid: nat)
      requires Sound()
      modifies this`waiters, this`settled
      ensures Sound() && waiters == old(waiters) - {uid}
    {
      var q := Queue(waiters, uid);
      while q != []
        invariant Sound() && q == Queue(waiters, uid)
        invariant waiters - {uid} == old(waiters) - {uid}
        decreases |q|
      {
        Pop(uid);
        q := q[1..];
      }
      ForgetInOrder(accepted, settled, waiters, uid);
      waiters := waiters - {uid};
    }

    /** A load ends; ok is false when it failed, was for another epoch or read a broken blob. */
    method OnLoaded(uid: nat, ok: bool, writes: Msg -> bool)
      requires Inv() && !closed && uid in loading
      modifies this
      ensures Inv() && !closed && loading == old(loading) - {uid}
      ensures uid in players <==> ok
      ensures !ok ==> Queue(waiters, uid) == [] && ran == old(ran)
      ensures ok ==> RunsOn(uid, old(waiters), waiters, old(ran), ran)
      ensures accepted == old(accepted)
    {
      ghost var w, l, p := waiters, loading, players;
      loading := loading - {uid};
      if ok {
        players := players[uid := false];
        DrainWaiters(uid, writes);
      } else {
        FailWaiters(uid);
      }
      ReasonsElsewhere(w, l, p, waiters, loading, players, uid);
    }

    method Answered(uid: nat)
      requires Sound() && inflight[uid] > 0
      modifies this`inflight, this`players
      ensures Sound() && uid in old(players) && players == old(players)[uid := false]
    {
      inflight := inflight - multiset{uid};
      if uid in players { players := players[uid := false]; }
    }

    /** The answer of a write; a fenced one closes the shard. */
    method OnCommitted(uid: nat, fenced: bool, writes: Msg -> bool)
      requires Inv() && !closed && inflight[uid] > 0
      modifies this
      ensures Inv() && closed == fenced && loading == old(loading)
      ensures !fenced ==> players.Keys == old(players).Keys && RunsOn(uid, old(waiters), waiters, old(ran), ran)
      ensures fenced ==> ran == old(ran)
      ensures accepted == old(accepted)
    {
      ghost var w, l, p := waiters, loading, players;
      Answered(uid);
      if fenced {
        Close();
        return;
      }
      DrainWaiters(uid, writes);
      ReasonsElsewhere(w, l, p, waiters, loading, players, uid);
    }

    /** Answers every waiting request with an error and forgets the players. */
    method Close()
      requires Sound() && !closed
      modifies this`closed, this`waiters, this`settled, this`players
      ensures Inv() && closed
    {
      closed := true;
      while waiters != map[]
        invariant Sound() && closed
        decreases |waiters|
      {
        var uid :| uid in waiters;
        ghost var before := waiters;
        FailWaiters(uid);
        Fewer(before, uid);
      }
      assert forall uid: nat :: inflight[uid] <= 1;
      players := map[];
    }

    /** Players idle for long enough, without waiting requests or a write in flight, leave memory
        once what they had dirty is accepted for writing. */
    method Unload(uid: nat, idle: bool, submitted: bool) returns (ok: bool)
      requires Inv() && !closed
      modifies this
      ensures Inv() && !closed
      ensures ok <==> idle && submitted && uid in old(players) && !old(players)[uid] && Queue(old(waiters), uid) == []
      ensures players == if ok then old(players) - {uid} else old(players)
      ensures accepted == old(accepted) && settled == old(settled) && ran == old(ran) && inflight == old(inflight)
      ensures OthersStay(uid, old(waiters), waiters, old(players), players)
    {
      if uid !in players || players[uid] || uid in loading || Queue(waiters, uid) != [] { return false; }
      if !idle || !submitted { return false; }
      ForgetInOrder(accepted, settled, waiters, uid);
      ReasonsElsewhere(waiters, loading, players, waiters - {uid}, loading, players - {uid}, uid);
      players, waiters := players - {uid}, waiters - {uid};
      return true;
    }
  }

  lemma Fewer(waiters: map<nat, seq<Msg>>, uid: nat)
    requires uid in waiters
    ensures |waiters - {uid}| < |waiters|
  {
    assert (waiters - {uid}).Keys == waiters.Keys - {uid};
    assert |waiters| == |waiters.Keys| && |waiters - {uid}| == |(waiters - {uid}).Keys|;
  }
}
