/** Account bindings: a forward table from channel accounts to uids and a reverse table from
    each uid to its channels, both changed by scripts that run one at a time. */
module Accounts {
  import opened Keyspace

  /** Forward keys are joined strings; reverse values are a time and an openid, joined. */
  datatype Tables = Tables(forward: map<string, nat>, reverse: map<nat, map<string, string>>)

  function KeyOf(channel: string, openid: string): string {
    channel + ":" + openid
  }

  function Decimal(n: nat): string {
    if n < 10 then ["0123456789"[n]] else Decimal(n / 10) + ["0123456789"[n % 10]]
  }

  function ValueOf(ms: nat, openid: string): string {
    Decimal(ms) + ":" + openid
  }

  /** What follows the first colon. */
  function AfterColon(s: string): Option<string> {
    if s == "" then None else if s[0] == ':' then Some(s[1..]) else AfterColon(s[1..])
  }

  predicate NoColon(s: string) {
    ':' !in s
  }

  function Channels(t: Tables, uid: nat): map<string, string> {
    if uid in t.reverse then t.reverse[uid] else map[]
  }

  predicate BoundForward(t: Tables, channel: string, openid: string, uid: nat) {
    KeyOf(channel, openid) in t.forward && t.forward[KeyOf(channel, openid)] == uid
  }

  predicate BoundReverse(t: Tables, channel: string, openid: string, uid: nat) {
    channel in Channels(t, uid) && AfterColon(Channels(t, uid)[channel]) == Some(openid)
  }

  function Stored(t: Tables, channel: string, openid: string, uid: nat, ms: nat): Tables {
    Tables(t.forward[KeyOf(channel, openid) := uid],
           t.reverse[uid := Channels(t, uid)[channel := ValueOf(ms, openid)]])
  }

  // ------------------------------------------------------------------------------------
  // The scripts
  // ------------------------------------------------------------------------------------

  function Resolved(t: Tables, channel: string, openid: string, candidate: nat, ms: nat): (bool, nat, Tables) {
    if KeyOf(channel, openid) in t.forward then (false, t.forward[KeyOf(channel, openid)], t)
    else (true, candidate, Stored(t, channel, openid, candidate, ms))
  }

  datatype Code = Fine | Taken | AlreadyBound | NotBound | Raced | LastBinding | Invalid

  function Bound(t: Tables, uid: nat, channel: string, openid: string, ms: nat): (Code, Tables) {
    if KeyOf(channel, openid) in t.forward then
      (if t.forward[KeyOf(channel, openid)] == uid then Fine else Taken, t)
    else if channel in Channels(t, uid) then (AlreadyBound, t)
    else (Fine, Stored(t, channel, openid, uid, ms))
  }

  /** openid is what the caller read earlier. */
  function Unbound(t: Tables, uid: nat, channel: string, openid: string): (Code, Tables) {
    var mine := Channels(t, uid);
    if channel !in mine then (NotBound, t)
    else if AfterColon(mine[channel]) != Some(openid) then (Raced, t)
    else if |mine| <= 1 then (LastBinding, t)
    else (Fine, Tables(t.forward - {KeyOf(channel, openid)}, t.reverse[uid := mine - {channel}]))
  }

  // ------------------------------------------------------------------------------------
  // Strings
  // ------------------------------------------------------------------------------------

  lemma {:induction false} DecimalHasNoColon(n: nat)
    ensures NoColon(Decimal(n))
  {
    if n >= 10 { DecimalHasNoColon(n / 10); }
  }

  lemma {:induction false} AfterColonOf(a: string, b: string)
    requires NoColon(a)
    ensures AfterColon(a + ":" + b) == Some(b)
  {
    if a == "" {
      assert (a + ":" + b)[1..] == b;
    } else {
      assert (a + ":" + b)[1..] == a[1..] + ":" + b;
      AfterColonOf(a[1..], b);
    }
  }

  lemma ValueKeepsOpenid(ms: nat, openid: string)
    ensures AfterColon(ValueOf(ms, openid)) == Some(openid)
  {
    DecimalHasNoColon(ms);
    AfterColonOf(Decimal(ms), openid);
  }

  /** What precedes the first colon. */
  function BeforeColon(s: string): string {
    if s == "" || s[0] == ':' then "" else [s[0]] + BeforeColon(s[1..])
  }

  /** The number that decimal digits stand for. */
  function Parsed(s: string): Option<nat> {
    if s == "" then None
    else
      var d, n := s[|s| - 1], |s| - 1;
      if !('0' <= d <= '9') then None
      else if n == 0 then Some(d as int - '0' as int)
      else match Parsed(s[..n])
        case None => None
        case Some(tens) => Some(tens * 10 + (d as int - '0' as int))
  }

  lemma DigitIs(n: nat)
    requires n < 10
    ensures '0' <= "0123456789"[n] <= '9' && "0123456789"[n] as int - '0' as int == n
  {
    if n < 5 { } else { }
  }

  lemma {:induction false} DecimalIsParsed(n: nat)
    ensures Decimal(n) != "" && Parsed(Decimal(n)) == Some(n)
  {
    DigitIs(n % 10);
    if n >= 10 {
      DecimalIsParsed(n / 10);
      var s := Decimal(n);
      assert s[..|s| - 1] == Decimal(n / 10) && s[|s| - 1] == "0123456789"[n % 10];
    }
  }

  lemma {:induction false} BeforeColonOf(a: string, b: string)
    requires NoColon(a)
    ensures BeforeColon(a + ":" + b) == a
  {
    if a != "" {
      assert (a + ":" + b)[1..] == a[1..] + ":" + b;
      BeforeColonOf(a[1..], b);
    }
  }

  /** The time of a binding is recovered from the joined value. */
  lemma ValueKeepsTime(ms: nat, openid: string)
    ensures Parsed(BeforeColon(ValueOf(ms, openid))) == Some(ms)
  {
    DecimalHasNoColon(ms);
    BeforeColonOf(Decimal(ms), openid);
    DecimalIsParsed(ms);
  }

  /** b begins with a and a colon. */
  predicate Extends(a: string, b: string) {
    |a| < |b| && b[..|a|] == a && b[|a|] == ':'
  }

  /** Two different channels can share a forward key, for openids that the store accepts,
      exactly when one continues the other after a colon. */
  lemma KeysCollideExactly(c1: string, c2: string)
    requires c1 != c2
    ensures (exists o1, o2 :: o1 != "" && o2 != "" && KeyOf(c1, o1) == KeyOf(c2, o2))
       <==> (Extends(c1, c2) || Extends(c2, c1))
  {
    forall o1, o2 | KeyOf(c1, o1) == KeyOf(c2, o2) ensures Extends(c1, c2) || Extends(c2, c1) {
      CollisionExtends(c1, o1, c2, o2);
    }
    if Extends(c1, c2) { ExtensionCollides(c1, c2); }
    if Extends(c2, c1) { ExtensionCollides(c2, c1); }
  }

  lemma ExtensionCollides(a: string, b: string)
    requires Extends(a, b)
    ensures KeyOf(a, b[|a| + 1..] + ":x") == KeyOf(b, "x")
  {
    assert b == a + ":" + b[|a| + 1..];
  }

  lemma CollisionExtends(c1: string, o1: string, c2: string, o2: string)
    requires KeyOf(c1, o1) == KeyOf(c2, o2)
    ensures (c1 == c2 && o1 == o2) || Extends(c1, c2) || Extends(c2, c1)
  {
    var k := KeyOf(c1, o1);
    assert k[..|c1|] == c1 && k[|c1|] == ':' && k[|c1| + 1..] == o1;
    assert k[..|c2|] == c2 && k[|c2|] == ':' && k[|c2| + 1..] == o2;
    if |c1| < |c2| {
      assert c2[..|c1|] == c1 && c2[|c1|] == k[|c1|];
    } else if |c2| < |c1| {
      assert c1[..|c2|] == c2 && c1[|c2|] == k[|c2|];
    }
  }

  lemma NoColonKeysDiffer(c1: string, o1: string, c2: string, o2: string)
    requires NoColon(c1) && NoColon(c2) && KeyOf(c1, o1) == KeyOf(c2, o2)
    ensures c1 == c2 && o1 == o2
  {
    CollisionExtends(c1, o1, c2, o2);
  }

  // ------------------------------------------------------------------------------------
  // Consistency
  // ------------------------------------------------------------------------------------

  /** The tables say the same about every channel without a colon. */
  ghost predicate Consistent(t: Tables) {
    forall channel: string, openid: string, uid: nat | NoColon(channel) ::
      BoundForward(t, channel, openid, uid) <==> BoundReverse(t, channel, openid, uid)
  }

  /** Nobody in the reverse table is without a binding. */
  predicate NoneEmpty(t: Tables) {
    forall uid <- t.reverse :: t.reverse[uid] != map[]
  }

  lemma StoreKeepsConsistent(t: Tables, channel: string, openid: string, uid: nat, ms: nat)
    requires Consistent(t) && NoColon(channel) && KeyOf(channel, openid) !in t.forward && channel !in Channels(t, uid)
    ensures Consistent(Stored(t, channel, openid, uid, ms))
  {
    var t' := Stored(t, channel, openid, uid, ms);
    forall c: string, o: string, u: nat | NoColon(c)
      ensures BoundForward(t', c, o, u) <==> BoundReverse(t', c, o, u)
    {
      assert BoundForward(t, c, o, u) <==> BoundReverse(t, c, o, u);
      if KeyOf(c, o) == KeyOf(channel, openid) { NoColonKeysDiffer(c, o, channel, openid); }
      ValueKeepsOpenid(ms, openid);
    }
  }

  lemma UnbindKeepsConsistent(t: Tables, uid: nat, channel: string, openid: string)
    requires Consistent(t) && NoColon(channel)
    ensures Consistent(Unbound(t, uid, channel, openid).1)
  {
    var (code, t') := Unbound(t, uid, channel, openid);
    if code == Fine {
      forall c: string, o: string, u: nat | NoColon(c)
        ensures BoundForward(t', c, o, u) <==> BoundReverse(t', c, o, u)
      {
        assert BoundForward(t, c, o, u) <==> BoundReverse(t, c, o, u);
        assert BoundForward(t, channel, openid, uid) <==> BoundReverse(t, channel, openid, uid);
        if KeyOf(c, o) == KeyOf(channel, openid) { NoColonKeysDiffer(c, o, channel, openid); }
      }
    }
  }

  /** Every stored value has a colon to cut at. */
  predicate WellFormed(t: Tables) {
    forall uid <- t.reverse :: forall channel <- t.reverse[uid] :: AfterColon(t.reverse[uid][channel]).Some?
  }

  /** Opening an account keeps the tables consistent exactly when the account is known or the
      candidate uid has nothing on that channel yet. */
  lemma ResolveKeepsConsistentExactly(t: Tables, channel: string, openid: string, candidate: nat, ms: nat)
    requires Consistent(t) && WellFormed(t) && NoColon(channel)
    ensures Consistent(Resolved(t, channel, openid, candidate, ms).2)
       <==> (KeyOf(channel, openid) in t.forward || channel !in Channels(t, candidate))
  {
    if KeyOf(channel, openid) !in t.forward {
      if channel !in Channels(t, candidate) {
        StoreKeepsConsistent(t, channel, openid, candidate, ms);
      } else {
        OverwritingBreaks(t, channel, openid, candidate, ms);
      }
    }
  }

  /** The old account of the channel still leads to the uid, which no longer lists it. */
  lemma OverwritingBreaks(t: Tables, channel: string, openid: string, uid: nat, ms: nat)
    requires Consistent(t) && WellFormed(t) && NoColon(channel)
    requires KeyOf(channel, openid) !in t.forward && channel in Channels(t, uid)
    ensures !Consistent(Stored(t, channel, openid, uid, ms))
  {
    var t' := Stored(t, channel, openid, uid, ms);
    var lost := AfterColon(Channels(t, uid)[channel]).value;
    assert BoundForward(t, channel, lost, uid) <==> BoundReverse(t, channel, lost, uid);
    ValueKeepsOpenid(ms, openid);
    if KeyOf(channel, lost) == KeyOf(channel, openid) { NoColonKeysDiffer(channel, lost, channel, openid); }
    assert BoundForward(t', channel, lost, uid) && !BoundReverse(t', channel, lost, uid);
  }

  /** A channel name with a colon lets one login reach another channel's account. */
  lemma ColonChannelsShareAccounts(t: Tables, ms: nat)
    requires t == Tables(map[], map[])
    ensures var t1 := Resolved(t, "a", "b:c", 1, ms).2;
      Resolved(t1, "a:b", "c", 2, ms) == (false, 1, t1) && !BoundReverse(t1, "a:b", "c", 1)
  {
    assert KeyOf("a", "b:c") == KeyOf("a:b", "c");
  }

  // ------------------------------------------------------------------------------------
  // The store
  // ------------------------------------------------------------------------------------

  class Store {
    var forward: map<string, nat>
    var reverse: map<nat, map<string, string>>
    /** The uids that were ever given out. */
    ghost var given: set<nat>

    ghost function State(): Tables
      reads this
    {
      Tables(forward, reverse)
    }

    ghost predicate Inv()
      reads this
    {
      Consistent(State()) && WellFormed(State()) && NoneEmpty(State()) && given <= reverse.Keys
    }

    constructor ()
      ensures Inv() && forward == map[] && reverse == map[] && given == {}
    {
      forward, reverse, given := map[], map[], {};
    }

    method Save(channel: string, openid: string, uid: nat, ms: nat)
      requires Inv() && NoColon(channel) && KeyOf(channel, openid) !in forward && channel !in Channels(State(), uid)
      modifies this
      ensures Inv() && State() == Stored(old(State()), channel, openid, uid, ms) && given == old(given) + {uid}
    {
      StoreKeepsConsistent(State(), channel, openid, uid, ms);
      StoreKeepsForm(State(), channel, openid, uid, ms);
      var mine := if uid in reverse then reverse[uid] else map[];
      forward := forward[KeyOf(channel, openid) := uid];
      reverse := reverse[uid := mine[channel := ValueOf(ms, openid)]];
      given := given + {uid};
    }

    /** Login: the bound uid, or the candidate, which was never used before. */
    method Resolve(channel: string, openid: string, candidate: nat, ms: nat) returns (reply: Option<(bool, nat)>)
      requires Inv() && NoColon(channel) && candidate !in reverse
      modifies this
      ensures Inv()
      ensures reply.None? <==> channel == "" || openid == ""
      ensures reply.None? ==> State() == old(State())
      ensures reply.Some? ==>
        (reply.value.0, reply.value.1, State()) == Resolved(old(State()), channel, openid, candidate, ms)
      ensures reply.Some? ==> BoundForward(State(), channel, openid, reply.value.1)
      ensures reply.Some? && KeyOf(channel, openid) in old(forward) ==>
        reply.value == (false, old(forward)[KeyOf(channel, openid)]) && State() == old(State())
      ensures reply.Some? && KeyOf(channel, openid) !in old(forward) ==>
        && reply.value == (true, candidate) && forward == old(forward)[KeyOf(channel, openid) := candidate]
        && reverse == old(reverse)[candidate := map[channel := ValueOf(ms, openid)]]
      ensures given == if reply.Some? && reply.value.0 then old(given) + {candidate} else old(given)
    {
      if channel == "" || openid == "" { return None; }
      if KeyOf(channel, openid) in forward { return Some((false, forward[KeyOf(channel, openid)])); }
      Save(channel, openid, candidate, ms);
      return Some((true, candidate));
    }

    method Bind(uid: nat, channel: string, openid: string, ms: nat) returns (code: Code)
      requires Inv() && NoColon(channel)
      modifies this
      ensures Inv()
      ensures code == Invalid <==> uid == 0 || channel == "" || openid == ""
      ensures code == Invalid ==> State() == old(State())
      ensures code != Invalid ==> (code, State()) == Bound(old(State()), uid, channel, openid, ms)
      ensures code == Taken <==>
        code != Invalid && KeyOf(channel, openid) in old(forward) && old(forward)[KeyOf(channel, openid)] != uid
      ensures code == AlreadyBound <==>
        code != Invalid && KeyOf(channel, openid) !in old(forward) && channel in Channels(old(State()), uid)
      ensures code in {Fine, Taken, AlreadyBound, Invalid}
      ensures code != Fine || KeyOf(channel, openid) in old(forward) ==> State() == old(State())
      ensures code == Fine && KeyOf(channel, openid) !in old(forward) ==>
        && forward == old(forward)[KeyOf(channel, openid) := uid]
        && reverse == old(reverse)[uid := Channels(old(State()), uid)[channel := ValueOf(ms, openid)]]
      ensures code == Fine ==> BoundForward(State(), channel, openid, uid)
      ensures code == Fine ==> BoundReverse(State(), channel, openid, uid)
      ensures old(given) <= given
    {
      if uid == 0 || channel == "" || openid == "" { return Invalid; }
      assert Consistent(State());
      if KeyOf(channel, openid) in forward {
        ghost var owner := forward[KeyOf(channel, openid)];
        assert BoundForward(State(), channel, openid, owner) ==> BoundReverse(State(), channel, openid, owner);
        return if forward[KeyOf(channel, openid)] == uid then Fine else Taken;
      }
      if uid in reverse && channel in reverse[uid] { return AlreadyBound; }
      Save(channel, openid, uid, ms);
      assert BoundForward(State(), channel, openid, uid) ==> BoundReverse(State(), channel, openid, uid);
      return Fine;
    }

    /** The first step of an unbind: reads the openid, changes nothing. */
    method ReadOpenid(uid: nat, channel: string) returns (openid: Option<string>)
      requires Inv()
      ensures openid.Some? ==> BoundReverse(State(), channel, openid.value, uid)
      ensures openid.None? ==> channel !in Channels(State(), uid)
    {
      if uid !in reverse || channel !in reverse[uid] { return None; }
      return AfterColon(reverse[uid][channel]);
    }

    /** The second step, with whatever was read; anything may have happened in between. */
    method Unbind(uid: nat, channel: string, openid: string) returns (code: Code)
      requires Inv() && NoColon(channel)
      modifies this
      ensures Inv()
      ensures (code, State()) == Unbound(old(State()), uid, channel, openid)
      ensures code == Fine <==> BoundReverse(old(State()), channel, openid, uid) && |Channels(old(State()), uid)| > 1
      ensures code == LastBinding <==>
        BoundReverse(old(State()), channel, openid, uid) && |Channels(old(State()), uid)| <= 1
      ensures code == NotBound <==> channel !in Channels(old(State()), uid)
      ensures code == Raced <==>
        channel in Channels(old(State()), uid) && !BoundReverse(old(State()), channel, openid, uid)
      ensures code != Fine ==> State() == old(State())
      ensures code == Fine ==> forward == old(forward) - {KeyOf(channel, openid)}
      ensures code == Fine ==> reverse == old(reverse)[uid := Channels(old(State()), uid) - {channel}]
      ensures code == Fine ==> !BoundForward(State(), channel, openid, uid) && uid in reverse && reverse[uid] != map[]
      ensures given == old(given)
    {
      if uid !in reverse || channel !in reverse[uid] { return NotBound; }
      if AfterColon(reverse[uid][channel]) != Some(openid) { return Raced; }
      if |reverse[uid]| <= 1 { return LastBinding; }
      UnbindKeepsConsistent(State(), uid, channel, openid);
      Remaining(reverse[uid], channel);
      forward := forward - {KeyOf(channel, openid)};
      reverse := reverse[uid := reverse[uid] - {channel}];
      return Fine;
    }
  }

  lemma StoreKeepsForm(t: Tables, channel: string, openid: string, uid: nat, ms: nat)
    requires WellFormed(t) && NoneEmpty(t)
    ensures WellFormed(Stored(t, channel, openid, uid, ms)) && NoneEmpty(Stored(t, channel, openid, uid, ms))
  {
    ValueKeepsOpenid(ms, openid);
    assert channel in Channels(t, uid)[channel := ValueOf(ms, openid)];
  }

  lemma Remaining(m: map<string, string>, channel: string)
    requires channel in m && |m| > 1
    ensures m - {channel} != map[]
  {
    var others := m.Keys - {channel};
    assert |others| == |m.Keys| - 1 && |m.Keys| == |m|;
    var x :| x in others;
    assert x in m - {channel};
  }
}
