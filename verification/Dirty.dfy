/** Dirty marks of a shard's entities: which modules await a write, and since when. */
module Dirty {
  import opened Keyspace

  datatype Level = L1 | L2

  /** What players own or risk is flushed often, the rest seldom. */
  function ModuleLevel(m: Module): (level: Level)
    ensures level == L1 <==> m in {Base, Bag, Quest, Round, RG}
    ensures level == L2 <==> m in {Social, Mail, Keyspace.Gacha}
  {
    match m
    case Social => L2
    case Mail => L2
    case Gacha => L2
    case _ => L1
  }

  /** Times are positive; zero stands for an unset time. */
  type Marks = map<nat, map<Module, int>>

  datatype Taken = Taken(id: nat, modules: set<Module>, dirtyAt: int)

  function ModsOf(e: Marks, id: nat): map<Module, int> {
    if id in e then e[id] else map[]
  }

  function MarkOf(e: Marks, id: nat, m: Module): Option<int> {
    if m in ModsOf(e, id) then Some(ModsOf(e, id)[m]) else None
  }

  ghost predicate Timed(e: Marks) {
    forall id <- e :: forall m <- e[id] :: e[id][m] > 0
  }

  /** The entry without the modules, and without the entity if nothing is left. */
  function Dropped(e: Marks, id: nat, mods: set<Module>): Marks {
    var rest := ModsOf(e, id) - mods;
    if rest == map[] then e - {id} else e[id := rest]
  }

  // ------------------------------------------------------------------------------------
  // What taking and marking again do
  // ------------------------------------------------------------------------------------

  /** The item holds exactly the entity's modules of the level, at least one, and the time of
      the earliest. */
  ghost predicate Picks(e: Marks, wanted: Module -> bool, item: Taken) {
    && item.modules != {}
    && (forall m :: m in item.modules <==> MarkOf(e, item.id, m).Some? && wanted(m))
    && (forall m <- item.modules :: item.dirtyAt <= MarkOf(e, item.id, m).value)
    && (exists m <- item.modules :: item.dirtyAt == MarkOf(e, item.id, m).value)
  }

  predicate Listed(items: seq<Taken>, id: nat) {
    exists i :: 0 <= i < |items| && items[i].id == id
  }

  /** The items are picks of distinct entities and nothing else is gone. */
  ghost predicate Took(e: Marks, wanted: Module -> bool, items: seq<Taken>, rest: Marks) {
    && (forall i :: 0 <= i < |items| ==> Picks(e, wanted, items[i]))
    && (forall i, j :: 0 <= i < j < |items| ==> items[i].id != items[j].id)
    && (forall id: nat, m: Module ::
          MarkOf(rest, id, m) == if Listed(items, id) && wanted(m) then None else MarkOf(e, id, m))
  }

  function Earlier(a: int, b: int): int {
    if a <= b then a else b
  }

  function Again(mods: map<Module, int>, modules: set<Module>, at: int): map<Module, int> {
    map m | m in mods.Keys + modules ::
      if m !in modules then mods[m] else if m in mods then Earlier(mods[m], at) else at
  }

  function ReMarkedOne(e: Marks, item: Taken, now: int): Marks {
    e[item.id := Again(ModsOf(e, item.id), item.modules, if item.dirtyAt == 0 then now else item.dirtyAt)]
  }

  function ReMarked(e: Marks, items: seq<Taken>, now: int): Marks {
    if items == [] then e else ReMarkedOne(ReMarked(e, items[..|items| - 1], now), items[|items| - 1], now)
  }

  function SinceOf(item: Taken, now: int): int {
    if item.dirtyAt == 0 then now else item.dirtyAt
  }

  /** One item marks its modules, each at the earlier of the two times, and nothing else. */
  lemma ReMarkedOneMarks(e: Marks, item: Taken, now: int, id: nat, m: Module)
    ensures var before, after := MarkOf(e, id, m), MarkOf(ReMarkedOne(e, item, now), id, m);
      if id != item.id || m !in item.modules then after == before
      else if before.Some? && before.value <= SinceOf(item, now) then after == before
      else after == Some(SinceOf(item, now))
  {
  }

  /** The module was dirty since t, by its mark or by one of the items. */
  ghost predicate Dates(e: Marks, items: seq<Taken>, now: int, id: nat, m: Module, t: int) {
    MarkOf(e, id, m) == Some(t)
    || exists i :: 0 <= i < |items| && items[i].id == id && m in items[i].modules && t == SinceOf(items[i], now)
  }

  lemma DatesMore(e: Marks, items: seq<Taken>, item: Taken, now: int, id: nat, m: Module, t: int)
    ensures Dates(e, items + [item], now, id, m, t)
       <==> (Dates(e, items, now, id, m, t) || (item.id == id && m in item.modules && t == SinceOf(item, now)))
  {
    var more := items + [item];
    assert more[|items|] == item && forall i :: 0 <= i < |items| ==> more[i] == items[i];
  }

  /** After marking again every module has the earliest of its times, and only those have one. */
  lemma {:induction false} ReMarkedIsEarliest(e: Marks, items: seq<Taken>, now: int, id: nat, m: Module)
    ensures var mark := MarkOf(ReMarked(e, items, now), id, m);
      && (mark.Some? ==> Dates(e, items, now, id, m, mark.value))
      && (forall t :: Dates(e, items, now, id, m, t) ==> mark.Some? && mark.value <= t)
  {
    if items != [] {
      var n := |items| - 1;
      ReMarkedIsEarliest(e, items[..n], now, id, m);
      assert items == items[..n] + [items[n]];
      ReMarkedOneMarks(ReMarked(e, items[..n], now), items[n], now, id, m);
      forall t
        ensures Dates(e, items, now, id, m, t)
           <==> (Dates(e, items[..n], now, id, m, t)
                 || (items[n].id == id && m in items[n].modules && t == SinceOf(items[n], now)))
      {
        DatesMore(e, items[..n], items[n], now, id, m, t);
      }
    }
  }

  /** Marking again never delays or removes a mark. */
  lemma {:induction false} ReMarkedKeeps(e: Marks, items: seq<Taken>, now: int, id: nat, m: Module)
    requires MarkOf(e, id, m).Some?
    ensures MarkOf(ReMarked(e, items, now), id, m).Some?
    ensures MarkOf(ReMarked(e, items, now), id, m).value <= MarkOf(e, id, m).value
  {
    if items != [] {
      var n := |items| - 1;
      ReMarkedKeeps(e, items[..n], now, id, m);
      ReMarkedOneMarks(ReMarked(e, items[..n], now), items[n], now, id, m);
    }
  }

  /** Every module of every item is marked, no later than the item says. */
  lemma {:induction false} ReMarkedHas(e: Marks, items: seq<Taken>, now: int, i: nat, m: Module)
    requires i < |items| && m in items[i].modules && items[i].dirtyAt > 0
    ensures MarkOf(ReMarked(e, items, now), items[i].id, m).Some?
    ensures MarkOf(ReMarked(e, items, now), items[i].id, m).value <= items[i].dirtyAt
  {
    var n := |items| - 1;
    var before := ReMarked(e, items[..n], now);
    ReMarkedOneMarks(before, items[n], now, items[i].id, m);
    if i < n { ReMarkedHas(e, items[..n], now, i, m); }
  }

  /** Taking items and marking them again restores every mark, none later than before. */
  lemma TakeThenReMarkRestores(e: Marks, wanted: Module -> bool, items: seq<Taken>, rest: Marks, now: int, id: nat,
                               m: Module)
    requires Timed(e) && Took(e, wanted, items, rest) && MarkOf(e, id, m).Some?
    ensures MarkOf(ReMarked(rest, items, now), id, m).Some?
    ensures MarkOf(ReMarked(rest, items, now), id, m).value <= MarkOf(e, id, m).value
  {
    if Listed(items, id) && wanted(m) {
      var i :| 0 <= i < |items| && items[i].id == id;
      assert Picks(e, wanted, items[i]) && m in items[i].modules;
      ReMarkedHas(rest, items, now, i, m);
    } else {
      ReMarkedKeeps(rest, items, now, id, m);
    }
  }

  // ------------------------------------------------------------------------------------
  // The set
  // ------------------------------------------------------------------------------------

  class DirtySet {
    var entries: Marks

    constructor ()
      ensures entries == map[]
    {
      entries := map[];
    }

    method Mark(id: nat, m: Module, now: int)
      modifies this
      ensures forall i: nat, n: Module :: (i, n) != (id, m) ==> MarkOf(entries, i, n) == MarkOf(old(entries), i, n)
      ensures MarkOf(old(entries), id, m).None? ==> MarkOf(entries, id, m) == Some(now)
      ensures MarkOf(old(entries), id, m).Some? ==> MarkOf(entries, id, m) == MarkOf(old(entries), id, m)
    {
      var mods := ModsOf(entries, id);
      if m !in mods { mods := mods[m := now]; }
      entries := entries[id := mods];
    }

    /** Takes the wanted modules of one entity. */
    method Pick(id: nat, wanted: Module -> bool) returns (item: Option<Taken>)
      requires id in entries && Timed(entries)
      modifies this
      ensures Timed(entries)
      ensures item.None? ==> entries == old(entries) && forall m :: m in entries[id] ==> !wanted(m)
      ensures item.Some? ==> item.value.id == id && Picks(old(entries), wanted, item.value)
      ensures item.Some? ==> entries == Dropped(old(entries), id, item.value.modules)
    {
      var mods := entries[id];
      var picked: set<Module>, earliest, left := {}, 0, mods.Keys;
      while left != {}
        invariant left <= mods.Keys && entries == old(entries)
        invariant forall m :: m in picked <==> m in mods.Keys - left && wanted(m)
        invariant forall m <- picked :: earliest <= mods[m]
        invariant picked == {} ==> earliest == 0
        invariant picked != {} ==> earliest > 0 && exists m <- picked :: earliest == mods[m]
        decreases left
      {
        var m :| m in left;
        left := left - {m};
        if !wanted(m) { continue; }
        assert mods[m] > 0;
        picked := picked + {m};
        if earliest == 0 || mods[m] < earliest { earliest := mods[m]; }
      }
      if picked == {} { return None; }
      entries := Dropped(entries, id, picked);
      return Some(Taken(id, picked, earliest));
    }

    /** Adds what one entity has to the list of items. */
    method PickInto(id: nat, wanted: Module -> bool, items: seq<Taken>, ghost start: Marks) returns (more: seq<Taken>)
      requires id in entries && Timed(entries) && Took(start, wanted, items, entries) && !Listed(items, id)
      modifies this
      ensures Timed(entries) && Took(start, wanted, more, entries) && |items| <= |more| <= |items| + 1
      ensures forall other: nat :: other != id ==> Listed(more, other) == Listed(items, other)
      ensures forall other: nat :: other != id ==> ModsOf(entries, other) == ModsOf(old(entries), other)
      ensures old(entries).Keys - {id} <= entries.Keys
      ensures forall m: Module :: MarkOf(entries, id, m).Some? ==> !wanted(m)
    {
      ghost var before := entries;
      var item := Pick(id, wanted);
      if item.None? { return items; }
      TookMore(start, wanted, items, before, item.value);
      forall other: nat { ListedMore(items, item.value, other); }
      return items + [item.value];
    }

    /** Takes the modules of a level, of at most limit entities when limit is positive. */
    method Take(level: Level, limit: int) returns (items: seq<Taken>)
      requires Timed(entries)
      modifies this
      ensures Timed(entries) && Took(old(entries), m => ModuleLevel(m) == level, items, entries)
      ensures limit > 0 ==> |items| <= limit
      ensures limit <= 0 || |items| < limit ==>
        forall id: nat, m: Module :: MarkOf(entries, id, m).Some? ==> ModuleLevel(m) != level
    {
      ghost var wanted := (m: Module) => ModuleLevel(m) == level;
      items := [];
      var left := entries.Keys;
      while left != {}
        invariant Timed(entries) && Took(old(entries), wanted, items, entries)
        invariant limit > 0 ==> |items| <= limit
        invariant left <= entries.Keys
        invariant forall id <- left :: !Listed(items, id)
        invariant forall id: nat, m: Module :: id !in left && MarkOf(entries, id, m).Some? ==> !wanted(m)
        decreases left
      {
        if limit > 0 && |items| >= limit { break; }
        var id :| id in left;
        left := left - {id};
        items := PickInto(id, m => ModuleLevel(m) == level, items, old(entries));
      }
    }

    /** Takes everything. */
    method TakeAll() returns (items: seq<Taken>)
      requires Timed(entries)
      modifies this
      ensures Took(old(entries), m => true, items, entries) && entries == map[]
    {
      ghost var wanted := (m: Module) => true;
      items := [];
      var left := entries.Keys;
      while left != {}
        invariant Timed(entries) && Took(old(entries), wanted, items, entries)
        invariant left <= entries.Keys
        invariant forall id <- left :: !Listed(items, id)
        invariant forall id: nat, m: Module :: id !in left ==> MarkOf(entries, id, m).None?
        decreases left
      {
        var id :| id in left;
        left := left - {id};
        items := PickInto(id, m => true, items, old(entries));
      }
      assert forall id: nat, m: Module :: MarkOf(map[], id, m) == MarkOf(entries, id, m);
      entries := map[];
    }

    /** Takes everything of one entity. */
    method TakeOne(id: nat) returns (item: Option<Taken>)
      requires Timed(entries)
      modifies this
      ensures item.None? ==> entries == old(entries) && forall m: Module :: MarkOf(entries, id, m).None?
      ensures item.Some? ==> item.value.id == id && Picks(old(entries), m => true, item.value)
      ensures item.Some? ==> Took(old(entries), m => true, [item.value], entries)
    {
      if id !in entries { return None; }
      ghost var before := entries;
      item := Pick(id, m => true);
      if item.Some? {
        TookMore(before, m => true, [], before, item.value);
        assert [] + [item.value] == [item.value];
      }
    }

    /** Marks failed entities again, keeping the earlier of the two times. */
    method ReMark(items: seq<Taken>, now: int)
      modifies this
      ensures entries == ReMarked(old(entries), items, now)
    {
      for i := 0 to |items|
        invariant entries == ReMarked(old(entries), items[..i], now)
      {
        assert items[..i + 1][..i] == items[..i];
        ReMarkEntity(items[i], now);
      }
      assert items[..|items|] == items;
    }

    method ReMarkEntity(item: Taken, now: int)
      modifies this
      ensures entries == ReMarkedOne(old(entries), item, now)
    {
      var first := ModsOf(entries, item.id);
      var mods, left := first, item.modules;
      var at := if item.dirtyAt == 0 then now else item.dirtyAt;
      while left != {}
        invariant left <= item.modules && mods == Again(first, item.modules - left, at) && entries == old(entries)
        decreases left
      {
        var m :| m in left;
        left := left - {m};
        if m !in mods || at < mods[m] { mods := mods[m := at]; }
      }
      assert item.modules - left == item.modules;
      entries := entries[item.id := mods];
    }
  }

  lemma ListedMore(items: seq<Taken>, item: Taken, id: nat)
    ensures Listed(items + [item], id) <==> Listed(items, id) || id == item.id
  {
    if Listed(items, id) {
      var i :| 0 <= i < |items| && items[i].id == id;
      assert (items + [item])[i].id == id;
    }
    assert (items + [item])[|items|] == item;
  }

  /** One more pick extends what was taken. */
  lemma TookMore(e: Marks, wanted: Module -> bool, items: seq<Taken>, rest: Marks, item: Taken)
    requires Took(e, wanted, items, rest) && Picks(rest, wanted, item) && !Listed(items, item.id)
    ensures Took(e, wanted, items + [item], Dropped(rest, item.id, item.modules))
  {
    var rest' := Dropped(rest, item.id, item.modules);
    forall id: nat, m: Module
      ensures MarkOf(rest', id, m) == if Listed(items + [item], id) && wanted(m) then None else MarkOf(e, id, m)
    {
      ListedMore(items, item, id);
      assert MarkOf(rest, id, m) == if Listed(items, id) && wanted(m) then None else MarkOf(e, id, m);
    }
  }
}
