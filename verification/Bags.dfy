/** A player's bag and wallet (internal/lobby/player.go), and the debit and credit that a
    transfer performs on copies of them (internal/lobby/handlers.go). */
module Bags {
  import opened Keyspace

  /** What the lobby keeps of a player for transfers. */
  datatype Holdings = Holdings(bag: BagData, base: BaseData)

  /** The asset kinds a transfer can move. */
  datatype Asset = Goods(tpl: nat) | Money(currency: nat)

  function CountOf(items: seq<Item>, tpl: nat): int {
    if items == [] then 0
    else (if items[0].tpl == tpl then items[0].count else 0) + CountOf(items[1..], tpl)
  }

  /** No stack is empty or negative; every bag operation keeps this. */
  predicate Stocked(items: seq<Item>) {
    forall i | 0 <= i < |items| :: items[i].count > 0
  }

  /** The taking loop of RemoveItemByTpl, stack by stack. */
  function Taken(items: seq<Item>, tpl: nat, remain: int): seq<Item> {
    if items == [] || remain <= 0 then items
    else if items[0].tpl != tpl then [items[0]] + Taken(items[1..], tpl, remain)
    else
      var take := if items[0].count > remain then remain else items[0].count;
      [items[0].(count := items[0].count - take)] + Taken(items[1..], tpl, remain - take)
  }

  lemma TakenNext(front: seq<Item>, rest: seq<Item>, tpl: nat, remain: int)
    requires rest != [] && remain > 0
    ensures var take := if rest[0].tpl != tpl then 0 else if rest[0].count > remain then remain else rest[0].count;
      front + Taken(rest, tpl, remain)
      == front + [rest[0].(count := rest[0].count - take)] + Taken(rest[1..], tpl, remain - take)
  {
  }

  /** compactBag: keep the stacks that still hold something. */
  function Compacted(items: seq<Item>): seq<Item> {
    if items == [] then []
    else (if items[0].count > 0 then [items[0]] else []) + Compacted(items[1..])
  }

  function Removed(items: seq<Item>, tpl: nat, count: int): Option<seq<Item>> {
    if count <= 0 || CountOf(items, tpl) < count then None
    else Some(Compacted(Taken(items, tpl, count)))
  }

  /** The first stack of a template, or the number of stacks. */
  function FirstOf(items: seq<Item>, tpl: nat): (i: nat)
    ensures i <= |items|
    ensures i < |items| ==> items[i].tpl == tpl
    ensures forall j | 0 <= j < i :: items[j].tpl != tpl
  {
    if items == [] || items[0].tpl == tpl then 0 else 1 + FirstOf(items[1..], tpl)
  }

  function Added(bag: BagData, instance: nat, tpl: nat, count: int, now: int, stackable: bool): Option<BagData> {
    var i := FirstOf(bag.items, tpl);
    if count <= 0 then None
    else if stackable && i < |bag.items| then
      Some(bag.(items := bag.items[i := bag.items[i].(count := bag.items[i].count + count)]))
    else if |bag.items| >= bag.capacity then None
    else Some(bag.(items := bag.items + [Item(instance, tpl, count, now)]))
  }

  function Balance(base: BaseData, currency: nat): int {
    if currency in base.currency then base.currency[currency] else 0
  }

  /** AddCurrency: refuses, changing nothing, when a deduction would go below zero. */
  function Paid(base: BaseData, currency: nat, delta: int): Option<BaseData> {
    var after := Balance(base, currency) + delta;
    if delta < 0 && after < 0 then None else Some(base.(currency := base.currency[currency := after]))
  }

  // ------------------------------------------------------------------------------------
  // The mutable bag
  // ------------------------------------------------------------------------------------

  class PlayerBag {
    var items: seq<Item>
    var capacity: nat

    constructor (items: seq<Item>, capacity: nat)
      ensures this.items == items && this.capacity == capacity
    {
      this.items, this.capacity := items, capacity;
    }

    method CountItem(tpl: nat) returns (n: int)
      ensures n == CountOf(items, tpl)
    {
      n := 0;
      for i := 0 to |items|
        invariant n + CountOf(items[i..], tpl) == CountOf(items, tpl)
      {
        if items[i].tpl == tpl { n := n + items[i].count; }
        assert items[i..][1..] == items[i + 1..];
      }
    }

    method Compact()
      modifies this`items
      ensures items == Compacted(old(items))
    {
      var out: seq<Item> := [];
      for i := 0 to |items|
        invariant items == old(items)
        invariant out + Compacted(items[i..]) == Compacted(items)
      {
        assert items[i..][1..] == items[i + 1..];
        if items[i].count > 0 { out := out + [items[i]]; }
      }
      items := out;
    }

    method Take(tpl: nat, count: int)
      modifies this`items
      ensures items == Taken(old(items), tpl, count)
    {
      var remain, rest := count, items;
      var done: seq<Item> := [];
      while rest != [] && remain > 0
        invariant done + Taken(rest, tpl, remain) == Taken(old(items), tpl, count)
        decreases |rest|
      {
        TakenNext(done, rest, tpl, remain);
        var it := rest[0];
        var take := 0;
        if it.tpl == tpl {
          take := it.count;
          if take > remain { take := remain; }
        }
        done, rest := done + [it.(count := it.count - take)], rest[1..];
        remain := remain - take;
      }
      items := done + rest;
    }

    /** Takes from the stacks in order until the count is met, then drops the empty ones. */
    method RemoveItemByTpl(tpl: nat, count: int) returns (ok: bool)
      modifies this`items
      ensures ok == Removed(old(items), tpl, count).Some?
      ensures ok <==> 0 < count <= CountOf(old(items), tpl)
      ensures items == if ok then Removed(old(items), tpl, count).value else old(items)
    {
      var have := CountItem(tpl);
      if count <= 0 || have < count { return false; }
      Take(tpl, count);
      Compact();
      ok := true;
    }

    method AddItem(instance: nat, tpl: nat, count: int, now: int, stackable: bool) returns (ok: bool)
      modifies this`items
      ensures var r := Added(BagData(old(items), capacity), instance, tpl, count, now, stackable);
        ok == r.Some? && items == if ok then r.value.items else old(items)
      ensures var i := FirstOf(old(items), tpl); var grows := stackable && i < |old(items)|;
        && (ok <==> count > 0 && (grows || |old(items)| < capacity))
        && (ok && grows ==> items == old(items)[i := old(items)[i].(count := old(items)[i].count + count)])
        && (ok && !grows ==> items == old(items) + [Item(instance, tpl, count, now)])
    {
      if count <= 0 { return false; }
      if stackable {
        for i := 0 to |items|
          invariant items == old(items) && i <= FirstOf(items, tpl)
        {
          if items[i].tpl == tpl {
            items := items[i := items[i].(count := items[i].count + count)];
            return true;
          }
        }
      }
      if |items| >= capacity { return false; }
      items := items + [Item(instance, tpl, count, now)];
      ok := true;
    }
  }

  // ------------------------------------------------------------------------------------
  // Debit and credit of a transfer
  // ------------------------------------------------------------------------------------

  function RemoveAll(items: seq<Item>, atts: seq<Attachment>): Option<seq<Item>>
    decreases |atts|
  {
    if atts == [] then Some(items)
    else match Removed(items, atts[0].tpl, atts[0].count)
      case None => None
      case Some(rest) => RemoveAll(rest, atts[1..])
  }

  /** What the sender's copy becomes, or None when the request is refused. */
  function Debit(h: Holdings, rec: Record): Option<Holdings> {
    match RemoveAll(h.bag.items, rec.items)
    case None => None
    case Some(items) =>
      var bag := h.bag.(items := items);
      if rec.currDelta <= 0 then Some(Holdings(bag, h.base))
      else match Paid(h.base, rec.currType, -rec.currDelta)
        case None => None
        case Some(base) => Some(Holdings(bag, base))
  }

  /** How stacks are formed on receipt: instance ids, the clock and the item table. */
  datatype Receipt = Receipt(instances: seq<nat>, now: int, stackable: set<nat>)

  function AddAll(bag: BagData, atts: seq<Attachment>, r: Receipt): Option<BagData>
    decreases |atts|
  {
    if atts == [] then Some(bag)
    else
      var id := if r.instances == [] then 0 else r.instances[0];
      match Added(bag, id, atts[0].tpl, atts[0].count, r.now, atts[0].tpl in r.stackable)
      case None => None
      case Some(next) =>
        AddAll(next, atts[1..], r.(instances := if r.instances == [] then [] else r.instances[1..]))
  }

  /** What the receiver's copy becomes, or None when the bag has no room. */
  function Credit(h: Holdings, rec: Record, r: Receipt): Option<Holdings> {
    match AddAll(h.bag, rec.items, r)
    case None => None
    case Some(bag) =>
      if rec.currDelta <= 0 then Some(Holdings(bag, h.base))
      else match Paid(h.base, rec.currType, rec.currDelta)
        case None => None
        case Some(base) => Some(Holdings(bag, base))
  }

  function Held(h: Holdings, a: Asset): int {
    match a
    case Goods(tpl) => CountOf(h.bag.items, tpl)
    case Money(c) => Balance(h.base, c)
  }

  function Attached(atts: seq<Attachment>, tpl: nat): int {
    if atts == [] then 0
    else (if atts[0].tpl == tpl then atts[0].count else 0) + Attached(atts[1..], tpl)
  }

  /** How much of an asset a transfer carries. */
  function Carried(rec: Record, a: Asset): int {
    match a
    case Goods(tpl) => Attached(rec.items, tpl)
    case Money(c) => if rec.currDelta > 0 && rec.currType == c then rec.currDelta else 0
  }

  lemma {:induction false} CountOfConcat(a: seq<Item>, b: seq<Item>, tpl: nat)
    ensures CountOf(a + b, tpl) == CountOf(a, tpl) + CountOf(b, tpl)
  {
    if a == [] {
      assert a + b == b;
    } else {
      assert (a + b)[1..] == a[1..] + b;
      CountOfConcat(a[1..], b, tpl);
    }
  }

  lemma {:induction false} CountOfIsNatural(items: seq<Item>, tpl: nat)
    requires forall i | 0 <= i < |items| :: items[i].count >= 0
    ensures CountOf(items, tpl) >= 0
  {
    if items != [] { CountOfIsNatural(items[1..], tpl); }
  }

  lemma {:induction false} TakenCounts(items: seq<Item>, tpl: nat, remain: int, other: nat)
    requires Stocked(items) && 0 <= remain <= CountOf(items, tpl)
    ensures CountOf(Taken(items, tpl, remain), other) == CountOf(items, other) - if other == tpl then remain else 0
    ensures forall i | 0 <= i < |Taken(items, tpl, remain)| :: Taken(items, tpl, remain)[i].count >= 0
    decreases |items|
  {
    if items != [] && remain > 0 {
      var rest := items[1..];
      CountOfIsNatural(rest, tpl);
      var take := if items[0].tpl != tpl then 0 else if items[0].count > remain then remain else items[0].count;
      TakenCounts(rest, tpl, remain - take, other);
      assert Taken(items, tpl, remain)[1..] == Taken(rest, tpl, remain - take);
    }
  }

  /** Stacks are used up in order: each gives what the ones before it left to take. */
  lemma {:induction false} TakenInOrder(items: seq<Item>, tpl: nat, remain: int, i: nat)
    requires Stocked(items) && remain >= 0 && i < |items|
    ensures |Taken(items, tpl, remain)| == |items|
    ensures var left := remain - CountOf(items[..i], tpl);
      Taken(items, tpl, remain)[i]
      == if items[i].tpl != tpl || left <= 0 then items[i]
         else items[i].(count := if left < items[i].count then items[i].count - left else 0)
    decreases |items|
  {
    if remain > 0 {
      var rest := items[1..];
      var take := if items[0].tpl != tpl then 0 else if items[0].count > remain then remain else items[0].count;
      if i > 0 {
        assert items[..i] == [items[0]] + rest[..i - 1];
        CountOfConcat([items[0]], rest[..i - 1], tpl);
        CountOfIsNatural(rest[..i - 1], tpl);
        TakenInOrder(rest, tpl, remain - take, i - 1);
      } else {
        TakenKeepsLength(rest, tpl, remain - take);
      }
    } else {
      CountOfIsNatural(items[..i], tpl);
    }
  }

  lemma {:induction false} TakenKeepsLength(items: seq<Item>, tpl: nat, remain: int)
    ensures |Taken(items, tpl, remain)| == |items|
    decreases |items|
  {
    if items != [] && remain > 0 {
      var take := if items[0].tpl != tpl then 0 else if items[0].count > remain then remain else items[0].count;
      TakenKeepsLength(items[1..], tpl, remain - take);
    }
  }

  /** Compacting keeps the stacks that hold something, in order. */
  lemma {:induction false} CompactedInOrder(items: seq<Item>, last: Item)
    ensures Compacted([]) == []
    ensures Compacted(items + [last]) == if last.count > 0 then Compacted(items) + [last] else Compacted(items)
  {
    if items == [] {
      assert items + [last] == [last];
    } else {
      assert (items + [last])[1..] == items[1..] + [last];
      CompactedInOrder(items[1..], last);
    }
  }

  lemma {:induction false} CompactedCounts(items: seq<Item>, tpl: nat)
    requires forall i | 0 <= i < |items| :: items[i].count >= 0
    ensures CountOf(Compacted(items), tpl) == CountOf(items, tpl)
    ensures Stocked(Compacted(items))
  {
    if items != [] {
      CompactedCounts(items[1..], tpl);
      if items[0].count > 0 {
        assert Compacted(items)[1..] == Compacted(items[1..]);
      } else {
        assert Compacted(items) == Compacted(items[1..]);
      }
    }
  }

  /** Removal takes exactly the requested number of the template and nothing else. */
  lemma RemovedCounts(items: seq<Item>, tpl: nat, count: int, other: nat)
    requires Stocked(items) && Removed(items, tpl, count).Some?
    ensures var out := Removed(items, tpl, count).value;
      Stocked(out) && CountOf(out, other) == CountOf(items, other) - if other == tpl then count else 0
  {
    TakenCounts(items, tpl, count, other);
    CompactedCounts(Taken(items, tpl, count), other);
  }

  /** Adding puts in exactly the given number of the template and nothing else, and fails
      exactly for a non-positive count or a full bag with no stack to grow. */
  lemma AddedCounts(bag: BagData, instance: nat, tpl: nat, count: int, now: int, stackable: bool, other: nat)
    requires Stocked(bag.items)
    ensures var r := Added(bag, instance, tpl, count, now, stackable);
      && (r.Some? <==> count > 0
                       && (|bag.items| < bag.capacity || (stackable && exists it <- bag.items :: it.tpl == tpl)))
      && (r.Some? ==>
          && Stocked(r.value.items) && r.value.capacity == bag.capacity
          && CountOf(r.value.items, other) == CountOf(bag.items, other) + if other == tpl then count else 0)
  {
    var i, items := FirstOf(bag.items, tpl), bag.items;
    if i < |items| {
      var grown := items[i].(count := items[i].count + count);
      assert items == items[..i] + [items[i]] + items[i + 1..];
      assert items[i := grown] == items[..i] + [grown] + items[i + 1..];
      CountOfConcat(items[..i] + [items[i]], items[i + 1..], other);
      CountOfConcat(items[..i], [items[i]], other);
      CountOfConcat(items[..i] + [grown], items[i + 1..], other);
      CountOfConcat(items[..i], [grown], other);
    }
    CountOfConcat(items, [Item(instance, tpl, count, now)], other);
  }

  lemma {:induction false} RemoveAllCounts(items: seq<Item>, atts: seq<Attachment>, tpl: nat)
    requires Stocked(items) && RemoveAll(items, atts).Some?
    ensures var out := RemoveAll(items, atts).value;
      Stocked(out) && CountOf(out, tpl) == CountOf(items, tpl) - Attached(atts, tpl)
    decreases |atts|
  {
    if atts != [] {
      RemovedCounts(items, atts[0].tpl, atts[0].count, tpl);
      RemoveAllCounts(Removed(items, atts[0].tpl, atts[0].count).value, atts[1..], tpl);
    }
  }

  lemma {:induction false} AddAllCounts(bag: BagData, atts: seq<Attachment>, r: Receipt, tpl: nat)
    requires Stocked(bag.items) && AddAll(bag, atts, r).Some?
    ensures var out := AddAll(bag, atts, r).value;
      Stocked(out.items) && CountOf(out.items, tpl) == CountOf(bag.items, tpl) + Attached(atts, tpl)
    decreases |atts|
  {
    if atts != [] {
      var id := if r.instances == [] then 0 else r.instances[0];
      AddedCounts(bag, id, atts[0].tpl, atts[0].count, r.now, atts[0].tpl in r.stackable, tpl);
      AddAllCounts(Added(bag, id, atts[0].tpl, atts[0].count, r.now, atts[0].tpl in r.stackable).value, atts[1..],
                   r.(instances := if r.instances == [] then [] else r.instances[1..]), tpl);
    }
  }

  /** A debit takes exactly what the transfer carries. */
  lemma DebitTakesCarried(h: Holdings, rec: Record, a: Asset)
    requires Stocked(h.bag.items) && Debit(h, rec).Some?
    ensures var out := Debit(h, rec).value;
      Stocked(out.bag.items) && Held(out, a) == Held(h, a) - Carried(rec, a)
  {
    RemoveAllCounts(h.bag.items, rec.items, if a.Goods? then a.tpl else 0);
  }

  /** A credit gives exactly what the transfer carries. */
  lemma CreditGivesCarried(h: Holdings, rec: Record, r: Receipt, a: Asset)
    requires Stocked(h.bag.items) && Credit(h, rec, r).Some?
    ensures var out := Credit(h, rec, r).value;
      Stocked(out.bag.items) && Held(out, a) == Held(h, a) + Carried(rec, a)
  {
    AddAllCounts(h.bag, rec.items, r, if a.Goods? then a.tpl else 0);
  }

  lemma {:induction false} AttachedIsNatural(atts: seq<Attachment>, tpl: nat)
    requires forall att <- atts :: att.count > 0
    ensures Attached(atts, tpl) >= 0
  {
    if atts != [] { AttachedIsNatural(atts[1..], tpl); }
  }

  /** The items hold at least what the attachments ask for, template by template. */
  ghost predicate Covers(items: seq<Item>, atts: seq<Attachment>) {
    forall tpl: nat :: Attached(atts, tpl) <= CountOf(items, tpl)
  }

  lemma {:induction false} RemoveAllSucceeds(items: seq<Item>, atts: seq<Attachment>)
    requires Stocked(items)
    ensures RemoveAll(items, atts).Some?
       <==> (forall att <- atts :: att.count > 0) && Covers(items, atts)
    decreases |atts|
  {
    if atts == [] {
      forall tpl: nat ensures CountOf(items, tpl) >= 0 { CountOfIsNatural(items, tpl); }
    } else {
      var att, rest := atts[0], atts[1..];
      assert atts == [att] + rest;
      if Removed(items, att.tpl, att.count).Some? {
        var out := Removed(items, att.tpl, att.count).value;
        RemovedCounts(items, att.tpl, att.count, 0);
        RemoveAllSucceeds(out, rest);
        forall tpl: nat ensures Attached(atts, tpl) - CountOf(items, tpl) == Attached(rest, tpl) - CountOf(out, tpl) {
          RemovedCounts(items, att.tpl, att.count, tpl);
        }
        assert Covers(items, atts) <==> Covers(out, rest);
        assert (forall x <- atts :: x.count > 0) <==> (forall x <- rest :: x.count > 0);
      } else if att.count > 0 && forall x <- atts :: x.count > 0 {
        AttachedIsNatural(rest, att.tpl);
        assert Attached(atts, att.tpl) > CountOf(items, att.tpl);
      }
    }
  }

  /** A transfer is accepted exactly when every attachment is positive, the bag holds the
      total of each template, and the wallet covers the currency. */
  lemma DebitSucceedsExactlyWhenCovered(h: Holdings, rec: Record)
    requires Stocked(h.bag.items)
    ensures Debit(h, rec).Some?
       <==> && (forall att <- rec.items :: att.count > 0)
            && Covers(h.bag.items, rec.items)
            && (rec.currDelta <= 0 || rec.currDelta <= Balance(h.base, rec.currType))
  {
    RemoveAllSucceeds(h.bag.items, rec.items);
  }
}
