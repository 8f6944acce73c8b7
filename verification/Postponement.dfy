/** Postponing a batch of orders: all or nothing, and exactly when it succeeds. */
module Postponement {
  import opened Base
  import opened Domain
  import opened Tables
  import opened Store
  import opened OrderCalls

  ghost predicate ValidBatch(orders: map<Id, Order>, b: Batch) {
    |b.ids| == |b.newIds| && NewIds(orders, Postpone(b))
  }

  predicate Found(orders: map<Id, Order>, b: Batch, i: nat)
    requires |b.ids| == |b.newIds|
  {
    i < |b.ids| && b.ids[i] in orders
  }

  /** After the first `k` ids: each found order is POSTPONED with one successor, and no other row differs. */
  ghost predicate Postponed(orders: map<Id, Order>, b: Batch, k: nat, orders': map<Id, Order>)
    requires k <= |b.ids| == |b.newIds|
  {
    && Marked(orders, b.ids[..k], orders')
    && (forall i :: 0 <= i < k && Found(orders, b, i) ==> Succeeded(orders, b, i, orders'))
    && (forall o <- orders' :: o in orders || IsNew(orders, b, k, o))
  }

  ghost predicate Marked(orders: map<Id, Order>, ids: seq<Id>, orders': map<Id, Order>) {
    forall o <- orders ::
      o in orders' && orders'[o] == if o in ids then orders[o].(status := OrderStatus.Postponed) else orders[o]
  }

  /** The successor of the `i`-th order: REGISTERED at the hub and shift of the batch, dated, linked to its parent. */
  ghost predicate Succeeded(orders: map<Id, Order>, b: Batch, i: nat, orders': map<Id, Order>)
    requires |b.ids| == |b.newIds| && Found(orders, b, i)
  {
    && b.newIds[i] in orders'
    && var parent, o := orders[b.ids[i]], orders'[b.newIds[i]];
    && o.status == OrderStatus.Registered && o.movedAs == Some(b.ids[i])
    && o.barcode == parent.barcode + b.date && o.expectedDelivery == Some(b.date)
    && o.terminalId == b.terminal && o.shiftId == b.shift && o.courierId == parent.courierId
    && o.earliest == parent.earliest && o.latest == parent.latest && o.actualDelivery == parent.actualDelivery
  }

  predicate IsNew(orders: map<Id, Order>, b: Batch, k: nat, o: Id)
    requires k <= |b.ids| == |b.newIds|
  {
    exists i :: 0 <= i < k && Found(orders, b, i) && b.newIds[i] == o
  }

  lemma {:induction false} PostponingWrites(orders: map<Id, Order>, b: Batch, k: nat)
    requires ValidBatch(orders, b) && k <= |b.ids| && Postponing(orders, b, k).Some?
    ensures Postponed(orders, b, k, Postponing(orders, b, k).value)
  {
    hide FitsColumns;
    if k == 0 {
    } else {
      PostponingWrites(orders, b, k - 1);
      var before, after := Postponing(orders, b, k - 1).value, Postponing(orders, b, k).value;
      assert b.ids[..k] == b.ids[..k - 1] + [b.ids[k - 1]];
      OneMorePostponed(orders, b, k - 1, before, after);
    }
  }

  /** The next id is looked up among the pending orders; only the orders of the start can be found there. */
  lemma FoundBefore(orders: map<Id, Order>, b: Batch, k: nat, before: map<Id, Order>)
    requires ValidBatch(orders, b) && k < |b.ids| && Postponed(orders, b, k, before)
    ensures b.ids[k] in before <==> Found(orders, b, k)
    ensures Found(orders, b, k) ==>
              && Successor(before[b.ids[k]], b.ids[k], b) == Successor(orders[b.ids[k]], b.ids[k], b)
              && before[b.ids[k]].(status := OrderStatus.Postponed)
                 == orders[b.ids[k]].(status := OrderStatus.Postponed)
  {
    assert b.ids[k] in b.ids;
  }

  lemma OneMorePostponed(orders: map<Id, Order>, b: Batch, k: nat, before: map<Id, Order>, after: map<Id, Order>)
    requires ValidBatch(orders, b) && k < |b.ids| && Postponed(orders, b, k, before)
    requires b.ids[..k + 1] == b.ids[..k] + [b.ids[k]]
    requires if b.ids[k] in before then
               after == before[b.ids[k] := before[b.ids[k]].(status := OrderStatus.Postponed)]
                              [b.newIds[k] := Successor(before[b.ids[k]], b.ids[k], b)]
             else after == before
    ensures Postponed(orders, b, k + 1, after)
  {
    FoundBefore(orders, b, k, before);
    forall i | 0 <= i < k + 1 && Found(orders, b, i) ensures Succeeded(orders, b, i, after) {
      assert i < k ==> Succeeded(orders, b, i, before);
      assert i < k ==> b.newIds[i] != b.newIds[k];
      assert b.ids[k] in b.ids;
    }
    forall o | o in after ensures o in orders || IsNew(orders, b, k + 1, o) {
      if o in before && o !in orders {
        assert IsNew(orders, b, k, o);
      }
    }
  }

  /** What the database accepts for the `i`-th id: room for the date, and no order with that barcode yet. */
  predicate Free(orders: map<Id, Order>, b: Batch, i: nat)
    requires |b.ids| == |b.newIds| && Found(orders, b, i)
  {
    && |orders[b.ids[i]].barcode| + |b.date| <= 100
    && forall o <- orders :: orders[o].barcode != orders[b.ids[i]].barcode + b.date
  }

  /** No found id is repeated, and every found order's successor is free. */
  ghost predicate Postponable(orders: map<Id, Order>, b: Batch, k: nat)
    requires k <= |b.ids| == |b.newIds|
  {
    && (forall i :: 0 <= i < k && Found(orders, b, i) ==> Free(orders, b, i))
    && (forall i, j :: 0 <= i < j < k && Found(orders, b, i) && Found(orders, b, j) ==> b.ids[i] != b.ids[j])
  }

  /** The next successor fits exactly when it is free and its order was not met before. */
  lemma NextFits(orders: map<Id, Order>, b: Batch, k: nat, before: map<Id, Order>)
    requires ValidBatch(orders, b) && UniqueBarcodes(orders) && k < |b.ids| && Found(orders, b, k)
    requires Postponed(orders, b, k, before)
    ensures var row := orders[b.ids[k]];
            var marked := before[b.ids[k] := row.(status := OrderStatus.Postponed)];
      FitsColumns(marked, b.newIds[k], Successor(row, b.ids[k], b))
      <==> Free(orders, b, k) && NotMet(orders, b, k)
  {
    var row := orders[b.ids[k]];
    var marked := before[b.ids[k] := row.(status := OrderStatus.Postponed)];
    var code := row.barcode + b.date;
    forall o | o in orders ensures o in marked && o != b.newIds[k] && marked[o].barcode == orders[o].barcode {
    }
    forall i | 0 <= i < k && Found(orders, b, i)
      ensures b.newIds[i] in marked && b.newIds[i] != b.newIds[k]
      ensures marked[b.newIds[i]].barcode == code <==> b.ids[i] == b.ids[k]
    {
      assert Succeeded(orders, b, i, before);
      SameSuffix(orders[b.ids[i]].barcode, row.barcode, b.date);
    }
    forall o | o in marked ensures o in orders || IsNew(orders, b, k, o) {
    }
  }

  lemma SameSuffix(x: string, y: string, suffix: string)
    ensures x + suffix == y + suffix <==> x == y
  {
    if x + suffix == y + suffix {
      assert |x| == |y|;
      assert (x + suffix)[..|x|] == x && (y + suffix)[..|y|] == y;
    }
  }

  lemma {:induction false} PostponingSucceeds(orders: map<Id, Order>, b: Batch, k: nat)
    requires ValidBatch(orders, b) && UniqueBarcodes(orders) && k <= |b.ids|
    ensures Postponing(orders, b, k).Some? <==> Postponable(orders, b, k)
  {
    hide Free, Postponed;
    if k == 0 {
    } else {
      PostponingSucceeds(orders, b, k - 1);
      PostponableStep(orders, b, k - 1);
      if Postponing(orders, b, k - 1).Some? {
        PostponingWrites(orders, b, k - 1);
        var before := Postponing(orders, b, k - 1).value;
        FoundBefore(orders, b, k - 1, before);
        if Found(orders, b, k - 1) {
          NextFits(orders, b, k - 1, before);
        }
      }
    }
  }

  lemma PostponableStep(orders: map<Id, Order>, b: Batch, k: nat)
    requires k < |b.ids| == |b.newIds|
    ensures Postponable(orders, b, k + 1)
       <==> Postponable(orders, b, k) && (Found(orders, b, k) ==> Free(orders, b, k) && NotMet(orders, b, k))
  {
    hide Free;
  }

  ghost predicate NotMet(orders: map<Id, Order>, b: Batch, k: nat)
    requires k < |b.ids| == |b.newIds|
  {
    forall i :: 0 <= i < k && Found(orders, b, i) ==> b.ids[i] != b.ids[k]
  }

  /**
   Postponement is all or nothing. A batch succeeds exactly when no found id is repeated, no order holds a
   found order's barcode with the date appended, and the longer barcode fits its column; then each found order
   is POSTPONED and has exactly one REGISTERED successor, and every other row is as it was. Otherwise nothing
   changes at all.
   */
  lemma PostponementIsAllOrNothing(orders: map<Id, Order>, b: Batch)
    requires ValidBatch(orders, b) && UniqueBarcodes(orders)
    ensures if Postponable(orders, b, |b.ids|) then Postponed(orders, b, |b.ids|, AfterPostpone(orders, b))
            else AfterPostpone(orders, b) == orders
  {
    PostponingSucceeds(orders, b, |b.ids|);
    if Postponing(orders, b, |b.ids|).Some? {
      PostponingWrites(orders, b, |b.ids|);
    }
  }
}
