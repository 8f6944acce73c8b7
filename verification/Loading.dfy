/** Loading the parcels of a route, one scan after another, before it starts. */
module Loading {
  import opened Base
  import opened Domain
  import opened Tables
  import opened Store
  import opened CourierSpec
  import opened CourierFrame
  import opened RequestColumns

  /** What a caller can check before the scan of an order: route, order and mission are in place. */
  predicate Loadable(db: Db, rid: Id, o: Id) {
    && rid in db.routes && RouteReadable(db.routes[rid])
    && o in db.orders && db.orders[o].status != OrderStatus.Cancelled
    && var m := MissionOn(db.missions, o, rid);
    m.One? && m.id in db.missions && MissionReadable(db.missions[m.id])
  }

  /** The missions once the parcels of `orders` are marked as loaded. */
  function Marked(missions: map<Id, Mission>, rid: Id, orders: seq<Id>, now: Instant): map<Id, Mission> {
    map m | m in missions ::
      if missions[m].routeId == rid && missions[m].orderId in orders then missions[m].(loadingScan := Some(now))
      else missions[m]
  }

  /** How many of the fetched orders come before the first that cannot be loaded. */
  function Leading(db: Db, rid: Id, fetched: seq<Id>): nat {
    if fetched == [] || !Loadable(db, rid, fetched[0]) then 0 else 1 + Leading(db, rid, fetched[1..])
  }

  lemma BarcodeFinds(orders: map<Id, Order>, o: Id)
    requires UniqueBarcodes(orders) && o in orders
    ensures OrderByBarcode(orders, orders[o].barcode) == One(o)
  {
    var rows := set o' | o' in orders && orders[o'].barcode == orders[o].barcode;
    assert o in rows;
    assert rows == {o};
    SoleIs(rows, o);
  }

  lemma MarkOne(db: Db, rid: Id, o: Id, m: Id, now: Instant)
    requires Linked(db) && MissionOn(db.missions, o, rid) == One(m)
    ensures m in db.missions
    ensures db.missions[m := db.missions[m].(loadingScan := Some(now))] == Marked(db.missions, rid, [o], now)
  {
    var rows := RowsOn(db.missions, o, rid);
    SoleIs(rows, m);
    assert m in rows;
    forall m' | m' in db.missions && m' != m
      ensures !(db.missions[m'].routeId == rid && db.missions[m'].orderId in [o])
    {
      assert m' !in rows;
    }
  }

  lemma ScanMarksOne(db: Db, rid: Id, o: Id, now: Instant)
    requires Linked(db) && UniqueBarcodes(db.orders) && o in db.orders
    ensures Scan(db, rid, db.orders[o].barcode, now)
         == if Loadable(db, rid, o) then Done(db.(missions := Marked(db.missions, rid, [o], now))) else Raised(db)
  {
    BarcodeFinds(db.orders, o);
    if Loadable(db, rid, o) {
      MarkOne(db, rid, o, MissionOn(db.missions, o, rid).id, now);
    }
  }

  lemma MarkingKeepsLoadable(db: Db, rid: Id, marked: seq<Id>, now: Instant, o: Id)
    ensures Loadable(db.(missions := Marked(db.missions, rid, marked, now)), rid, o) <==> Loadable(db, rid, o)
  {
    var missions := Marked(db.missions, rid, marked, now);
    assert RowsOn(missions, o, rid) == RowsOn(db.missions, o, rid);
  }

  lemma SameLeading(db: Db, rid: Id, marked: seq<Id>, now: Instant, fetched: seq<Id>)
    ensures Leading(db.(missions := Marked(db.missions, rid, marked, now)), rid, fetched) == Leading(db, rid, fetched)
  {
    if fetched == [] {
    } else {
      MarkingKeepsLoadable(db, rid, marked, now, fetched[0]);
      SameLeading(db, rid, marked, now, fetched[1..]);
    }
  }

  lemma MarkingAppends(missions: map<Id, Mission>, rid: Id, o: Id, rest: seq<Id>, now: Instant)
    ensures Marked(Marked(missions, rid, [o], now), rid, rest, now) == Marked(missions, rid, [o] + rest, now)
  {
  }

  lemma PrefixSplits(s: seq<Id>, k: nat)
    requires k < |s|
    ensures s[..k + 1] == [s[0]] + s[1..][..k]
  {
  }

  lemma ScanFirst(db: Db, rid: Id, fetched: seq<Id>, now: Instant)
    requires Linked(db) && UniqueBarcodes(db.orders)
    requires fetched != [] && forall o <- fetched :: o in db.orders
    ensures ScanAll(db, rid, BarcodesOf(db.orders, fetched), now)
         == if Loadable(db, rid, fetched[0]) then
              ScanAll(db.(missions := Marked(db.missions, rid, [fetched[0]], now)), rid,
                      BarcodesOf(db.orders, fetched[1..]), now)
            else Raised(db)
  {
    hide Scan;
    ScanMarksOne(db, rid, fetched[0], now);
    assert BarcodesOf(db.orders, fetched)[1..] == BarcodesOf(db.orders, fetched[1..]);
  }

  /** The leading orders can be loaded and the one after them cannot. */
  lemma {:induction false} LeadingIsFirstFailure(db: Db, rid: Id, fetched: seq<Id>)
    ensures var k := Leading(db, rid, fetched);
      && k <= |fetched|
      && (forall o <- fetched[..k] :: Loadable(db, rid, o))
      && (k < |fetched| ==> !Loadable(db, rid, fetched[k]))
  {
    if fetched != [] && Loadable(db, rid, fetched[0]) {
      LeadingIsFirstFailure(db, rid, fetched[1..]);
      var k := Leading(db, rid, fetched);
      assert fetched[..k] == [fetched[0]] + fetched[1..][..k - 1];
    }
  }

  /**
   Scanning stops at the first order that cannot be loaded, with exactly the earlier ones marked and
   no other table touched; it completes exactly when every fetched order can be loaded.
   */
  lemma {:induction false} LoadsUpToFirstFailure(db: Db, rid: Id, fetched: seq<Id>, now: Instant)
    requires Linked(db) && UniqueBarcodes(db.orders)
    requires forall o <- fetched :: o in db.orders
    ensures Leading(db, rid, fetched) <= |fetched|
    ensures var r := ScanAll(db, rid, BarcodesOf(db.orders, fetched), now);
            var k := Leading(db, rid, fetched);
      && r.db == db.(missions := Marked(db.missions, rid, fetched[..k], now))
      && (r.Done? <==> k == |fetched|)
    decreases |fetched|, 0
  {
    hide Loadable;
    NothingMarked(db, rid, now);
    if fetched != [] {
      ScanFirst(db, rid, fetched, now);
      if Loadable(db, rid, fetched[0]) {
        ScanRest(db, rid, fetched[0], fetched[1..], now);
        PrefixSplits(fetched, Leading(db, rid, fetched[1..]));
      } else {
        assert fetched[..0] == [];
      }
    }
  }

  lemma NothingMarked(db: Db, rid: Id, now: Instant)
    ensures db.(missions := Marked(db.missions, rid, [], now)) == db
  {
    assert Marked(db.missions, rid, [], now) == db.missions;
  }

  lemma {:induction false} ScanRest(db: Db, rid: Id, o: Id, rest: seq<Id>, now: Instant)
    requires Linked(db) && UniqueBarcodes(db.orders)
    requires forall o <- rest :: o in db.orders
    ensures Leading(db, rid, rest) <= |rest|
    ensures var db1 := db.(missions := Marked(db.missions, rid, [o], now));
            var r := ScanAll(db1, rid, BarcodesOf(db.orders, rest), now);
            var k := Leading(db, rid, rest);
      && r.db == db.(missions := Marked(db.missions, rid, [o] + rest[..k], now))
      && (r.Done? <==> k == |rest|)
    decreases |rest|, 1
  {
    var db1 := db.(missions := Marked(db.missions, rid, [o], now));
    assert Linked(db1);
    SameLeading(db, rid, [o], now, rest);
    LoadsUpToFirstFailure(db1, rid, rest, now);
    MarkingAppends(db.missions, rid, o, rest[..Leading(db, rid, rest)], now);
  }

  /** The parcels that were not scanned before and whose order was not fetched. */
  function Uncovered(db: Db, rid: Id, fetched: seq<Id>): set<Id> {
    set m | m in db.missions && db.missions[m].routeId == rid && db.missions[m].loadingScan.None?
            && db.missions[m].orderId !in fetched
  }

  /**
   When the fetched orders can all be loaded, the scanned set has grown by exactly their missions, so
   nothing remains to be scanned when they cover the route.
   */
  lemma LoadedSet(db: Db, rid: Id, fetched: seq<Id>, now: Instant)
    requires Linked(db) && UniqueBarcodes(db.orders)
    requires forall o <- fetched :: o in db.orders
    ensures var loaded := ScanAll(db, rid, BarcodesOf(db.orders, fetched), now);
      && (loaded.Done? <==> forall o <- fetched :: Loadable(db, rid, o))
      && (loaded.Done? ==> Unscanned(loaded.db.missions, rid) == Uncovered(db, rid, fetched))
  {
    hide Scan, ScanAll, Loadable, Linked, UniqueBarcodes, Leading, BarcodesOf;
    LoadsUpToFirstFailure(db, rid, fetched, now);
    LeadingIsFirstFailure(db, rid, fetched);
    assert fetched[..|fetched|] == fetched;
    assert Unscanned(Marked(db.missions, rid, fetched, now), rid) == Uncovered(db, rid, fetched);
    if Leading(db, rid, fetched) < |fetched| {
      assert fetched[Leading(db, rid, fetched)] in fetched;
    }
  }

  /**
   When some fetched order cannot be loaded, the self-managed start fails with exactly the parcels before
   the first such order marked, before the route or the courier's state changes.
   */
  lemma FailedSelfManagedStart(db: Db, dir: Directory, user: Id, rid: Id, requested: seq<Id>, fetched: seq<Id>,
                               now: Instant)
    requires Linked(db) && UniqueBarcodes(db.orders)
    requires forall o <- fetched :: o in db.orders
    requires exists o <- fetched :: !Loadable(db, rid, o)
    ensures Leading(db, rid, fetched) < |fetched| && !Loadable(db, rid, fetched[Leading(db, rid, fetched)])
    ensures SelfManaged(db, dir, user, rid, requested, BarcodesOf(db.orders, fetched), now)
         == Raised(db.(missions := Marked(db.missions, rid, fetched[..Leading(db, rid, fetched)], now)))
  {
    hide ScanAll, Loadable, SetState;
    LoadsUpToFirstFailure(db, rid, fetched, now);
    LeadingIsFirstFailure(db, rid, fetched);
    assert fetched[..|fetched|] == fetched;
  }

  /**
   Self-managed loading. When every fetched order can be loaded, then after the whole call -- whether or not the
   start itself is accepted -- exactly the missions of the fetched orders have been scanned besides those that
   were before, and none remains when they cover the route.
   */
  lemma SelfManagedStartScans(db: Db, dir: Directory, user: Id, rid: Id, requested: seq<Id>, fetched: seq<Id>,
                              now: Instant)
    requires Linked(db) && UniqueBarcodes(db.orders)
    requires forall o <- fetched :: o in db.orders
    requires forall o <- fetched :: Loadable(db, rid, o)
    ensures var after := SelfManaged(db, dir, user, rid, requested, BarcodesOf(db.orders, fetched), now).db;
      && after.missions.Keys == db.missions.Keys
      && Unscanned(after.missions, rid) == Uncovered(db, rid, fetched)
      && ((forall m <- MissionsOf(db.missions, rid) :: db.missions[m].orderId in fetched)
            ==> Unscanned(after.missions, rid) == {})
  {
    hide ScanAll, Scan, Loadable, SetState, BarcodesOf, Linked, UniqueBarcodes;
    LoadedSet(db, rid, fetched, now);
    LoadsUpToFirstFailure(db, rid, fetched, now);
    var loaded := ScanAll(db, rid, BarcodesOf(db.orders, fetched), now).db;
    if requested != [] {
      var rq := Request(CourierStep.StartRoute, rid, Some(requested[0]), None, None);
      SetStateFrame(loaded, dir, user, rq, now);
      SameScans(loaded, SetState(loaded, dir, user, rq, now).db, rid);
    }
  }

  lemma SameScans(db: Db, db': Db, rid: Id)
    requires Framed(db, db', rid)
    ensures Unscanned(db'.missions, rid) == Unscanned(db.missions, rid)
  {
    hide SameOrder, SameRoute;
  }

  lemma MarkedKeepsWork(db: Db, rq: Request, marked: seq<Id>, now: Instant, m: Id)
    requires WorksOn(db, rq, m)
    ensures WorksOn(db.(missions := Marked(db.missions, rq.route, marked, now)), rq, m)
  {
  }

  /**
   A self-managed start whose orders can all be loaded: every fetched parcel is marked, and the route is under way
   with the mission of the first requested order, if it starts before a stored finish.
   */
  lemma SelfManagedColumns(db: Db, dir: Directory, user: Id, rid: Id, requested: seq<Id>, fetched: seq<Id>,
                           now: Instant, m: Id)
    requires Linked(db) && UniqueBarcodes(db.orders) && requested != []
    requires forall o <- fetched :: o in db.orders && Loadable(db, rid, o)
    requires var rq := Request(CourierStep.StartRoute, rid, Some(requested[0]), None, None);
      MayDrive(db, dir, user, rq) && WorksOn(db, rq, m)
    ensures var r := SelfManaged(db, dir, user, rid, requested, BarcodesOf(db.orders, fetched), now);
            var route := db.routes[rid];
      && (r.Done? <==> (route.actualFinish.Some? ==> TimeOf(now) < route.actualFinish.value))
      && r.db.routes == db.routes[rid := route.(status := RouteStatus.Ongoing, actualStart := Some(TimeOf(now)),
                                                currentMission := Some(m))]
      && r.db.missions.Keys == db.missions.Keys
      && forall x <- db.missions ::
           r.db.missions[x]
           == if db.missions[x].routeId != rid then db.missions[x]
              else db.missions[x].(status := Some(Known(MissionStatus.Ongoing)),
                                   loadingScan := if db.missions[x].orderId in fetched then Some(now)
                                                  else db.missions[x].loadingScan)
  {
    hide ScanAll, Scan, Loadable, SetState, BarcodesOf, Linked, UniqueBarcodes, WorksOn, RouteReadable;
    var rq := Request(CourierStep.StartRoute, rid, Some(requested[0]), None, None);
    LoadsUpToFirstFailure(db, rid, fetched, now);
    LeadingIsFirstFailure(db, rid, fetched);
    assert fetched[..|fetched|] == fetched;
    assert Leading(db, rid, fetched) == |fetched|;
    MarkedKeepsWork(db, rq, fetched, now, m);
    StartColumns(db.(missions := Marked(db.missions, rid, fetched, now)), dir, user, rq, now, m);
  }

  lemma FirstScanCommits(db: Db, rid: Id, fetched: seq<Id>, now: Instant)
    requires Linked(db) && UniqueBarcodes(db.orders)
    requires fetched != [] && forall o <- fetched :: o in db.orders
    ensures var db1 := db.(missions := Marked(db.missions, rid, [fetched[0]], now));
      && Linked(db1)
      && ScanCommits(db, rid, BarcodesOf(db.orders, fetched), now)
         == (if Loadable(db, rid, fetched[0]) then
               [db1] + ScanCommits(db1, rid, BarcodesOf(db.orders, fetched[1..]), now)
             else [])
  {
    hide Loadable, Scan, UniqueBarcodes;
    ScanMarksOne(db, rid, fetched[0], now);
    assert BarcodesOf(db.orders, fetched)[1..] == BarcodesOf(db.orders, fetched[1..]);
  }

  lemma NoScans(db: Db, rid: Id, now: Instant)
    ensures ScanCommits(db, rid, BarcodesOf(db.orders, []), now) == []
  {
  }

  /** The scans of a series that succeed are committed one by one. */
  lemma {:induction false} ScansCommitOneByOne(db: Db, rid: Id, fetched: seq<Id>, now: Instant, i: nat)
    requires Linked(db) && UniqueBarcodes(db.orders)
    requires forall o <- fetched :: o in db.orders
    ensures var commits := ScanCommits(db, rid, BarcodesOf(db.orders, fetched), now);
      && |commits| == Leading(db, rid, fetched) <= |fetched|
      && (i < |commits| ==> commits[i] == db.(missions := Marked(db.missions, rid, fetched[..i + 1], now)))
    decreases |fetched|
  {
    hide Loadable, Linked, UniqueBarcodes, Marked, BarcodesOf, ScanCommits;
    if fetched == [] {
      NoScans(db, rid, now);
    } else {
      FirstScanCommits(db, rid, fetched, now);
      if Loadable(db, rid, fetched[0]) {
        var o, rest := fetched[0], fetched[1..];
        SameLeading(db, rid, [o], now, rest);
        ScansCommitOneByOne(db.(missions := Marked(db.missions, rid, [o], now)), rid, rest, now,
                            if i == 0 then 0 else i - 1);
        if i == 0 {
          assert fetched[..1] == [o];
        } else if i < |fetched| {
          MarkingAppends(db.missions, rid, o, rest[..i], now);
          assert fetched[..i + 1] == [o] + rest[..i];
        }
      }
    }
  }

  /** A self-managed start commits every scan, and the start like any other request. */
  lemma SelfManagedCommitsScans(db: Db, dir: Directory, user: Id, rid: Id, requested: seq<Id>, fetched: seq<Id>,
                                now: Instant)
    requires Linked(db) && UniqueBarcodes(db.orders) && requested != []
    requires forall o <- fetched :: o in db.orders
    ensures var commits := SelfManagedCommits(db, dir, user, rid, requested, BarcodesOf(db.orders, fetched), now);
            var n := Leading(db, rid, fetched);
            var rq := Request(CourierStep.StartRoute, rid, Some(requested[0]), None, None);
            var loaded := db.(missions := Marked(db.missions, rid, fetched, now));
      && n <= |fetched|
      && |commits| == n + (if n < |fetched| then 0 else |CourierCommits(loaded, dir, user, rq, now)|)
      && forall i :: 0 <= i < n ==> commits[i] == db.(missions := Marked(db.missions, rid, fetched[..i + 1], now))
  {
    hide ScanAll, ScanCommits, Loadable, BarcodesOf, Linked, UniqueBarcodes, CourierCommits, Leading;
    LoadsUpToFirstFailure(db, rid, fetched, now);
    ScansCommitOneByOne(db, rid, fetched, now, 0);
    assert fetched[..|fetched|] == fetched;
    forall i | 0 <= i < Leading(db, rid, fetched)
      ensures ScanCommits(db, rid, BarcodesOf(db.orders, fetched), now)[i]
           == db.(missions := Marked(db.missions, rid, fetched[..i + 1], now))
    {
      ScansCommitOneByOne(db, rid, fetched, now, i);
    }
  }
}
