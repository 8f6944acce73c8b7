/** The shift timetable of the hubs: kept disjoint by create, update and delete, read by the current-shift lookup. */
module Shifts {
  import opened Base
  import opened Domain
  import opened Tables
  import opened Store

  datatype Shift = Shift(terminal: Id, start: Time, finish: Time)

  // ---------------------------------------------------------------- overlap

  /** HubShiftRepository._shifts_overlap. */
  predicate ShiftsOverlap(start1: Time, finish1: Time, start2: Time, finish2: Time) {
    start1 < finish2 && finish1 > start2
  }

  /** The instant lies in the half-open interval of the shift. */
  predicate During(s: Shift, t: Time) {
    s.start <= t < s.finish
  }

  predicate Proper(s: Shift) {
    s.start < s.finish
  }

  predicate Conflict(a: Shift, b: Shift) {
    a.terminal == b.terminal && ShiftsOverlap(a.start, a.finish, b.start, b.finish)
  }

  /** Two proper shifts overlap exactly when some instant lies in both. */
  lemma OverlapIsSharedInstant(a: Shift, b: Shift)
    requires Proper(a) && Proper(b)
    ensures ShiftsOverlap(a.start, a.finish, b.start, b.finish) <==> exists t: Time :: During(a, t) && During(b, t)
  {
    if ShiftsOverlap(a.start, a.finish, b.start, b.finish) {
      var t: Time := if a.start < b.start then b.start else a.start;
      assert During(a, t) && During(b, t);
    }
  }

  /** Between the finish of an inverted shift and its later start, both included. */
  predicate InGap(a: Shift, t: Time) {
    a.finish <= t <= a.start
  }

  predicate Inside(b: Shift, t: Time) {
    b.start < t < b.finish
  }

  /** A shift that does not start before it finishes meets the comparison only with a shift spanning the whole gap. */
  lemma InvertedOverlap(a: Shift, b: Shift)
    requires !Proper(a)
    ensures ShiftsOverlap(a.start, a.finish, b.start, b.finish) <==> forall t: Time :: InGap(a, t) ==> Inside(b, t)
  {
    if forall t: Time :: InGap(a, t) ==> Inside(b, t) {
      assert InGap(a, a.start) && InGap(a, a.finish);
    }
  }

  /**
   The check lets an inverted shift pass exactly when every shift of its hub misses some instant of the gap,
   wherever else it lies; no two inverted shifts are ever in conflict.
   */
  lemma InvertedShiftIsClear(shifts: map<Id, Shift>, a: Shift)
    requires !Proper(a)
    ensures Clear(shifts, a)
       <==> forall s <- shifts :: shifts[s].terminal == a.terminal ==>
              exists t: Time :: InGap(a, t) && !Inside(shifts[s], t)
    ensures forall s <- shifts :: !Proper(shifts[s]) ==> !Conflict(a, shifts[s])
  {
    forall s | s in shifts
      ensures Conflict(a, shifts[s])
         <==> shifts[s].terminal == a.terminal && forall t: Time :: InGap(a, t) ==> Inside(shifts[s], t)
    {
      InvertedOverlap(a, shifts[s]);
    }
  }

  // ---------------------------------------------------------------- the timetable

  /** Every shift is proper and no two shifts of a hub share an instant. */
  ghost predicate Timetable(shifts: map<Id, Shift>) {
    && (forall s <- shifts :: Proper(shifts[s]))
    && (forall s <- shifts, s' <- shifts, t: Time ::
          s != s' && shifts[s].terminal == shifts[s'].terminal && During(shifts[s], t) ==> !During(shifts[s'], t))
  }

  function Others(shifts: map<Id, Shift>, id: Id): map<Id, Shift> {
    map s | s in shifts && s != id :: shifts[s]
  }

  predicate Clear(shifts: map<Id, Shift>, s: Shift) {
    forall x <- shifts :: !Conflict(s, shifts[x])
  }

  datatype Change = Create(id: Id, shift: Shift) | Update(id: Id, start: Time, finish: Time) | Delete(id: Id)

  /** The request schemas reject a shift that does not start before it finishes. */
  predicate Admitted(c: Change) {
    match c
    case Create(_, s) => Proper(s)
    case Update(_, start, finish) => start < finish
    case Delete(_) => true
  }

  /** The shift a change writes. */
  function Written(shifts: map<Id, Shift>, c: Change): Shift
    requires c.Create? || (c.Update? && c.id in shifts)
  {
    if c.Create? then c.shift else Shift(shifts[c.id].terminal, c.start, c.finish)
  }

  predicate Accepted(shifts: map<Id, Shift>, c: Change) {
    match c
    case Create(id, s) => id !in shifts && Clear(shifts, s)
    case Update(id, _, _) => id in shifts && Clear(Others(shifts, id), Written(shifts, c))
    case Delete(id) => id in shifts
  }

  function Changed(shifts: map<Id, Shift>, c: Change): map<Id, Shift> {
    if !Accepted(shifts, c) then shifts
    else if c.Delete? then Others(shifts, c.id)
    else shifts[c.id := Written(shifts, c)]
  }

  function Run(shifts: map<Id, Shift>, changes: seq<Change>): map<Id, Shift> {
    if changes == [] then shifts
    else Changed(Run(shifts, changes[..|changes| - 1]), changes[|changes| - 1])
  }

  /** The overlap check is exact: a write is accepted if and only if the timetable with it is one. */
  lemma AcceptedExactlyWhenDisjoint(shifts: map<Id, Shift>, c: Change)
    requires Timetable(shifts) && Admitted(c)
    requires (c.Create? && c.id !in shifts) || (c.Update? && c.id in shifts)
    ensures Accepted(shifts, c) <==> Timetable(shifts[c.id := Written(shifts, c)])
  {
    var w := Written(shifts, c);
    var after := shifts[c.id := w];
    forall x | x in shifts && x != c.id
      ensures Conflict(w, shifts[x]) <==> shifts[x].terminal == w.terminal
                                          && exists t: Time :: During(w, t) && During(shifts[x], t)
    {
      OverlapIsSharedInstant(w, shifts[x]);
    }
    if Accepted(shifts, c) {
      forall s, s', t: Time | s in after && s' in after && s != s' && after[s].terminal == after[s'].terminal
                              && During(after[s], t)
        ensures !During(after[s'], t)
      {
        if s == c.id {
          assert c.Update? ==> Others(shifts, c.id)[s'] == shifts[s'];
          assert !Conflict(w, shifts[s']);
        } else if s' == c.id {
          assert c.Update? ==> Others(shifts, c.id)[s] == shifts[s];
          assert !Conflict(w, shifts[s]);
        }
      }
    }
    if Timetable(after) {
      forall x | x in shifts && x != c.id ensures !Conflict(w, shifts[x]) {
        assert after[x] == shifts[x] && after[c.id] == w;
      }
    }
  }

  /** Every run of create, update and delete keeps the shifts of each hub pairwise disjoint. */
  lemma {:induction false} RunsKeepTheTimetable(shifts: map<Id, Shift>, changes: seq<Change>)
    requires Timetable(shifts) && forall c <- changes :: Admitted(c)
    ensures Timetable(Run(shifts, changes))
  {
    if changes == [] {
    } else {
      var last := |changes| - 1;
      RunsKeepTheTimetable(shifts, changes[..last]);
      var before, c := Run(shifts, changes[..last]), changes[last];
      if !c.Delete? && Accepted(before, c) {
        AcceptedExactlyWhenDisjoint(before, c);
      }
    }
  }

  // ---------------------------------------------------------------- the sorted list of a hub

  function ShiftsOf(shifts: map<Id, Shift>, terminal: Id): set<Id> {
    set s | s in shifts && shifts[s].terminal == terminal
  }

  /** The rows of a hub, each once, in the order of their starts. */
  ghost predicate Sorted(shifts: map<Id, Shift>, terminal: Id, rows: seq<Id>) {
    && (forall s :: s in rows <==> s in ShiftsOf(shifts, terminal))
    && (forall i, j :: 0 <= i < j < |rows| ==>
          rows[i] != rows[j] && rows[i] in shifts && rows[j] in shifts
          && shifts[rows[i]].start <= shifts[rows[j]].start)
  }

  function TotalTime(shifts: map<Id, Shift>, rows: seq<Id>): int {
    if rows == [] then 0
    else
      var last := rows[|rows| - 1];
      TotalTime(shifts, rows[..|rows| - 1]) + if last in shifts then shifts[last].finish - shifts[last].start else 0
  }

  /** Each shift of the sorted list finishes at or before the start of every later one. */
  lemma FinishesBeforeTheNext(shifts: map<Id, Shift>, terminal: Id, rows: seq<Id>, i: nat, j: nat)
    requires Timetable(shifts) && Sorted(shifts, terminal, rows) && i < j < |rows|
    ensures rows[i] in shifts && rows[j] in shifts && shifts[rows[i]].finish <= shifts[rows[j]].start
  {
    assert rows[i] in rows && rows[j] in rows;
    var a, b := shifts[rows[i]], shifts[rows[j]];
    if a.finish > b.start {
      assert During(b, b.start) && During(a, b.start);
    }
  }

  lemma {:induction false} TimeUpTo(shifts: map<Id, Shift>, terminal: Id, rows: seq<Id>, k: nat)
    requires Timetable(shifts) && Sorted(shifts, terminal, rows) && 0 < k <= |rows|
    ensures rows[k - 1] in shifts && 0 <= TotalTime(shifts, rows[..k]) <= shifts[rows[k - 1]].finish
  {
    assert rows[k - 1] in rows;
    assert rows[..k][..k - 1] == rows[..k - 1];
    if k <= 1 {
    } else {
      TimeUpTo(shifts, terminal, rows, k - 1);
      FinishesBeforeTheNext(shifts, terminal, rows, k - 2, k - 1);
    }
  }

  /** The shifts of a hub never take more than one day together. */
  lemma TotalWithinOneDay(shifts: map<Id, Shift>, terminal: Id, rows: seq<Id>)
    requires Timetable(shifts) && Sorted(shifts, terminal, rows)
    ensures 0 <= TotalTime(shifts, rows) <= DAY
  {
    if rows != [] {
      TimeUpTo(shifts, terminal, rows, |rows|);
      assert rows[..|rows|] == rows;
    }
  }

  // ---------------------------------------------------------------- the current shift

  /** The closed interval of the lookup. */
  predicate Within(shifts: map<Id, Shift>, s: Id, t: Time) {
    s in shifts && shifts[s].start <= t <= shifts[s].finish
  }

  /** The first row whose closed interval holds the time. */
  method CurrentClockShift(shifts: map<Id, Shift>, rows: seq<Id>, t: Time) returns (current: Option<Id>)
    ensures current.None? <==> forall s <- rows :: !Within(shifts, s, t)
    ensures current.Some? ==>
              exists i :: 0 <= i < |rows| && rows[i] == current.value && Within(shifts, rows[i], t)
                          && forall j :: 0 <= j < i ==> !Within(shifts, rows[j], t)
  {
    for i := 0 to |rows|
      invariant forall j :: 0 <= j < i ==> !Within(shifts, rows[j], t)
    {
      if rows[i] in shifts && shifts[rows[i]].start <= t <= shifts[rows[i]].finish {
        assert Within(shifts, rows[i], t);
        return Some(rows[i]);
      }
    }
    current := None;
  }

  /** Two neighbours of the timetable both match exactly at the instant at which one ends and the other starts. */
  lemma NeighboursMatchWhereTheyTouch(shifts: map<Id, Shift>, terminal: Id, rows: seq<Id>, t: Time, i: nat)
    requires Timetable(shifts) && Sorted(shifts, terminal, rows) && i + 1 < |rows|
    ensures rows[i] in shifts && rows[i + 1] in shifts
    ensures Within(shifts, rows[i], t) && Within(shifts, rows[i + 1], t)
       <==> shifts[rows[i]].finish == t == shifts[rows[i + 1]].start
  {
    FinishesBeforeTheNext(shifts, terminal, rows, i, i + 1);
    assert rows[i] in rows && rows[i + 1] in rows;
  }

  /**
   On the sorted list of a timetable two matching shifts are neighbours that touch at that instant, so no
   third one matches and the earlier of the two is the one that is found.
   */
  lemma MatchingShiftsTouch(shifts: map<Id, Shift>, terminal: Id, rows: seq<Id>, t: Time, i: nat, j: nat)
    requires Timetable(shifts) && Sorted(shifts, terminal, rows) && i < j < |rows|
    requires Within(shifts, rows[i], t) && Within(shifts, rows[j], t)
    ensures j == i + 1 && shifts[rows[i]].finish == t == shifts[rows[j]].start
    ensures forall k :: 0 <= k < |rows| && k != i && k != j ==> !Within(shifts, rows[k], t)
  {
    FinishesBeforeTheNext(shifts, terminal, rows, i, j);
    if j > i + 1 {
      FinishesBeforeTheNext(shifts, terminal, rows, i, i + 1);
      FinishesBeforeTheNext(shifts, terminal, rows, i + 1, j);
    }
    forall k | 0 <= k < |rows| && k != i && k != j ensures !Within(shifts, rows[k], t) {
      assert rows[k] in rows;
      assert Proper(shifts[rows[k]]);
      assert rows[i] in rows && rows[j] in rows;
      if k < i {
        FinishesBeforeTheNext(shifts, terminal, rows, k, i);
      } else {
        FinishesBeforeTheNext(shifts, terminal, rows, j, k);
      }
    }
  }

  // ---------------------------------------------------------------- the repository and the service

  class ShiftService {
    const store: Store
    var shifts: map<Id, Shift>

    constructor (store: Store)
      ensures this.store == store && shifts == map[]
    {
      this.store := store;
      shifts := map[];
    }

    /** The rows of a hub other than the excluded one, in any order: the first conflict ends the scan. */
    method CheckShiftOverlap(terminal: Id, start: Time, finish: Time, exclude: Option<Id>) returns (found: Option<Id>)
      ensures found.Some? ==>
                && found.value in shifts && Some(found.value) != exclude
                && Conflict(Shift(terminal, start, finish), shifts[found.value])
      ensures found.None? ==>
                forall s <- shifts :: Some(s) != exclude ==> !Conflict(Shift(terminal, start, finish), shifts[s])
    {
      var rest := ShiftsOf(shifts, terminal);
      while rest != {}
        invariant rest <= ShiftsOf(shifts, terminal)
        invariant forall s <- ShiftsOf(shifts, terminal) :: s !in rest && Some(s) != exclude ==>
                    !ShiftsOverlap(start, finish, shifts[s].start, shifts[s].finish)
        decreases |rest|
      {
        var s :| s in rest;
        if Some(s) != exclude && ShiftsOverlap(start, finish, shifts[s].start, shifts[s].finish) {
          return Some(s);
        }
        rest := rest - {s};
      }
      found := None;
    }

    /** `owned` is whether the hub exists and belongs to the user's courier; `id` is freshly drawn. */
    method CreateShift(id: Id, owned: bool, shift: Shift) returns (ok: bool)
      modifies this
      ensures ok == (owned && Accepted(old(shifts), Create(id, shift)))
      ensures shifts == if owned then Changed(old(shifts), Create(id, shift)) else old(shifts)
    {
      if !owned {
        return false;
      }
      var conflict := CheckShiftOverlap(shift.terminal, shift.start, shift.finish, None);
      if conflict.Some? || id in shifts {
        return false;
      }
      shifts := shifts[id := shift];
      ok := true;
    }

    method UpdateShift(id: Id, start: Time, finish: Time) returns (ok: bool)
      modifies this
      ensures ok == Accepted(old(shifts), Update(id, start, finish))
      ensures shifts == Changed(old(shifts), Update(id, start, finish))
    {
      if id !in shifts {
        return false;
      }
      var conflict := CheckShiftOverlap(shifts[id].terminal, start, finish, Some(id));
      if conflict.Some? {
        assert Others(shifts, id)[conflict.value] == shifts[conflict.value];
        return false;
      }
      shifts := shifts[id := shifts[id].(start := start, finish := finish)];
      ok := true;
    }

    /**
     A shift that orders or routes still refer to cannot be deleted: their column may not be emptied. A mission
     has the shift of its route.
     */
    method DeleteShift(id: Id) returns (ok: bool)
      modifies this
      ensures ok == (Accepted(old(shifts), Delete(id))
                     && (forall o <- store.orders :: store.orders[o].shiftId != id)
                     && (forall r <- store.routes :: store.routes[r].shiftId != id))
      ensures shifts == if ok then Changed(old(shifts), Delete(id)) else old(shifts)
    {
      if id !in shifts || (exists o <- store.orders :: store.orders[o].shiftId == id)
         || (exists r <- store.routes :: store.routes[r].shiftId == id) {
        return false;
      }
      shifts := Others(shifts, id);
      ok := true;
    }

    /** ORDER BY start_time. */
    method GetByTerminalId(terminal: Id) returns (rows: seq<Id>)
      ensures Sorted(shifts, terminal, rows)
    {
      rows := [];
      var rest := ShiftsOf(shifts, terminal);
      while rest != {}
        invariant rest <= ShiftsOf(shifts, terminal)
        invariant forall s :: s in rows <==> s in ShiftsOf(shifts, terminal) - rest
        invariant forall i, j :: 0 <= i < j < |rows| ==> rows[i] != rows[j] && InOrder(shifts, rows[i], rows[j])
        invariant forall s <- rows, s' <- rest :: InOrder(shifts, s, s')
        decreases |rest|
      {
        EarliestExists(shifts, rest);
        var s :| s in rest && forall s' <- rest :: InOrder(shifts, s, s');
        rows := rows + [s];
        rest := rest - {s};
      }
      SortedOnceAll(shifts, terminal, rows);
    }

    method GetCurrentShift(terminal: Id, now: Instant) returns (current: Option<Id>)
      ensures current.None? <==> forall s <- shifts ::
                                   shifts[s].terminal == terminal ==>
                                     TimeOf(now) < shifts[s].start || shifts[s].finish < TimeOf(now)
      ensures current.Some? ==>
                && current.value in shifts && shifts[current.value].terminal == terminal
                && shifts[current.value].start <= TimeOf(now) <= shifts[current.value].finish
                && forall s <- shifts ::
                     shifts[s].terminal == terminal && shifts[s].start <= TimeOf(now) <= shifts[s].finish ==>
                       shifts[current.value].start <= shifts[s].start
    {
      var rows := GetByTerminalId(terminal);
      current := CurrentClockShift(shifts, rows, TimeOf(now));
      MatchIsEarliest(shifts, terminal, rows, TimeOf(now), current);
    }
  }

  /** The first match of the sorted rows, in the columns of the hub's shifts. */
  lemma MatchIsEarliest(shifts: map<Id, Shift>, terminal: Id, rows: seq<Id>, t: Time, current: Option<Id>)
    requires Sorted(shifts, terminal, rows)
    requires current.None? ==> forall s <- rows :: !Within(shifts, s, t)
    requires current.Some? ==>
               exists i :: 0 <= i < |rows| && rows[i] == current.value && Within(shifts, rows[i], t)
                           && forall j :: 0 <= j < i ==> !Within(shifts, rows[j], t)
    ensures current.None? ==>
              forall s <- shifts :: shifts[s].terminal == terminal ==> t < shifts[s].start || shifts[s].finish < t
    ensures current.Some? ==>
              && current.value in shifts && shifts[current.value].terminal == terminal
              && shifts[current.value].start <= t <= shifts[current.value].finish
              && forall s <- shifts :: shifts[s].terminal == terminal && shifts[s].start <= t <= shifts[s].finish ==>
                                         shifts[current.value].start <= shifts[s].start
  {
    forall s | s in shifts && shifts[s].terminal == terminal ensures s in rows {
      assert s in ShiftsOf(shifts, terminal);
    }
    if current.Some? {
      var i :| 0 <= i < |rows| && rows[i] == current.value && Within(shifts, rows[i], t)
               && forall j :: 0 <= j < i ==> !Within(shifts, rows[j], t);
      assert rows[i] in rows;
      forall s | s in rows && Within(shifts, s, t) ensures shifts[rows[i]].start <= shifts[s].start {
        var j :| 0 <= j < |rows| && rows[j] == s;
      }
    }
  }

  predicate InOrder(shifts: map<Id, Shift>, s: Id, s': Id) {
    s in shifts && s' in shifts && shifts[s].start <= shifts[s'].start
  }

  lemma SortedOnceAll(shifts: map<Id, Shift>, terminal: Id, rows: seq<Id>)
    requires forall s :: s in rows <==> s in ShiftsOf(shifts, terminal)
    requires forall i, j :: 0 <= i < j < |rows| ==> rows[i] != rows[j] && InOrder(shifts, rows[i], rows[j])
    ensures Sorted(shifts, terminal, rows)
  {
    forall i, j | 0 <= i < j < |rows|
      ensures rows[i] in shifts && rows[j] in shifts && shifts[rows[i]].start <= shifts[rows[j]].start
    {
      assert InOrder(shifts, rows[i], rows[j]);
    }
  }

  lemma EarliestExists(shifts: map<Id, Shift>, rows: set<Id>)
    requires rows != {} && rows <= shifts.Keys
    ensures exists s <- rows :: forall s' <- rows :: InOrder(shifts, s, s')
  {
    var s :| s in rows;
    if rows == {s} {
    } else {
      EarliestExists(shifts, rows - {s});
      var first :| first in rows - {s} && forall s' <- rows - {s} :: InOrder(shifts, first, s');
      if shifts[s].start <= shifts[first].start {
        forall s' | s' in rows ensures InOrder(shifts, s, s') {
          if s' != s { assert InOrder(shifts, first, s'); }
        }
      } else {
        forall s' | s' in rows ensures InOrder(shifts, first, s') {
          if s' != s { assert s' in rows - {s}; }
        }
      }
    }
  }
}
