/** The occupancy index: one grouped query folded into a nested map keyed by the UTC text of
    each occurrence, against the plain sum a single-occurrence query computes. */
module Occupancy {
  import opened Common
  import opened Calendar

  /** Instants are microseconds since the epoch, as the database stores them. */
  datatype Booking = Booking(event: nat, at: int, quantity: int, status: BookingStatus)

  const SECOND := 1000000

  predicate Live(b: Booking) { b.status in {Pending, Confirmed} }

  // ---------------------------------------------------------------- the plain sum

  function QuantityColumn(bookings: seq<Booking>, event: nat, at: int): seq<int> {
    seq(|bookings|, i requires 0 <= i < |bookings| =>
      if bookings[i].event == event && bookings[i].at == at && Live(bookings[i]) then bookings[i].quantity else 0)
  }

  /** GetTotalBookedQuantityForOccurrence. */
  function TotalBooked(bookings: seq<Booking>, event: nat, at: int): int {
    Sum(QuantityColumn(bookings, event, at))
  }

  /** What is summed: the pending and confirmed bookings of one event and instant, by their
      quantity. A cancelled or refunded booking leaves every sum as it was. */
  lemma TotalCounts(bookings: seq<Booking>, b: Booking, event: nat, at: int)
    ensures TotalBooked([], event, at) == 0
    ensures TotalBooked(bookings + [b], event, at) == TotalBooked(bookings, event, at)
      + (if b.event == event && b.at == at && (b.status == Pending || b.status == Confirmed) then b.quantity else 0)
    ensures b.status == Cancelled || b.status == Refunded ==>
      TotalBooked(bookings + [b], event, at) == TotalBooked(bookings, event, at)
  {
    var q := if b.event == event && b.at == at && Live(b) then b.quantity else 0;
    assert QuantityColumn([], event, at) == [];
    assert QuantityColumn(bookings + [b], event, at) == QuantityColumn(bookings, event, at) + [q];
    SumAppend(QuantityColumn(bookings, event, at), q);
  }

  ghost predicate HasLive(bookings: seq<Booking>, event: nat, at: int) {
    exists i :: 0 <= i < |bookings| && bookings[i].event == event && bookings[i].at == at && Live(bookings[i])
  }

  // ---------------------------------------------------------------- the grouped query

  datatype GroupRow = GroupRow(event: nat, at: int, total: int)

  /** `rows` answers SELECT event_id, occurrence_date, SUM(quantity) ... GROUP BY 1, 2 over the
      live bookings of `events` from `since` on, in whatever order the database likes. */
  ghost predicate Answers(rows: seq<GroupRow>, bookings: seq<Booking>, events: seq<nat>, since: int) {
    && (forall i, k :: 0 <= i < k < |rows| ==> rows[i] != rows[k])
    && (forall r :: r in rows ==>
          && r.event in events && since <= r.at && HasLive(bookings, r.event, r.at)
          && r.total == TotalBooked(bookings, r.event, r.at))
    && (forall e, t :: e in events && since <= t && HasLive(bookings, e, t) ==>
          GroupRow(e, t, TotalBooked(bookings, e, t)) in rows)
  }

  // ---------------------------------------------------------------- the key

  /** date.UTC().Format(time.RFC3339), which drops the fraction of the second. */
  function Key(at: int): string { Rfc3339(at / SECOND) }

  /** Keys are equal exactly when the instants lie in the same second; between whole seconds,
      exactly when they are equal. */
  lemma KeysEqualIff(t: int, u: int)
    ensures Key(t) == Key(u) <==> t / SECOND == u / SECOND
    ensures t % SECOND == 0 && u % SECOND == 0 ==> (Key(t) == Key(u) <==> t == u)
  {
    if Key(t) == Key(u) {
      Rfc3339Injective(t / SECOND, u / SECOND);
    }
  }

  // ---------------------------------------------------------------- the index

  type Index = map<nat, map<string, int>>

  function Lookup(index: Index, event: nat, key: string): Option<int> {
    if event in index && key in index[event] then Some(index[event][key]) else None
  }

  /** A row with its key worked out. */
  datatype Keyed = Keyed(event: nat, key: string, total: int)

  function KeyedRows(rows: seq<GroupRow>): seq<Keyed> {
    seq(|rows|, i requires 0 <= i < |rows| => Keyed(rows[i].event, Key(rows[i].at), rows[i].total))
  }

  /** The total of the last row with this event and key: a later row overwrites an earlier. */
  function Last(rows: seq<Keyed>, event: nat, key: string): Option<int> {
    if rows == [] then None
    else
      var r := rows[|rows| - 1];
      if r.event == event && r.key == key then Some(r.total) else Last(rows[..|rows| - 1], event, key)
  }

  function LastRow(rows: seq<GroupRow>, event: nat, key: string): Option<int> {
    Last(KeyedRows(rows), event, key)
  }

  /** One row of the answer, into the nested map. */
  method Put(index: Index, event: nat, key: string, total: int) returns (after: Index)
    ensures forall e: nat, k ::
      Lookup(after, e, k) == if e == event && k == key then Some(total) else Lookup(index, e, k)
  {
    after := index;
    if event !in after {
      after := after[event := map[]];
    }
    after := after[event := after[event][key := total]];
  }

  /** The loop over the keyed rows. */
  method FillIndex(rows: seq<Keyed>) returns (index: Index)
    ensures forall event: nat, key :: Lookup(index, event, key) == Last(rows, event, key)
  {
    index := map[];
    for i := 0 to |rows|
      invariant forall event: nat, key :: Lookup(index, event, key) == Last(rows[..i], event, key)
    {
      assert rows[..i + 1][..i] == rows[..i];
      index := Put(index, rows[i].event, rows[i].key, rows[i].total);
    }
    assert rows[..|rows|] == rows;
  }

  method GetOccupancyForEvents(rows: seq<GroupRow>) returns (index: Index)
    ensures forall event: nat, key :: Lookup(index, event, key) == LastRow(rows, event, key)
  {
    index := FillIndex(KeyedRows(rows));
  }

  lemma {:induction false} LastIsARow(rows: seq<Keyed>, event: nat, key: string)
    ensures match Last(rows, event, key)
      case Some(total) => Keyed(event, key, total) in rows
      case None => forall r :: r in rows ==> r.event != event || r.key != key
  {
    if rows != [] {
      LastIsARow(rows[..|rows| - 1], event, key);
      assert rows == rows[..|rows| - 1] + [rows[|rows| - 1]];
    }
  }

  lemma LastRowIsARow(rows: seq<GroupRow>, event: nat, key: string)
    ensures match LastRow(rows, event, key)
      case Some(total) => exists r :: r in rows && r.event == event && Key(r.at) == key && r.total == total
      case None => forall r :: r in rows && r.event == event ==> Key(r.at) != key
  {
    LastIsARow(KeyedRows(rows), event, key);
    match LastRow(rows, event, key)
    case Some(total) =>
      var i :| 0 <= i < |rows| && KeyedRows(rows)[i] == Keyed(event, key, total);
      assert rows[i] in rows;
    case None =>
      forall r | r in rows && r.event == event ensures Key(r.at) != key {
        var i :| 0 <= i < |rows| && rows[i] == r;
        assert KeyedRows(rows)[i] in KeyedRows(rows);
      }
  }

  /** What the index says of the occurrence is what the plain query says, an absent key
      meaning no live booking. */
  ghost predicate LookupRight(rows: seq<GroupRow>, bookings: seq<Booking>, event: nat, t: int) {
    match LastRow(rows, event, Key(t))
    case Some(total) => HasLive(bookings, event, t) && total == TotalBooked(bookings, event, t)
    case None => !HasLive(bookings, event, t) && TotalBooked(bookings, event, t) == 0
  }

  /** `u` is a live occurrence of the event, from `since` on, within the second of `t`. */
  ghost predicate SharesSecond(bookings: seq<Booking>, event: nat, since: int, t: int, u: int) {
    since <= u && u / SECOND == t / SECOND && HasLive(bookings, event, u)
  }

  /** Nothing is booked in the second of `t`, or `t` is and whatever else is there is equally
      booked. */
  ghost predicate SecondAgrees(bookings: seq<Booking>, event: nat, since: int, t: int) {
    || (forall u :: !SharesSecond(bookings, event, since, t, u))
    || (HasLive(bookings, event, t)
        && forall u :: SharesSecond(bookings, event, since, t, u) ==>
             TotalBooked(bookings, event, u) == TotalBooked(bookings, event, t))
  }

  lemma AgreeingSecondIsRight(rows: seq<GroupRow>, bookings: seq<Booking>, events: seq<nat>, since: int, event: nat,
                              t: int)
    requires Answers(rows, bookings, events, since) && event in events && since <= t
      && SecondAgrees(bookings, event, since, t)
    ensures LookupRight(rows, bookings, event, t)
  {
    LastRowIsARow(rows, event, Key(t));
    match LastRow(rows, event, Key(t))
    case Some(total) =>
      var r :| r in rows && r.event == event && Key(r.at) == Key(t) && r.total == total;
      KeysEqualIff(r.at, t);
      assert SharesSecond(bookings, event, since, t, r.at);
    case None =>
      NoRowNoBooking(rows, bookings, events, since, event, t);
  }

  /** The row of a live occurrence can come last in the answer, and then it is what the index
      says of its second. */
  lemma DisagreeingSecondIsWrong(bookings: seq<Booking>, events: seq<nat>, since: int, event: nat, t: int, u: int)
    returns (rows: seq<GroupRow>)
    requires event in events && SharesSecond(bookings, event, since, t, u)
    requires !HasLive(bookings, event, t) || TotalBooked(bookings, event, u) != TotalBooked(bookings, event, t)
    ensures Answers(rows, bookings, events, since) && !LookupRight(rows, bookings, event, t)
  {
    rows := AnswerEndingWith(bookings, events, since, event, u);
    SameSecondSameKey(t, u);
    LastOfAll(rows, GroupRow(event, u, TotalBooked(bookings, event, u)));
  }

  lemma SameSecondSameKey(t: int, u: int)
    requires t / SECOND == u / SECOND
    ensures Key(t) == Key(u)
  {
  }

  lemma LastKeyed(rows: seq<Keyed>)
    requires rows != []
    ensures var r := rows[|rows| - 1]; Last(rows, r.event, r.key) == Some(r.total)
  {
  }

  lemma LastOfAll(rows: seq<GroupRow>, r: GroupRow)
    requires rows != [] && rows[|rows| - 1] == r
    ensures LastRow(rows, r.event, Key(r.at)) == Some(r.total)
  {
    var keyed := KeyedRows(rows);
    var k := keyed[|rows| - 1];
    LastKeyed(keyed);
    assert k.event == r.event && k.total == r.total;
    assert k.key == Key(r.at);
  }

  /** The groups of the query. */
  ghost function Groups(bookings: seq<Booking>, events: seq<nat>, since: int): set<GroupRow> {
    set i | 0 <= i < |bookings| && Live(bookings[i]) && bookings[i].event in events && since <= bookings[i].at ::
      GroupRow(bookings[i].event, bookings[i].at, TotalBooked(bookings, bookings[i].event, bookings[i].at))
  }

  lemma {:induction false} Listing(s: set<GroupRow>) returns (rows: seq<GroupRow>)
    ensures forall r :: r in rows <==> r in s
    ensures forall i, k :: 0 <= i < k < |rows| ==> rows[i] != rows[k]
    decreases |s|
  {
    if s == {} {
      rows := [];
    } else {
      var r :| r in s;
      var front := Listing(s - {r});
      assert forall i :: 0 <= i < |front| ==> front[i] in front;
      rows := front + [r];
    }
  }

  lemma AnswerEndingWith(bookings: seq<Booking>, events: seq<nat>, since: int, event: nat, u: int)
    returns (rows: seq<GroupRow>)
    requires event in events && since <= u && HasLive(bookings, event, u)
    ensures Answers(rows, bookings, events, since)
    ensures rows != [] && rows[|rows| - 1] == GroupRow(event, u, TotalBooked(bookings, event, u))
  {
    var last := GroupRow(event, u, TotalBooked(bookings, event, u));
    var front := Listing(Groups(bookings, events, since) - {last});
    rows := front + [last];
    assert forall i :: 0 <= i < |front| ==> front[i] in front;
    GroupsAnswer(rows, bookings, events, since);
  }

  lemma GroupsAnswer(rows: seq<GroupRow>, bookings: seq<Booking>, events: seq<nat>, since: int)
    requires forall r :: r in rows <==> r in Groups(bookings, events, since)
    requires forall i, k :: 0 <= i < k < |rows| ==> rows[i] != rows[k]
    ensures Answers(rows, bookings, events, since)
  {
    forall e, t | e in events && since <= t && HasLive(bookings, e, t)
      ensures GroupRow(e, t, TotalBooked(bookings, e, t)) in rows
    {
      var i :| 0 <= i < |bookings| && bookings[i].event == e && bookings[i].at == t && Live(bookings[i]);
      assert GroupRow(e, t, TotalBooked(bookings, e, t)) in Groups(bookings, events, since);
    }
  }

  /** The lookup of an occurrence from `since` on is right for every order the database may
      answer in exactly when nothing of the event is booked in its second, or it is booked
      itself and every other live occurrence of that second is equally booked. */
  lemma LookupRightIff(bookings: seq<Booking>, events: seq<nat>, since: int, event: nat, t: int)
    requires event in events && since <= t
    ensures (forall rows | Answers(rows, bookings, events, since) :: LookupRight(rows, bookings, event, t))
      <==> SecondAgrees(bookings, event, since, t)
  {
    if SecondAgrees(bookings, event, since, t) {
      forall rows | Answers(rows, bookings, events, since) ensures LookupRight(rows, bookings, event, t) {
        AgreeingSecondIsRight(rows, bookings, events, since, event, t);
      }
    } else {
      var u :| SharesSecond(bookings, event, since, t, u)
        && (!HasLive(bookings, event, t) || TotalBooked(bookings, event, u) != TotalBooked(bookings, event, t));
      var rows := DisagreeingSecondIsWrong(bookings, events, since, event, t, u);
    }
  }

  /** In particular, if no other live occurrence of the event shares the second. */
  ghost predicate AloneInSecond(bookings: seq<Booking>, event: nat, t: int) {
    forall i :: 0 <= i < |bookings| && bookings[i].event == event && Live(bookings[i])
      && bookings[i].at / SECOND == t / SECOND
      ==> bookings[i].at == t
  }

  lemma IndexAgrees(rows: seq<GroupRow>, bookings: seq<Booking>, events: seq<nat>, since: int, event: nat, t: int)
    requires Answers(rows, bookings, events, since) && event in events && since <= t
      && AloneInSecond(bookings, event, t)
    ensures LookupRight(rows, bookings, event, t)
  {
    forall u | SharesSecond(bookings, event, since, t, u) ensures u == t {
      var i :| 0 <= i < |bookings| && bookings[i].event == event && bookings[i].at == u && Live(bookings[i]);
    }
    AgreeingSecondIsRight(rows, bookings, events, since, event, t);
  }

  lemma NoRowNoBooking(rows: seq<GroupRow>, bookings: seq<Booking>, events: seq<nat>, since: int, event: nat, t: int)
    requires Answers(rows, bookings, events, since) && event in events && since <= t
    requires forall r :: r in rows && r.event == event ==> Key(r.at) != Key(t)
    ensures !HasLive(bookings, event, t) && TotalBooked(bookings, event, t) == 0
  {
    assert GroupRow(event, t, TotalBooked(bookings, event, t)) !in rows;
    SumZero(QuantityColumn(bookings, event, t));
  }

  /** With whole-second occurrences throughout, that is every lookup. */
  lemma WholeSecondsAgree(rows: seq<GroupRow>, bookings: seq<Booking>, events: seq<nat>, since: int, event: nat, t: int)
    requires Answers(rows, bookings, events, since) && event in events && since <= t && t % SECOND == 0
    requires forall i :: 0 <= i < |bookings| ==> bookings[i].at % SECOND == 0
    ensures LookupRight(rows, bookings, event, t)
  {
    IndexAgrees(rows, bookings, events, since, event, t);
  }

  /** In general the lookup gives the total of whichever row of that second came last, so two
      occurrences of one second get the same answer, and both answers are right only if the
      two are equally booked. */
  lemma SameSecondSameAnswer(rows: seq<GroupRow>, bookings: seq<Booking>, event: nat, t: int, u: int)
    requires t / SECOND == u / SECOND
    requires LastRow(rows, event, Key(t)) == Some(TotalBooked(bookings, event, t))
    requires LastRow(rows, event, Key(u)) == Some(TotalBooked(bookings, event, u))
    ensures TotalBooked(bookings, event, t) == TotalBooked(bookings, event, u)
  {
    assert Key(t) == Key(u);
  }

  /** Two differently booked occurrences half a second apart: in either row order one of the
      two lookups is wrong. */
  lemma HalfSecondApart(event: nat, t: int, m: int, n: int, rows: seq<GroupRow>)
    requires t % SECOND == 0 && m > 0 && n > 0 && m != n
    requires |rows| == 2 && GroupRow(event, t, m) in rows && GroupRow(event, t + SECOND / 2, n) in rows
    ensures var half := t + SECOND / 2;
      var bookings := [Booking(event, t, m, Confirmed), Booking(event, half, n, Confirmed)];
      && Answers(rows, bookings, [event], t) && t / SECOND == half / SECOND
      && !(LookupRight(rows, bookings, event, t) && LookupRight(rows, bookings, event, half))
  {
    var half := t + SECOND / 2;
    HalfSums(event, t, half, m, n);
    var bookings := [Booking(event, t, m, Confirmed), Booking(event, half, n, Confirmed)];
    HalfAnswers(bookings, rows, event, t, half, m, n);
    OneLookupWrong(rows, bookings, event, t, half);
  }

  lemma OneLookupWrong(rows: seq<GroupRow>, bookings: seq<Booking>, event: nat, t: int, u: int)
    requires t / SECOND == u / SECOND && TotalBooked(bookings, event, t) != TotalBooked(bookings, event, u)
    requires HasLive(bookings, event, t) && HasLive(bookings, event, u)
    ensures !(LookupRight(rows, bookings, event, t) && LookupRight(rows, bookings, event, u))
  {
    SameSecondSameKey(t, u);
  }

  lemma HalfSums(event: nat, t: int, half: int, m: int, n: int)
    requires t != half
    ensures var bookings := [Booking(event, t, m, Confirmed), Booking(event, half, n, Confirmed)];
      TotalBooked(bookings, event, t) == m && TotalBooked(bookings, event, half) == n
  {
    var bookings := [Booking(event, t, m, Confirmed), Booking(event, half, n, Confirmed)];
    assert QuantityColumn(bookings, event, t) == ([] + [m]) + [0];
    SumAppend([], m);
    SumAppend([] + [m], 0);
    assert QuantityColumn(bookings, event, half) == ([] + [0]) + [n];
    SumAppend([], 0);
    SumAppend([] + [0], n);
  }

  lemma HalfAnswers(bookings: seq<Booking>, rows: seq<GroupRow>, event: nat, t: int, half: int, m: int, n: int)
    requires bookings == [Booking(event, t, m, Confirmed), Booking(event, half, n, Confirmed)] && t < half
    requires TotalBooked(bookings, event, t) == m && TotalBooked(bookings, event, half) == n
    requires |rows| == 2 && GroupRow(event, t, m) in rows && GroupRow(event, half, n) in rows
    ensures Answers(rows, bookings, [event], t) && HasLive(bookings, event, t) && HasLive(bookings, event, half)
  {
    assert bookings[0] == Booking(event, t, m, Confirmed) && bookings[1] == Booking(event, half, n, Confirmed);
    assert HasLive(bookings, event, t) && HasLive(bookings, event, half);
    assert forall r :: r in rows ==> r == GroupRow(event, t, m) || r == GroupRow(event, half, n);
  }
}
