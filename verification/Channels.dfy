/** Channels of the message store (lib/ipc/message_store.c): publishing, subscribing, and the receives that read
    unread rows in one statement and move the reader's cursor in a later one. */
module Channels {
  import opened Wrappers
  import opened CInt

  /** Row number i of channel_messages has rowid i + 1: nothing is deleted in the runs modelled here, so SQLite
      numbers rows in publish order. */
  datatype Row = Row(id: string, channel: string, sender: string, content: string)

  type Key = (string, string) // channel, agent

  /** channels, channel_messages, and last_read_at of channel_subscriptions. */
  datatype Tables = Tables(channels: set<string>, rows: seq<Row>, cursors: map<Key, nat>)

  // ----- The statements -----

  predicate Wanted(t: Tables, agent: string, only: Option<string>, r: nat) {
    && 1 <= r <= |t.rows|
    && var c := t.rows[r - 1].channel;
    && (only.None? || only.value == c)
    && (c, agent) in t.cursors && r > t.cursors[(c, agent)]
  }

  /** The rowids among the first n that an agent has not read, ascending: on one channel, or on all it subscribes
      to. */
  function Unread(t: Tables, agent: string, only: Option<string>, n: nat): (rs: seq<nat>)
    requires n <= |t.rows|
    ensures forall i :: 0 <= i < |rs| ==> 1 <= rs[i] <= n
  {
    if n == 0 then [] else Unread(t, agent, only, n - 1) + (if Wanted(t, agent, only, n) then [n] else [])
  }

  lemma InSnoc(rs: seq<nat>, n: nat)
    ensures forall r: nat :: r in rs + [n] <==> r in rs || r == n
  {
  }

  /** Unread is the ascending list of exactly the wanted rows among the first n. */
  lemma {:induction false} UnreadExact(t: Tables, agent: string, only: Option<string>, n: nat)
    requires n <= |t.rows|
    ensures forall r: nat :: r in Unread(t, agent, only, n) <==> r <= n && Wanted(t, agent, only, r)
    ensures forall i, j :: 0 <= i < j < |Unread(t, agent, only, n)| ==>
                             Unread(t, agent, only, n)[i] < Unread(t, agent, only, n)[j]
  {
    if n > 0 {
      var fewer := Unread(t, agent, only, n - 1);
      UnreadExact(t, agent, only, n - 1);
      InSnoc(fewer, n);
    }
  }

  /** So it lists exactly the rows of channels that the agent is subscribed to (of one channel, if only one is asked
      for) above the cursor there. */
  lemma UnreadMeans(t: Tables, agent: string, only: Option<string>, n: nat, r: nat)
    requires n <= |t.rows|
    ensures r in Unread(t, agent, only, n) <==>
            && 1 <= r <= n
            && var channel := t.rows[r - 1].channel;
               (channel, agent) in t.cursors && t.cursors[(channel, agent)] < r && only in {None, Some(channel)}
  {
    UnreadExact(t, agent, only, n);
  }

  /** What the query of a receive selects. */
  function Batch(t: Tables, agent: string, only: Option<string>, n: nat, limit: int): (rs: seq<nat>)
    requires n <= |t.rows|
    ensures forall i :: 0 <= i < |rs| ==> 1 <= rs[i] <= n
  {
    Limited(Unread(t, agent, only, n), limit)
  }

  function RowsAt(rows: seq<Row>, rs: seq<nat>): (items: seq<Row>)
    requires forall i :: 0 <= i < |rs| ==> 1 <= rs[i] <= |rows|
    ensures |items| == |rs| && forall i :: 0 <= i < |rs| ==> items[i] == rows[rs[i] - 1]
  {
    seq(|rs|, i requires 0 <= i < |rs| => rows[rs[i] - 1])
  }

  /** SELECT rowid WHERE id = ?, with 0 for no row. */
  function RowidOf(rows: seq<Row>, id: string): (r: nat)
    ensures r <= |rows| && (r > 0 ==> rows[r - 1].id == id)
    ensures r == 0 ==> forall i :: 0 <= i < |rows| ==> rows[i].id != id
    decreases |rows|
  {
    if rows == [] then 0
    else if rows[|rows| - 1].id == id then |rows|
    else RowidOf(rows[..|rows| - 1], id)
  }

  predicate Touches(key: Key, agent: string, only: Option<string>) {
    key.1 == agent && (only.None? || only.value == key.0)
  }

  /** UPDATE channel_subscriptions SET last_read_at: for one channel, or for every subscription of the agent. */
  function Mark(t: Tables, agent: string, only: Option<string>, rowid: nat): Tables {
    t.(cursors := map key | key in t.cursors :: if Touches(key, agent, only) then rowid else t.cursors[key])
  }

  function Published(t: Tables, row: Row): (Tables, int) {
    if row.channel !in t.channels || RowidOf(t.rows, row.id) != 0 then (t, -1)
    else (t.(rows := t.rows + [row]), 0)
  }

  function Subscribed(t: Tables, channel: string, agent: string): (Tables, int) {
    if channel !in t.channels then (t, -1) else (t.(cursors := t.cursors[(channel, agent) := 0]), 0)
  }

  class ChannelStore {
    var channels: set<string>
    var rows: seq<Row>
    var cursors: map<Key, nat>

    function State(): Tables
      reads this
    {
      Tables(channels, rows, cursors)
    }

    constructor ()
      ensures State() == Tables({}, [], map[])
    {
      channels, rows, cursors := {}, [], map[];
    }

    method Subscribe(channel: string, agent: string) returns (rc: int)
      modifies this`cursors
      ensures (State(), rc) == Subscribed(old(State()), channel, agent)
      ensures rc == if channel in channels then 0 else -1
      ensures cursors == if channel in channels then old(cursors)[(channel, agent) := 0] else old(cursors)
    {
      if channel !in channels {
        return -1;
      }
      cursors := cursors[(channel, agent) := 0];
      rc := 0;
    }

    method Unsubscribe(channel: string, agent: string) returns (rc: int)
      modifies this`cursors
      ensures rc == 0 && cursors == old(cursors) - {(channel, agent)}
    {
      cursors := cursors - {(channel, agent)};
      rc := 0;
    }

    method Publish(row: Row) returns (rc: int)
      modifies this`rows
      ensures (State(), rc) == Published(old(State()), row)
      ensures rc == if row.channel in channels && forall k :: 0 <= k < |old(rows)| ==> old(rows)[k].id != row.id
                    then 0 else -1
      ensures rows == if rc == 0 then old(rows) + [row] else old(rows)
    {
      if row.channel !in channels || RowidOf(rows, row.id) != 0 {
        return -1;
      }
      rows := rows + [row];
      rc := 0;
    }

    /** The row loop of the query, which steps through the table by rowid and stops at the limit. */
    method SelectUnread(agent: string, only: Option<string>, limit: int) returns (items: seq<Row>)
      ensures items == RowsAt(rows, Batch(State(), agent, only, |rows|, limit))
    {
      items := [];
      var n := 0;
      ghost var t := State();
      while n < |rows| && |items| != limit
        invariant n <= |rows| && (limit >= 0 ==> |items| <= limit)
        invariant items == RowsAt(t.rows, Unread(t, agent, only, n))
      {
        n := n + 1;
        if Wanted(State(), agent, only, n) {
          items := items + [rows[n - 1]];
        }
      }
      StoppedAtBatch(t, agent, only, n, limit);
    }

    method MarkRead(agent: string, only: Option<string>, rowid: nat)
      modifies this`cursors
      ensures State() == Mark(old(State()), agent, only, rowid)
      ensures cursors.Keys == old(cursors).Keys
      ensures forall key :: key in cursors ==>
                              cursors[key] == if key.1 == agent && (only == None || only == Some(key.0)) then rowid
                                              else old(cursors)[key]
    {
      cursors := map key | key in cursors :: if Touches(key, agent, only) then rowid else cursors[key];
    }

    /** channel_receive (on one channel) and channel_receive_all, with nothing happening between the statements:
        the oldest unread rows up to the limit, and the cursor moved to the last of them. */
    method Receive(agent: string, only: Option<string>, maxCount: nat) returns (items: seq<Row>)
      requires DistinctIds(rows)
      modifies this`cursors
      ensures items == RowsAt(rows, Batch(old(State()), agent, only, |rows|, LimitOf(maxCount)))
      ensures var rs := Batch(old(State()), agent, only, |rows|, LimitOf(maxCount));
              State() == if rs == [] then old(State()) else Mark(old(State()), agent, only, rs[|rs| - 1])
    {
      items := SelectUnread(agent, only, LimitOf(maxCount));
      if |items| > 0 {
        var last := RowidOf(rows, items[|items| - 1].id);
        if last > 0 {
          MarkRead(agent, only, last);
        }
      }
    }
  }

  /** id is the primary key of channel_messages. */
  predicate DistinctIds(rows: seq<Row>) {
    forall i, j :: 0 <= i < j < |rows| ==> rows[i].id != rows[j].id
  }

  lemma {:induction false} UnreadGrows(t: Tables, agent: string, only: Option<string>, m: nat, n: nat)
    requires m <= n <= |t.rows|
    ensures Unread(t, agent, only, m) <= Unread(t, agent, only, n)
    decreases n
  {
    if m < n {
      UnreadGrows(t, agent, only, m, n - 1);
    }
  }

  /** A scan that stops at the limit, or at the end of the table, has found the batch. */
  lemma StoppedAtBatch(t: Tables, agent: string, only: Option<string>, n: nat, limit: int)
    requires n <= |t.rows| && (limit >= 0 ==> |Unread(t, agent, only, n)| <= limit)
    requires n == |t.rows| || |Unread(t, agent, only, n)| == limit
    ensures Unread(t, agent, only, n) == Batch(t, agent, only, |t.rows|, limit)
  {
    UnreadGrows(t, agent, only, n, |t.rows|);
  }

  // ----- Runs: many agents, each making one call at a time -----

  /** A receive between its query and its return: what it selected, from the first horizon rows, and the rowid found
      for its last item. */
  datatype Flight = Flight(only: Option<string>, limit: int, horizon: nat, items: seq<Row>, last: Option<nat>)

  /** A row that a receive has returned to an agent. */
  datatype Delivery = Delivery(agent: string, rowid: nat)

  /** delivered lists every delivery in order; batches holds, for each key, the rowids returned by channel_receive. */
  datatype World = World(tables: Tables, flights: map<string, Flight>, delivered: seq<Delivery>,
                         batches: map<Key, seq<nat>>)

  datatype Event =
    | CreateChannel(channel: string)
    | Publish(row: Row)
    | Subscribe(channel: string, agent: string)
    | Unsubscribe(channel: string, agent: string)
    | Query(agent: string, only: Option<string>, maxCount: nat) // the first statement of a receive
    | FindRowid(agent: string)                                  // its second
    | Finish(agent: string)                                     // the cursor update and the return

  /** The agent whose own sequence of calls an event belongs to, when order with its receives matters. */
  function Actor(e: Event): Option<string> {
    match e
    case Subscribe(_, agent) => Some(agent)
    case Unsubscribe(_, agent) => Some(agent)
    case Query(agent, _, _) => Some(agent)
    case _ => None
  }

  function FlightBatch(w: World, agent: string): seq<nat>
    requires agent in w.flights && w.flights[agent].horizon <= |w.tables.rows|
  {
    var f := w.flights[agent];
    Batch(w.tables, agent, f.only, f.horizon, f.limit)
  }

  function Returned(w: World, agent: string): seq<nat>
    requires agent in w.flights
  {
    seq(|w.flights[agent].items|,
        i requires 0 <= i < |w.flights[agent].items| => RowidOf(w.tables.rows, w.flights[agent].items[i].id))
  }

  function Deliveries(agent: string, rs: seq<nat>): (ds: seq<Delivery>)
    ensures |ds| == |rs| && forall i :: 0 <= i < |rs| ==> ds[i] == Delivery(agent, rs[i])
  {
    seq(|rs|, i requires 0 <= i < |rs| => Delivery(agent, rs[i]))
  }

  function Finished(w: World, agent: string): World
    requires agent in w.flights && w.flights[agent].last.Some?
  {
    var f := w.flights[agent];
    var rs := Returned(w, agent);
    World(if f.last.value > 0 then Mark(w.tables, agent, f.only, f.last.value) else w.tables,
          w.flights - {agent},
          w.delivered + Deliveries(agent, rs),
          if f.only.None? then w.batches
          else
            var key := (f.only.value, agent);
            w.batches[key := ReadSoFar(w, key) + rs])
  }

  /** One statement takes effect; an agent inside a receive makes no other call of its own. */
  function Step(w: World, e: Event): World {
    if Actor(e).Some? && Actor(e).value in w.flights then w
    else
      match e
      case CreateChannel(channel) => w.(tables := w.tables.(channels := w.tables.channels + {channel}))
      case Publish(row) => w.(tables := Published(w.tables, row).0)
      case Subscribe(channel, agent) => w.(tables := Subscribed(w.tables, channel, agent).0)
      case Unsubscribe(channel, agent) =>
        w.(tables := w.tables.(cursors := w.tables.cursors - {(channel, agent)}))
      case Query(agent, only, maxCount) =>
        var n := |w.tables.rows|;
        var items := RowsAt(w.tables.rows, Batch(w.tables, agent, only, n, LimitOf(maxCount)));
        if items == [] then w
        else w.(flights := w.flights[agent := Flight(only, LimitOf(maxCount), n, items, None)])
      case FindRowid(agent) =>
        if agent !in w.flights || w.flights[agent].last.Some? then w
        else
          var f := w.flights[agent];
          if f.items == [] then w
          else
            w.(flights := w.flights[agent := f.(last := Some(RowidOf(w.tables.rows, f.items[|f.items| - 1].id)))])
      case Finish(agent) =>
        if agent !in w.flights || w.flights[agent].last.None? then w else Finished(w, agent)
  }

  function Run(w: World, events: seq<Event>): World
    decreases |events|
  {
    if events == [] then w else Run(Step(w, events[0]), events[1..])
  }

  const START: World := World(Tables({}, [], map[]), map[], [], map[])

  // ----- No message is ever skipped -----

  /** Every row of a subscribed channel at or below the reader's cursor has been returned to the reader. */
  predicate NoLoss(w: World) {
    forall key, r: nat | key in w.tables.cursors && 1 <= r <= |w.tables.rows| && r <= w.tables.cursors[key]
                         && w.tables.rows[r - 1].channel == key.0
      :: Delivery(key.1, r) in w.delivered
  }

  /** A receive under way still holds what its query selects from the rows it saw. */
  predicate FlightOk(w: World, agent: string)
    requires agent in w.flights
  {
    var f := w.flights[agent];
    && f.horizon <= |w.tables.rows|
    && FlightBatch(w, agent) != []
    && f.items == RowsAt(w.tables.rows, FlightBatch(w, agent))
    && (f.last.Some? ==> f.last.value == FlightBatch(w, agent)[|FlightBatch(w, agent)| - 1])
  }

  predicate Inv(w: World) {
    && DistinctIds(w.tables.rows)
    && NoLoss(w)
    && (forall key :: key in w.tables.cursors ==> w.tables.cursors[key] <= |w.tables.rows|)
    && forall agent :: agent in w.flights ==> FlightOk(w, agent)
  }

  /** More rows, or other agents' cursors, leave the unread rows among the first n alone. */
  lemma {:induction false} UnreadFrame(s: Tables, t: Tables, agent: string, only: Option<string>, n: nat)
    requires n <= |s.rows| && s.rows <= t.rows
    requires forall c :: ((c, agent) in s.cursors <==> (c, agent) in t.cursors)
                         && ((c, agent) in s.cursors ==> s.cursors[(c, agent)] == t.cursors[(c, agent)])
    ensures Unread(s, agent, only, n) == Unread(t, agent, only, n)
    decreases n
  {
    if n > 0 {
      UnreadFrame(s, t, agent, only, n - 1);
    }
  }

  lemma FlightFrame(w: World, v: World, agent: string)
    requires agent in w.flights && FlightOk(w, agent)
    requires agent in v.flights && v.flights[agent] == w.flights[agent] && w.tables.rows <= v.tables.rows
    requires forall c :: ((c, agent) in w.tables.cursors <==> (c, agent) in v.tables.cursors)
                         && ((c, agent) in w.tables.cursors ==>
                               w.tables.cursors[(c, agent)] == v.tables.cursors[(c, agent)])
    ensures FlightOk(v, agent)
  {
    UnreadFrame(w.tables, v.tables, agent, w.flights[agent].only, w.flights[agent].horizon);
  }

  lemma RowidOfDistinct(rows: seq<Row>, r: nat)
    requires DistinctIds(rows) && 1 <= r <= |rows|
    ensures RowidOf(rows, rows[r - 1].id) == r
  {
  }

  lemma ReturnedIsBatch(w: World, agent: string)
    requires agent in w.flights && FlightOk(w, agent) && DistinctIds(w.tables.rows)
    ensures Returned(w, agent) == FlightBatch(w, agent)
  {
    forall i | 0 <= i < |FlightBatch(w, agent)|
      ensures Returned(w, agent)[i] == FlightBatch(w, agent)[i]
    {
      RowidOfDistinct(w.tables.rows, FlightBatch(w, agent)[i]);
    }
  }

  /** A batch is a prefix of the unread rows: any unread row up to its last is in it. */
  lemma BatchHasAllUpTo(t: Tables, agent: string, only: Option<string>, n: nat, limit: int, r: nat)
    requires n <= |t.rows|
    requires var rs := Batch(t, agent, only, n, limit); rs != [] && r <= rs[|rs| - 1]
    requires Wanted(t, agent, only, r)
    ensures r in Batch(t, agent, only, n, limit)
  {
    var all, rs := Unread(t, agent, only, n), Batch(t, agent, only, n, limit);
    UnreadExact(t, agent, only, n);
    assert r in all by {
      assert rs[|rs| - 1] <= n;
    }
    var i :| 0 <= i < |all| && all[i] == r;
    assert rs[|rs| - 1] == all[|rs| - 1];
    assert i < |rs|;
    assert rs[i] == r;
  }

  /** A row that the cursor update newly covers is in the batch. */
  lemma NewlyCovered(w: World, agent: string, key: Key, r: nat)
    requires Inv(w) && agent in w.flights && w.flights[agent].last.Some?
    requires key in w.tables.cursors && 1 <= r <= |w.tables.rows| && w.tables.rows[r - 1].channel == key.0
    requires key in Finished(w, agent).tables.cursors
    requires w.tables.cursors[key] < r <= Finished(w, agent).tables.cursors[key]
    ensures key.1 == agent && r in FlightBatch(w, agent)
  {
    var f := w.flights[agent];
    FinishFrame(w, agent);
    assert key == (w.tables.rows[r - 1].channel, agent);
    assert Wanted(w.tables, agent, f.only, r);
    BatchHasAllUpTo(w.tables, agent, f.only, f.horizon, f.limit, r);
  }

  /** The cursor update covers only rows that the batch returns or that were returned before. */
  lemma FinishLosesNothing(w: World, agent: string, key: Key, r: nat)
    requires Inv(w) && agent in w.flights && w.flights[agent].last.Some?
    requires var v := Finished(w, agent);
             && key in v.tables.cursors && 1 <= r <= |v.tables.rows| && r <= v.tables.cursors[key]
             && v.tables.rows[r - 1].channel == key.0
    ensures Delivery(key.1, r) in Finished(w, agent).delivered
  {
    ReturnedIsBatch(w, agent);
    FinishFrame(w, agent);
    if r > w.tables.cursors[key] {
      NewlyCovered(w, agent, key, r);
      var i :| 0 <= i < |Returned(w, agent)| && Returned(w, agent)[i] == r;
      assert Deliveries(agent, Returned(w, agent))[i] == Delivery(key.1, r);
    } else {
      assert Delivery(key.1, r) in w.delivered;
    }
  }

  lemma FinishKeepsNoLoss(w: World, agent: string)
    requires Inv(w) && agent in w.flights && w.flights[agent].last.Some?
    ensures NoLoss(Finished(w, agent))
  {
    var v := Finished(w, agent);
    forall key, r: nat | key in v.tables.cursors && 1 <= r <= |v.tables.rows| && r <= v.tables.cursors[key]
                         && v.tables.rows[r - 1].channel == key.0
      ensures Delivery(key.1, r) in v.delivered
    {
      FinishLosesNothing(w, agent, key, r);
    }
  }

  /** The cursor update changes no row and only the agent's own cursors, to a rowid of the table. */
  lemma FinishFrame(w: World, agent: string)
    requires agent in w.flights && FlightOk(w, agent) && w.flights[agent].last.Some?
    ensures var v := Finished(w, agent);
            && v.tables.rows == w.tables.rows && v.flights == w.flights - {agent}
            && (forall key: Key :: key in v.tables.cursors <==> key in w.tables.cursors)
            && (forall key: Key :: key in w.tables.cursors ==>
                                     v.tables.cursors[key] == w.tables.cursors[key]
                                     || (key.1 == agent && v.tables.cursors[key] == w.flights[agent].last.value))
  {
  }

  lemma FinishKeepsInv(w: World, agent: string)
    requires Inv(w) && agent in w.flights && w.flights[agent].last.Some?
    ensures Inv(Finished(w, agent))
  {
    var v := Finished(w, agent);
    FinishKeepsNoLoss(w, agent);
    FinishFrame(w, agent);
    OthersStayOk(w, v, agent);
    LastInTable(w, agent);
  }

  lemma LastInTable(w: World, agent: string)
    requires agent in w.flights && FlightOk(w, agent) && w.flights[agent].last.Some?
    ensures 1 <= w.flights[agent].last.value <= |w.tables.rows|
  {
  }

  /** What one agent does leaves the receives of the others as they were. */
  lemma OthersStayOk(w: World, v: World, agent: string)
    requires forall other :: other in w.flights ==> FlightOk(w, other)
    requires w.tables.rows <= v.tables.rows
    requires forall key: Key :: key.1 != agent ==>
                             (key in w.tables.cursors <==> key in v.tables.cursors)
                             && (key in w.tables.cursors ==> w.tables.cursors[key] == v.tables.cursors[key])
    requires forall other :: other in v.flights && other != agent ==>
                               other in w.flights && v.flights[other] == w.flights[other]
    ensures forall other :: other in v.flights && other != agent ==> FlightOk(v, other)
  {
    forall other | other in v.flights && other != agent
      ensures FlightOk(v, other)
    {
      FlightFrame(w, v, other);
    }
  }

  lemma PublishKeepsInv(w: World, row: Row)
    requires Inv(w)
    ensures Inv(Step(w, Publish(row)))
  {
    var v := Step(w, Publish(row));
    forall other | other in v.flights
      ensures FlightOk(v, other)
    {
      FlightFrame(w, v, other);
    }
  }

  lemma QueryKeepsInv(w: World, agent: string, only: Option<string>, maxCount: nat)
    requires Inv(w)
    ensures Inv(Step(w, Query(agent, only, maxCount)))
  {
    var v := Step(w, Query(agent, only, maxCount));
    OthersStayOk(w, v, agent);
    if agent in v.flights && agent !in w.flights {
      assert FlightBatch(v, agent) == Batch(w.tables, agent, only, |w.tables.rows|, LimitOf(maxCount));
      assert FlightOk(v, agent);
    }
  }

  /** Looking the last item up by its id finds its rowid again. */
  lemma LastIsFound(w: World, agent: string)
    requires agent in w.flights && FlightOk(w, agent) && DistinctIds(w.tables.rows)
    ensures var items, rs := w.flights[agent].items, FlightBatch(w, agent);
            |items| == |rs| > 0 && RowidOf(w.tables.rows, items[|items| - 1].id) == rs[|rs| - 1]
  {
    var rs := FlightBatch(w, agent);
    RowidOfDistinct(w.tables.rows, rs[|rs| - 1]);
  }

  lemma FlightGetsLast(w: World, agent: string, r: nat)
    requires Inv(w) && agent in w.flights && r == FlightBatch(w, agent)[|FlightBatch(w, agent)| - 1]
    ensures Inv(w.(flights := w.flights[agent := w.flights[agent].(last := Some(r))]))
  {
    var v := w.(flights := w.flights[agent := w.flights[agent].(last := Some(r))]);
    assert FlightOk(v, agent);
    forall other | other in v.flights && other != agent
      ensures FlightOk(v, other)
    {
      FlightFrame(w, v, other);
    }
  }

  lemma FindRowidKeepsInv(w: World, agent: string)
    requires Inv(w) && agent in w.flights && w.flights[agent].last.None?
    ensures Inv(Step(w, FindRowid(agent)))
  {
    var rs := FlightBatch(w, agent);
    LastIsFound(w, agent);
    FlightGetsLast(w, agent, rs[|rs| - 1]);
  }

  lemma SubscriptionKeepsInv(w: World, e: Event)
    requires Inv(w) && (e.Subscribe? || e.Unsubscribe? || e.CreateChannel?)
    ensures Inv(Step(w, e))
  {
    var v := Step(w, e);
    if e.CreateChannel? {
      forall other | other in v.flights
        ensures FlightOk(v, other)
      {
        FlightFrame(w, v, other);
      }
    } else if e.agent !in w.flights {
      OthersStayOk(w, v, e.agent);
    }
  }

  lemma StepKeepsInv(w: World, e: Event)
    requires Inv(w)
    ensures Inv(Step(w, e))
  {
    match e
    case Finish(agent) =>
      if agent in w.flights && w.flights[agent].last.Some? {
        FinishKeepsInv(w, agent);
      }
    case Publish(row) => PublishKeepsInv(w, row);
    case Query(agent, only, maxCount) => QueryKeepsInv(w, agent, only, maxCount);
    case FindRowid(agent) =>
      if agent in w.flights && w.flights[agent].last.None? {
        FindRowidKeepsInv(w, agent);
      }
    case _ => SubscriptionKeepsInv(w, e);
  }

  lemma {:induction false} RunKeepsInv(w: World, events: seq<Event>)
    requires Inv(w)
    ensures Inv(Run(w, events))
    decreases |events|
  {
    if events != [] {
      StepKeepsInv(w, events[0]);
      RunKeepsInv(Step(w, events[0]), events[1..]);
    }
  }

  /** In every run, publishes may come between any two statements of a receive, receives of both kinds may be mixed,
      and subscriptions may come and go: whatever lies at or below a subscriber's cursor has been returned to it. */
  lemma NothingIsSkipped(events: seq<Event>)
    ensures NoLoss(Run(START, events))
  {
    RunKeepsInv(START, events);
  }

  // ----- After unsubscribing -----

  /** The log of v goes on from that of w, and its new entries for the agent are rows of other channels. */
  predicate NothingNew(w: World, v: World, key: Key) {
    && w.delivered <= v.delivered
    && forall i :: |w.delivered| <= i < |v.delivered| ==>
                     v.delivered[i].agent != key.1 || IsElsewhere(v.tables.rows, v.delivered[i].rowid, key.0)
  }

  predicate IsElsewhere(rows: seq<Row>, r: nat, channel: string) {
    1 <= r <= |rows| && rows[r - 1].channel != channel
  }

  lemma NotSubscribedFrame(w: World, e: Event, key: Key)
    requires Inv(w) && key !in w.tables.cursors && e != Subscribe(key.0, key.1)
    ensures var v := Step(w, e); key !in v.tables.cursors && w.tables.rows <= v.tables.rows
    ensures !(e.Finish? && e.agent in w.flights && w.flights[e.agent].last.Some?) ==>
              Step(w, e).delivered == w.delivered
  {
    if e.Finish? && e.agent in w.flights && w.flights[e.agent].last.Some? {
      FinishFrame(w, e.agent);
    }
  }

  /** What a receive holds is of channels that its agent is subscribed to when it returns. */
  lemma BatchIsElsewhere(t: Tables, agent: string, only: Option<string>, n: nat, limit: int, key: Key, r: nat)
    requires n <= |t.rows| && key !in t.cursors && agent == key.1 && r in Batch(t, agent, only, n, limit)
    ensures IsElsewhere(t.rows, r, key.0)
  {
    UnreadMeans(t, agent, only, n, r);
    assert r in Unread(t, agent, only, n);
  }

  lemma FinishGivesNothing(w: World, agent: string, key: Key)
    requires Inv(w) && key !in w.tables.cursors && agent in w.flights && w.flights[agent].last.Some?
    ensures NothingNew(w, Finished(w, agent), key)
  {
    ReturnedIsBatch(w, agent);
    FinishFrame(w, agent);
    var f, rs := w.flights[agent], FlightBatch(w, agent);
    if agent == key.1 {
      forall i | 0 <= i < |rs|
        ensures IsElsewhere(w.tables.rows, rs[i], key.0)
      {
        BatchIsElsewhere(w.tables, agent, f.only, f.horizon, f.limit, key, rs[i]);
      }
    }
  }

  lemma StepGivesNothing(w: World, e: Event, key: Key)
    requires Inv(w) && key !in w.tables.cursors && e != Subscribe(key.0, key.1)
    ensures NothingNew(w, Step(w, e), key) && key !in Step(w, e).tables.cursors
    ensures w.tables.rows <= Step(w, e).tables.rows
  {
    NotSubscribedFrame(w, e, key);
    if e.Finish? && e.agent in w.flights && w.flights[e.agent].last.Some? {
      FinishGivesNothing(w, e.agent, key);
    }
  }

  lemma {:induction false} NotSubscribedGetsNothing(w: World, events: seq<Event>, key: Key)
    requires Inv(w) && key !in w.tables.cursors && Subscribe(key.0, key.1) !in events
    ensures NothingNew(w, Run(w, events), key) && w.tables.rows <= Run(w, events).tables.rows
    decreases |events|
  {
    if events != [] {
      StepKeepsInv(w, events[0]);
      StepGivesNothing(w, events[0], key);
      NotSubscribedGetsNothing(Step(w, events[0]), events[1..], key);
    }
  }

  /** Once an agent outside a receive has unsubscribed, no row of the channel comes to it unless it subscribes again. */
  lemma UnsubscribedGetsNothing(w: World, events: seq<Event>, key: Key)
    requires Inv(w) && key.1 !in w.flights && Subscribe(key.0, key.1) !in events
    ensures NothingNew(w, Run(Step(w, Unsubscribe(key.0, key.1)), events), key)
  {
    StepKeepsInv(w, Unsubscribe(key.0, key.1));
    NotSubscribedGetsNothing(Step(w, Unsubscribe(key.0, key.1)), events, key);
  }

  // ----- One subscription read by channel_receive alone -----

  /** The rowids of a channel up to rowid n, ascending. */
  function RowsOf(rows: seq<Row>, channel: string, n: nat): seq<nat>
    requires n <= |rows|
  {
    if n == 0 then [] else RowsOf(rows, channel, n - 1) + (if rows[n - 1].channel == channel then [n] else [])
  }

  /** The run leaves the subscription in place and never calls channel_receive_all for the agent. */
  predicate ReceivesOnly(e: Event, key: Key) {
    match e
    case Subscribe(channel, agent) => (channel, agent) != key
    case Unsubscribe(channel, agent) => (channel, agent) != key
    case Query(agent, only, _) => agent == key.1 ==> only.Some?
    case _ => true
  }

  /** Everything channel_receive has returned on one subscription, batch after batch. */
  function ReadSoFar(w: World, key: Key): seq<nat> {
    if key in w.batches then w.batches[key] else []
  }

  /** What the agent has received is exactly the channel up to its cursor. */
  predicate Exact(w: World, key: Key) {
    && key in w.tables.cursors && w.tables.cursors[key] <= |w.tables.rows|
    && ReadSoFar(w, key) == RowsOf(w.tables.rows, key.0, w.tables.cursors[key])
    && (key.1 in w.flights ==> w.flights[key.1].only.Some?)
  }

  /** A first subscription starts out exact: with nothing returned and everything to come. */
  lemma FirstSubscriptionExact(w: World, key: Key)
    requires Inv(w) && key.0 in w.tables.channels && key !in w.batches && key.1 !in w.flights
    ensures Exact(Step(w, Subscribe(key.0, key.1)), key)
  {
  }

  lemma {:induction false} RowsOfFrame(rows: seq<Row>, more: seq<Row>, channel: string, n: nat)
    requires n <= |rows| && rows <= more
    ensures RowsOf(rows, channel, n) == RowsOf(more, channel, n)
    decreases n
  {
    if n > 0 {
      RowsOfFrame(rows, more, channel, n - 1);
    }
  }

  /** On one channel, the unread rows up to n are what the channel up to n adds to the channel up to the cursor. */
  lemma {:induction false} UnreadCompletes(t: Tables, key: Key, n: nat)
    requires key in t.cursors && t.cursors[key] <= n <= |t.rows|
    ensures RowsOf(t.rows, key.0, n) == RowsOf(t.rows, key.0, t.cursors[key]) + Unread(t, key.1, Some(key.0), n)
    decreases n
  {
    if n == t.cursors[key] {
      NothingBelowCursor(t, key, n);
    } else {
      UnreadCompletes(t, key, n - 1);
    }
  }

  lemma {:induction false} NothingBelowCursor(t: Tables, key: Key, n: nat)
    requires key in t.cursors && n <= t.cursors[key] && n <= |t.rows|
    ensures Unread(t, key.1, Some(key.0), n) == []
  {
    if n > 0 {
      NothingBelowCursor(t, key, n - 1);
    }
  }

  /** The unread rows up to the m-th unread row are the first m unread rows. */
  lemma {:induction false} UnreadUpTo(t: Tables, agent: string, only: Option<string>, n: nat, m: nat)
    requires n <= |t.rows| && 0 < m <= |Unread(t, agent, only, n)|
    ensures var r := Unread(t, agent, only, n)[m - 1];
            r <= n && Unread(t, agent, only, r) == Unread(t, agent, only, n)[..m]
    decreases n
  {
    var fewer := Unread(t, agent, only, n - 1);
    if m <= |fewer| {
      UnreadUpTo(t, agent, only, n - 1, m);
      assert Unread(t, agent, only, n)[..m] == fewer[..m];
    }
  }

  /** The channel up to the last row of a batch is the channel up to the cursor followed by the batch. */
  lemma BatchExtends(t: Tables, key: Key, n: nat, limit: int)
    requires n <= |t.rows| && key in t.cursors && t.cursors[key] <= |t.rows|
    requires Batch(t, key.1, Some(key.0), n, limit) != []
    ensures var rs := Batch(t, key.1, Some(key.0), n, limit);
            var last := rs[|rs| - 1];
            last <= |t.rows| && RowsOf(t.rows, key.0, last) == RowsOf(t.rows, key.0, t.cursors[key]) + rs
  {
    var rs := Batch(t, key.1, Some(key.0), n, limit);
    var last := rs[|rs| - 1];
    UnreadUpTo(t, key.1, Some(key.0), n, |rs|);
    UnreadExact(t, key.1, Some(key.0), n);
    assert last in Unread(t, key.1, Some(key.0), n);
    assert Wanted(t, key.1, Some(key.0), last);
    UnreadCompletes(t, key, last);
  }

  /** What finishing a receive on the one channel does to the reader's cursor and to what it has received. */
  lemma FinishMoves(w: World, key: Key)
    requires Inv(w) && Exact(w, key) && key.1 in w.flights && w.flights[key.1].last.Some?
    ensures var f, v := w.flights[key.1], Finished(w, key.1);
            && v.tables.rows == w.tables.rows && key.1 !in v.flights && key in v.tables.cursors
            && (f.only != Some(key.0) ==>
                  v.tables.cursors[key] == w.tables.cursors[key] && ReadSoFar(v, key) == ReadSoFar(w, key))
            && (f.only == Some(key.0) ==>
                  v.tables.cursors[key] == f.last.value
                  && ReadSoFar(v, key) == ReadSoFar(w, key) + Returned(w, key.1))
  {
    LastInTable(w, key.1);
  }

  lemma FinishKeepsExact(w: World, key: Key)
    requires Inv(w) && Exact(w, key) && key.1 in w.flights && w.flights[key.1].last.Some?
    ensures Exact(Finished(w, key.1), key)
  {
    FinishMoves(w, key);
    if w.flights[key.1].only == Some(key.0) {
      BatchAppends(w, key);
    }
  }

  lemma BatchAppends(w: World, key: Key)
    requires Inv(w) && Exact(w, key) && key.1 in w.flights && w.flights[key.1].last.Some?
    requires w.flights[key.1].only == Some(key.0)
    ensures var last := w.flights[key.1].last.value;
            && last <= |w.tables.rows|
            && RowsOf(w.tables.rows, key.0, last) == ReadSoFar(w, key) + Returned(w, key.1)
  {
    var f := w.flights[key.1];
    ReturnedIsBatch(w, key.1);
    BatchExtends(w.tables, key, f.horizon, f.limit);
  }

  /** What any other step leaves alone: the rows there are, the cursor, and what has been received. */
  lemma OtherStepFrame(w: World, e: Event, key: Key)
    requires key in w.tables.cursors && ReceivesOnly(e, key)
    requires !(e.Finish? && e.agent == key.1 && key.1 in w.flights && w.flights[key.1].last.Some?)
    ensures var v := Step(w, e);
            && w.tables.rows <= v.tables.rows && key in v.tables.cursors
            && v.tables.cursors[key] == w.tables.cursors[key] && ReadSoFar(v, key) == ReadSoFar(w, key)
  {
  }

  lemma StepKeepsKind(w: World, e: Event, key: Key)
    requires key.1 in w.flights ==> w.flights[key.1].only.Some?
    requires ReceivesOnly(e, key)
    ensures var v := Step(w, e); key.1 in v.flights ==> v.flights[key.1].only.Some?
  {
  }

  lemma StepKeepsExact(w: World, e: Event, key: Key)
    requires Inv(w) && Exact(w, key) && ReceivesOnly(e, key)
    ensures Exact(Step(w, e), key)
  {
    var v := Step(w, e);
    if e.Finish? && e.agent == key.1 && key.1 in w.flights && w.flights[key.1].last.Some? {
      FinishKeepsExact(w, key);
    } else {
      OtherStepFrame(w, e, key);
      StepKeepsKind(w, e, key);
      RowsOfFrame(w.tables.rows, v.tables.rows, key.0, w.tables.cursors[key]);
    }
  }

  /** Under channel_receive alone and no resubscription, the batches returned so far concatenate to the channel's
      rows in publish order from the first one on, with no gap and no repeat, up to the cursor. */
  lemma {:induction false} BatchesArePublishOrder(w: World, events: seq<Event>, key: Key)
    requires Inv(w) && Exact(w, key)
    requires forall e :: e in events ==> ReceivesOnly(e, key)
    ensures var v := Run(w, events);
            && Exact(v, key)
            && ReadSoFar(v, key) <= RowsOf(v.tables.rows, key.0, |v.tables.rows|)
    decreases |events|
  {
    if events == [] {
      RowsOfGrows(w.tables.rows, key.0, w.tables.cursors[key], |w.tables.rows|);
    } else {
      StepKeepsInv(w, events[0]);
      StepKeepsExact(w, events[0], key);
      BatchesArePublishOrder(Step(w, events[0]), events[1..], key);
    }
  }

  lemma {:induction false} RowsOfGrows(rows: seq<Row>, channel: string, m: nat, n: nat)
    requires m <= n <= |rows|
    ensures RowsOf(rows, channel, m) <= RowsOf(rows, channel, n)
    decreases n
  {
    if m < n {
      RowsOfGrows(rows, channel, m, n - 1);
    }
  }
}
