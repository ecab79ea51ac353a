/** When a receive delivers a row a second time: channel_receive_all moves every cursor of the agent to one rowid
    (lib/ipc/message_store.c:697-701), and so some of them back. */
module ChannelRepeats {
  import opened Wrappers
  import opened CInt
  import opened Channels

  // ----- One call of channel_receive_all -----

  /** The agent had read row r, on a channel it subscribes to. */
  predicate AlreadyRead(t: Tables, agent: string, r: nat) {
    && 1 <= r <= |t.rows|
    && (t.rows[r - 1].channel, agent) in t.cursors
    && r <= t.cursors[(t.rows[r - 1].channel, agent)]
  }

  /** The tables after a call of channel_receive_all, as ChannelStore.Receive leaves them. */
  function AfterReceiveAll(t: Tables, agent: string, limit: int): Tables {
    var rs := Batch(t, agent, None, |t.rows|, limit);
    if rs == [] then t else Mark(t, agent, None, rs[|rs| - 1])
  }

  /** The number of rows below r that the agent has not read. */
  function UnreadBelow(t: Tables, agent: string, r: nat): nat
    requires r <= |t.rows|
  {
    |Unread(t, agent, None, r)|
  }

  /** Before the call: the batch it will return is not empty and ends below row r, because no unread row lies above r or
      because the limit is used up by then. */
  predicate GoesBackBelow(t: Tables, agent: string, limit: int, r: nat)
    requires r <= |t.rows|
  {
    && limit != 0 && UnreadBelow(t, agent, r) > 0
    && (UnreadBelow(t, agent, r) == UnreadBelow(t, agent, |t.rows|) || 0 < limit <= UnreadBelow(t, agent, r))
  }

  /** The m-th unread row lies below a row that was read exactly when it is among the unread rows below that row. */
  lemma UnreadPosition(t: Tables, agent: string, r: nat, m: nat)
    requires r <= |t.rows| && !Wanted(t, agent, None, r) && 0 < m <= UnreadBelow(t, agent, |t.rows|)
    ensures Unread(t, agent, None, |t.rows|)[m - 1] < r <==> m <= UnreadBelow(t, agent, r)
  {
    var all, below := Unread(t, agent, None, |t.rows|), Unread(t, agent, None, r);
    UnreadGrows(t, agent, None, r, |t.rows|);
    UnreadExact(t, agent, None, |t.rows|);
    UnreadExact(t, agent, None, r);
    assert all[m - 1] in all;
    if m <= |below| {
      assert below[m - 1] == all[m - 1] && below[m - 1] in below;
    } else {
      forall j | 0 <= j < |below|
        ensures below[j] != all[m - 1]
      {
        assert below[j] == all[j];
      }
      assert all[m - 1] !in below;
    }
  }

  /** A row that the agent has read is unread again after a call of channel_receive_all exactly when the call goes back
      below it, which the state before the call and the limit decide. */
  lemma ReadAgainIff(t: Tables, agent: string, limit: int, r: nat)
    requires AlreadyRead(t, agent, r)
    ensures Wanted(AfterReceiveAll(t, agent, limit), agent, None, r) <==> GoesBackBelow(t, agent, limit, r)
  {
    var all := Unread(t, agent, None, |t.rows|);
    var rs := Batch(t, agent, None, |t.rows|, limit);
    UnreadGrows(t, agent, None, r, |t.rows|);
    if rs != [] {
      assert rs[|rs| - 1] == all[|rs| - 1];
      UnreadPosition(t, agent, r, |rs|);
    }
  }

  /** So a call repeats nothing exactly when it goes back below no row that the agent has read. */
  lemma NothingReadAgainIff(t: Tables, agent: string, limit: int)
    ensures (forall r: nat :: AlreadyRead(t, agent, r) ==> !Wanted(AfterReceiveAll(t, agent, limit), agent, None, r))
            <==> forall r: nat :: AlreadyRead(t, agent, r) ==> !GoesBackBelow(t, agent, limit, r)
  {
    forall r: nat | AlreadyRead(t, agent, r)
      ensures Wanted(AfterReceiveAll(t, agent, limit), agent, None, r) <==> GoesBackBelow(t, agent, limit, r)
    {
      ReadAgainIff(t, agent, limit, r);
    }
  }

  // ----- A run in which a row comes twice -----

  lemma {:induction false} RunConcat(w: World, a: seq<Event>, b: seq<Event>)
    ensures Run(w, a + b) == Run(Run(w, a), b)
    decreases |a|
  {
    if a == [] {
      assert a + b == b;
    } else {
      assert (a + b)[1..] == a[1..] + b;
      RunConcat(Step(w, a[0]), a[1..], b);
    }
  }

  /** The three statements of one receive. */
  function ReceiveEvents(agent: string, only: Option<string>, maxCount: nat): seq<Event> {
    [Query(agent, only, maxCount), FindRowid(agent), Finish(agent)]
  }

  /** The world with a receive of the agent about to finish. */
  function Flown(w: World, agent: string, only: Option<string>, limit: int, rs: seq<nat>): World
    requires rs != [] && forall i :: 0 <= i < |rs| ==> 1 <= rs[i] <= |w.tables.rows|
  {
    var f := Flight(only, limit, |w.tables.rows|, RowsAt(w.tables.rows, rs), Some(rs[|rs| - 1]));
    w.(flights := w.flights[agent := f])
  }

  lemma QueryStep(w: World, agent: string, only: Option<string>, maxCount: nat)
    requires agent !in w.flights && Batch(w.tables, agent, only, |w.tables.rows|, LimitOf(maxCount)) != []
    ensures var rs := Batch(w.tables, agent, only, |w.tables.rows|, LimitOf(maxCount));
            var f := Flight(only, LimitOf(maxCount), |w.tables.rows|, RowsAt(w.tables.rows, rs), None);
            Step(w, Query(agent, only, maxCount)) == w.(flights := w.flights[agent := f])
  {
  }

  lemma FindStep(w: World, agent: string)
    requires agent in w.flights && w.flights[agent].last.None? && w.flights[agent].items != []
    ensures var f := w.flights[agent];
            Step(w, FindRowid(agent))
            == w.(flights := w.flights[agent := f.(last := Some(RowidOf(w.tables.rows, f.items[|f.items| - 1].id)))])
  {
  }

  lemma FinishStep(w: World, agent: string)
    requires agent in w.flights && w.flights[agent].last.Some?
    ensures Step(w, Finish(agent)) == Finished(w, agent)
  {
  }

  lemma PutTwice(m: map<string, Flight>, agent: string, f: Flight, g: Flight)
    ensures m[agent := f][agent := g] == m[agent := g]
  {
  }

  lemma FindsRowid(w: World, agent: string, f: Flight, r: nat)
    requires f.last.None? && f.items != [] && RowidOf(w.tables.rows, f.items[|f.items| - 1].id) == r
    ensures Step(w.(flights := w.flights[agent := f]), FindRowid(agent))
            == w.(flights := w.flights[agent := f.(last := Some(r))])
  {
    FindStep(w.(flights := w.flights[agent := f]), agent);
    PutTwice(w.flights, agent, f, f.(last := Some(r)));
  }

  lemma FindsLast(w: World, agent: string, only: Option<string>, limit: int, rs: seq<nat>)
    requires DistinctIds(w.tables.rows) && rs != [] && forall i :: 0 <= i < |rs| ==> 1 <= rs[i] <= |w.tables.rows|
    ensures var f := Flight(only, limit, |w.tables.rows|, RowsAt(w.tables.rows, rs), None);
            Step(w.(flights := w.flights[agent := f]), FindRowid(agent)) == Flown(w, agent, only, limit, rs)
  {
    RowidOfDistinct(w.tables.rows, rs[|rs| - 1]);
    FindsRowid(w, agent, Flight(only, limit, |w.tables.rows|, RowsAt(w.tables.rows, rs), None), rs[|rs| - 1]);
  }

  /** From w to v, one receive of the agent has returned these rows and moved its cursors to the last of them. */
  predicate Landed(w: World, v: World, agent: string, only: Option<string>, rs: seq<nat>)
    requires rs != []
  {
    && v.tables == Mark(w.tables, agent, only, rs[|rs| - 1])
    && v.flights == w.flights
    && v.delivered == w.delivered + Deliveries(agent, rs)
  }

  lemma Lands(w: World, agent: string, only: Option<string>, limit: int, rs: seq<nat>)
    requires DistinctIds(w.tables.rows) && agent !in w.flights
    requires rs != [] && forall i :: 0 <= i < |rs| ==> 1 <= rs[i] <= |w.tables.rows|
    ensures Landed(w, Finished(Flown(w, agent, only, limit, rs), agent), agent, only, rs)
  {
    var u := Flown(w, agent, only, limit, rs);
    forall i | 0 <= i < |rs|
      ensures Returned(u, agent)[i] == rs[i]
    {
      RowidOfDistinct(w.tables.rows, rs[i]);
    }
    assert Returned(u, agent) == rs;
  }

  /** A receive that nothing interrupts returns its batch and moves the cursors to the last row of it. */
  lemma WholeReceive(w: World, agent: string, only: Option<string>, maxCount: nat) returns (v: World)
    requires DistinctIds(w.tables.rows) && agent !in w.flights
    requires Batch(w.tables, agent, only, |w.tables.rows|, LimitOf(maxCount)) != []
    ensures v == Run(w, ReceiveEvents(agent, only, maxCount))
    ensures Landed(w, v, agent, only, Batch(w.tables, agent, only, |w.tables.rows|, LimitOf(maxCount)))
  {
    var rs := Batch(w.tables, agent, only, |w.tables.rows|, LimitOf(maxCount));
    var u := Flown(w, agent, only, LimitOf(maxCount), rs);
    v := Finished(u, agent);
    Lands(w, agent, only, LimitOf(maxCount), rs);
    assert v == Run(w, ReceiveEvents(agent, only, maxCount)) by {
      QueryStep(w, agent, only, maxCount);
      FindsLast(w, agent, only, LimitOf(maxCount), rs);
      FinishStep(u, agent);
      ThreeSteps(w, Query(agent, only, maxCount), FindRowid(agent), Finish(agent));
    }
  }

  lemma ThreeSteps(w: World, a: Event, b: Event, c: Event)
    ensures Run(w, [a, b, c]) == Step(Step(Step(w, a), b), c)
  {
    assert [a, b, c][1..] == [b, c] && [b, c][1..] == [c] && [c][1..] == [];
    assert Run(Step(Step(w, a), b), [c]) == Step(Step(Step(w, a), b), c);
  }

  const ROW1 := Row("1", "a", "x", "")
  const ROW2 := Row("2", "b", "x", "")

  /** Two channels with a row each, and a subscriber of both. */
  const TWO_CHANNELS: seq<Event> :=
    [CreateChannel("a"), CreateChannel("b"), Subscribe("a", "me"), Subscribe("b", "me"), Publish(ROW1), Publish(ROW2)]

  function TwoChannels(a: nat, b: nat): Tables {
    Tables({"a", "b"}, [ROW1, ROW2], map[("a", "me") := a, ("b", "me") := b])
  }

  lemma RunSix(w: World, e: seq<Event>)
    requires |e| == 6
    ensures Run(w, e) == Step(Step(Step(Step(Step(Step(w, e[0]), e[1]), e[2]), e[3]), e[4]), e[5])
  {
    RunConcat(w, e[..3], e[3..]);
    ThreeSteps(w, e[0], e[1], e[2]);
    ThreeSteps(Run(w, e[..3]), e[3], e[4], e[5]);
    assert e[..3] + e[3..] == e && e[..3] == [e[0], e[1], e[2]] && e[3..] == [e[3], e[4], e[5]];
  }

  lemma CreatesTwo(w: World, a: string, b: string)
    requires w.tables.channels == {}
    ensures Step(Step(w, CreateChannel(a)), CreateChannel(b)) == w.(tables := w.tables.(channels := {a, b}))
  {
    assert {} + {a} + {b} == {a, b};
  }

  lemma SubscribesTwo(w: World, a: string, b: string, agent: string)
    requires w.flights == map[] && w.tables.cursors == map[] && a in w.tables.channels && b in w.tables.channels
    ensures var cursors: map<Key, nat> := map[(a, agent) := 0, (b, agent) := 0];
            Step(Step(w, Subscribe(a, agent)), Subscribe(b, agent)) == w.(tables := w.tables.(cursors := cursors))
  {
    var cursors: map<Key, nat> := map[(a, agent) := 0, (b, agent) := 0];
    assert w.tables.cursors[(a, agent) := 0][(b, agent) := 0] == cursors;
  }

  lemma PublishesTwo(w: World, a: Row, b: Row)
    requires w.flights == map[] && w.tables.rows == [] && a.id != b.id
    requires a.channel in w.tables.channels && b.channel in w.tables.channels
    ensures Step(Step(w, Publish(a)), Publish(b)) == w.(tables := w.tables.(rows := [a, b]))
  {
    assert [] + [a] == [a] && [a] + [b] == [a, b];
    PublishStep(w, a);
    PublishStep(w.(tables := w.tables.(rows := [a])), b);
  }

  lemma PublishStep(w: World, row: Row)
    requires w.flights == map[] && row.channel in w.tables.channels
    requires forall i :: 0 <= i < |w.tables.rows| ==> w.tables.rows[i].id != row.id
    ensures Step(w, Publish(row)) == w.(tables := w.tables.(rows := w.tables.rows + [row]))
  {
    assert RowidOf(w.tables.rows, row.id) == 0;
  }

  lemma TwoChannelsRun()
    ensures Run(START, TWO_CHANNELS) == World(TwoChannels(0, 0), map[], [], map[])
  {
    RunSix(START, TWO_CHANNELS);
    CreatesTwo(START, "a", "b");
    var u := START.(tables := START.tables.(channels := {"a", "b"}));
    SubscribesTwo(u, "a", "b", "me");
    var v := u.(tables := u.tables.(cursors := map[("a", "me") := 0, ("b", "me") := 0]));
    assert ROW1.id[0] != ROW2.id[0];
    PublishesTwo(v, ROW1, ROW2);
  }

  lemma TwoChannelsUnread(a: nat, b: nat, only: Option<string>)
    requires a <= 2 && b <= 2
    ensures Unread(TwoChannels(a, b), "me", only, 2)
            == (if only != Some("b") && (only == None || only == Some("a")) && a < 1 then [1] else [])
               + (if (only == None || only == Some("b")) && b < 2 then [2] else [])
  {
    var t := TwoChannels(a, b);
    assert "a"[0] != "b"[0];
    assert Unread(t, "me", only, 0) == [];
    assert Unread(t, "me", only, 1) == if Wanted(t, "me", only, 1) then [1] else [];
  }

  lemma TwoChannelsMark(a: nat, b: nat, only: Option<string>, r: nat)
    ensures Mark(TwoChannels(a, b), "me", only, r)
            == TwoChannels(if only == None || only == Some("a") then r else a,
                           if only == None || only == Some("b") then r else b)
  {
    assert "a"[0] != "b"[0];
  }

  /** What one receive makes of the two channels and of the log. */
  predicate Reads(w: World, v: World, a: nat, b: nat, rs: seq<nat>) {
    v.tables == TwoChannels(a, b) && v.flights == w.flights && v.delivered == w.delivered + Deliveries("me", rs)
  }

  lemma TwoChannelsBatch(a: nat, b: nat, only: Option<string>, r: nat)
    requires a <= 2 && b <= 2
    requires (only == Some("b") && b < 2 && r == 2)
             || (only == None && (if a < 1 then b == 2 && r == 1 else b < 2 && r == 2))
    ensures Batch(TwoChannels(a, b), "me", only, 2, LimitOf(0)) == [r]
  {
    assert "a"[0] != "b"[0];
    TwoChannelsUnread(a, b, only);
  }

  lemma TwoChannelsReceive(w: World, a: nat, b: nat, only: Option<string>, r: nat) returns (v: World)
    requires w.tables == TwoChannels(a, b) && "me" !in w.flights && a <= 2 && b <= 2
    requires (only == Some("b") && b < 2 && r == 2)
             || (only == None && (if a < 1 then b == 2 && r == 1 else b < 2 && r == 2))
    ensures v == Run(w, ReceiveEvents("me", only, 0))
    ensures Reads(w, v, if only == None then r else a, r, [r])
  {
    assert ROW1.id[0] != ROW2.id[0] && "a"[0] != "b"[0];
    TwoChannelsBatch(a, b, only, r);
    TwoChannelsMark(a, b, only, r);
    v := WholeReceive(w, "me", only, 0);
  }

  lemma RunFour(w: World, a: seq<Event>, b: seq<Event>, c: seq<Event>, d: seq<Event>)
    ensures Run(w, a + b + c + d) == Run(Run(Run(Run(w, a), b), c), d)
  {
    RunConcat(w, a + b + c, d);
    RunConcat(w, a + b, c);
    RunConcat(w, a, b);
  }

  lemma TwoReceives(u: World) returns (z: World)
    requires u.tables == TwoChannels(0, 2) && "me" !in u.flights
    ensures z == Run(Run(u, ReceiveEvents("me", None, 0)), ReceiveEvents("me", None, 0))
    ensures z.delivered == u.delivered + Deliveries("me", [1]) + Deliveries("me", [2])
  {
    var v := TwoChannelsReceive(u, 0, 2, None, 1);
    z := TwoChannelsReceive(v, 1, 1, None, 2);
  }

  /** Reading channel b, then everything, then everything again. */
  lemma ThreeReceives(w: World) returns (z: World)
    requires w == World(TwoChannels(0, 0), map[], [], map[])
    ensures z == Run(Run(Run(w, ReceiveEvents("me", Some("b"), 0)), ReceiveEvents("me", None, 0)),
                     ReceiveEvents("me", None, 0))
    ensures z.delivered == Deliveries("me", [2]) + Deliveries("me", [1]) + Deliveries("me", [2])
  {
    var u := TwoChannelsReceive(w, 0, 0, Some("b"), 2);
    z := TwoReceives(u);
    assert [] + Deliveries("me", [2]) == Deliveries("me", [2]);
  }

  lemma RepeatsAfter(setup: seq<Event>, one: seq<Event>, all: seq<Event>)
    requires Run(START, setup) == World(TwoChannels(0, 0), map[], [], map[])
    requires one == ReceiveEvents("me", Some("b"), 0) && all == ReceiveEvents("me", None, 0)
    ensures Run(START, setup + one + all + all).delivered == [Delivery("me", 2), Delivery("me", 1), Delivery("me", 2)]
  {
    RunFour(START, setup, one, all, all);
    var z := ThreeReceives(Run(START, setup));
    assert Deliveries("me", [2]) + Deliveries("me", [1]) + Deliveries("me", [2])
        == [Delivery("me", 2), Delivery("me", 1), Delivery("me", 2)];
  }

  /** A whole run from the empty store. The later row is read on its own channel; channel_receive_all then returns the
      earlier one and takes both cursors back to it, and the next call delivers the later row a second time. */
  lemma ReceiveAllRepeats() returns (events: seq<Event>)
    ensures events == TWO_CHANNELS + ReceiveEvents("me", Some("b"), 0) + ReceiveEvents("me", None, 0)
                      + ReceiveEvents("me", None, 0)
    ensures Run(START, events).delivered == [Delivery("me", 2), Delivery("me", 1), Delivery("me", 2)]
  {
    TwoChannelsRun();
    var setup, one, all := TWO_CHANNELS, ReceiveEvents("me", Some("b"), 0), ReceiveEvents("me", None, 0);
    RepeatsAfter(setup, one, all);
    events := setup + one + all + all;
  }

  // ----- Runs in which no row comes twice -----

  /** The rowids delivered to one agent, in order. */
  function DeliveredTo(log: seq<Delivery>, agent: string): seq<nat> {
    if log == [] then []
    else
      DeliveredTo(log[..|log| - 1], agent)
      + if log[|log| - 1].agent == agent then [log[|log| - 1].rowid] else []
  }

  lemma DeliveredOne(log: seq<Delivery>, d: Delivery, agent: string)
    ensures DeliveredTo(log + [d], agent) == DeliveredTo(log, agent) + if d.agent == agent then [d.rowid] else []
  {
    assert (log + [d])[..|log|] == log;
  }

  lemma DeliveriesSnoc(log: seq<Delivery>, reader: string, init: seq<nat>, last: nat)
    ensures log + Deliveries(reader, init + [last]) == log + Deliveries(reader, init) + [Delivery(reader, last)]
  {
    assert Deliveries(reader, init + [last]) == Deliveries(reader, init) + [Delivery(reader, last)];
  }

  lemma Regroup(a: seq<nat>, b: seq<nat>, r: nat)
    ensures a + b + [r] == a + (b + [r])
  {
  }

  lemma {:induction false} DeliveredMore(log: seq<Delivery>, reader: string, rs: seq<nat>, agent: string)
    ensures DeliveredTo(log + Deliveries(reader, rs), agent)
            == DeliveredTo(log, agent) + if reader == agent then rs else []
    decreases |rs|
  {
    if rs == [] {
      assert log + Deliveries(reader, rs) == log;
      assert DeliveredTo(log, agent) + [] == DeliveredTo(log, agent);
    } else {
      var init, last := rs[..|rs| - 1], rs[|rs| - 1];
      DeliveredMore(log, reader, init, agent);
      DeliveredOne(log + Deliveries(reader, init), Delivery(reader, last), agent);
      assert rs == init + [last];
      DeliveriesSnoc(log, reader, init, last);
      if reader == agent {
        Regroup(DeliveredTo(log, agent), init, last);
      }
    }
  }

  predicate Ascending(rs: seq<nat>) {
    forall i, j :: 0 <= i < j < |rs| ==> rs[i] < rs[j]
  }

  /** The last rowid delivered, or 0. */
  function High(rs: seq<nat>): nat {
    if rs == [] then 0 else rs[|rs| - 1]
  }

  /** Every cursor of the agent stands at the last row delivered to it, and it is not inside a channel_receive. */
  predicate OneCursor(w: World, agent: string) {
    var rs := DeliveredTo(w.delivered, agent);
    && Ascending(rs)
    && (forall key: Key :: key in w.tables.cursors && key.1 == agent ==> w.tables.cursors[key] == High(rs))
    && (agent in w.flights ==> w.flights[agent].only.None?)
  }

  /** The agent does not subscribe any more, and reads with channel_receive_all alone; it may unsubscribe. */
  predicate ReceivesAllOnly(e: Event, agent: string) {
    match e
    case Subscribe(_, a) => a != agent
    case Query(a, only, _) => a == agent ==> only.None?
    case _ => true
  }

  /** Before its first receive the agent may do anything but receive. */
  predicate NoReceive(e: Event, agent: string) {
    e.Query? ==> e.agent != agent
  }

  predicate NotYet(w: World, agent: string) {
    && DeliveredTo(w.delivered, agent) == [] && agent !in w.flights
    && forall key: Key :: key in w.tables.cursors && key.1 == agent ==> w.tables.cursors[key] == 0
  }

  lemma StepKeepsNotYet(w: World, e: Event, agent: string)
    requires NotYet(w, agent) && NoReceive(e, agent)
    ensures NotYet(Step(w, e), agent)
  {
    if e.Finish? && e.agent in w.flights && w.flights[e.agent].last.Some? {
      DeliveredMore(w.delivered, e.agent, Returned(w, e.agent), agent);
    }
  }

  lemma {:induction false} RunKeepsNotYet(w: World, events: seq<Event>, agent: string)
    requires NotYet(w, agent) && forall e :: e in events ==> NoReceive(e, agent)
    ensures NotYet(Run(w, events), agent)
    decreases |events|
  {
    if events != [] {
      StepKeepsNotYet(w, events[0], agent);
      RunKeepsNotYet(Step(w, events[0]), events[1..], agent);
    }
  }

  lemma AscendingConcat(before: seq<nat>, rs: seq<nat>)
    requires Ascending(before) && Ascending(rs) && (rs != [] ==> High(before) < rs[0])
    ensures Ascending(before + rs)
  {
    forall i, j | 0 <= i < j < |before + rs|
      ensures (before + rs)[i] < (before + rs)[j]
    {
      if i < |before| <= j {
        assert before[i] <= High(before) < rs[0] <= rs[j - |before|];
      }
    }
  }

  lemma LimitedAbove(all: seq<nat>, limit: int, c: nat)
    requires Ascending(all) && (all != [] ==> c < all[0])
    ensures Ascending(Limited(all, limit)) && (Limited(all, limit) != [] ==> c < Limited(all, limit)[0])
  {
  }

  /** What a query selects from channels whose cursors all stand at c. */
  lemma BatchAbove(t: Tables, agent: string, only: Option<string>, n: nat, limit: int, c: nat)
    requires n <= |t.rows|
    requires forall key: Key :: key in t.cursors && key.1 == agent ==> t.cursors[key] == c
    ensures var rs := Batch(t, agent, only, n, limit); Ascending(rs) && (rs != [] ==> c < rs[0])
  {
    UnreadExact(t, agent, only, n);
    var all := Unread(t, agent, only, n);
    if all != [] {
      assert all[0] in all;
    }
    LimitedAbove(all, limit, c);
  }

  /** The batch is ascending, lies above the one cursor, and ends where the cursors go. */
  lemma BatchAboveCursor(w: World, agent: string)
    requires agent in w.flights && w.flights[agent].last.Some?
    requires FlightOk(w, agent) && DistinctIds(w.tables.rows) && OneCursor(w, agent)
    ensures var rs := Returned(w, agent);
            && rs != [] && Ascending(rs) && rs[|rs| - 1] == w.flights[agent].last.value
            && High(DeliveredTo(w.delivered, agent)) < rs[0]
  {
    var f := w.flights[agent];
    ReturnedIsBatch(w, agent);
    BatchAbove(w.tables, agent, f.only, f.horizon, f.limit, High(DeliveredTo(w.delivered, agent)));
  }

  lemma FinishMovesAll(w: World, agent: string)
    requires agent in w.flights && w.flights[agent].last.Some? && w.flights[agent].only.None?
    requires w.flights[agent].last.value > 0
    ensures var v := Finished(w, agent);
            && agent !in v.flights
            && forall key: Key :: key in v.tables.cursors && key.1 == agent ==>
                                    v.tables.cursors[key] == w.flights[agent].last.value
  {
  }

  lemma FinishKeepsOneCursor(w: World, agent: string)
    requires Inv(w) && OneCursor(w, agent) && agent in w.flights && w.flights[agent].last.Some?
    ensures OneCursor(Finished(w, agent), agent)
  {
    var rs := Returned(w, agent);
    DeliveredMore(w.delivered, agent, rs, agent);
    BatchAboveCursor(w, agent);
    AscendingConcat(DeliveredTo(w.delivered, agent), rs);
    FinishMovesAll(w, agent);
  }

  lemma OtherStepKeepsOneCursor(w: World, e: Event, agent: string)
    requires OneCursor(w, agent) && ReceivesAllOnly(e, agent)
    requires !(e.Finish? && e.agent == agent)
    ensures OneCursor(Step(w, e), agent)
  {
    if e.Finish? {
      if e.agent in w.flights && w.flights[e.agent].last.Some? {
        OtherFinishKeepsOneCursor(w, e.agent, agent);
      }
    } else {
      NoFinishFrame(w, e, agent);
    }
  }

  lemma OtherFinishKeepsOneCursor(w: World, other: string, agent: string)
    requires OneCursor(w, agent) && other != agent && other in w.flights && w.flights[other].last.Some?
    ensures OneCursor(Finished(w, other), agent)
  {
    DeliveredMore(w.delivered, other, Returned(w, other), agent);
    var before := DeliveredTo(w.delivered, agent);
    assert before + [] == before;
  }

  /** Only finishing a receive delivers rows and moves cursors, but for those that are new or gone. */
  lemma NoFinishFrame(w: World, e: Event, agent: string)
    requires !e.Finish? && ReceivesAllOnly(e, agent)
    ensures var v := Step(w, e);
            && v.delivered == w.delivered
            && (forall key: Key :: key.1 == agent && key in v.tables.cursors ==>
                                     key in w.tables.cursors && v.tables.cursors[key] == w.tables.cursors[key])
            && (agent in v.flights ==>
                  v.flights[agent].only.None?
                  || (agent in w.flights && v.flights[agent].only == w.flights[agent].only))
  {
  }

  lemma {:induction false} RunKeepsOneCursor(w: World, events: seq<Event>, agent: string)
    requires Inv(w) && OneCursor(w, agent) && forall e :: e in events ==> ReceivesAllOnly(e, agent)
    ensures OneCursor(Run(w, events), agent)
    decreases |events|
  {
    if events != [] {
      var e := events[0];
      StepKeepsInv(w, e);
      if e.Finish? && e.agent == agent {
        if agent in w.flights && w.flights[agent].last.Some? {
          FinishKeepsOneCursor(w, agent);
        }
      } else {
        OtherStepKeepsOneCursor(w, e, agent);
      }
      RunKeepsOneCursor(Step(w, e), events[1..], agent);
    }
  }

  /** An agent that makes its subscriptions before its first receive, and then reads with channel_receive_all alone, is
      delivered rows in publish order, each at most once, whatever other agents do and whenever. */
  lemma NoRowTwice(setup: seq<Event>, events: seq<Event>, agent: string)
    requires forall e :: e in setup ==> NoReceive(e, agent)
    requires forall e :: e in events ==> ReceivesAllOnly(e, agent)
    ensures Ascending(DeliveredTo(Run(START, setup + events).delivered, agent))
  {
    RunKeepsNotYet(START, setup, agent);
    RunKeepsInv(START, setup);
    RunConcat(START, setup, events);
    RunKeepsOneCursor(Run(START, setup), events, agent);
  }
}
