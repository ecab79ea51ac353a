/** Listing the two-way conversation between two agents page by page (lib/ipc/message_store.c). */
module Conversations {
  import opened Wrappers
  import opened CInt

  datatype Message = Message(id: string, rowid: int, sender: string, recipient: string, content: string)

  /** direct_messages in rowid order. Deleted rows leave gaps in the numbering. */
  predicate IsTable(rows: seq<Message>) {
    && (forall i, j :: 0 <= i < j < |rows| ==> rows[i].rowid < rows[j].rowid)
    && (forall i, j :: 0 <= i < j < |rows| ==> rows[i].id != rows[j].id)
  }

  predicate Between(m: Message, agent1: string, agent2: string) {
    (m.sender == agent1 && m.recipient == agent2) || (m.sender == agent2 && m.recipient == agent1)
  }

  /** The whole conversation in rowid order: what the paging calls hand out in pieces. */
  function Conversation(rows: seq<Message>, agent1: string, agent2: string): seq<Message>
    decreases |rows|
  {
    if rows == [] then []
    else
      var m := rows[|rows| - 1];
      Conversation(rows[..|rows| - 1], agent1, agent2) + (if Between(m, agent1, agent2) then [m] else [])
  }

  /** A row belongs to the conversation exactly when one of the two sent it to the other. */
  lemma {:induction false} ConversationMeans(rows: seq<Message>, agent1: string, agent2: string, m: Message)
    ensures m in Conversation(rows, agent1, agent2) <==>
            m in rows
            && ((m.sender == agent1 && m.recipient == agent2) || (m.sender == agent2 && m.recipient == agent1))
    decreases |rows|
  {
    if rows != [] {
      ConversationMeans(rows[..|rows| - 1], agent1, agent2, m);
      assert rows == rows[..|rows| - 1] + [rows[|rows| - 1]];
    }
  }

  /** It is the same whichever agent is named first. */
  lemma {:induction false} ConversationIsShared(rows: seq<Message>, agent1: string, agent2: string)
    ensures Conversation(rows, agent1, agent2) == Conversation(rows, agent2, agent1)
    decreases |rows|
  {
    if rows != [] {
      ConversationIsShared(rows[..|rows| - 1], agent1, agent2);
    }
  }

  /** And it is in rowid order. */
  lemma {:induction false} ConversationOrder(rows: seq<Message>, agent1: string, agent2: string)
    requires IsTable(rows)
    ensures IsTable(Conversation(rows, agent1, agent2))
    decreases |rows|
  {
    if rows != [] {
      var c := Conversation(rows[..|rows| - 1], agent1, agent2);
      ConversationOrder(rows[..|rows| - 1], agent1, agent2);
      forall m | m in c
        ensures m.rowid < rows[|rows| - 1].rowid && m.id != rows[|rows| - 1].id
      {
        ConversationMeans(rows[..|rows| - 1], agent1, agent2, m);
        var i :| 0 <= i < |rows| - 1 && rows[..|rows| - 1][i] == m;
        assert rows[i] == m;
      }
      TableGrows(c, rows[|rows| - 1]);
    }
  }

  lemma TableGrows(c: seq<Message>, last: Message)
    requires IsTable(c) && forall m :: m in c ==> m.rowid < last.rowid && m.id != last.id
    ensures IsTable(c + [last])
  {
  }

  // ----- The statements -----

  datatype Bound = Any | Below(rowid: int) | Above(rowid: int) | Nothing

  predicate Within(m: Message, b: Bound) {
    match b
    case Any => true
    case Below(r) => m.rowid < r
    case Above(r) => m.rowid > r
    case Nothing => false
  }

  /** The rows between two agents that satisfy the cursor condition, ascending. */
  function Select(rows: seq<Message>, agent1: string, agent2: string, b: Bound): seq<Message>
    decreases |rows|
  {
    if rows == [] then []
    else
      var m := rows[|rows| - 1];
      Select(rows[..|rows| - 1], agent1, agent2, b)
      + (if Between(m, agent1, agent2) && Within(m, b) then [m] else [])
  }

  /** SELECT rowid WHERE id = ?. */
  function RowidOf(rows: seq<Message>, id: string): Option<int>
    decreases |rows|
  {
    if rows == [] then None
    else if rows[|rows| - 1].id == id then Some(rows[|rows| - 1].rowid)
    else RowidOf(rows[..|rows| - 1], id)
  }

  /** Comparing with the rowid of an unknown id compares with NULL, which no row satisfies. */
  function BoundBelow(rows: seq<Message>, before: Option<string>): Bound {
    if before.None? then Any
    else match RowidOf(rows, before.value) case None => Nothing case Some(r) => Below(r)
  }

  function BoundAbove(rows: seq<Message>, after: Option<string>): Bound {
    if after.None? then Any
    else match RowidOf(rows, after.value) case None => Nothing case Some(r) => Above(r)
  }

  /** ORDER BY rowid DESC LIMIT n, put back into ascending order. */
  function Newest<T>(rows: seq<T>, n: int): seq<T> {
    if n < 0 || n > |rows| then rows else rows[|rows| - n..]
  }

  /** actual_limit + 1 in a C int. The overflow is undefined in C; it is taken to wrap. */
  function PlusOne(n: int): int {
    if n == 0x7fff_ffff then -0x8000_0000 else n + 1
  }

  class DirectStore {
    var rows: seq<Message>

    /** message_list_between. */
    method ListBetween(agent1: string, agent2: string, after: Option<string>, limit: nat)
      returns (page: seq<Message>)
      ensures page == Forward(rows, agent1, agent2, after, limit)
      ensures IsTable(rows) ==> IsForwardPage(rows, agent1, agent2, after, limit, page)
    {
      page := Limited(Select(rows, agent1, agent2, BoundAbove(rows, after)), LimitOf(limit));
      if IsTable(rows) {
        ForwardIsPage(rows, agent1, agent2, after, limit);
      }
    }

    /** message_list_between_latest: ask for one row more than wanted, and give the oldest back when it came. */
    method ListBetweenLatest(agent1: string, agent2: string, before: Option<string>, limit: nat)
      returns (page: seq<Message>, hasMore: bool)
      ensures (page, hasMore) == Latest(rows, agent1, agent2, before, limit)
    {
      var actual := LimitOf(limit);
      page := Newest(Select(rows, agent1, agent2, BoundBelow(rows, before)), PlusOne(actual));
      hasMore := false;
      if page == [] {
        return;
      }
      if ToInt(|page|) > actual {
        hasMore := true;
        page := page[1..];
      }
    }
  }

  function Forward(rows: seq<Message>, agent1: string, agent2: string, after: Option<string>, limit: nat)
    : seq<Message>
  {
    Limited(Select(rows, agent1, agent2, BoundAbove(rows, after)), LimitOf(limit))
  }

  function Latest(rows: seq<Message>, agent1: string, agent2: string, before: Option<string>, limit: nat)
    : (seq<Message>, bool)
  {
    PageOf(Select(rows, agent1, agent2, BoundBelow(rows, before)), limit)
  }

  function PageOf(selected: seq<Message>, limit: nat): (seq<Message>, bool) {
    var got := Newest(selected, PlusOne(LimitOf(limit)));
    if got != [] && ToInt(|got|) > LimitOf(limit) then (got[1..], true) else (got, false)
  }

  // ----- Cursors cut the conversation -----

  lemma {:induction false} SelectAny(rows: seq<Message>, agent1: string, agent2: string)
    ensures Select(rows, agent1, agent2, Any) == Conversation(rows, agent1, agent2)
    decreases |rows|
  {
    if rows != [] {
      SelectAny(rows[..|rows| - 1], agent1, agent2);
    }
  }

  lemma {:induction false} ConversationFromTable(rows: seq<Message>, agent1: string, agent2: string, k: nat)
    requires IsTable(rows) && k < |Conversation(rows, agent1, agent2)|
    ensures Conversation(rows, agent1, agent2)[k] in rows
    ensures RowidOf(rows, Conversation(rows, agent1, agent2)[k].id) == Some(Conversation(rows, agent1, agent2)[k].rowid)
    decreases |rows|
  {
    var init := rows[..|rows| - 1];
    var c := Conversation(init, agent1, agent2);
    if k < |c| {
      ConversationFromTable(init, agent1, agent2, k);
      var i :| 0 <= i < |init| && init[i] == c[k];
      assert rows[i].id != rows[|rows| - 1].id;
    }
  }

  lemma MessageOlderThanLast(rows: seq<Message>, agent1: string, agent2: string, k: nat)
    requires IsTable(rows) && rows != []
    requires k < |Conversation(rows[..|rows| - 1], agent1, agent2)|
    ensures Conversation(rows[..|rows| - 1], agent1, agent2)[k].rowid < rows[|rows| - 1].rowid
  {
    var init := rows[..|rows| - 1];
    ConversationFromTable(init, agent1, agent2, k);
    var i :| 0 <= i < |init| && init[i] == Conversation(init, agent1, agent2)[k];
    assert rows[i].rowid < rows[|rows| - 1].rowid;
  }

  /** The rows below the k-th message of the conversation are the first k. */
  lemma {:induction false} CursorCutsBelow(rows: seq<Message>, agent1: string, agent2: string, k: nat)
    requires IsTable(rows) && k < |Conversation(rows, agent1, agent2)|
    ensures var c := Conversation(rows, agent1, agent2);
            Select(rows, agent1, agent2, Below(c[k].rowid)) == c[..k]
    decreases |rows|
  {
    var init := rows[..|rows| - 1];
    if k < |Conversation(init, agent1, agent2)| {
      CursorCutsBelow(init, agent1, agent2, k);
      MessageOlderThanLast(rows, agent1, agent2, k);
    } else {
      AllBelow(init, agent1, agent2, rows[|rows| - 1].rowid);
    }
  }

  /** The rows above it are all those after it. */
  lemma {:induction false} CursorCutsAbove(rows: seq<Message>, agent1: string, agent2: string, k: nat)
    requires IsTable(rows) && k < |Conversation(rows, agent1, agent2)|
    ensures var c := Conversation(rows, agent1, agent2);
            Select(rows, agent1, agent2, Above(c[k].rowid)) == c[k + 1..]
    decreases |rows|
  {
    var init, last := rows[..|rows| - 1], rows[|rows| - 1];
    var c := Conversation(init, agent1, agent2);
    if k < |c| {
      CursorCutsAbove(init, agent1, agent2, k);
      MessageOlderThanLast(rows, agent1, agent2, k);
      assert (c + [last])[k + 1..] == c[k + 1..] + [last];
      assert Conversation(rows, agent1, agent2)[k] == c[k];
    } else {
      AllBelow(init, agent1, agent2, last.rowid);
    }
  }

  lemma {:induction false} AllBelow(rows: seq<Message>, agent1: string, agent2: string, r: int)
    requires forall i :: 0 <= i < |rows| ==> rows[i].rowid < r
    ensures Select(rows, agent1, agent2, Below(r)) == Conversation(rows, agent1, agent2)
    ensures Select(rows, agent1, agent2, Above(r)) == []
    decreases |rows|
  {
    if rows != [] {
      AllBelow(rows[..|rows| - 1], agent1, agent2, r);
    }
  }

  lemma IdCuts(rows: seq<Message>, agent1: string, agent2: string, k: nat)
    requires IsTable(rows) && k < |Conversation(rows, agent1, agent2)|
    ensures var c := Conversation(rows, agent1, agent2);
            && Select(rows, agent1, agent2, BoundBelow(rows, Some(c[k].id))) == c[..k]
            && Select(rows, agent1, agent2, BoundAbove(rows, Some(c[k].id))) == c[k + 1..]
  {
    ConversationFromTable(rows, agent1, agent2, k);
    CursorCutsBelow(rows, agent1, agent2, k);
    CursorCutsAbove(rows, agent1, agent2, k);
  }

  // ----- The forward page -----

  /** The conversation is cut before message k: the condition holds from there on, and not before. */
  predicate CutAt(conversation: seq<Message>, b: Bound, k: nat) {
    k <= |conversation| && forall i :: 0 <= i < |conversation| ==> (Within(conversation[i], b) <==> i >= k)
  }

  /** A page holds the first messages of the conversation above the cursor, as many as the limit allows. */
  ghost predicate IsForwardPage(rows: seq<Message>, agent1: string, agent2: string, after: Option<string>, limit: nat,
                                page: seq<Message>) {
    var c := Conversation(rows, agent1, agent2);
    exists k: nat :: CutAt(c, BoundAbove(rows, after), k) && page == Limited(c[k..], LimitOf(limit))
  }

  lemma {:induction false} SelectCuts(rows: seq<Message>, agent1: string, agent2: string, b: Bound) returns (k: nat)
    requires IsTable(rows) && !b.Below?
    ensures var c := Conversation(rows, agent1, agent2);
            CutAt(c, b, k) && Select(rows, agent1, agent2, b) == c[k..]
    decreases |rows|
  {
    k := 0;
    if rows != [] {
      var init, last := rows[..|rows| - 1], rows[|rows| - 1];
      k := SelectCuts(init, agent1, agent2, b);
      if Between(last, agent1, agent2) {
        if k < |Conversation(init, agent1, agent2)| {
          MessageOlderThanLast(rows, agent1, agent2, k);
        }
        k := CutMore(Conversation(init, agent1, agent2), last, b, k);
      }
    }
  }

  /** One message more, later than all others, at the end of a conversation that is cut before message k. */
  lemma CutMore(c: seq<Message>, last: Message, b: Bound, k: nat) returns (k': nat)
    requires CutAt(c, b, k) && !b.Below? && (k < |c| ==> c[k].rowid < last.rowid)
    ensures CutAt(c + [last], b, k')
    ensures (c + [last])[k'..] == c[k..] + if Within(last, b) then [last] else []
  {
    k' := if Within(last, b) then k else k + 1;
    assert (c + [last])[k'..] == c[k..] + if Within(last, b) then [last] else [];
  }

  lemma ForwardIsPage(rows: seq<Message>, agent1: string, agent2: string, after: Option<string>, limit: nat)
    requires IsTable(rows)
    ensures IsForwardPage(rows, agent1, agent2, after, limit, Forward(rows, agent1, agent2, after, limit))
  {
    var k := SelectCuts(rows, agent1, agent2, BoundAbove(rows, after));
  }

  // ----- A reader that pages -----

  /** A cursor the reader can hold: none, or the id of message k. It leaves k messages before it. */
  predicate CursorAt(rows: seq<Message>, agent1: string, agent2: string, cursor: Option<string>, k: nat) {
    var c := Conversation(rows, agent1, agent2);
    if cursor.None? then k == |c| else k < |c| && cursor.value == c[k].id
  }

  lemma CursorSelects(rows: seq<Message>, agent1: string, agent2: string, cursor: Option<string>, k: nat)
    requires IsTable(rows) && CursorAt(rows, agent1, agent2, cursor, k)
    ensures Select(rows, agent1, agent2, BoundBelow(rows, cursor)) == Conversation(rows, agent1, agent2)[..k]
  {
    if cursor.None? {
      SelectAny(rows, agent1, agent2);
    } else {
      IdCuts(rows, agent1, agent2, k);
    }
  }

  /** The limits that reach C as a positive int and leave room for the extra row. */
  predicate SoundLimit(limit: nat) {
    1 <= LimitOf(limit) < 0x7fff_ffff
  }

  /** With a sound limit a page is the newest messages before the cursor, as many as asked for, and has_more is set
      exactly when older ones remain. */
  lemma HasMoreIsExact(rows: seq<Message>, agent1: string, agent2: string, cursor: Option<string>, k: nat, limit: nat)
    requires IsTable(rows) && CursorAt(rows, agent1, agent2, cursor, k) && SoundLimit(limit)
    ensures var (page, more) := Latest(rows, agent1, agent2, cursor, limit);
            && page == Newest(Conversation(rows, agent1, agent2)[..k], LimitOf(limit))
            && (more <==> |page| < k)
            && (more ==> |page| == LimitOf(limit))
  {
    CursorSelects(rows, agent1, agent2, cursor, k);
    SoundPage(Conversation(rows, agent1, agent2)[..k], limit);
  }

  lemma SmallInt(n: nat)
    requires n < 0x8000_0000
    ensures ToInt(n) == n
  {
  }

  lemma OneMore(selected: seq<Message>, n: nat)
    requires |selected| > n
    ensures Newest(selected, n + 1)[1..] == Newest(selected, n)
  {
  }

  lemma SoundPage(selected: seq<Message>, limit: nat)
    requires SoundLimit(limit)
    ensures var (page, more) := PageOf(selected, limit);
            && page == Newest(selected, LimitOf(limit))
            && (more <==> |page| < |selected|)
            && (more ==> |page| == LimitOf(limit))
  {
    var n := LimitOf(limit);
    if |selected| > n {
      SmallInt(n + 1);
      OneMore(selected, n);
    } else {
      SmallInt(|selected|);
    }
  }

  /** The table at each call of a reader: between two calls messages may be sent, and none goes. */
  ghost predicate Growing(tables: nat -> seq<Message>) {
    && (forall i :: IsTable(tables(i)))
    && (forall i, j :: i <= j ==> tables(i) <= tables(j))
  }

  lemma {:induction false} ConversationGrows(rows: seq<Message>, more: seq<Message>, agent1: string, agent2: string)
    requires rows <= more
    ensures Conversation(rows, agent1, agent2) <= Conversation(more, agent1, agent2)
    decreases |more|
  {
    if rows != more {
      ConversationGrows(rows, more[..|more| - 1], agent1, agent2);
    } else {
      assert rows == more;
    }
  }

  /** A cursor at a message stays where it is when messages are sent. */
  lemma CursorStays(tables: nat -> seq<Message>, i: nat, j: nat, agent1: string, agent2: string, k: nat)
    requires Growing(tables) && i <= j && k < |Conversation(tables(i), agent1, agent2)|
    ensures var c, d := Conversation(tables(i), agent1, agent2), Conversation(tables(j), agent1, agent2);
            c <= d && CursorAt(tables(j), agent1, agent2, Some(c[k].id), k) && c[..k] == d[..k]
  {
    ConversationGrows(tables(i), tables(j), agent1, agent2);
  }

  type Page = (seq<Message>, bool)

  /** Pages fetched backwards from call i on, each put in front of the ones before it, until has_more is clear or a
      page has no first message to go on from. fuel bounds the number of calls. */
  function PageBack(ask: (nat, Option<string>) -> Page, i: nat, cursor: Option<string>, fuel: nat): seq<Message>
    decreases fuel
  {
    var (page, more) := ask(i, cursor);
    if !more || page == [] || fuel == 0 then page
    else PageBack(ask, i + 1, Some(page[0].id), fuel - 1) + page
  }

  function Asking(tables: nat -> seq<Message>, agent1: string, agent2: string, limit: nat)
    : (nat, Option<string>) -> Page
  {
    (i: nat, cursor: Option<string>) => Latest(tables(i), agent1, agent2, cursor, limit)
  }

  function Backwards(tables: nat -> seq<Message>, i: nat, agent1: string, agent2: string, cursor: Option<string>,
                     limit: nat, fuel: nat)
    : seq<Message>
  {
    PageBack(Asking(tables, agent1, agent2, limit), i, cursor, fuel)
  }

  /** A page is the last messages among the first k of c, as many as n, and says whether older ones remain. */
  predicate Exact(page: Page, c: seq<Message>, k: nat, n: nat)
    requires k <= |c|
  {
    && page.0 == Newest(c[..k], n)
    && (page.1 <==> |page.0| < k)
  }

  /** From call i on, whoever asks for what is before a message of c gets an exact page. */
  ghost predicate AllExact(ask: (nat, Option<string>) -> Page, i: nat, c: seq<Message>, n: nat) {
    forall j: nat, k: nat :: i <= j && k < |c| ==> Exact(ask(j, Some(c[k].id)), c, k, n)
  }

  lemma {:induction false} ExactPagesAreWhole(ask: (nat, Option<string>) -> Page, i: nat, c: seq<Message>, n: nat,
                                              cursor: Option<string>, k: nat, fuel: nat)
    requires n >= 1 && k <= |c| && fuel >= k && AllExact(ask, i, c, n) && Exact(ask(i, cursor), c, k, n)
    ensures PageBack(ask, i, cursor, fuel) == c[..k]
    decreases k
  {
    var (page, more) := ask(i, cursor);
    if more {
      var rest := k - |page|;
      assert page[0] == c[rest] && c[..k] == c[..rest] + page;
      assert Exact(ask(i + 1, Some(c[rest].id)), c, rest, n);
      ExactPagesAreWhole(ask, i + 1, c, n, Some(page[0].id), rest, fuel - 1);
    }
  }

  /** With a sound limit the pages put together are the conversation up to the cursor as it stood at the first call,
      whatever is sent between the calls, and no more than one call for each message is needed. */
  lemma BackwardsIsWhole(tables: nat -> seq<Message>, i: nat, agent1: string, agent2: string, cursor: Option<string>,
                         k: nat, limit: nat, fuel: nat)
    requires Growing(tables) && CursorAt(tables(i), agent1, agent2, cursor, k) && SoundLimit(limit) && fuel >= k
    ensures Backwards(tables, i, agent1, agent2, cursor, limit, fuel) == Conversation(tables(i), agent1, agent2)[..k]
  {
    var ask, c := Asking(tables, agent1, agent2, limit), Conversation(tables(i), agent1, agent2);
    HasMoreIsExact(tables(i), agent1, agent2, cursor, k, limit);
    forall j: nat, m: nat | i <= j && m < |c|
      ensures Exact(ask(j, Some(c[m].id)), c, m, LimitOf(limit))
    {
      CursorStays(tables, i, j, agent1, agent2, m);
      HasMoreIsExact(tables(j), agent1, agent2, Some(c[m].id), m, limit);
    }
    ExactPagesAreWhole(ask, i, c, LimitOf(limit), cursor, k, fuel);
  }

  /** With a limit that is not positive a page misses the first message that the query selects, or is empty. */
  lemma UnsoundPage(selected: seq<Message>, limit: nat)
    requires LimitOf(limit) < 1 && 0 < |selected| < 0x8000_0000
    ensures PageOf(selected, limit).0 == [] || PageOf(selected, limit).0 == selected[1..]
  {
  }

  lemma NothingAfterUnsoundPage(tables: nat -> seq<Message>, agent1: string, agent2: string, limit: nat, fuel: nat)
    requires Growing(tables) && LimitOf(limit) < 1 && |Conversation(tables(0), agent1, agent2)| > 1
    ensures var second := Conversation(tables(0), agent1, agent2)[1];
            Backwards(tables, 1, agent1, agent2, Some(second.id), limit, fuel) == []
  {
    var c := Conversation(tables(0), agent1, agent2);
    CursorStays(tables, 0, 1, agent1, agent2, 1);
    CursorSelects(tables(1), agent1, agent2, Some(c[1].id), 1);
    UnsoundPage(c[..1], limit);
  }

  lemma BackwardsStep(tables: nat -> seq<Message>, agent1: string, agent2: string, limit: nat, fuel: nat)
    ensures var (page, more) := Latest(tables(0), agent1, agent2, None, limit);
            Backwards(tables, 0, agent1, agent2, None, limit, fuel)
            == if !more || page == [] || fuel == 0 then page
               else Backwards(tables, 1, agent1, agent2, Some(page[0].id), limit, fuel - 1) + page
  {
  }

  /** A count that the C int turns into zero or a negative number breaks the paging: the pages never add up to a
      conversation that has anything in it. */
  lemma BackwardsNeedsPositiveLimit(tables: nat -> seq<Message>, agent1: string, agent2: string, limit: nat, fuel: nat)
    requires Growing(tables) && LimitOf(limit) < 1
    requires 0 < |Conversation(tables(0), agent1, agent2)| < 0x8000_0000
    ensures Backwards(tables, 0, agent1, agent2, None, limit, fuel) != Conversation(tables(0), agent1, agent2)
  {
    var c := Conversation(tables(0), agent1, agent2);
    CursorSelects(tables(0), agent1, agent2, None, |c|);
    assert c[..|c|] == c;
    UnsoundPage(c, limit);
    BackwardsStep(tables, agent1, agent2, limit, fuel);
    if |c| > 1 && fuel > 0 {
      NothingAfterUnsoundPage(tables, agent1, agent2, limit, fuel - 1);
    }
  }

  /** So backward paging reassembles the conversation as it stood at the first call, whatever is sent meanwhile, exactly
      when the limit is positive as a C int. */
  lemma BackwardsWholeIff(tables: nat -> seq<Message>, agent1: string, agent2: string, limit: nat)
    requires Growing(tables) && LimitOf(limit) != 0x7fff_ffff
    requires |Conversation(tables(0), agent1, agent2)| < 0x8000_0000
    ensures var c := Conversation(tables(0), agent1, agent2);
            Backwards(tables, 0, agent1, agent2, None, limit, |c|) == c <==> LimitOf(limit) >= 1 || c == []
  {
    var c := Conversation(tables(0), agent1, agent2);
    if LimitOf(limit) >= 1 {
      BackwardsIsWhole(tables, 0, agent1, agent2, None, |c|, limit, |c|);
      assert c[..|c|] == c;
    } else if c != [] {
      BackwardsNeedsPositiveLimit(tables, agent1, agent2, limit, |c|);
    } else {
      CursorSelects(tables(0), agent1, agent2, None, 0);
    }
  }

  lemma OneMessage(m: Message)
    ensures Conversation([m], m.sender, m.recipient) == [m] == [m][..1]
  {
    assert [m][..0] == [];
  }

  lemma LostPage(tables: nat -> seq<Message>, m: Message, limit: nat, fuel: nat)
    requires Growing(tables) && LimitOf(limit) < 1 && Conversation(tables(0), m.sender, m.recipient) == [m]
    ensures Backwards(tables, 0, m.sender, m.recipient, None, limit, fuel) == []
  {
    CursorSelects(tables(0), m.sender, m.recipient, None, 1);
    assert [m][..1] == [m];
    UnsoundPage([m], limit);
    BackwardsStep(tables, m.sender, m.recipient, limit, fuel);
  }

  /** A limit of 2^31, which is negative as a C int, and a conversation of one message: that is not handed out. */
  lemma LargeLimitLosesMessage(m: Message, fuel: nat) returns (tables: nat -> seq<Message>, limit: nat)
    ensures limit == 0x8000_0000 && Growing(tables)
    ensures Conversation(tables(0), m.sender, m.recipient) == [m]
    ensures Backwards(tables, 0, m.sender, m.recipient, None, limit, fuel) == []
  {
    tables, limit := _ => [m], 0x8000_0000;
    OneMessage(m);
    LostPage(tables, m, limit, fuel);
  }

  /** Pages fetched forwards, each from the last message of the one before, until one comes back empty. */
  function PageOn(ask: Option<string> -> seq<Message>, cursor: Option<string>, fuel: nat): seq<Message>
    decreases fuel
  {
    var page := ask(cursor);
    if page == [] || fuel == 0 then page else page + PageOn(ask, Some(page[|page| - 1].id), fuel - 1)
  }

  function Forwards(rows: seq<Message>, agent1: string, agent2: string, cursor: Option<string>, limit: nat, fuel: nat)
    : seq<Message>
  {
    PageOn((after: Option<string>) => Forward(rows, agent1, agent2, after, limit), cursor, fuel)
  }

  /** A page holds messages of c from one on, and some, unless there are none. */
  predicate First(page: seq<Message>, c: seq<Message>, from: nat) {
    from + |page| <= |c| && page == c[from..from + |page|] && (page == [] ==> from == |c|)
  }

  lemma LimitedIsFirst(c: seq<Message>, from: nat, n: int)
    requires n != 0 && from <= |c|
    ensures First(Limited(c[from..], n), c, from)
  {
  }

  /** Whoever asks for what is after a message of c gets the first of it. */
  ghost predicate AllFirst(ask: Option<string> -> seq<Message>, c: seq<Message>) {
    forall k: nat :: k < |c| ==> First(ask(Some(c[k].id)), c, k + 1)
  }

  lemma FirstThenRest(c: seq<Message>, from: nat, page: seq<Message>, rest: seq<Message>)
    requires First(page, c, from) && rest == c[from + |page|..]
    ensures page + rest == c[from..]
  {
  }

  lemma PageOnStep(ask: Option<string> -> seq<Message>, cursor: Option<string>, fuel: nat)
    returns (page: seq<Message>, whole: seq<Message>)
    ensures page == ask(cursor) && whole == PageOn(ask, cursor, fuel)
    ensures whole == if page == [] || fuel == 0 then page
                     else page + PageOn(ask, Some(page[|page| - 1].id), fuel - 1)
  {
    page, whole := ask(cursor), PageOn(ask, cursor, fuel);
  }

  /** Then the pages put together are all that comes after the cursor. */
  lemma {:induction false} PagesAreAll(ask: Option<string> -> seq<Message>, c: seq<Message>, cursor: Option<string>,
                                       from: nat, fuel: nat)
    requires AllFirst(ask, c) && First(ask(cursor), c, from) && fuel + from >= |c|
    ensures PageOn(ask, cursor, fuel) == c[from..]
    decreases fuel
  {
    var page, whole := PageOnStep(ask, cursor, fuel);
    if page != [] {
      var last := from + |page| - 1;
      assert page[|page| - 1] == c[last];
      PagesAreAll(ask, c, Some(c[last].id), last + 1, fuel - 1);
      FirstThenRest(c, from, page, c[last + 1..]);
    }
  }

  /** Forward paging gives the same messages in the same order, unless the limit reaches C as zero. */
  lemma ForwardsWholeIff(rows: seq<Message>, agent1: string, agent2: string, limit: nat)
    requires IsTable(rows)
    ensures var c := Conversation(rows, agent1, agent2);
            Forwards(rows, agent1, agent2, None, limit, |c|) == c <==> LimitOf(limit) != 0 || c == []
  {
    var c := Conversation(rows, agent1, agent2);
    var ask := (after: Option<string>) => Forward(rows, agent1, agent2, after, limit);
    SelectAny(rows, agent1, agent2);
    if LimitOf(limit) != 0 {
      assert c[0..] == c;
      LimitedIsFirst(c, 0, LimitOf(limit));
      forall k: nat | k < |c|
        ensures First(ask(Some(c[k].id)), c, k + 1)
      {
        IdCuts(rows, agent1, agent2, k);
        LimitedIsFirst(c, k + 1, LimitOf(limit));
      }
      PagesAreAll(ask, c, None, 0, |c|);
    } else {
      assert ask(None) == [];
    }
  }
}
