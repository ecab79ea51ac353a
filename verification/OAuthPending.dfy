/** Authorization flows with PKCE waiting for their callback (lib/db/oauth2_store.c), after section 4 of RFC 7636.
    Random bytes, clock readings and the provider's answers are inputs. */
module OAuthPending {
  import opened Wrappers
  import opened Base64

  const MAX_PROVIDERS: nat := 8
  const MAX_PENDING: nat := 16
  const TTL: int := 300
  const MAX_URL: nat := 2048

  datatype Pending = Pending(state: string, verifier: string, provider: string, redirect: string, createdAt: int)

  datatype Error = Good | Invalid | BadProvider | NotFound | Storage

  /** snprintf into a buffer keeps what fits before the terminator. */
  function Truncated(s: string, size: nat): string
    requires size > 0
  {
    if |s| < size then s else s[..size - 1]
  }

  predicate Alive(p: Pending, now: int) {
    now - p.createdAt < TTL
  }

  /** The expiry sweep: what is younger than 300 s, in order. */
  function Sweep(s: seq<Pending>, now: int): (r: seq<Pending>)
    ensures |r| <= |s|
  {
    if s == [] then []
    else
      var p := s[|s| - 1];
      Sweep(s[..|s| - 1], now) + if Alive(p, now) then [p] else []
  }

  function IndexOf(s: seq<Pending>, state: string): (k: nat)
    ensures k <= |s| && (k < |s| ==> s[k].state == state) && forall j :: 0 <= j < k ==> s[j].state != state
  {
    if s == [] || s[0].state == state then 0 else 1 + IndexOf(s[1..], state)
  }

  function RemoveAt(s: seq<Pending>, k: nat): seq<Pending>
    requires k < |s|
  {
    s[..k] + s[k + 1..]
  }

  // ----- PKCE -----

  function Ascii(s: string): seq<Byte>
    requires forall k :: 0 <= k < |s| ==> s[k] as int < 256
  {
    seq(|s|, k requires 0 <= k < |s| => s[k] as int)
  }

  predicate UrlSafe(c: char) {
    'A' <= c <= 'Z' || 'a' <= c <= 'z' || '0' <= c <= '9' || c == '-' || c == '_'
  }

  lemma {:induction false} UrlEncodeIsSafe(b: seq<Byte>, k: nat)
    requires k < |UrlEncode(b)|
    ensures UrlSafe(UrlEncode(b)[k])
    decreases |b|
  {
    var head := if |b| > 3 then b[..3] else b;
    if k <= |head| {
      ValueOfSymbol(Sextets(head)[k]);
    } else {
      UrlEncodeIsSafe(b[3..], k - 4);
    }
  }

  /** A verifier made of 32 random bytes is one in the sense of section 4.1 of RFC 7636: 43 unreserved characters. */
  lemma VerifierIsValid(b: seq<Byte>)
    requires |b| == 32
    ensures |UrlEncode(b)| == 43 && forall k :: 0 <= k < 43 ==> UrlSafe(UrlEncode(b)[k])
  {
    forall k | 0 <= k < 43
      ensures UrlSafe(UrlEncode(b)[k])
    {
      UrlEncodeIsSafe(b, k);
    }
  }

  /** The S256 challenge of section 4.2, for a verifier that is the encoding of some bytes. */
  function Challenge(sha: seq<Byte> -> seq<Byte>, verifierBytes: seq<Byte>): string {
    var verifier := UrlEncode(verifierBytes);
    assert forall k :: 0 <= k < |verifier| ==> verifier[k] as int < 256 by {
      forall k | 0 <= k < |verifier|
        ensures verifier[k] as int < 256
      {
        UrlEncodeIsSafe(verifierBytes, k);
      }
    }
    UrlEncode(sha(Ascii(verifier)))
  }

  // ----- One call -----

  /** What a call of begin_auth meets: the random bytes (None: the generator fails), the length of the URL that the
      provider builds (None: it builds none), and the two clock readings. */
  datatype Chance = Chance(stateBytes: Option<seq<Byte>>, verifierBytes: Option<seq<Byte>>, url: Option<nat>,
                           now: int, later: int)

  predicate Drawn(c: Chance) {
    && (c.stateBytes.Some? ==> |c.stateBytes.value| == 16)
    && (c.verifierBytes.Some? ==> |c.verifierBytes.value| == 32)
  }

  function Redirect(uri: Option<string>): string {
    if uri.Some? then uri.value else ""
  }

  function NewPending(c: Chance, provider: string, uri: Option<string>): Pending
    requires c.stateBytes.Some? && c.verifierBytes.Some?
  {
    Pending(UrlEncode(c.stateBytes.value), UrlEncode(c.verifierBytes.value), Truncated(provider, 64),
            Truncated(Redirect(uri), 512), c.later)
  }

  function Begin(providers: seq<string>, uri: Option<string>, pending: seq<Pending>, provider: string, c: Chance)
    : (seq<Pending>, Error)
  {
    if provider !in providers then (pending, BadProvider)
    else
      var swept := Sweep(pending, c.now);
      if |swept| >= MAX_PENDING then (swept, Storage)
      else if c.stateBytes.None? || c.verifierBytes.None? then (swept, Invalid)
      else if c.url.None? then (swept, BadProvider)
      else if c.url.value >= MAX_URL then (swept, Invalid)
      else (swept + [NewPending(c, provider, uri)], Good)
  }

  /** The pending list after a call, and the flow whose code it exchanges. */
  function Complete(providers: seq<string>, pending: seq<Pending>, state: string, now: int)
    : (seq<Pending>, Option<Pending>, Error)
  {
    var swept := Sweep(pending, now);
    var k := IndexOf(swept, state);
    if k == |swept| then (swept, None, NotFound)
    else if swept[k].provider !in providers then (swept, None, BadProvider)
    else (RemoveAt(swept, k), Some(swept[k]), Good)
  }

  // ----- Runs -----

  /** A begun flow: what is kept of it, and what the user was sent to the provider with. */
  datatype Flow = Flow(kept: Pending, challenge: string, provider: string, redirect: string)

  datatype Exchange = Exchange(state: string, code: string, verifier: string, provider: string, redirect: string)

  /** The store, with the history of its calls: every flow begun, every code exchanged, the last expiry sweep and the
      last clock reading. */
  datatype World = World(providers: seq<string>, uri: Option<string>, pending: seq<Pending>, flows: seq<Flow>,
                         exchanged: seq<Exchange>, swept: int, clock: int)

  datatype Event =
    | Register(name: string)
    | BeginAuth(provider: string, chance: Chance)
    | CompleteAuth(state: string, code: string, now: int)

  function Start(uri: Option<string>, now: int): World {
    World([], uri, [], [], [], now, now)
  }

  predicate Unused(w: World, state: string) {
    forall k :: 0 <= k < |w.flows| ==> w.flows[k].kept.state != state
  }

  /** The clock does not go back, and a random state is one that was never drawn. */
  predicate Allowed(w: World, e: Event) {
    match e
    case Register(_) => true
    case BeginAuth(_, c) =>
      w.clock <= c.now <= c.later && Drawn(c)
      && (c.stateBytes.Some? ==> Unused(w, UrlEncode(c.stateBytes.value)))
    case CompleteAuth(_, _, now) => w.clock <= now
  }

  function FlowOf(sha: seq<Byte> -> seq<Byte>, w: World, provider: string, c: Chance): Flow
    requires c.stateBytes.Some? && c.verifierBytes.Some?
  {
    Flow(NewPending(c, provider, w.uri), Challenge(sha, c.verifierBytes.value), provider, Redirect(w.uri))
  }

  function StepBegin(sha: seq<Byte> -> seq<Byte>, w: World, provider: string, c: Chance): World {
    var (pending, err) := Begin(w.providers, w.uri, w.pending, provider, c);
    if provider !in w.providers then w
    else if err != Good then w.(pending := pending, swept := c.now, clock := c.now)
    else
      w.(pending := pending, flows := w.flows + [FlowOf(sha, w, provider, c)], swept := c.now, clock := c.later)
  }

  function ExchangeOf(p: Pending, code: string): Exchange {
    Exchange(p.state, code, p.verifier, p.provider, p.redirect)
  }

  function StepComplete(w: World, state: string, code: string, now: int): World {
    var (pending, sent, err) := Complete(w.providers, w.pending, state, now);
    w.(pending := pending, swept := now, clock := now,
       exchanged := if sent.None? then w.exchanged else w.exchanged + [ExchangeOf(sent.value, code)])
  }

  function Step(sha: seq<Byte> -> seq<Byte>, w: World, e: Event): World {
    match e
    case Register(name) =>
      if |w.providers| >= MAX_PROVIDERS || name in w.providers then w
      else w.(providers := w.providers + [name])
    case BeginAuth(provider, c) => StepBegin(sha, w, provider, c)
    case CompleteAuth(state, code, now) => StepComplete(w, state, code, now)
  }

  ghost predicate Reached(sha: seq<Byte> -> seq<Byte>, w: World, events: seq<Event>, end: World)
    decreases |events|
  {
    if events == [] then end == w
    else Allowed(w, events[0]) && Reached(sha, Step(sha, w, events[0]), events[1..], end)
  }

  // ----- What the list holds -----

  function Spent(exchanged: seq<Exchange>): set<string> {
    set k | 0 <= k < |exchanged| :: exchanged[k].state
  }

  /** The begun flows not yet exchanged, nor found 300 s old by a sweep, in begin order. */
  function Live(flows: seq<Flow>, spent: set<string>, swept: int): seq<Pending> {
    if flows == [] then []
    else
      var p := flows[|flows| - 1].kept;
      Live(flows[..|flows| - 1], spent, swept) + if p.state !in spent && Alive(p, swept) then [p] else []
  }

  predicate Distinct(flows: seq<Flow>) {
    forall j, k :: 0 <= j < k < |flows| ==> flows[j].kept.state != flows[k].kept.state
  }

  predicate Recorded(w: World) {
    && Distinct(w.flows)
    && w.swept <= w.clock
    && (forall k :: 0 <= k < |w.flows| ==> w.flows[k].kept.createdAt <= w.clock)
  }

  predicate PendingIsLive(w: World) {
    w.pending == Live(w.flows, Spent(w.exchanged), w.swept) && |w.pending| <= MAX_PENDING
  }

  lemma {:induction false} SweepOfLive(flows: seq<Flow>, spent: set<string>, before: int, now: int)
    requires before <= now
    ensures Sweep(Live(flows, spent, before), now) == Live(flows, spent, now)
    decreases |flows|
  {
    if flows != [] {
      var n := |flows| - 1;
      var p := flows[n].kept;
      var rest := Live(flows[..n], spent, before);
      SweepOfLive(flows[..n], spent, before, now);
      if p.state !in spent && Alive(p, before) {
        assert (rest + [p])[..|rest|] == rest;
      } else {
        assert rest + [] == rest;
      }
    }
  }

  lemma {:induction false} LiveFrom(flows: seq<Flow>, spent: set<string>, swept: int, k: nat)
    requires k < |Live(flows, spent, swept)|
    ensures var p := Live(flows, spent, swept)[k];
            p.state !in spent && Alive(p, swept) && exists j :: 0 <= j < |flows| && flows[j].kept == p
    decreases |flows|
  {
    var n := |flows| - 1;
    var p := flows[n].kept;
    if k < |Live(flows[..n], spent, swept)| {
      LiveFrom(flows[..n], spent, swept, k);
      var j :| 0 <= j < n && flows[..n][j].kept == Live(flows[..n], spent, swept)[k];
      assert flows[j].kept == Live(flows, spent, swept)[k];
    } else {
      assert flows[n].kept == Live(flows, spent, swept)[k];
    }
  }

  lemma {:induction false} LiveHas(flows: seq<Flow>, spent: set<string>, swept: int, j: nat)
    requires j < |flows| && flows[j].kept.state !in spent && Alive(flows[j].kept, swept)
    ensures flows[j].kept in Live(flows, spent, swept)
    decreases |flows|
  {
    var n := |flows| - 1;
    if j < n {
      LiveHas(flows[..n], spent, swept, j);
    }
  }

  lemma RemoveBeforeLast(s: seq<Pending>, p: Pending, k: nat)
    requires k < |s|
    ensures RemoveAt(s + [p], k) == RemoveAt(s, k) + [p]
  {
  }

  function Without(s: seq<Pending>, state: string): seq<Pending> {
    var k := IndexOf(s, state);
    if k < |s| then RemoveAt(s, k) else s
  }

  lemma WithoutAppend(s: seq<Pending>, p: Pending, state: string)
    requires p.state == state ==> IndexOf(s, state) == |s|
    ensures Without(s + [p], state) == if p.state == state then s else Without(s, state) + [p]
  {
    IndexOfAppend(s, p, state);
    var k := IndexOf(s, state);
    if k < |s| {
      RemoveBeforeLast(s, p, k);
    } else if p.state == state {
      assert RemoveAt(s + [p], |s|) == s;
    }
  }

  lemma LastIsNew(flows: seq<Flow>, spent: set<string>, swept: int)
    requires flows != [] && Distinct(flows)
    ensures var rest := Live(flows[..|flows| - 1], spent, swept);
            IndexOf(rest, flows[|flows| - 1].kept.state) == |rest|
  {
    var n := |flows| - 1;
    var rest := Live(flows[..n], spent, swept);
    forall k | 0 <= k < |rest|
      ensures rest[k].state != flows[n].kept.state
    {
      LiveFrom(flows[..n], spent, swept, k);
      var j :| 0 <= j < n && flows[..n][j].kept == rest[k];
      assert flows[j].kept == rest[k];
    }
  }

  lemma SpendsOne(rest: seq<Pending>, p: Pending, state: string, live: bool)
    requires IndexOf(rest, p.state) == |rest|
    ensures Without(rest + (if live then [p] else []), state)
            == Without(rest, state) + if live && p.state != state then [p] else []
  {
    WithoutAppend(rest, p, state);
    assert rest + [] == rest && Without(rest, state) + [] == Without(rest, state);
    if p.state == state {
      assert Without(rest, state) == rest;
    }
  }

  /** Spending the state of a live flow removes that flow and no other. */
  lemma {:induction false} LiveSpends(flows: seq<Flow>, spent: set<string>, swept: int, state: string)
    requires Distinct(flows)
    ensures Live(flows, spent + {state}, swept) == Without(Live(flows, spent, swept), state)
    decreases |flows|
  {
    if flows != [] {
      var n := |flows| - 1;
      var p := flows[n].kept;
      var rest := Live(flows[..n], spent, swept);
      LiveSpends(flows[..n], spent, swept, state);
      LastIsNew(flows, spent, swept);
      SpendsOne(rest, p, state, p.state !in spent && Alive(p, swept));
    }
  }

  lemma {:induction false} IndexOfAppend(s: seq<Pending>, p: Pending, state: string)
    ensures IndexOf(s, state) < |s| ==> IndexOf(s + [p], state) == IndexOf(s, state)
    ensures IndexOf(s, state) == |s| ==> IndexOf(s + [p], state) == if p.state == state then |s| else |s| + 1
  {
    if s != [] && s[0].state != state {
      assert (s + [p])[1..] == s[1..] + [p];
      IndexOfAppend(s[1..], p, state);
    }
  }

  lemma LiveAppend(flows: seq<Flow>, f: Flow, spent: set<string>, swept: int)
    requires f.kept.state !in spent && Alive(f.kept, swept)
    ensures Live(flows + [f], spent, swept) == Live(flows, spent, swept) + [f.kept]
  {
    assert (flows + [f])[..|flows|] == flows;
  }

  // ----- What is exchanged -----

  /** The exchange carries what its own begin_auth made: the verifier whose challenge went out with that state. */
  predicate Matches(x: Exchange, f: Flow) {
    && x.state == f.kept.state
    && x.verifier == f.kept.verifier
    && x.provider == Truncated(f.provider, 64)
    && x.redirect == Truncated(f.redirect, 512)
  }

  ghost predicate Made(sha: seq<Byte> -> seq<Byte>, f: Flow) {
    exists b: seq<Byte> :: |b| == 32 && f.kept.verifier == UrlEncode(b) && f.challenge == Challenge(sha, b)
  }

  ghost predicate FlowsMade(sha: seq<Byte> -> seq<Byte>, w: World) {
    forall k :: 0 <= k < |w.flows| ==>
                  && Made(sha, w.flows[k])
                  && w.flows[k].kept.provider == Truncated(w.flows[k].provider, 64)
                  && w.flows[k].kept.redirect == Truncated(w.flows[k].redirect, 512)
  }

  predicate HasFlow(flows: seq<Flow>, x: Exchange) {
    exists k :: 0 <= k < |flows| && Matches(x, flows[k])
  }

  predicate ExchangedOnce(w: World) {
    && (forall j, k :: 0 <= j < k < |w.exchanged| ==> w.exchanged[j].state != w.exchanged[k].state)
    && (forall k :: 0 <= k < |w.exchanged| ==> HasFlow(w.flows, w.exchanged[k]))
  }

  ghost predicate Inv(sha: seq<Byte> -> seq<Byte>, w: World) {
    Recorded(w) && PendingIsLive(w) && FlowsMade(sha, w) && ExchangedOnce(w)
  }

  lemma SpentIsBegun(w: World, state: string)
    requires ExchangedOnce(w) && state in Spent(w.exchanged)
    ensures !Unused(w, state)
  {
    var k :| 0 <= k < |w.exchanged| && w.exchanged[k].state == state;
    assert HasFlow(w.flows, w.exchanged[k]);
  }

  /** The world after a call that swept, and after one that began a flow or exchanged a code as well. */
  function Swept(w: World, pending: seq<Pending>, now: int): World {
    w.(pending := pending, swept := now, clock := now)
  }

  function Began(w: World, f: Flow, now: int): World {
    w.(pending := w.pending + [f.kept], flows := w.flows + [f], clock := now)
  }

  function Exchanged(w: World, pending: seq<Pending>, x: Exchange): World {
    w.(pending := pending, exchanged := w.exchanged + [x])
  }

  lemma SweepKeepsInv(sha: seq<Byte> -> seq<Byte>, w: World, now: int)
    requires Inv(sha, w) && w.clock <= now
    ensures Inv(sha, Swept(w, Sweep(w.pending, now), now))
  {
    SweepOfLive(w.flows, Spent(w.exchanged), w.swept, now);
  }

  lemma BeganRecorded(w: World, f: Flow, now: int)
    requires Recorded(w) && ExchangedOnce(w) && PendingIsLive(w) && |w.pending| < MAX_PENDING
    requires w.clock <= now == f.kept.createdAt && Unused(w, f.kept.state)
    ensures Recorded(Began(w, f, now)) && PendingIsLive(Began(w, f, now)) && ExchangedOnce(Began(w, f, now))
  {
    if f.kept.state in Spent(w.exchanged) {
      SpentIsBegun(w, f.kept.state);
    }
    LiveAppend(w.flows, f, Spent(w.exchanged), w.swept);
    var w' := Began(w, f, now);
    forall k | 0 <= k < |w'.exchanged|
      ensures HasFlow(w'.flows, w'.exchanged[k])
    {
      assert HasFlow(w.flows, w.exchanged[k]);
      var j :| 0 <= j < |w.flows| && Matches(w.exchanged[k], w.flows[j]);
      assert Matches(w'.exchanged[k], w'.flows[j]);
    }
  }

  lemma BeganMade(sha: seq<Byte> -> seq<Byte>, w: World, provider: string, c: Chance)
    requires FlowsMade(sha, w) && Drawn(c) && c.stateBytes.Some? && c.verifierBytes.Some?
    ensures FlowsMade(sha, Began(w, FlowOf(sha, w, provider, c), c.later))
  {
    var f := FlowOf(sha, w, provider, c);
    assert Made(sha, f);
  }

  lemma BeginKeepsInv(sha: seq<Byte> -> seq<Byte>, w: World, provider: string, c: Chance)
    requires Inv(sha, w) && Allowed(w, BeginAuth(provider, c))
    ensures Inv(sha, StepBegin(sha, w, provider, c))
  {
    if provider in w.providers {
      var v := Swept(w, Sweep(w.pending, c.now), c.now);
      SweepKeepsInv(sha, w, c.now);
      if Begin(w.providers, w.uri, w.pending, provider, c).1 == Good {
        var f := FlowOf(sha, w, provider, c);
        assert StepBegin(sha, w, provider, c) == Began(v, f, c.later);
        BeganRecorded(v, f, c.later);
        BeganMade(sha, v, provider, c);
      } else {
        assert StepBegin(sha, w, provider, c) == v;
      }
    }
  }

  lemma ExchangeRecorded(w: World, state: string, code: string)
    requires Recorded(w) && PendingIsLive(w) && ExchangedOnce(w) && IndexOf(w.pending, state) < |w.pending|
    requires HasFlow(w.flows, ExchangeOf(w.pending[IndexOf(w.pending, state)], code))
    ensures var k := IndexOf(w.pending, state);
            var w' := Exchanged(w, RemoveAt(w.pending, k), ExchangeOf(w.pending[k], code));
            Recorded(w') && PendingIsLive(w') && ExchangedOnce(w')
  {
    var spent := Spent(w.exchanged);
    var k := IndexOf(w.pending, state);
    var x := ExchangeOf(w.pending[k], code);
    LiveFrom(w.flows, spent, w.swept, k);
    LiveSpends(w.flows, spent, w.swept, state);
    SpentGrows(w.exchanged, x);
    var w' := Exchanged(w, RemoveAt(w.pending, k), x);
    forall i | 0 <= i < |w.exchanged|
      ensures w.exchanged[i].state != x.state
    {
      assert w.exchanged[i].state in spent;
    }
  }

  lemma ExchangeHasFlow(sha: seq<Byte> -> seq<Byte>, w: World, k: nat, code: string)
    requires PendingIsLive(w) && FlowsMade(sha, w) && k < |w.pending|
    ensures HasFlow(w.flows, ExchangeOf(w.pending[k], code))
  {
    LiveFrom(w.flows, Spent(w.exchanged), w.swept, k);
    var j :| 0 <= j < |w.flows| && w.flows[j].kept == w.pending[k];
    assert Matches(ExchangeOf(w.pending[k], code), w.flows[j]);
  }

  lemma CompleteKeepsInv(sha: seq<Byte> -> seq<Byte>, w: World, state: string, code: string, now: int)
    requires Inv(sha, w) && Allowed(w, CompleteAuth(state, code, now))
    ensures Inv(sha, StepComplete(w, state, code, now))
  {
    var v := Swept(w, Sweep(w.pending, now), now);
    SweepKeepsInv(sha, w, now);
    var k := IndexOf(v.pending, state);
    if Complete(w.providers, w.pending, state, now).1.Some? {
      ExchangeHasFlow(sha, v, k, code);
      ExchangeRecorded(v, state, code);
      assert StepComplete(w, state, code, now)
          == Exchanged(v, RemoveAt(v.pending, k), ExchangeOf(v.pending[k], code));
    } else {
      assert StepComplete(w, state, code, now) == v;
    }
  }

  lemma SpentGrows(exchanged: seq<Exchange>, x: Exchange)
    ensures Spent(exchanged + [x]) == Spent(exchanged) + {x.state}
  {
    var all := exchanged + [x];
    forall s | s in Spent(exchanged) + {x.state}
      ensures s in Spent(all)
    {
      if s == x.state {
        assert all[|exchanged|].state == s;
      } else {
        var k :| 0 <= k < |exchanged| && exchanged[k].state == s;
        assert all[k].state == s;
      }
    }
  }

  lemma RegisterKeepsInv(sha: seq<Byte> -> seq<Byte>, w: World, providers: seq<string>)
    requires Inv(sha, w)
    ensures Inv(sha, w.(providers := providers))
  {
    var v := w.(providers := providers);
    assert FlowsMade(sha, v) && ExchangedOnce(v);
  }

  lemma StepKeepsInv(sha: seq<Byte> -> seq<Byte>, w: World, e: Event)
    requires Inv(sha, w) && Allowed(w, e)
    ensures Inv(sha, Step(sha, w, e))
  {
    match e
    case Register(name) => RegisterKeepsInv(sha, w, Step(sha, w, e).providers);
    case BeginAuth(provider, c) => BeginKeepsInv(sha, w, provider, c);
    case CompleteAuth(state, code, now) => CompleteKeepsInv(sha, w, state, code, now);
  }

  lemma {:induction false} RunKeepsInv(sha: seq<Byte> -> seq<Byte>, w: World, events: seq<Event>, end: World)
    requires Inv(sha, w) && Reached(sha, w, events, end)
    ensures Inv(sha, end)
    decreases |events|
  {
    if events != [] {
      StepKeepsInv(sha, w, events[0]);
      RunKeepsInv(sha, Step(sha, w, events[0]), events[1..], end);
    }
  }

  lemma StartInv(sha: seq<Byte> -> seq<Byte>, uri: Option<string>, now: int)
    ensures Inv(sha, Start(uri, now))
  {
  }

  /** In every run with a clock that does not go back and fresh states, the list is exactly the begun flows that are
      neither exchanged nor found too old by a sweep, in begin order, at most 16. */
  lemma PendingIsBegunNotDone(sha: seq<Byte> -> seq<Byte>, uri: Option<string>, now: int, events: seq<Event>, w: World)
    requires Reached(sha, Start(uri, now), events, w)
    ensures w.pending == Live(w.flows, Spent(w.exchanged), w.swept) && |w.pending| <= 16
  {
    RunInv(sha, uri, now, events, w);
  }

  /** The provider's check of section 4.6: the hash of the verifier's characters is the challenge it was sent. */
  ghost predicate Accepts(sha: seq<Byte> -> seq<Byte>, verifier: string, challenge: string) {
    && |verifier| == 43 && (forall k :: 0 <= k < |verifier| ==> verifier[k] as int < 256)
    && challenge == UrlEncode(sha(Ascii(verifier)))
  }

  lemma MadeIsAccepted(sha: seq<Byte> -> seq<Byte>, f: Flow)
    requires Made(sha, f)
    ensures Accepts(sha, f.kept.verifier, f.challenge)
  {
    var b: seq<Byte> :| |b| == 32 && f.kept.verifier == UrlEncode(b) && f.challenge == Challenge(sha, b);
    VerifierIsValid(b);
  }

  /** Each state reaches code exchange at most once, with the verifier whose S256 challenge was sent out with it. */
  lemma OwnVerifierOnce(sha: seq<Byte> -> seq<Byte>, uri: Option<string>, now: int, events: seq<Event>, w: World,
                        k: nat)
    requires Reached(sha, Start(uri, now), events, w) && k < |w.exchanged|
    ensures forall j :: 0 <= j < |w.exchanged| && j != k ==> w.exchanged[j].state != w.exchanged[k].state
    ensures exists i :: 0 <= i < |w.flows| && Matches(w.exchanged[k], w.flows[i])
                        && Accepts(sha, w.exchanged[k].verifier, w.flows[i].challenge)
  {
    RunInv(sha, uri, now, events, w);
    forall i | 0 <= i < |w.flows|
      ensures Accepts(sha, w.flows[i].kept.verifier, w.flows[i].challenge)
    {
      MadeIsAccepted(sha, w.flows[i]);
    }
    assert HasFlow(w.flows, w.exchanged[k]);
  }

  /** A begun flow gets its code exchanged by the next callback for its state exactly when it has not been exchanged
      before, is still younger than 300 s, and its provider's name, cut to 63 characters, is a registered one. */
  lemma ExchangedIff(sha: seq<Byte> -> seq<Byte>, w: World, k: nat, code: string, now: int)
    requires Inv(sha, w) && k < |w.flows| && Allowed(w, CompleteAuth(w.flows[k].kept.state, code, now))
    ensures var f := w.flows[k].kept;
            |Step(sha, w, CompleteAuth(f.state, code, now)).exchanged| > |w.exchanged|
            <==> f.state !in Spent(w.exchanged) && now - f.createdAt < 300
                 && var name := w.flows[k].provider;
                    (if |name| < 64 then name else name[..63]) in w.providers
  {
    SweepOfLive(w.flows, Spent(w.exchanged), w.swept, now);
    LiveIff(w.flows, Spent(w.exchanged), now, k);
  }

  lemma LiveIff(flows: seq<Flow>, spent: set<string>, now: int, k: nat)
    requires Distinct(flows) && k < |flows|
    ensures var f, live := flows[k].kept, Live(flows, spent, now);
            var i := IndexOf(live, f.state);
            && (i < |live| <==> f.state !in spent && Alive(f, now))
            && (i < |live| ==> live[i] == f)
  {
    var f, live := flows[k].kept, Live(flows, spent, now);
    var i := IndexOf(live, f.state);
    if i < |live| {
      LiveFrom(flows, spent, now, i);
      var j :| 0 <= j < |flows| && flows[j].kept == live[i];
      assert j == k;
    }
    if f.state !in spent && Alive(f, now) {
      LiveHas(flows, spent, now, k);
      IndexOfPresent(live, f);
    }
  }

  lemma {:induction false} IndexOfPresent(s: seq<Pending>, p: Pending)
    requires p in s
    ensures IndexOf(s, p.state) < |s|
  {
    if s[0].state != p.state {
      IndexOfPresent(s[1..], p);
    }
  }

  /** In every run, an exchange goes to the provider that the flow of its state began with, and with its redirect URI,
      exactly when those texts fit in their buffers. */
  lemma SentAsBegunIff(sha: seq<Byte> -> seq<Byte>, uri: Option<string>, now: int, events: seq<Event>, w: World,
                       k: nat, i: nat)
    requires Reached(sha, Start(uri, now), events, w) && k < |w.exchanged| && i < |w.flows|
    requires w.flows[i].kept.state == w.exchanged[k].state
    ensures w.exchanged[k].provider == w.flows[i].provider <==> |w.flows[i].provider| < 64
    ensures w.exchanged[k].redirect == w.flows[i].redirect <==> |w.flows[i].redirect| < 512
  {
    OwnVerifierOnce(sha, uri, now, events, w, k);
    RunInv(sha, uri, now, events, w);
    var j :| 0 <= j < |w.flows| && Matches(w.exchanged[k], w.flows[j]);
    assert j == i;
  }

  lemma RunInv(sha: seq<Byte> -> seq<Byte>, uri: Option<string>, now: int, events: seq<Event>, w: World)
    requires Reached(sha, Start(uri, now), events, w)
    ensures Inv(sha, w)
  {
    StartInv(sha, uri, now);
    RunKeepsInv(sha, Start(uri, now), events, w);
  }

  lemma ReachedFour(sha: seq<Byte> -> seq<Byte>, w: World, a: Event, b: Event, c: Event, d: Event)
    returns (events: seq<Event>, end: World)
    requires Allowed(w, a) && Allowed(Step(sha, w, a), b)
    requires Allowed(Step(sha, Step(sha, w, a), b), c)
    requires Allowed(Step(sha, Step(sha, Step(sha, w, a), b), c), d)
    ensures end == Step(sha, Step(sha, Step(sha, Step(sha, w, a), b), c), d) && Reached(sha, w, events, end)
  {
    events := [a, b, c, d];
    var u := Step(sha, Step(sha, w, a), b);
    end := Step(sha, Step(sha, u, c), d);
    assert events[1..] == [b, c, d] && events[1..][1..] == [c, d];
    assert events[1..][1..][1..] == [d] && events[1..][1..][1..][1..] == [];
    assert Reached(sha, end, [], end);
    assert Reached(sha, Step(sha, u, c), [d], end);
    assert Reached(sha, u, [c, d], end);
    assert Reached(sha, Step(sha, w, a), [b, c, d], end);
  }

  /** A flow that is begun and called back at once, in a store without flows. */
  lemma BegunAndExchanged(sha: seq<Byte> -> seq<Byte>, u: World, name: string, c: Chance, code: string)
    returns (v: World, w: World)
    requires c.stateBytes.Some? && c.verifierBytes.Some? && Drawn(c) && c.url == Some(0)
    requires c.now == c.later == u.clock && u.pending == [] && u.flows == [] && u.exchanged == []
    requires name in u.providers && Truncated(name, 64) in u.providers
    ensures Allowed(u, BeginAuth(name, c)) && v == Step(sha, u, BeginAuth(name, c))
    ensures var callback := CompleteAuth(UrlEncode(c.stateBytes.value), code, c.now);
            Allowed(v, callback) && w == Step(sha, v, callback)
    ensures |w.flows| == |w.exchanged| == 1
    ensures w.flows[0].provider == name && w.exchanged[0].provider == Truncated(name, 64)
  {
    v := Step(sha, u, BeginAuth(name, c));
    w := Step(sha, v, CompleteAuth(UrlEncode(c.stateBytes.value), code, c.now));
    var p := NewPending(c, name, u.uri);
    assert v.pending == [p] && [p][..0] == [];
    assert Sweep([p], c.now) == [p];
  }

  /** A provider name of 64 characters and its first 63 are both registered: a flow begun with the longer one is
      exchanged with the other. */
  lemma CutNameIsExchanged(sha: seq<Byte> -> seq<Byte>, uri: Option<string>, now: int, c: Chance, code: string)
    returns (events: seq<Event>, end: World)
    requires c.stateBytes.Some? && c.verifierBytes.Some? && Drawn(c) && c.url == Some(0) && c.now == c.later == now
    ensures Reached(sha, Start(uri, now), events, end) && |end.flows| == |end.exchanged| == 1
    ensures |end.flows[0].provider| == 64 && end.exchanged[0].provider == end.flows[0].provider[..63]
  {
    var name: string := seq(64, _ => 'p');
    var cut := name[..63];
    var u := Start(uri, now).(providers := [name, cut]);
    assert [] + [name] == [name] && [name] + [cut] == [name, cut] && cut != name;
    assert Step(sha, Step(sha, Start(uri, now), Register(name)), Register(cut)) == u;
    var v, w := BegunAndExchanged(sha, u, name, c, code);
    events, end := ReachedFour(sha, Start(uri, now), Register(name), Register(cut), BeginAuth(name, c),
                               CompleteAuth(UrlEncode(c.stateBytes.value), code, c.now));
  }

  /** A call of begin_auth begins a flow exactly when its provider is registered, fewer than 16 flows are left after the
      sweep, both random draws succeed, and the provider builds a URL of less than 2048 characters. */
  lemma BeginsIff(sha: seq<Byte> -> seq<Byte>, w: World, provider: string, c: Chance)
    requires Inv(sha, w) && Allowed(w, BeginAuth(provider, c))
    ensures |Step(sha, w, BeginAuth(provider, c)).flows| == |w.flows| + 1
            <==> provider in w.providers && |Live(w.flows, Spent(w.exchanged), c.now)| < 16
                 && c.stateBytes.Some? && c.verifierBytes.Some? && c.url.Some? && c.url.value < 2048
  {
    SweepOfLive(w.flows, Spent(w.exchanged), w.swept, c.now);
    BeginIsGoodIff(w.providers, w.uri, w.pending, provider, c);
  }

  /** Why a flow is not begun. */
  lemma RefusalMeans(providers: seq<string>, uri: Option<string>, pending: seq<Pending>, provider: string, c: Chance)
    ensures var err := Begin(providers, uri, pending, provider, c).1;
            var full := |Sweep(pending, c.now)| >= 16;
            var drawn := c.stateBytes.Some? && c.verifierBytes.Some?;
            && (err == BadProvider <==> provider !in providers || (!full && drawn && c.url.None?))
            && (err == Storage <==> provider in providers && full)
            && (err == Invalid <==>
                provider in providers && !full && (!drawn || (c.url.Some? && c.url.value >= 2048)))
  {
  }

  lemma BeginIsGoodIff(providers: seq<string>, uri: Option<string>, pending: seq<Pending>, provider: string, c: Chance)
    ensures Begin(providers, uri, pending, provider, c).1 == Good
            <==> provider in providers && |Sweep(pending, c.now)| < 16
                 && c.stateBytes.Some? && c.verifierBytes.Some? && c.url.Some? && c.url.value < 2048
  {
  }

  /** A flow that was just begun leads to an exchange by the next callback for its state exactly within 300 s of its
      begin and if the name it is kept under is registered; the exchange then carries the code, that state, the
      verifier drawn for it, and as much of the provider's name and the redirect URI as their buffers hold. */
  lemma BegunFlowIsExchangedIff(sha: seq<Byte> -> seq<Byte>, w: World, provider: string, c: Chance, code: string,
                                now: int)
    requires Inv(sha, w) && Allowed(w, BeginAuth(provider, c)) && c.later <= now
    requires |Step(sha, w, BeginAuth(provider, c)).flows| == |w.flows| + 1
    ensures c.stateBytes.Some? && c.verifierBytes.Some?
    ensures var state := UrlEncode(c.stateBytes.value);
            var u := Step(sha, w, BeginAuth(provider, c));
            var v := Step(sha, u, CompleteAuth(state, code, now));
            if now - c.later < 300 && (if |provider| < 64 then provider else provider[..63]) in w.providers
            then
              |v.exchanged| == |w.exchanged| + 1
              && (var x := v.exchanged[|w.exchanged|];
                  && x.state == state && x.code == code && x.verifier == UrlEncode(c.verifierBytes.value)
                  && x.provider == (if |provider| < 64 then provider else provider[..63])
                  && x.redirect == match w.uri
                                   case None => ""
                                   case Some(uri) => if |uri| < 512 then uri else uri[..511])
            else v.exchanged == w.exchanged
  {
    var u := Step(sha, w, BeginAuth(provider, c));
    BeginKeepsInv(sha, w, provider, c);
    assert u.flows[|w.flows|] == FlowOf(sha, w, provider, c);
    BegunIsUnspent(sha, w, provider, c);
    ExchangedIff(sha, u, |w.flows|, code, now);
    ExchangeIsOf(sha, u, |w.flows|, code, now);
  }

  /** An exchange that a callback for a flow's state leads to is of that flow. */
  lemma ExchangeIsOf(sha: seq<Byte> -> seq<Byte>, w: World, k: nat, code: string, now: int)
    requires Inv(sha, w) && k < |w.flows| && Allowed(w, CompleteAuth(w.flows[k].kept.state, code, now))
    ensures var v := Step(sha, w, CompleteAuth(w.flows[k].kept.state, code, now));
            v.exchanged == w.exchanged || v.exchanged == w.exchanged + [ExchangeOf(w.flows[k].kept, code)]
  {
    SweepOfLive(w.flows, Spent(w.exchanged), w.swept, now);
    LiveIff(w.flows, Spent(w.exchanged), now, k);
  }

  lemma BegunIsUnspent(sha: seq<Byte> -> seq<Byte>, w: World, provider: string, c: Chance)
    requires Inv(sha, w) && Allowed(w, BeginAuth(provider, c)) && c.stateBytes.Some?
    ensures UrlEncode(c.stateBytes.value) !in Spent(w.exchanged)
  {
    if UrlEncode(c.stateBytes.value) in Spent(w.exchanged) {
      SpentIsBegun(w, UrlEncode(c.stateBytes.value));
    }
  }
}
