/** The in-memory list of pending authorizations, compacted and shifted in place (lib/db/oauth2_store.c). */
module OAuthStores {
  import opened Wrappers
  import opened Base64
  import opened OAuthPending

  datatype AuthRequest = AuthRequest(state: string, challenge: string)

  lemma SweepOneMore(s: seq<Pending>, i: nat, now: int)
    requires i < |s|
    ensures Sweep(s[..i + 1], now)
            == if now - s[i].createdAt < TTL then Sweep(s[..i], now) + [s[i]] else Sweep(s[..i], now)
  {
    assert s[..i + 1][..i] == s[..i];
    assert Sweep(s[..i], now) + [] == Sweep(s[..i], now);
  }

  class OAuthStore {
    var providers: seq<string>
    const redirectUri: Option<string>
    const pending: array<Pending>
    var pendingCount: nat
    /** Codes handed to a provider, in order. */
    var exchanged: seq<Exchange>

    ghost predicate Valid()
      reads this, pending
    {
      pending.Length == MAX_PENDING && pendingCount <= MAX_PENDING && |providers| <= MAX_PROVIDERS
    }

    ghost function Waiting(): seq<Pending>
      requires Valid()
      reads this, pending
    {
      pending[..pendingCount]
    }

    constructor (redirectUri: Option<string>)
      ensures Valid() && fresh(pending) && Waiting() == [] && providers == [] && exchanged == []
      ensures this.redirectUri == redirectUri
    {
      this.redirectUri := redirectUri;
      pending := new Pending[MAX_PENDING](_ => Pending("", "", "", "", 0));
      providers, pendingCount, exchanged := [], 0, [];
      new;
      assert pending[..0] == [];
    }

    method FindProvider(name: string) returns (found: bool)
      ensures found == (name in providers)
    {
      for i := 0 to |providers|
        invariant name !in providers[..i]
      {
        if providers[i] == name {
          return true;
        }
        assert providers[..i + 1] == providers[..i] + [providers[i]];
      }
      assert providers[..|providers|] == providers;
      return false;
    }

    method RegisterProvider(name: string) returns (rc: int)
      requires Valid()
      modifies this`providers
      ensures Valid() && Waiting() == old(Waiting())
      ensures providers == if |old(providers)| >= 8 || name in old(providers) then old(providers)
                           else old(providers) + [name]
      ensures rc == 0 <==> providers != old(providers)
    {
      if |providers| >= MAX_PROVIDERS {
        return -1;
      }
      var found := FindProvider(name);
      if found {
        return -1;
      }
      providers := providers + [name];
      return 0;
    }

    method ExpirePendingAuths(now: int)
      requires Valid()
      modifies pending, this`pendingCount
      ensures Valid() && Waiting() == Sweep(old(Waiting()), now)
    {
      ghost var before := Waiting();
      var writeIdx := 0;
      for i := 0 to pendingCount
        invariant writeIdx <= i && pendingCount == |before|
        invariant pending[..writeIdx] == Sweep(before[..i], now)
        invariant forall k :: i <= k < pendingCount ==> pending[k] == before[k]
      {
        ghost var kept := pending[..writeIdx];
        SweepOneMore(before, i, now);
        if now - pending[i].createdAt < TTL {
          if writeIdx != i {
            pending[writeIdx] := pending[i];
          }
          writeIdx := writeIdx + 1;
          assert pending[..writeIdx] == kept + [before[i]];
        }
      }
      assert before[..pendingCount] == before;
      pendingCount := writeIdx;
    }

    method FindPendingByState(state: string) returns (index: nat)
      requires Valid()
      ensures index == IndexOf(Waiting(), state)
    {
      for i := 0 to pendingCount
        invariant IndexOf(Waiting(), state) == i + IndexOf(Waiting()[i..], state)
      {
        if pending[i].state == state {
          return i;
        }
        assert Waiting()[i..][1..] == Waiting()[i + 1..];
      }
      assert Waiting()[pendingCount..] == [];
      return pendingCount;
    }

    method RemovePending(index: nat)
      requires Valid() && index < pendingCount
      modifies pending, this`pendingCount
      ensures Valid() && Waiting() == RemoveAt(old(Waiting()), index)
    {
      ghost var before := Waiting();
      for i := index to pendingCount - 1
        invariant pendingCount == |before|
        invariant forall k :: 0 <= k < index ==> pending[k] == before[k]
        invariant forall k :: index <= k < i ==> pending[k] == before[k + 1]
        invariant forall k :: i <= k < pendingCount ==> pending[k] == before[k]
      {
        pending[i] := pending[i + 1];
      }
      pendingCount := pendingCount - 1;
    }

    /** The end of oauth2_store_begin_auth: the flow takes the next free place. */
    method AddPending(p: Pending)
      requires Valid() && pendingCount < MAX_PENDING
      modifies pending, this`pendingCount
      ensures Valid() && Waiting() == old(Waiting()) + [p]
    {
      pending[pendingCount] := p;
      pendingCount := pendingCount + 1;
    }

    /** oauth2_store_begin_auth: what goes to the user, and the list with the new flow, or an error and the list as the
        sweep left it. */
    method BeginAuth(sha: seq<Byte> -> seq<Byte>, provider: string, c: Chance)
      returns (err: Error, request: Option<AuthRequest>)
      requires Valid()
      modifies pending, this`pendingCount
      ensures Valid() && (Waiting(), err) == Begin(providers, redirectUri, old(Waiting()), provider, c)
      ensures request == if err != Good then None
                         else Some(AuthRequest(UrlEncode(c.stateBytes.value), Challenge(sha, c.verifierBytes.value)))
    {
      request := None;
      var found := FindProvider(provider);
      if !found {
        return BadProvider, None;
      }
      ExpirePendingAuths(c.now);
      if pendingCount >= MAX_PENDING {
        return Storage, None;
      }
      if c.stateBytes.None? {
        return Invalid, None;
      }
      var state := UrlEncode(c.stateBytes.value);
      if c.verifierBytes.None? {
        return Invalid, None;
      }
      var verifier := UrlEncode(c.verifierBytes.value);
      if c.url.None? {
        return BadProvider, None;
      }
      if c.url.value >= MAX_URL {
        return Invalid, None;
      }
      AddPending(Pending(state, verifier, Truncated(provider, 64),
                         Truncated(if redirectUri.Some? then redirectUri.value else "", 512), c.later));
      return Good, Some(AuthRequest(state, Challenge(sha, c.verifierBytes.value)));
    }

    /** oauth2_store_complete_auth up to the provider's answer: the flow is removed once its code has been sent,
        whatever the answer; answer is what the exchange returns. */
    method CompleteAuth(state: string, code: string, now: int, answer: Error) returns (err: Error)
      requires Valid()
      modifies pending, this`pendingCount, this`exchanged
      ensures Valid()
      ensures var r := Complete(providers, old(Waiting()), state, now);
              && Waiting() == r.0
              && exchanged == (if r.1.None? then old(exchanged) else old(exchanged) + [ExchangeOf(r.1.value, code)])
              && err == (if r.1.None? then r.2 else answer)
    {
      ExpirePendingAuths(now);
      var index := FindPendingByState(state);
      if index == pendingCount {
        return NotFound;
      }
      var pa := pending[index];
      var found := FindProvider(pa.provider);
      if !found {
        return BadProvider;
      }
      exchanged := exchanged + [Exchange(pa.state, code, pa.verifier, pa.provider, pa.redirect)];
      RemovePending(index);
      return answer;
    }
  }
}
