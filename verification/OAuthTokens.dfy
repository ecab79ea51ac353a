/** Stored tokens with refresh and rotation (lib/db/oauth2_store.c). The cipher is a pair of inverse functions; clock
    readings, initialization vectors, the provider's answers and the success of writes are inputs. */
module OAuthTokens {
  import opened Wrappers
  import opened Base64
  import OAuthPending

  const MAX_TOKEN: nat := 2048
  const ROW_TEXT: nat := 4096
  const MARGIN: int := 60
  const IV_LEN: nat := 12
  const TAG_LEN: nat := 16

  // ----- Encryption -----

  /** Authenticated encryption under the derived key; seal gives the ciphertext with its tag. */
  datatype Cipher =
    Cipher(seal: (seq<Byte>, seq<Byte>) -> seq<Byte>, unseal: (seq<Byte>, seq<Byte>) -> Option<seq<Byte>>)

  ghost predicate Sound(c: Cipher) {
    forall iv: seq<Byte>, p: seq<Byte> ::
      |c.seal(iv, p)| == |p| + TAG_LEN && c.unseal(iv, c.seal(iv, p)) == Some(p)
  }

  ghost predicate SoundMode(mode: Option<Cipher>) {
    mode.Some? ==> Sound(mode.value)
  }

  /** What a 2048-byte buffer can hold as a C string. */
  predicate Token(t: string) {
    |t| < MAX_TOKEN && forall k :: 0 <= k < |t| ==> 0 < t[k] as int < 256
  }

  function ToBytes(t: string): (b: seq<Byte>)
    requires Token(t)
    ensures |b| == |t|
  {
    seq(|t|, k requires 0 <= k < |t| => t[k] as int)
  }

  function FromBytes(b: seq<Byte>): (t: string)
    ensures |t| == |b|
  {
    seq(|b|, k requires 0 <= k < |b| => b[k] as char)
  }

  function Protect(mode: Option<Cipher>, iv: seq<Byte>, t: string): string
    requires Token(t)
  {
    if mode.None? then t else Encode(iv + mode.value.seal(iv, ToBytes(t)))
  }

  /** decrypt_token, into a buffer of 2048 bytes. */
  function Decrypt(c: Cipher, text: string): Option<string> {
    var raw := Decode(text);
    if raw.None? || |raw.value| < IV_LEN + TAG_LEN then None
    else if |raw.value| - IV_LEN - TAG_LEN + 1 > MAX_TOKEN then None
    else
      var plain := c.unseal(raw.value[..IV_LEN], raw.value[IV_LEN..]);
      if plain.None? then None else Some(FromBytes(plain.value))
  }

  lemma SealedOpens(c: Cipher, iv: seq<Byte>, plain: seq<Byte>)
    requires Sound(c) && |iv| == IV_LEN
    ensures var raw := iv + c.seal(iv, plain);
            && Decode(Encode(raw)) == Some(raw) && |raw| == IV_LEN + TAG_LEN + |plain|
            && c.unseal(raw[..IV_LEN], raw[IV_LEN..]) == Some(plain)
  {
    var sealed := c.seal(iv, plain);
    DecodeEncode(iv + sealed);
    assert (iv + sealed)[..IV_LEN] == iv && (iv + sealed)[IV_LEN..] == sealed;
  }

  lemma EncodedLength(raw: seq<Byte>)
    requires 0 < |raw| < IV_LEN + TAG_LEN + MAX_TOKEN
    ensures 0 < |Encode(raw)| <= 2768
  {
  }

  /** An encrypted token is short enough for the 4096-byte column buffer, and decrypts to itself. */
  lemma ProtectedFits(c: Cipher, iv: seq<Byte>, t: string)
    requires Sound(c) && |iv| == IV_LEN && Token(t)
    ensures var text := Protect(Some(c), iv, t);
            && 0 < |text| <= 2768 < ROW_TEXT
            && OAuthPending.Truncated(text, ROW_TEXT) == text
            && Decrypt(c, text) == Some(t)
            && Decode(text) == Some(iv + c.seal(iv, ToBytes(t)))
  {
    SealedOpens(c, iv, ToBytes(t));
    assert FromBytes(ToBytes(t)) == t;
    EncodedLength(iv + c.seal(iv, ToBytes(t)));
  }

  // ----- Rows and sessions -----

  datatype Row = Row(access: string, refresh: string, expiresAt: int)

  /** What a row stands for. */
  datatype Session = Session(access: string, refresh: string, expiresAt: int)

  predicate SessionOk(s: Session) {
    Token(s.access) && Token(s.refresh)
  }

  /** map_token_row: the columns pass through 4096-byte buffers. */
  function ReadRow(row: Row): Row {
    Row(OAuthPending.Truncated(row.access, ROW_TEXT), OAuthPending.Truncated(row.refresh, ROW_TEXT), row.expiresAt)
  }

  /** load_and_decrypt_tokens. */
  function Load(mode: Option<Cipher>, row: Row): Option<Session> {
    if mode.Some? then
      var access := Decrypt(mode.value, row.access);
      var refresh := if row.refresh == "" then Some("") else Decrypt(mode.value, row.refresh);
      if access.None? || refresh.None? then None else Some(Session(access.value, refresh.value, row.expiresAt))
    else if |row.access| >= MAX_TOKEN then None
    else Some(Session(row.access, if |row.refresh| < MAX_TOKEN then row.refresh else "", row.expiresAt))
  }

  /** The row holds the session, whichever way its columns were written. */
  predicate Holds(mode: Option<Cipher>, row: Row, s: Session) {
    SessionOk(s) && Load(mode, ReadRow(row)) == Some(s)
  }

  lemma SavedHolds(mode: Option<Cipher>, s: Session, ivA: seq<Byte>, ivR: seq<Byte>)
    requires SoundMode(mode) && SessionOk(s) && |ivA| == IV_LEN && |ivR| == IV_LEN
    ensures Holds(mode, Row(Protect(mode, ivA, s.access), Protect(mode, ivR, s.refresh), s.expiresAt), s)
  {
    if mode.Some? {
      ProtectedFits(mode.value, ivA, s.access);
      ProtectedFits(mode.value, ivR, s.refresh);
    }
  }

  lemma KeptHolds(mode: Option<Cipher>, row: Row, s: Session, access: string, ivA: seq<Byte>, expiresAt: int)
    requires SoundMode(mode) && Holds(mode, row, s) && Token(access) && |ivA| == IV_LEN
    ensures Holds(mode, Row(Protect(mode, ivA, access), row.refresh, expiresAt), Session(access, s.refresh, expiresAt))
  {
    if mode.Some? {
      ProtectedFits(mode.value, ivA, access);
    }
  }

  // ----- Calls -----

  datatype Key = Key(provider: string, account: string)

  datatype Grant = Grant(access: string, refresh: string, expiresIn: int)

  /** saved is false when encryption or the write of a row fails. */
  datatype Write = Write(ivA: seq<Byte>, ivR: seq<Byte>, saved: bool)

  datatype Event =
    | Login(key: Key, grant: Grant, now: int, write: Write)
    | Fetch(key: Key, now: int, canRefresh: bool, answer: Option<Grant>, later: int, write: Write)
    | Revoke(key: Key, deleted: bool)

  datatype Status = Ok | NotFound | BadProvider | Expired | StorageError

  /** What a fetch gives, and the refresh token it sends, if it sends one. */
  datatype Answer = Answer(status: Status, token: string, expiresAt: int, request: Option<string>)

  function Refused(status: Status): Answer {
    Answer(status, "", 0, None)
  }

  predicate GrantOk(g: Grant) {
    Token(g.access) && Token(g.refresh)
  }

  predicate EventOk(e: Event) {
    match e
    case Login(_, g, _, w) => GrantOk(g) && |w.ivA| == IV_LEN && |w.ivR| == IV_LEN
    case Fetch(_, _, _, answer, _, w) =>
      (answer.Some? ==> GrantOk(answer.value)) && |w.ivA| == IV_LEN && |w.ivR| == IV_LEN
    case Revoke(_, _) => true
  }

  /** do_refresh_and_store on the row a fetch has loaded. */
  function RefreshRow(mode: Option<Cipher>, row: Row, s: Session, e: Event): (Answer, Row)
    requires e.Fetch? && EventOk(e)
  {
    if !e.canRefresh then (Refused(BadProvider), row)
    else if e.answer.None? then (Refused(Expired).(request := Some(s.refresh)), row)
    else if !e.write.saved then (Refused(StorageError).(request := Some(s.refresh)), row)
    else
      var g := e.answer.value;
      var expiresAt := e.later + g.expiresIn;
      var refresh := if g.refresh != "" then Protect(mode, e.write.ivR, g.refresh) else row.refresh;
      (Answer(Ok, g.access, expiresAt, Some(s.refresh)), Row(Protect(mode, e.write.ivA, g.access), refresh, expiresAt))
  }

  function FetchLoaded(mode: Option<Cipher>, row: Row, loaded: Option<Session>, e: Event): (Answer, Row)
    requires e.Fetch? && EventOk(e)
  {
    match loaded
    case None => (Refused(StorageError), row)
    case Some(s) =>
      if s.expiresAt > e.now + MARGIN then (Answer(Ok, s.access, s.expiresAt, None), row)
      else if s.refresh == "" then (Refused(Expired), row)
      else RefreshRow(mode, row, s, e)
  }

  function FetchRow(mode: Option<Cipher>, row: Row, e: Event): (Answer, Row)
    requires e.Fetch? && EventOk(e)
  {
    FetchLoaded(mode, row, Load(mode, ReadRow(row)), e)
  }

  function LoginRow(mode: Option<Cipher>, e: Event): Row
    requires e.Login? && EventOk(e)
  {
    Row(Protect(mode, e.write.ivA, e.grant.access), Protect(mode, e.write.ivR, e.grant.refresh),
        e.now + e.grant.expiresIn)
  }

  function StepRows(mode: Option<Cipher>, rows: map<Key, Row>, e: Event): (map<Key, Row>, Answer)
    requires EventOk(e)
  {
    match e
    case Login(key, _, _, w) =>
      if w.saved then (rows[key := LoginRow(mode, e)], Refused(Ok)) else (rows, Refused(StorageError))
    case Fetch(key, _, _, _, _, _) =>
      if key !in rows then (rows, Refused(NotFound))
      else
        var r := FetchRow(mode, rows[key], e);
        (rows[key := r.1], r.0)
    case Revoke(key, deleted) => if deleted then (rows - {key}, Refused(Ok)) else (rows, Refused(StorageError))
  }

  // ----- The same store without encryption, buffers or rows -----

  function FetchSession(s: Session, e: Event): (Answer, Session)
    requires e.Fetch?
  {
    if s.expiresAt > e.now + MARGIN then (Answer(Ok, s.access, s.expiresAt, None), s)
    else if s.refresh == "" then (Refused(Expired), s)
    else if !e.canRefresh then (Refused(BadProvider), s)
    else if e.answer.None? then (Refused(Expired).(request := Some(s.refresh)), s)
    else if !e.write.saved then (Refused(StorageError).(request := Some(s.refresh)), s)
    else
      var g := e.answer.value;
      (Answer(Ok, g.access, e.later + g.expiresIn, Some(s.refresh)),
       Session(g.access, if g.refresh != "" then g.refresh else s.refresh, e.later + g.expiresIn))
  }

  function LoginSession(e: Event): Session
    requires e.Login?
  {
    Session(e.grant.access, e.grant.refresh, e.now + e.grant.expiresIn)
  }

  function StepSessions(sessions: map<Key, Session>, e: Event): (map<Key, Session>, Answer) {
    match e
    case Login(key, _, _, w) =>
      if w.saved then (sessions[key := LoginSession(e)], Refused(Ok)) else (sessions, Refused(StorageError))
    case Fetch(key, _, _, _, _, _) =>
      if key !in sessions then (sessions, Refused(NotFound))
      else
        var r := FetchSession(sessions[key], e);
        (sessions[key := r.1], r.0)
    case Revoke(key, deleted) =>
      if deleted then (sessions - {key}, Refused(Ok)) else (sessions, Refused(StorageError))
  }

  predicate Refines(mode: Option<Cipher>, rows: map<Key, Row>, sessions: map<Key, Session>) {
    rows.Keys == sessions.Keys && forall key :: key in rows ==> Holds(mode, rows[key], sessions[key])
  }

  function GrantRow(mode: Option<Cipher>, row: Row, g: Grant, w: Write, expiresAt: int): Row
    requires GrantOk(g)
  {
    Row(Protect(mode, w.ivA, g.access), if g.refresh != "" then Protect(mode, w.ivR, g.refresh) else row.refresh,
        expiresAt)
  }

  function GrantSession(s: Session, g: Grant, expiresAt: int): Session {
    Session(g.access, if g.refresh != "" then g.refresh else s.refresh, expiresAt)
  }

  lemma GrantHolds(mode: Option<Cipher>, row: Row, s: Session, g: Grant, w: Write, expiresAt: int)
    requires SoundMode(mode) && Holds(mode, row, s) && GrantOk(g) && |w.ivA| == IV_LEN && |w.ivR| == IV_LEN
    ensures Holds(mode, GrantRow(mode, row, g, w, expiresAt), GrantSession(s, g, expiresAt))
  {
    if g.refresh != "" {
      SavedHolds(mode, GrantSession(s, g, expiresAt), w.ivA, w.ivR);
    } else {
      KeptHolds(mode, row, s, g.access, w.ivA, expiresAt);
    }
  }

  /** What a call does to a row, and to the session it holds: nothing, or the same grant is written. */
  lemma FetchWrites(mode: Option<Cipher>, row: Row, s: Session, e: Event)
    requires e.Fetch? && EventOk(e)
    ensures FetchLoaded(mode, row, Some(s), e).0 == FetchSession(s, e).0
    ensures var r, t := FetchLoaded(mode, row, Some(s), e).1, FetchSession(s, e).1;
            || (r == row && t == s)
            || (e.answer.Some?
                && r == GrantRow(mode, row, e.answer.value, e.write, e.later + e.answer.value.expiresIn)
                && t == GrantSession(s, e.answer.value, e.later + e.answer.value.expiresIn))
  {
  }

  lemma FetchIsLoaded(mode: Option<Cipher>, row: Row, s: Session, e: Event)
    requires Holds(mode, row, s) && e.Fetch? && EventOk(e)
    ensures FetchRow(mode, row, e) == FetchLoaded(mode, row, Some(s), e)
  {
  }

  lemma WrittenHolds(mode: Option<Cipher>, row: Row, s: Session, g: Grant, w: Write, expiresAt: int, r: Row,
                     t: Session)
    requires SoundMode(mode) && Holds(mode, row, s) && GrantOk(g) && |w.ivA| == IV_LEN && |w.ivR| == IV_LEN
    requires || (r == row && t == s)
             || (r == GrantRow(mode, row, g, w, expiresAt) && t == GrantSession(s, g, expiresAt))
    ensures Holds(mode, r, t)
  {
    GrantHolds(mode, row, s, g, w, expiresAt);
  }

  lemma FetchRefines(mode: Option<Cipher>, row: Row, s: Session, e: Event)
    requires SoundMode(mode) && Holds(mode, row, s) && e.Fetch? && EventOk(e)
    ensures FetchRow(mode, row, e).0 == FetchSession(s, e).0
    ensures Holds(mode, FetchRow(mode, row, e).1, FetchSession(s, e).1)
  {
    FetchIsLoaded(mode, row, s, e);
    FetchWrites(mode, row, s, e);
    if e.answer.Some? {
      var expiresAt := e.later + e.answer.value.expiresIn;
      WrittenHolds(mode, row, s, e.answer.value, e.write, expiresAt, FetchLoaded(mode, row, Some(s), e).1,
                   FetchSession(s, e).1);
    }
  }

  lemma WriteRefines(mode: Option<Cipher>, rows: map<Key, Row>, sessions: map<Key, Session>, key: Key, row: Row,
                     s: Session)
    requires Refines(mode, rows, sessions) && Holds(mode, row, s)
    ensures Refines(mode, rows[key := row], sessions[key := s])
  {
  }

  lemma LoginRefines(mode: Option<Cipher>, rows: map<Key, Row>, sessions: map<Key, Session>, e: Event)
    requires SoundMode(mode) && Refines(mode, rows, sessions) && EventOk(e) && e.Login?
    ensures StepRows(mode, rows, e).1 == StepSessions(sessions, e).1
    ensures Refines(mode, StepRows(mode, rows, e).0, StepSessions(sessions, e).0)
  {
    SavedHolds(mode, LoginSession(e), e.write.ivA, e.write.ivR);
    WriteRefines(mode, rows, sessions, e.key, LoginRow(mode, e), LoginSession(e));
  }

  lemma FetchStepRefines(mode: Option<Cipher>, rows: map<Key, Row>, sessions: map<Key, Session>, e: Event)
    requires SoundMode(mode) && Refines(mode, rows, sessions) && EventOk(e) && e.Fetch? && e.key in rows
    ensures StepRows(mode, rows, e).1 == StepSessions(sessions, e).1
    ensures Refines(mode, StepRows(mode, rows, e).0, StepSessions(sessions, e).0)
  {
    FetchRefines(mode, rows[e.key], sessions[e.key], e);
    WriteRefines(mode, rows, sessions, e.key, FetchRow(mode, rows[e.key], e).1, FetchSession(sessions[e.key], e).1);
  }

  lemma StepRefines(mode: Option<Cipher>, rows: map<Key, Row>, sessions: map<Key, Session>, e: Event)
    requires SoundMode(mode) && Refines(mode, rows, sessions) && EventOk(e)
    ensures StepRows(mode, rows, e).1 == StepSessions(sessions, e).1
    ensures Refines(mode, StepRows(mode, rows, e).0, StepSessions(sessions, e).0)
  {
    match e
    case Login(_, _, _, _) => LoginRefines(mode, rows, sessions, e);
    case Fetch(key, _, _, _, _, _) =>
      if key in rows {
        FetchStepRefines(mode, rows, sessions, e);
      }
    case Revoke(key, deleted) =>
  }

  function RunRows(mode: Option<Cipher>, rows: map<Key, Row>, events: seq<Event>): seq<Answer>
    requires forall k :: 0 <= k < |events| ==> EventOk(events[k])
    decreases |events|
  {
    if events == [] then []
    else [StepRows(mode, rows, events[0]).1] + RunRows(mode, StepRows(mode, rows, events[0]).0, events[1..])
  }

  function RunSessions(sessions: map<Key, Session>, events: seq<Event>): seq<Answer>
    decreases |events|
  {
    if events == [] then []
    else [StepSessions(sessions, events[0]).1] + RunSessions(StepSessions(sessions, events[0]).0, events[1..])
  }

  /** Over every run, encryption, base64, the column buffers and the kept or rewritten columns make no difference: every
      call answers, and every refresh request carries, what a store of plain sessions would. */
  lemma {:induction false} RunRefines(mode: Option<Cipher>, rows: map<Key, Row>, sessions: map<Key, Session>,
                                      events: seq<Event>)
    requires SoundMode(mode) && Refines(mode, rows, sessions)
    requires forall k :: 0 <= k < |events| ==> EventOk(events[k])
    ensures RunRows(mode, rows, events) == RunSessions(sessions, events)
    decreases |events|
  {
    if events != [] {
      StepRefines(mode, rows, sessions, events[0]);
      RunRefines(mode, StepRows(mode, rows, events[0]).0, StepSessions(sessions, events[0]).0, events[1..]);
    }
  }

  // ----- Tokens are sealed at rest -----

  /** A column holds a sealed token behind its initialisation vector. */
  ghost predicate Sealed(c: Cipher, column: string) {
    exists iv: seq<Byte>, t: string :: |iv| == 12 && Token(t) && Decode(column) == Some(iv + c.seal(iv, ToBytes(t)))
  }

  ghost predicate AllSealed(c: Cipher, rows: map<Key, Row>) {
    forall key :: key in rows ==> Sealed(c, rows[key].access) && Sealed(c, rows[key].refresh)
  }

  function RowsAfter(mode: Option<Cipher>, rows: map<Key, Row>, events: seq<Event>): map<Key, Row>
    requires forall k :: 0 <= k < |events| ==> EventOk(events[k])
    decreases |events|
  {
    if events == [] then rows else RowsAfter(mode, StepRows(mode, rows, events[0]).0, events[1..])
  }

  lemma ProtectSeals(c: Cipher, iv: seq<Byte>, t: string)
    requires Sound(c) && |iv| == IV_LEN && Token(t)
    ensures Sealed(c, Protect(Some(c), iv, t))
  {
    ProtectedFits(c, iv, t);
  }

  /** With encryption switched on, no run ever leaves a token in the table that is not sealed. */
  lemma {:induction false} RowsStaySealed(c: Cipher, rows: map<Key, Row>, events: seq<Event>)
    requires Sound(c) && AllSealed(c, rows) && forall k :: 0 <= k < |events| ==> EventOk(events[k])
    ensures AllSealed(c, RowsAfter(Some(c), rows, events))
    decreases |events|
  {
    if events != [] {
      var next := StepRows(Some(c), rows, events[0]).0;
      StepSeals(c, rows, events[0]);
      RowsStaySealed(c, next, events[1..]);
    }
  }

  lemma StepSeals(c: Cipher, rows: map<Key, Row>, e: Event)
    requires Sound(c) && AllSealed(c, rows) && EventOk(e)
    ensures AllSealed(c, StepRows(Some(c), rows, e).0)
  {
    match e
    case Login(key, g, _, w) =>
      ProtectSeals(c, w.ivA, g.access);
      ProtectSeals(c, w.ivR, g.refresh);
      PutSeals(c, rows, key, LoginRow(Some(c), e));
    case Fetch(key, _, _, _, _, _) =>
      if key in rows {
        FetchSeals(c, rows[key], e);
        PutSeals(c, rows, key, FetchRow(Some(c), rows[key], e).1);
      }
    case Revoke(_, _) =>
  }

  ghost predicate SealedRow(c: Cipher, row: Row) {
    Sealed(c, row.access) && Sealed(c, row.refresh)
  }

  lemma PutSeals(c: Cipher, rows: map<Key, Row>, key: Key, row: Row)
    requires AllSealed(c, rows) && SealedRow(c, row)
    ensures AllSealed(c, rows[key := row])
  {
  }

  lemma FetchSeals(c: Cipher, row: Row, e: Event)
    requires Sound(c) && SealedRow(c, row) && e.Fetch? && EventOk(e)
    ensures SealedRow(c, FetchRow(Some(c), row, e).1)
  {
    LoadedSeals(c, row, Load(Some(c), ReadRow(row)), e);
  }

  lemma LoadedSeals(c: Cipher, row: Row, loaded: Option<Session>, e: Event)
    requires Sound(c) && SealedRow(c, row) && e.Fetch? && EventOk(e)
    ensures SealedRow(c, FetchLoaded(Some(c), row, loaded, e).1)
  {
    if loaded.Some? {
      FetchWrites(Some(c), row, loaded.value, e);
      if e.answer.Some? {
        GrantSeals(c, row, e.answer.value, e.write, e.later + e.answer.value.expiresIn);
      }
    }
  }

  lemma GrantSeals(c: Cipher, row: Row, g: Grant, w: Write, expiresAt: int)
    requires Sound(c) && SealedRow(c, row) && GrantOk(g) && |w.ivA| == IV_LEN && |w.ivR| == IV_LEN
    ensures SealedRow(c, GrantRow(Some(c), row, g, w, expiresAt))
  {
    ProtectSeals(c, w.ivA, g.access);
    ProtectSeals(c, w.ivR, g.refresh);
  }

  // ----- Which refresh token is sent -----

  /** The refresh token most recently issued for a key by an event and those before it, since the last login: a login
      issues one, a refresh issues one if its answer has one, and only what was saved counts. */
  function Issued(before: Option<string>, key: Key, e: Event, refreshed: bool): Option<string> {
    match e
    case Login(k, g, _, w) => if k == key && w.saved then Some(g.refresh) else before
    case Fetch(k, _, _, answer, _, w) =>
      if k == key && refreshed && w.saved && answer.Some? && answer.value.refresh != "" then Some(answer.value.refresh)
      else before
    case Revoke(k, deleted) => if k == key && deleted then None else before
  }

  /** The token issued last before the n-th event. */
  function LastIssued(key: Key, events: seq<Event>, answers: seq<Answer>, n: nat): Option<string>
    requires n <= |events| && n <= |answers|
  {
    if n == 0 then None
    else Issued(LastIssued(key, events, answers, n - 1), key, events[n - 1], answers[n - 1].request.Some?)
  }

  function Stored(sessions: map<Key, Session>, key: Key): Option<string> {
    if key in sessions then Some(sessions[key].refresh) else None
  }

  lemma StepStores(sessions: map<Key, Session>, e: Event, key: Key)
    ensures var r := StepSessions(sessions, e);
            Stored(r.0, key) == Issued(Stored(sessions, key), key, e, r.1.request.Some?)
  {
  }

  function SessionsAt(events: seq<Event>, n: nat): map<Key, Session>
    requires n <= |events|
  {
    if n == 0 then map[] else StepSessions(SessionsAt(events, n - 1), events[n - 1]).0
  }

  /** The answer at k, in a run from j on. */
  lemma {:induction false} AnswerAt(events: seq<Event>, j: nat, k: nat)
    requires j <= k < |events|
    ensures var answers := RunSessions(SessionsAt(events, j), events[j..]);
            |answers| == |events| - j && answers[k - j] == StepSessions(SessionsAt(events, k), events[k]).1
    decreases |events| - j
  {
    var now := SessionsAt(events, j);
    assert events[j..] == [events[j]] + events[j + 1..];
    assert RunSessions(now, events[j..])
        == [StepSessions(now, events[j]).1] + RunSessions(SessionsAt(events, j + 1), events[j + 1..]);
    if j + 1 < |events| {
      AnswerAt(events, j + 1, if j == k then j + 1 else k);
    }
  }

  lemma {:induction false} StoredIsLastIssued(events: seq<Event>, key: Key, n: nat)
    requires n < |events|
    ensures var answers := RunSessions(map[], events);
            |answers| == |events|
            && Stored(SessionsAt(events, n), key) == LastIssued(key, events, answers, n)
  {
    assert events[0..] == events;
    AnswerAt(events, 0, n);
    if n > 0 {
      StoredIsLastIssued(events, key, n - 1);
      AnswerAt(events, 0, n - 1);
      StepStores(SessionsAt(events, n - 1), events[n - 1], key);
    }
  }

  lemma RequestIsStored(events: seq<Event>, k: nat)
    requires k < |events| && events[k].Fetch?
    ensures |RunSessions(map[], events)| == |events|
    ensures var request := RunSessions(map[], events)[k].request;
            request.Some? ==> request == Stored(SessionsAt(events, k), events[k].key)
  {
    assert events[0..] == events;
    AnswerAt(events, 0, k);
    FetchAsksStored(SessionsAt(events, k), events[k]);
  }

  lemma FetchAsksStored(sessions: map<Key, Session>, e: Event)
    requires e.Fetch?
    ensures var request := StepSessions(sessions, e).1.request;
            request.Some? ==> request == Stored(sessions, e.key)
  {
  }

  /** In every run from an empty store, each refresh request carries the refresh token most recently issued since the
      last login for that provider and account, rotated or kept, among those whose write succeeded. */
  lemma RequestsCarryLastIssued(mode: Option<Cipher>, events: seq<Event>, k: nat)
    requires SoundMode(mode) && forall j :: 0 <= j < |events| ==> EventOk(events[j])
    requires k < |events| && events[k].Fetch?
    ensures |RunRows(mode, map[], events)| == |events|
    ensures var answers := RunRows(mode, map[], events);
            answers[k].request.Some? ==> answers[k].request == LastIssued(events[k].key, events, answers, k)
  {
    RunRefines(mode, map[], map[], events);
    StoredIsLastIssued(events, events[k].key, k);
    RequestIsStored(events, k);
  }

  // ----- Which access token is given -----

  /** An access token and when it expires. */
  datatype Access = Access(token: string, expiresAt: int)

  /** The grant most recently saved for a key before the n-th event, by a login or a refresh, unless it was revoked. */
  function LastSaved(key: Key, events: seq<Event>, answers: seq<Answer>, n: nat): Option<Access>
    requires n <= |events| && n <= |answers|
  {
    if n == 0 then None
    else
      match events[n - 1]
      case Login(k, g, now, w) =>
        if k == key && w.saved then Some(Access(g.access, now + g.expiresIn))
        else LastSaved(key, events, answers, n - 1)
      case Fetch(k, _, _, answer, later, w) =>
        if k == key && answers[n - 1].request.Some? && answer.Some? && w.saved
        then Some(Access(answer.value.access, later + answer.value.expiresIn))
        else LastSaved(key, events, answers, n - 1)
      case Revoke(k, deleted) =>
        if k == key && deleted then None else LastSaved(key, events, answers, n - 1)
  }

  function StoredAccess(sessions: map<Key, Session>, key: Key): Option<Access> {
    if key in sessions then Some(Access(sessions[key].access, sessions[key].expiresAt)) else None
  }

  lemma {:induction false} StoredIsLastSaved(events: seq<Event>, key: Key, n: nat)
    requires n < |events|
    ensures var answers := RunSessions(map[], events);
            |answers| == |events| && StoredAccess(SessionsAt(events, n), key) == LastSaved(key, events, answers, n)
  {
    assert events[0..] == events;
    AnswerAt(events, 0, n);
    if n > 0 {
      StoredIsLastSaved(events, key, n - 1);
      AnswerAt(events, 0, n - 1);
      StepSaves(SessionsAt(events, n - 1), events, RunSessions(map[], events), key, n);
    }
  }

  lemma StepSaves(sessions: map<Key, Session>, events: seq<Event>, answers: seq<Answer>, key: Key, n: nat)
    requires 0 < n <= |events| == |answers| && answers[n - 1] == StepSessions(sessions, events[n - 1]).1
    requires StoredAccess(sessions, key) == LastSaved(key, events, answers, n - 1)
    ensures StoredAccess(StepSessions(sessions, events[n - 1]).0, key) == LastSaved(key, events, answers, n)
  {
  }

  /** The refresh request that a fetch makes, if it makes one: the last issued token, when the last saved grant has at
      most 60 s left, there is a refresh token, and the provider can refresh. */
  function Asked(access: Option<Access>, refresh: Option<string>, now: int, canRefresh: bool): Option<string> {
    if access.Some? && access.value.expiresAt - now <= 60 && refresh != Some("") && canRefresh then refresh else None
  }

  /** Every answer to a fetch, told from the events before it: the last saved grant while it has more than 60 s left,
      the new one if the provider gives one and it can be saved, and otherwise why there is none. */
  predicate AnswerTells(a: Answer, access: Option<Access>, refresh: Option<string>, e: Event)
    requires e.Fetch?
  {
    && a.request == Asked(access, refresh, e.now, e.canRefresh)
    && (a.status == NotFound <==> access.None?)
    && (a.status == BadProvider
        <==> access.Some? && access.value.expiresAt - e.now <= 60 && refresh != Some("") && !e.canRefresh)
    && (a.status == StorageError <==> a.request.Some? && e.answer.Some? && !e.write.saved)
    && (a.status == Ok && a.request.None? ==>
          access == Some(Access(a.token, a.expiresAt)) && a.expiresAt - e.now > 60)
    && (a.request.Some? ==> (a.status == Ok <==> e.answer.Some? && e.write.saved))
    && (a.status == Ok && a.request.Some? ==>
          a.token == e.answer.value.access && a.expiresAt == e.later + e.answer.value.expiresIn)
    && (access.Some? && access.value.expiresAt - e.now > 60 ==> a.status == Ok)
  }

  lemma SessionAnswerTells(sessions: map<Key, Session>, e: Event)
    requires e.Fetch?
    ensures AnswerTells(StepSessions(sessions, e).1, StoredAccess(sessions, e.key), Stored(sessions, e.key), e)
  {
  }

  /** In every run, a fetch that answers without asking gives the access token and the expiry of the last grant saved
      for that provider and account, and that has more than 60 s left; every other answer is told as well. */
  lemma FetchGivesLastSaved(mode: Option<Cipher>, events: seq<Event>, k: nat)
    requires SoundMode(mode) && forall j :: 0 <= j < |events| ==> EventOk(events[j])
    requires k < |events| && events[k].Fetch?
    ensures |RunRows(mode, map[], events)| == |events|
    ensures var answers, key := RunRows(mode, map[], events), events[k].key;
            AnswerTells(answers[k], LastSaved(key, events, answers, k), LastIssued(key, events, answers, k), events[k])
  {
    RunRefines(mode, map[], map[], events);
    StoredIsLastIssued(events, events[k].key, k);
    StoredIsLastSaved(events, events[k].key, k);
    assert events[0..] == events;
    AnswerAt(events, 0, k);
    SessionAnswerTells(SessionsAt(events, k), events[k]);
  }

  // ----- Whether that is the token the provider issued last -----

  /** The refresh token that the provider issues for a key by an event, whether or not it gets saved. */
  function GrantTo(key: Key, e: Event, refreshed: bool): Option<string> {
    match e
    case Login(k, g, _, _) => if k == key then Some(g.refresh) else None
    case Fetch(k, _, _, answer, _, _) =>
      if k == key && refreshed && answer.Some? && answer.value.refresh != "" then Some(answer.value.refresh) else None
    case Revoke(_, _) => None
  }

  predicate Removes(key: Key, e: Event) {
    e.Revoke? && e.key == key && e.deleted
  }

  /** The token that the provider issued last for a key before the n-th event. */
  function LastGranted(key: Key, events: seq<Event>, answers: seq<Answer>, n: nat): Option<string>
    requires n <= |events| && n <= |answers|
  {
    if n == 0 then None
    else
      var t := GrantTo(key, events[n - 1], answers[n - 1].request.Some?);
      if t.Some? then t
      else if Removes(key, events[n - 1]) then None
      else LastGranted(key, events, answers, n - 1)
  }

  /** At j another token than the stored one came and was not saved, and up to n nothing else came nor was removed. */
  predicate LostAt(key: Key, events: seq<Event>, answers: seq<Answer>, j: nat, n: nat)
    requires j < n <= |events| && n <= |answers|
  {
    && GrantTo(key, events[j], answers[j].request.Some?) !in {None, LastIssued(key, events, answers, j)}
    && !events[j].write.saved
    && forall i :: j < i < n ==> GrantTo(key, events[i], answers[i].request.Some?) == None && !Removes(key, events[i])
  }

  predicate Lost(key: Key, events: seq<Event>, answers: seq<Answer>, n: nat)
    requires n <= |events| && n <= |answers|
  {
    exists j :: 0 <= j < n && LostAt(key, events, answers, j, n)
  }

  lemma LostBefore(key: Key, events: seq<Event>, answers: seq<Answer>, n: nat)
    requires 0 < n <= |events| && n <= |answers|
    requires GrantTo(key, events[n - 1], answers[n - 1].request.Some?) == None && !Removes(key, events[n - 1])
    ensures Lost(key, events, answers, n) <==> Lost(key, events, answers, n - 1)
  {
    if Lost(key, events, answers, n - 1) {
      var j :| 0 <= j < n - 1 && LostAt(key, events, answers, j, n - 1);
      assert LostAt(key, events, answers, j, n);
    }
    if Lost(key, events, answers, n) {
      var j :| 0 <= j < n && LostAt(key, events, answers, j, n);
      assert LostAt(key, events, answers, j, n - 1);
    }
  }

  lemma {:induction false} LastGrantedIff(key: Key, events: seq<Event>, answers: seq<Answer>, n: nat)
    requires n <= |events| && n <= |answers|
    ensures LastIssued(key, events, answers, n) == LastGranted(key, events, answers, n)
            <==> !Lost(key, events, answers, n)
  {
    if n > 0 {
      LastGrantedIff(key, events, answers, n - 1);
      var e, t := events[n - 1], GrantTo(key, events[n - 1], answers[n - 1].request.Some?);
      if t.None? && !Removes(key, e) {
        LostBefore(key, events, answers, n);
      } else if t.Some? && !e.write.saved && t != LastIssued(key, events, answers, n - 1) {
        assert LostAt(key, events, answers, n - 1, n);
      }
    }
  }

  /** In every run, a request carries the refresh token that the provider issued last for that provider and account
      exactly when the last one issued was saved or was the one already stored. */
  lemma RequestIsCurrentIff(mode: Option<Cipher>, events: seq<Event>, k: nat)
    requires SoundMode(mode) && forall j :: 0 <= j < |events| ==> EventOk(events[j])
    requires k < |events| && events[k].Fetch?
    ensures |RunRows(mode, map[], events)| == |events|
    ensures var answers, key := RunRows(mode, map[], events), events[k].key;
            answers[k].request.Some? ==>
              (answers[k].request == LastGranted(key, events, answers, k)
               <==> !Lost(key, events, answers, k))
  {
    RequestsCarryLastIssued(mode, events, k);
    LastGrantedIff(events[k].key, events, RunRows(mode, map[], events), k);
  }

  /** A login, and two fetches whose refreshed row cannot be written. */
  function LoginThenFailures(key: Key, g: Grant, rotated: Grant, w: Write): seq<Event> {
    var failed := Fetch(key, 0, true, Some(rotated), 0, w.(saved := false));
    [Login(key, g, 0, w.(saved := true)), failed, failed]
  }

  lemma FailedWriteSends(key: Key, g: Grant, rotated: Grant, w: Write)
    requires g.refresh != "" && g.expiresIn == 0
    ensures var answers := RunSessions(map[], LoginThenFailures(key, g, rotated, w));
            |answers| == 3 && answers[2].request == Some(g.refresh)
  {
    var events := LoginThenFailures(key, g, rotated, w);
    var login, failed := events[0], events[1];
    var one := StepSessions(map[], login).0;
    var two := StepSessions(one, failed).0;
    assert one[key].refresh == g.refresh && two[key].refresh == g.refresh;
    assert events[1..] == [failed, failed] && events[1..][1..] == [failed] && events[1..][1..][1..] == [];
    assert RunSessions(two, [failed]) == [StepSessions(two, failed).1] + RunSessions(StepSessions(two, failed).0, []);
  }

  /** A rotated token whose write fails is lost, encrypted or not: the next request sends the one that the provider has
      replaced. */
  lemma FailedWriteLosesRotation(mode: Option<Cipher>, key: Key, g: Grant, rotated: Grant, w: Write)
    requires SoundMode(mode) && GrantOk(g) && GrantOk(rotated) && |w.ivA| == IV_LEN && |w.ivR| == IV_LEN
    requires g.refresh != "" && rotated.refresh !in {"", g.refresh} && g.expiresIn == 0
    ensures var events := LoginThenFailures(key, g, rotated, w);
            && (forall k :: 0 <= k < |events| ==> EventOk(events[k]))
            && var answers := RunRows(mode, map[], events);
               && |answers| == 3 && answers[2].request == Some(g.refresh)
               && LastGranted(key, events, answers, 2) == Some(rotated.refresh)
  {
    var events := LoginThenFailures(key, g, rotated, w);
    FailedWriteSends(key, g, rotated, w);
    RunRefines(mode, map[], map[], events);
    RequestIsStored(events, 1);
    assert SessionsAt(events, 1) == StepSessions(SessionsAt(events, 0), events[0]).0;
    FirstFetchAsks(key, g, rotated, w);
  }

  lemma FirstFetchAsks(key: Key, g: Grant, rotated: Grant, w: Write)
    requires g.refresh != "" && g.expiresIn == 0
    ensures var answers := RunSessions(map[], LoginThenFailures(key, g, rotated, w));
            |answers| == 3 && answers[1].request.Some?
  {
    var events := LoginThenFailures(key, g, rotated, w);
    FailedWriteSends(key, g, rotated, w);
    assert events[0..] == events;
    AnswerAt(events, 0, 1);
    assert SessionsAt(events, 1) == StepSessions(SessionsAt(events, 0), events[0]).0;
  }

  // ----- When a token is fresh -----

  /** A fetch asks the provider exactly when the stored token has at most 60 s left, there is a refresh token, and the
      provider can refresh; a token handed out without asking is the stored one and has more than 60 s left. */
  lemma FreshOrRefreshed(mode: Option<Cipher>, row: Row, s: Session, e: Event)
    requires SoundMode(mode) && Holds(mode, row, s) && e.Fetch? && EventOk(e)
    ensures var a := FetchRow(mode, row, e).0;
            && (a.request.Some? <==> s.expiresAt - e.now <= MARGIN && s.refresh != "" && e.canRefresh)
            && (a.status == Ok && a.request.None? ==> a.token == s.access && a.expiresAt - e.now > MARGIN)
            && (a.status == Ok && a.request.Some? ==>
                  e.answer.Some? && a.token == e.answer.value.access
                  && a.expiresAt == e.later + e.answer.value.expiresIn)
  {
    FetchRefines(mode, row, s, e);
  }

  // ----- The store -----

  class TokenStore {
    const mode: Option<Cipher>
    var rows: map<Key, Row>

    constructor (mode: Option<Cipher>)
      ensures this.mode == mode && rows == map[]
    {
      this.mode, rows := mode, map[];
    }

    /** The end of oauth2_store_complete_auth: an insert that replaces the row of the same provider and account. */
    method SaveLogin(e: Event) returns (a: Answer)
      requires e.Login? && EventOk(e)
      modifies this`rows
      ensures (rows, a) == StepRows(mode, old(rows), e)
      ensures a.status == if e.write.saved then Ok else StorageError
      ensures rows.Keys == if e.write.saved then old(rows).Keys + {e.key} else old(rows).Keys
      ensures forall key :: key in old(rows) && (key != e.key || !e.write.saved) ==> rows[key] == old(rows)[key]
    {
      var access := Protect(mode, e.write.ivA, e.grant.access);
      var refresh := Protect(mode, e.write.ivR, e.grant.refresh);
      if !e.write.saved {
        return Refused(StorageError);
      }
      rows := rows[e.key := Row(access, refresh, e.now + e.grant.expiresIn)];
      return Refused(Ok);
    }

    method DoRefreshAndStore(plainRt: string, e: Event) returns (a: Answer)
      requires e.Fetch? && EventOk(e) && e.key in rows
      modifies this`rows
      ensures var r := RefreshRow(mode, old(rows)[e.key], Session("", plainRt, 0), e);
              a == r.0 && rows == old(rows)[e.key := r.1]
    {
      if !e.canRefresh {
        assert rows == rows[e.key := rows[e.key]];
        return Refused(BadProvider);
      }
      if e.answer.None? {
        assert rows == rows[e.key := rows[e.key]];
        return Refused(Expired).(request := Some(plainRt));
      }
      var g := e.answer.value;
      var expiresAt := e.later + g.expiresIn;
      if !e.write.saved {
        assert rows == rows[e.key := rows[e.key]];
        return Refused(StorageError).(request := Some(plainRt));
      }
      if g.refresh != "" {
        rows := rows[e.key := Row(Protect(mode, e.write.ivA, g.access), Protect(mode, e.write.ivR, g.refresh),
                                  expiresAt)];
      } else {
        rows := rows[e.key := rows[e.key].(access := Protect(mode, e.write.ivA, g.access), expiresAt := expiresAt)];
      }
      return Answer(Ok, g.access, expiresAt, Some(plainRt));
    }

    method GetAccessToken(e: Event) returns (a: Answer)
      requires e.Fetch? && EventOk(e)
      modifies this`rows
      ensures (rows, a) == StepRows(mode, old(rows), e)
    {
      if e.key !in rows {
        return Refused(NotFound);
      }
      var s := Load(mode, ReadRow(rows[e.key]));
      assert rows == rows[e.key := rows[e.key]];
      if s.None? {
        return Refused(StorageError);
      }
      if s.value.expiresAt > e.now + MARGIN {
        return Answer(Ok, s.value.access, s.value.expiresAt, None);
      }
      if s.value.refresh == "" {
        return Refused(Expired);
      }
      a := DoRefreshAndStore(s.value.refresh, e);
    }

    method RevokeToken(e: Event) returns (a: Answer)
      requires e.Revoke?
      modifies this`rows
      ensures (rows, a) == StepRows(mode, old(rows), e)
      ensures a.status == (if e.deleted then Ok else StorageError)
      ensures rows == if e.deleted then old(rows) - {e.key} else old(rows)
    {
      if !e.deleted {
        return Refused(StorageError);
      }
      rows := rows - {e.key};
      return Refused(Ok);
    }
  }
}
