/** Admin sign-in: one-time login states, sessions, signed cookies, and who a request speaks for. */
module Oidc {
  import opened Wrappers
  import opened GoStrings

  // ---- Signed cookies ---------------------------------------------------------------

  /** HMAC-SHA256 and unpadded URL-safe base64 (section 5 of RFC 4648), as functions. */
  datatype Codec = Codec(mac: (string, string) -> string, encode: string -> string, decode: string -> Option<string>)

  /** Decoding undoes encoding, and the alphabet has no dot. */
  ghost predicate Lawful(c: Codec) {
    forall bytes: string :: (c.decode)((c.encode)(bytes)) == Some(bytes) && '.' !in (c.encode)(bytes)
  }

  function SignSession(c: Codec, sid: string, secret: string): string {
    sid + "." + (c.encode)((c.mac)(secret, sid))
  }

  function VerifySession(c: Codec, value: string, secret: string): Option<string> {
    var dot := LastIndexOf(value, '.');
    if dot < 0 then None
    else
      var expected := (c.decode)(value[dot + 1..]);
      if expected == Some((c.mac)(secret, value[..dot])) then Some(value[..dot]) else None
  }

  /** A cookie verifies as `sid` exactly when it is sid, a dot, and a dot-free text that decodes
      to the signature of sid. */
  lemma VerifiesIff(c: Codec, value: string, secret: string, sid: string)
    ensures VerifySession(c, value, secret) == Some(sid) <==>
            exists sig :: '.' !in sig && value == sid + "." + sig && (c.decode)(sig) == Some((c.mac)(secret, sid))
  {
    hide LastIndexOf;
    var dot := LastIndexOf(value, '.');
    if VerifySession(c, value, secret) == Some(sid) {
      assert value == sid + "." + value[dot + 1..];
    }
    if sig :| '.' !in sig && value == sid + "." + sig && (c.decode)(sig) == Some((c.mac)(secret, sid)) {
      LastDot(sid, sig);
    }
  }

  /** The last dot is the one before a text without dots. */
  lemma LastDot(sid: string, sig: string)
    requires '.' !in sig
    ensures var value := sid + "." + sig;
            var dot := LastIndexOf(value, '.');
            dot >= 0 && value[..dot] == sid && value[dot + 1..] == sig
  {
    hide LastIndexOf;
    var value := sid + ['.'] + sig;
    assert value == sid + "." + sig;
    var dot := LastIndexOf(value, '.');
    assert value[|sid|] == '.';
    assert value == value[..dot] + ['.'] + value[dot + 1..];
    SplitAtLast(value[..dot], value[dot + 1..], sid, sig, '.');
  }

  /** Verification inverts signing for every session id, dotted ones included. */
  lemma VerifyInvertsSign(c: Codec, sid: string, secret: string)
    requires Lawful(c)
    ensures VerifySession(c, SignSession(c, sid, secret), secret) == Some(sid)
  {
    var sig := (c.encode)((c.mac)(secret, sid));
    assert '.' !in sig && (c.decode)(sig) == Some((c.mac)(secret, sid));
    VerifiesIff(c, SignSession(c, sid, secret), secret, sid);
  }

  // ---- The handlers -----------------------------------------------------------------

  const MINUTE := 60_000_000_000

  datatype Config = Config(secret: string, sessionTTL: int)

  datatype Session = Session(subject: string, role: string, expires: int)

  /** `claimed` holds the callbacks that passed the state check and wait for the provider. */
  datatype State = State(sessions: map<string, Session>, states: map<string, int>, claimed: set<nat>)

  /** A callback takes its state under the lock, asks the provider, then stores the session
      under the lock again; other requests may run in between. */
  datatype Event =
    | Login(state: string, now: int)
    | Claim(id: nat, state: string, now: int)
    | Grant(id: nat, sid: string, subject: string, role: string, now: int)
    | Logout(cookie: string)

  predicate Accepts(s: State, state: string, now: int) {
    state in s.states && now <= s.states[state]
  }

  function Next(c: Codec, cfg: Config, s: State, e: Event): State {
    match e
    case Login(state, now) => s.(states := s.states[state := now + 10 * MINUTE])
    case Claim(id, state, now) =>
      s.(states := s.states - {state}, claimed := if Accepts(s, state, now) then s.claimed + {id} else s.claimed)
    case Grant(id, sid, subject, role, now) =>
      if id !in s.claimed then s
      else s.(sessions := s.sessions[sid := Session(subject, role, now + cfg.sessionTTL)], claimed := s.claimed - {id})
    case Logout(cookie) =>
      var sid := VerifySession(c, cookie, cfg.secret);
      if sid.Some? then s.(sessions := s.sessions - {sid.value}) else s
  }

  function Actor(c: Codec, cfg: Config, s: State, cookie: Option<string>, now: int): string {
    if cookie.None? then ""
    else
      var sid := VerifySession(c, cookie.value, cfg.secret);
      if sid.None? || sid.value !in s.sessions then ""
      else
        var session := s.sessions[sid.value];
        if session.role != "admin" || now > session.expires then "" else session.subject
  }

  datatype Answer = InvalidState | MissingCode | ProviderFailed | SignedIn(cookie: string)

  /** The provider's side of a callback. */
  datatype Provider = NoCode | Failed | Verified(subject: string, role: string)

  class OIDC {
    const codec: Codec
    const cfg: Config
    var sessions: map<string, Session>
    var states: map<string, int>
    ghost var claimed: set<nat>

    constructor (codec: Codec, cfg: Config)
      ensures this.codec == codec && this.cfg == cfg && Value() == State(map[], map[], {})
    {
      this.codec, this.cfg, sessions, states, claimed := codec, cfg, map[], map[], {};
    }

    ghost function Value(): State
      reads this
    {
      State(sessions, states, claimed)
    }

    method HandleLogin(state: string, now: int)
      modifies this
      ensures Value() == Next(codec, cfg, old(Value()), Login(state, now))
    {
      states := states[state := now + 10 * MINUTE];
    }

    method TakeState(ghost id: nat, state: string, now: int) returns (ok: bool)
      modifies this
      ensures Value() == Next(codec, cfg, old(Value()), Claim(id, state, now))
      ensures ok == Accepts(old(Value()), state, now)
    {
      ok := state in states && now <= states[state];
      states := states - {state};
      claimed := if ok then claimed + {id} else claimed;
    }

    method StoreSession(ghost id: nat, sid: string, subject: string, role: string, now: int)
      requires id in claimed
      modifies this
      ensures Value() == Next(codec, cfg, old(Value()), Grant(id, sid, subject, role, now))
    {
      sessions := sessions[sid := Session(subject, role, now + cfg.sessionTTL)];
      claimed := claimed - {id};
    }

    /** One callback that no other request interrupts. */
    method HandleCallback(ghost id: nat, state: string, checkedAt: int, provider: Provider, sid: string, grantedAt: int)
      returns (answer: Answer)
      modifies this
      ensures answer.InvalidState? <==> !Accepts(old(Value()), state, checkedAt)
      ensures answer.SignedIn? <==> Accepts(old(Value()), state, checkedAt) && provider.Verified?
      ensures var claim := Next(codec, cfg, old(Value()), Claim(id, state, checkedAt));
              Value() ==
                if answer.SignedIn? then
                  Next(codec, cfg, claim, Grant(id, sid, provider.subject, provider.role, grantedAt))
                else claim
      ensures answer.SignedIn? ==> answer.cookie == SignSession(codec, sid, cfg.secret)
    {
      var ok := TakeState(id, state, checkedAt);
      if !ok {
        return InvalidState;
      }
      if provider.NoCode? {
        return MissingCode;
      }
      if provider.Failed? {
        return ProviderFailed;
      }
      StoreSession(id, sid, provider.subject, provider.role, grantedAt);
      return SignedIn(SignSession(codec, sid, cfg.secret));
    }

    method HandleLogout(cookie: Option<string>)
      modifies this
      ensures Value() == if cookie.None? then old(Value()) else Next(codec, cfg, old(Value()), Logout(cookie.value))
    {
      if cookie.Some? {
        var sid := VerifySession(codec, cookie.value, cfg.secret);
        if sid.Some? {
          sessions := sessions - {sid.value};
        }
      }
    }

    method ActorFromSession(cookie: Option<string>, now: int) returns (actor: string)
      ensures actor == Actor(codec, cfg, Value(), cookie, now)
    {
      if cookie.None? {
        return "";
      }
      var sid := VerifySession(codec, cookie.value, cfg.secret);
      if sid.None? || sid.value !in sessions || sessions[sid.value].role != "admin" {
        return "";
      }
      if now > sessions[sid.value].expires {
        return "";
      }
      return sessions[sid.value].subject;
    }

    /** A bearer token speaks for the legacy key's "admin", then for a named admin; otherwise, and
        without a token, the session decides. Admins may share a token: any of them may be named. */
    method AuthenticateAdmin(bearer: Option<string>, adminKey: string, named: map<string, string>,
                             cookie: Option<string>, now: int)
      returns (actor: string)
      ensures bearer.Some? && adminKey != "" && bearer.value == adminKey ==> actor == "admin"
      ensures bearer.Some? && !(adminKey != "" && bearer.value == adminKey)
              && (exists name :: name in named && named[name] != "" && named[name] == bearer.value)
              ==> actor in named && named[actor] == bearer.value
      ensures bearer.None? || (!(adminKey != "" && bearer.value == adminKey)
              && (forall name | name in named :: named[name] == "" || named[name] != bearer.value))
              ==> actor == Actor(codec, cfg, Value(), cookie, now)
    {
      if bearer.Some? {
        if adminKey != "" && bearer.value == adminKey {
          return "admin";
        }
        var rest := named.Keys;
        while rest != {}
          invariant rest <= named.Keys
          invariant forall name | name in named && name !in rest :: named[name] == "" || named[name] != bearer.value
          decreases rest
        {
          var name :| name in rest;
          if named[name] != "" && named[name] == bearer.value {
            return name;
          }
          rest := rest - {name};
        }
      }
      actor := ActorFromSession(cookie, now);
    }
  }

  // ---- Runs -------------------------------------------------------------------------

  function After(c: Codec, cfg: Config, events: seq<Event>, n: nat): State
    requires n <= |events|
  {
    if n == 0 then State(map[], map[], {}) else Next(c, cfg, After(c, cfg, events, n - 1), events[n - 1])
  }

  /** Event `i` is a callback whose state check succeeded. */
  ghost predicate Accepted(c: Codec, cfg: Config, events: seq<Event>, i: nat)
    requires i < |events|
  {
    events[i].Claim? && Accepts(After(c, cfg, events, i), events[i].state, events[i].now)
  }

  /** A pending state was issued by a login, and no callback has presented it since. */
  lemma {:induction false} PendingStateWasIssued(c: Codec, cfg: Config, events: seq<Event>, n: nat, state: string)
    returns (j: nat)
    requires n <= |events| && state in After(c, cfg, events, n).states
    ensures j < n && events[j].Login? && events[j].state == state
    ensures After(c, cfg, events, n).states[state] == events[j].now + 10 * MINUTE
    ensures forall i | j < i < n && events[i].Claim? :: events[i].state != state
  {
    if events[n - 1].Login? && events[n - 1].state == state {
      j := n - 1;
    } else {
      j := PendingStateWasIssued(c, cfg, events, n - 1, state);
    }
  }

  /** An accepted callback comes at most ten minutes after a login that issued its state, and is
      the first callback to present it since. */
  lemma AcceptedOnceWithinTenMinutes(c: Codec, cfg: Config, events: seq<Event>, n: nat) returns (j: nat)
    requires n < |events| && Accepted(c, cfg, events, n)
    ensures j < n && events[j].Login? && events[j].state == events[n].state
    ensures events[n].now <= events[j].now + 10 * MINUTE
    ensures forall i | j < i < n && events[i].Claim? :: events[i].state != events[n].state
  {
    j := PendingStateWasIssued(c, cfg, events, n, events[n].state);
  }

  /** So a state issued once is accepted at most once, whatever else is presented. */
  lemma StateIsAcceptedAtMostOnce(c: Codec, cfg: Config, events: seq<Event>, j: nat, m: nat, n: nat)
    requires m < |events| && n < |events| && Accepted(c, cfg, events, m) && Accepted(c, cfg, events, n)
    requires events[m].state == events[n].state
    requires forall i | 0 <= i < |events| && events[i].Login? && events[i].state == events[n].state :: i == j
    ensures m == n
  {
    var first := AcceptedOnceWithinTenMinutes(c, cfg, events, m);
    var second := AcceptedOnceWithinTenMinutes(c, cfg, events, n);
    if m != n {
      assert false;
    }
  }

  /** Event `i` stores a session: it belongs to a callback that passed the state check. */
  ghost predicate Stores(c: Codec, cfg: Config, events: seq<Event>, i: nat, sid: string)
    requires i < |events|
  {
    events[i].Grant? && events[i].sid == sid && events[i].id in After(c, cfg, events, i).claimed
  }

  ghost predicate Removes(c: Codec, cfg: Config, events: seq<Event>, i: nat, sid: string)
    requires i < |events|
  {
    events[i].Logout? && VerifySession(c, events[i].cookie, cfg.secret) == Some(sid)
  }

  /** Event `i` is the last one to store or remove the session, and it stored it. */
  ghost predicate LastStored(c: Codec, cfg: Config, events: seq<Event>, n: nat, i: nat, sid: string)
    requires n <= |events|
  {
    && i < n && Stores(c, cfg, events, i, sid)
    && forall j: nat | i < j < n :: !Stores(c, cfg, events, j, sid) && !Removes(c, cfg, events, j, sid)
  }

  lemma {:induction false} SessionComesFromLastGrant(c: Codec, cfg: Config, events: seq<Event>, n: nat, sid: string)
    requires n <= |events|
    ensures var s := After(c, cfg, events, n);
            && (sid in s.sessions <==> exists i: nat :: LastStored(c, cfg, events, n, i, sid))
            && (forall i: nat | LastStored(c, cfg, events, n, i, sid) ::
                  && sid in s.sessions
                  && s.sessions[sid] == Session(events[i].subject, events[i].role, events[i].now + cfg.sessionTTL))
  {
    if n > 0 {
      SessionComesFromLastGrant(c, cfg, events, n - 1, sid);
      var before, after := After(c, cfg, events, n - 1), After(c, cfg, events, n);
      if Stores(c, cfg, events, n - 1, sid) {
        assert LastStored(c, cfg, events, n, n - 1, sid);
        assert forall i: nat | LastStored(c, cfg, events, n, i, sid) :: i == n - 1;
      } else if Removes(c, cfg, events, n - 1, sid) {
        assert forall i: nat | i < n - 1 :: !LastStored(c, cfg, events, n, i, sid);
      } else {
        assert sid in before.sessions <==> sid in after.sessions;
        assert sid in before.sessions ==> before.sessions[sid] == after.sessions[sid];
        forall i: nat ensures LastStored(c, cfg, events, n, i, sid) <==> LastStored(c, cfg, events, n - 1, i, sid) {
        }
        if sid in after.sessions {
          var i: nat :| LastStored(c, cfg, events, n - 1, i, sid);
          assert LastStored(c, cfg, events, n, i, sid);
        }
      }
    }
  }

  /** A cookie speaks for a subject exactly when its session id was last stored for that subject
      with the admin role by a callback that passed the state check, has not expired, and has not
      been logged out since. */
  lemma CookieSpeaksForSubject(c: Codec, cfg: Config, events: seq<Event>, cookie: string, now: int, subject: string)
    requires subject != ""
    ensures Actor(c, cfg, After(c, cfg, events, |events|), Some(cookie), now) == subject <==>
            exists i: nat, sid: string ::
              && VerifySession(c, cookie, cfg.secret) == Some(sid)
              && LastStored(c, cfg, events, |events|, i, sid)
              && events[i].subject == subject && events[i].role == "admin"
              && now <= events[i].now + cfg.sessionTTL
    ensures Actor(c, cfg, After(c, cfg, events, |events|), None, now) == ""
  {
    var verified := VerifySession(c, cookie, cfg.secret);
    if verified.Some? {
      SessionComesFromLastGrant(c, cfg, events, |events|, verified.value);
    }
  }

  /** Every stored session goes back to its own accepted callback, used for one session only. */
  lemma {:induction false} GrantFollowsAcceptedClaim(c: Codec, cfg: Config, events: seq<Event>, n: nat, id: nat)
    returns (j: nat)
    requires n <= |events| && id in After(c, cfg, events, n).claimed
    ensures j < n && Accepted(c, cfg, events, j) && events[j].id == id
    ensures forall i | j < i < n && events[i].Grant? :: events[i].id != id
  {
    if events[n - 1].Claim? && events[n - 1].id == id && Accepted(c, cfg, events, n - 1) {
      j := n - 1;
    } else {
      j := GrantFollowsAcceptedClaim(c, cfg, events, n - 1, id);
    }
  }

  // ---- Acceptance exactly -----------------------------------------------------------

  ghost predicate Mentions(e: Event, state: string) { (e.Login? || e.Claim?) && e.state == state }

  /** Event `j` issues the state, and no login or callback has named it since. */
  ghost predicate LastIssued(events: seq<Event>, n: nat, j: nat, state: string)
    requires n <= |events|
  {
    && j < n && events[j].Login? && events[j].state == state
    && forall i: nat | j < i < n :: !Mentions(events[i], state)
  }

  lemma {:induction false} PendingIff(c: Codec, cfg: Config, events: seq<Event>, n: nat, state: string)
    requires n <= |events|
    ensures var s := After(c, cfg, events, n);
            && (state in s.states <==> exists j: nat :: LastIssued(events, n, j, state))
            && (forall j: nat | LastIssued(events, n, j, state) ::
                  state in s.states && s.states[state] == events[j].now + 600_000_000_000)
  {
    hide VerifySession;
    if n > 0 {
      PendingIff(c, cfg, events, n - 1, state);
      if Mentions(events[n - 1], state) {
        assert forall j: nat | LastIssued(events, n, j, state) :: j == n - 1;
        if events[n - 1].Login? {
          assert LastIssued(events, n, n - 1, state);
        }
      } else {
        var before := n - 1;
        forall j: nat ensures LastIssued(events, n, j, state) <==> LastIssued(events, before, j, state) {
        }
        if j: nat :| LastIssued(events, before, j, state) {
          assert LastIssued(events, n, j, state);
        }
      }
    }
  }

  /** In any run, a callback is accepted if and only if the last login or callback to name its state is a
      login at most ten minutes before. */
  lemma AcceptedIff(c: Codec, cfg: Config, events: seq<Event>, n: nat)
    requires n < |events| && events[n].Claim?
    ensures Accepted(c, cfg, events, n) <==>
            exists j: nat :: && LastIssued(events, n, j, events[n].state)
                             && events[n].now <= events[j].now + 600_000_000_000
  {
    hide After;
    PendingIff(c, cfg, events, n, events[n].state);
  }

  /** Event `j` is an accepted check of callback `id`, which has not stored a session since. */
  ghost predicate Pending(c: Codec, cfg: Config, events: seq<Event>, n: nat, j: nat, id: nat)
    requires n <= |events|
  {
    && j < n && Accepted(c, cfg, events, j) && events[j].id == id
    && forall i: nat | j < i < n :: !(events[i].Grant? && events[i].id == id)
  }

  /** Callback `id` may store a session if and only if it was accepted and has not stored one since. */
  lemma {:induction false} ClaimedIff(c: Codec, cfg: Config, events: seq<Event>, n: nat, id: nat)
    requires n <= |events|
    ensures id in After(c, cfg, events, n).claimed <==> exists j: nat :: Pending(c, cfg, events, n, j, id)
  {
    hide VerifySession, Accepts;
    if n > 0 {
      ClaimedIff(c, cfg, events, n - 1, id);
      var e := events[n - 1];
      if e.Claim? && e.id == id && Accepted(c, cfg, events, n - 1) {
        assert Pending(c, cfg, events, n, n - 1, id);
      } else if e.Grant? && e.id == id {
        assert forall j: nat :: !Pending(c, cfg, events, n, j, id);
      } else {
        var before := n - 1;
        forall j: nat ensures Pending(c, cfg, events, n, j, id) <==> Pending(c, cfg, events, before, j, id) {
        }
        if j: nat :| Pending(c, cfg, events, before, j, id) {
          assert Pending(c, cfg, events, n, j, id);
        }
      }
    }
  }
}
