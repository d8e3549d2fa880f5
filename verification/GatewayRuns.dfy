/** The gateway under load: any number of requests, each taking its gates one at a time, with the
    counters, buckets and observations that the gates consult and change. */
module GatewayRuns {
  import opened Wrappers
  import opened QuotaPeriods
  import opened QuotaStores
  import opened Gateway
  import opened Routing
  import opened MetricsParser
  import A = Admission
  import L = RateLimiting
  import Q = QuotaProtocol

  /** What the gateway is configured with. */
  datatype Setting = Setting(
    gates: Gates,
    hasRouter: bool,
    profiles: Option<map<string, Q.Limits>>,
    rate: real,
    admission: Option<A.Config>,
    vramBytes: int)

  /** Where a request is: at a gate, sent to its backend, or having its tokens recorded. It waits at a
      quota gate since the given instant; the first half of an add was done at `keyed`. */
  datatype Phase =
    | AtDaily(since: nat)
    | AtMonthly(since: nat)
    | AtRate
    | AtAdmission
    | AtRouter
    | Sent
    | Replied(tokens: nat)
    | DailyFound(tokens: nat, keyed: nat)
    | DailyAdded(tokens: nat)
    | MonthlyFound(tokens: nat, keyed: nat)

  datatype Live = Live(user: string, request: Request, phase: Phase)

  datatype World = World(
    store: Store,
    buckets: map<string, L.Bucket>,
    models: map<string, A.State>,
    registry: Registry,
    live: map<nat, Live>,
    answers: map<nat, Outcome>,
    clock: nat)

  /** Each event holds the clock readings it takes, in nanoseconds. A quota check has computed the key
      of a keyed counter at `keyed`, before any number of other events, and runs its query at `at`; an
      add computes its key at FindCounter and runs its statement at AddTokens. */
  datatype Event =
    | Arrive(id: nat, request: Request)
    | CheckDaily(id: nat, keyed: nat, at: nat)
    | CheckMonthly(id: nat, keyed: nat, at: nat)
    | AskRate(id: nat, created: nat, now: nat)
    | AskAdmission(id: nat, now: nat)
    | AskRouter(id: nat)
    | Reply(id: nat, tokens: nat)
    | FindCounter(id: nat, created: nat)
    | AddTokens(id: nat, checked: nat, reset: nat)
    | Observe(model: string, sample: ModelMetrics, running: int, now: nat)
    | Refresh(reported: seq<Reported>, endpoints: map<string, seq<string>>)
  {
    function First(clock: nat): nat {
      match this
      case CheckDaily(_, _, at) => at
      case CheckMonthly(_, _, at) => at
      case AskRate(_, created, _) => created
      case AskAdmission(_, now) => now
      case FindCounter(_, created) => created
      case AddTokens(_, checked, _) => checked
      case Observe(_, _, _, now) => now
      case _ => clock
    }

    function Last(clock: nat): nat {
      if AskRate? then now else if AddTokens? then reset else First(clock)
    }

    predicate IsGate() { CheckDaily? || CheckMonthly? || AskRate? || AskAdmission? || AskRouter? }
  }

  function Minutes(t: nat): real { t as real / 60_000_000_000.0 }

  /** Quotas are neither checked nor recorded for nobody. */
  predicate NeedsQuota(s: Setting, user: string) { s.profiles.Some? && user != "" }

  // ---- The gates --------------------------------------------------------------------

  predicate QuotaLeft(s: Setting, store: Store, p: Period, user: string, keyed: nat, at: nat)
    requires s.profiles.Some?
  {
    user in s.profiles.value && !Q.Exceeds(s.profiles.value[user], p, ReadWith(store, p, user, keyed, at))
  }

  function CallOf(user: string, created: nat, now: nat): L.Call { L.Call(user, Minutes(created), Minutes(now)) }

  /** Whether the gate that `e` asks lets the request through. */
  predicate Open(s: Setting, w: World, e: Event, l: Live)
    requires e.IsGate() && (e.CheckDaily? || e.CheckMonthly? ==> s.profiles.Some?)
  {
    match e
    case CheckDaily(_, keyed, at) => QuotaLeft(s, w.store, Daily, l.user, keyed, at)
    case CheckMonthly(_, keyed, at) => QuotaLeft(s, w.store, Monthly, l.user, keyed, at)
    case AskRate(_, created, now) => s.rate <= 0.0 || L.AllowStep(w.buckets, CallOf(l.user, created, now), s.rate).1
    case AskAdmission(_, now) =>
      var model := ModelOf(l.request);
      s.admission.None? ||
      A.Verdict(s.admission.value, if model in w.models then Some(w.models[model]) else None, now).allow
    case AskRouter(_) => Capability(if s.hasRouter then Some(w.registry) else None, l.request).None?
  }

  function Refusal(s: Setting, w: World, e: Event, l: Live): Outcome {
    match e
    case AskRate(_, _, _) => RateLimited
    case AskAdmission(_, _) => Shed
    case AskRouter(_) =>
      var c := Capability(if s.hasRouter then Some(w.registry) else None, l.request);
      if c.Some? then c.value else ModelNotDeployed
    case _ => QuotaExceeded
  }

  // ---- Steps ------------------------------------------------------------------------

  /** The gate a phase waits at. */
  predicate WaitsFor(phase: Phase, e: Event) {
    match e
    case CheckDaily(_, keyed, at) => phase.AtDaily? && phase.since <= keyed <= at
    case CheckMonthly(_, keyed, at) => phase.AtMonthly? && phase.since <= keyed <= at
    case AskRate(_, _, _) => phase.AtRate?
    case AskAdmission(_, _) => phase.AtAdmission?
    case AskRouter(_) => phase.AtRouter?
    case Reply(_, _) => phase.Sent?
    case FindCounter(_, _) => phase.Replied? || phase.DailyAdded?
    case AddTokens(_, _, _) => phase.DailyFound? || phase.MonthlyFound?
    case _ => false
  }

  function NextGate(phase: Phase, now: nat): Phase {
    match phase
    case AtDaily(_) => AtMonthly(now)
    case AtMonthly(_) => AtRate
    case AtRate => AtAdmission
    case AtAdmission => AtRouter
    case _ => Sent
  }

  predicate Enabled(s: Setting, w: World, e: Event) {
    && w.clock <= e.First(w.clock) <= e.Last(w.clock)
    && match e
       case Arrive(id, _) => id !in w.live && id !in w.answers
       case Observe(_, _, _, _) => true
       case Refresh(_, _) => true
       case _ =>
         && e.id in w.live && WaitsFor(w.live[e.id].phase, e)
         && (e.CheckDaily? || e.CheckMonthly? ==> s.profiles.Some?)
  }

  /** How a request goes on after its event. */
  datatype Fate = Goes(phase: Phase) | Ends(outcome: Outcome)

  function FateOf(s: Setting, w: World, e: Event, l: Live): Fate
    requires !e.Arrive? && WaitsFor(l.phase, e) && (e.CheckDaily? || e.CheckMonthly? ==> s.profiles.Some?)
  {
    if e.IsGate() then if Open(s, w, e, l) then Goes(NextGate(l.phase, e.Last(w.clock))) else Ends(Refusal(s, w, e, l))
    else
      match e
      case Reply(_, tokens) =>
        if tokens > 0 && NeedsQuota(s, l.user) then Goes(Replied(tokens))
        else Ends(Forwarded(l.user, ModelOf(l.request)))
      case FindCounter(_, created) =>
        Goes(if l.phase.Replied? then DailyFound(l.phase.tokens, created) else MonthlyFound(l.phase.tokens, created))
      case AddTokens(_, _, _) =>
        if l.phase.DailyFound? then Goes(DailyAdded(l.phase.tokens)) else Ends(Forwarded(l.user, ModelOf(l.request)))
  }

  /** What an event does to the live requests. */
  datatype Change = Same | Put(id: nat, l: Live) | Drop(id: nat)

  function EntryPhase(s: Setting, user: string, clock: nat): Phase {
    if NeedsQuota(s, user) then AtDaily(clock) else AtRate
  }

  function ChangeOf(s: Setting, w: World, e: Event): Change
    requires Enabled(s, w, e)
  {
    if e.Observe? || e.Refresh? then Same
    else if e.Arrive? then
      var entry := Entry(s.gates, s.hasRouter, e.request);
      if entry.Err? then Same
      else Put(e.id, Live(entry.value, e.request, EntryPhase(s, entry.value, w.clock)))
    else
      var fate := FateOf(s, w, e, w.live[e.id]);
      if fate.Goes? then Put(e.id, w.live[e.id].(phase := fate.phase)) else Drop(e.id)
  }

  function LiveAfter(s: Setting, w: World, e: Event): map<nat, Live>
    requires Enabled(s, w, e)
  {
    match ChangeOf(s, w, e)
    case Same => w.live
    case Put(id, l) => w.live[id := l]
    case Drop(id) => w.live - {id}
  }

  function AnswersAfter(s: Setting, w: World, e: Event): map<nat, Outcome>
    requires Enabled(s, w, e)
  {
    if e.Observe? || e.Refresh? then w.answers
    else if e.Arrive? then
      var entry := Entry(s.gates, s.hasRouter, e.request);
      if entry.Err? then w.answers[e.id := entry.error] else w.answers
    else
      var fate := FateOf(s, w, e, w.live[e.id]);
      if fate.Ends? then w.answers[e.id := fate.outcome] else w.answers
  }

  /** Recording looks the daily counter up, adds to it, and then does the same with the monthly one. */
  function StoreAfter(s: Setting, w: World, e: Event): Store
    requires Enabled(s, w, e)
  {
    match e
    case FindCounter(id, created) =>
      Find(w.store, if w.live[id].phase.Replied? then Daily else Monthly, w.live[id].user, created)
    case AddTokens(id, checked, reset) =>
      var l := w.live[id];
      Update(w.store, if l.phase.DailyFound? then Daily else Monthly, l.user, l.phase.tokens,
             l.phase.keyed, checked, reset)
    case _ => w.store
  }

  /** Asking the rate gate changes the buckets, whatever it answers; nothing else does. */
  function BucketsAfter(s: Setting, w: World, e: Event): map<string, L.Bucket>
    requires Enabled(s, w, e)
  {
    if e.AskRate? && s.rate > 0.0 then
      L.AllowStep(w.buckets, CallOf(w.live[e.id].user, e.created, e.now), s.rate).0
    else w.buckets
  }

  function ModelsAfter(s: Setting, w: World, e: Event): map<string, A.State> {
    if e.Observe? && s.admission.Some? then
      A.ObserveStep(s.admission.value, s.vramBytes, w.models, e.model, e.sample, e.running, e.now)
    else w.models
  }

  function Next(s: Setting, w: World, e: Event): World
    requires Enabled(s, w, e)
  {
    World(StoreAfter(s, w, e), BucketsAfter(s, w, e), ModelsAfter(s, w, e),
          if e.Refresh? then RegistryOf(e.reported, e.endpoints) else w.registry,
          LiveAfter(s, w, e), AnswersAfter(s, w, e), e.Last(w.clock))
  }

  // ---- Runs -------------------------------------------------------------------------

  predicate EmptyStore(store: Store) { store == Memory(map[], map[]) || store == Keyed([]) }

  function Initial(store: Store): World { World(store, map[], map[], map[], map[], map[], 0) }

  /** Any list of events is a run: one that is not enabled when its turn comes does not happen. */
  function After(s: Setting, store: Store, events: seq<Event>): World {
    if events == [] then Initial(store)
    else
      var before := After(s, store, events[..|events| - 1]);
      var e := events[|events| - 1];
      if Enabled(s, before, e) then Next(s, before, e) else before
  }

  /** Event `i` of the run happened. */
  ghost predicate Happened(s: Setting, store: Store, events: seq<Event>, i: nat)
    requires i < |events|
  {
    Enabled(s, After(s, store, events[..i]), events[i])
  }

  lemma AfterNext(s: Setting, store: Store, events: seq<Event>, e: Event)
    ensures After(s, store, events + [e]) ==
            var w := After(s, store, events); if Enabled(s, w, e) then Next(s, w, e) else w
  {
    assert (events + [e])[..|events|] == events;
  }

  /** What an arrival does. */
  lemma ArriveStep(s: Setting, w: World, e: Event)
    requires Enabled(s, w, e) && e.Arrive?
    ensures var entry := Entry(s.gates, s.hasRouter, e.request);
            Next(s, w, e) ==
              if entry.Err? then w.(answers := w.answers[e.id := entry.error])
              else w.(live := w.live[e.id := Live(entry.value, e.request, EntryPhase(s, entry.value, w.clock))])
    ensures e.id !in w.live
  {
    hide Entry, NeedsQuota, FateOf, RegistryOf, L.AllowStep, A.ObserveStep, Find, Update;
  }

  // ---- Every request passes its gates in order --------------------------------------

  /** The number of gates behind a request that needs every one of them. */
  function Rank(phase: Phase): nat {
    match phase
    case AtDaily(_) => 0
    case AtMonthly(_) => 1
    case AtRate => 2
    case AtAdmission => 3
    case AtRouter => 4
    case _ => 5
  }

  /** Event `i` asks gate `k` for request `id`, which had every earlier gate behind it, and passes. */
  ghost predicate PassedAt(s: Setting, store: Store, events: seq<Event>, i: nat, id: nat, k: nat)
    requires i < |events|
  {
    var w, e := After(s, store, events[..i]), events[i];
    && Enabled(s, w, e) && e.IsGate() && e.id == id
    && Rank(w.live[id].phase) == k && Open(s, w, e, w.live[id])
  }

  /** Event `i` is the arrival of request `id`, and it enters with the user it speaks for. */
  ghost predicate EnteredAt(s: Setting, store: Store, events: seq<Event>, i: nat, id: nat, r: Request, user: string)
    requires i < |events|
  {
    && Happened(s, store, events, i) && events[i] == Arrive(id, r)
    && Entry(s.gates, s.hasRouter, r) == Ok(user)
  }

  lemma StepOfRequest(s: Setting, w: World, e: Event, id: nat)
    requires Enabled(s, w, e) && id in LiveAfter(s, w, e)
    ensures var l' := LiveAfter(s, w, e)[id];
            if id !in w.live then
              && e.Arrive? && e.id == id && Entry(s.gates, s.hasRouter, l'.request) == Ok(l'.user)
              && l'.request == e.request && Rank(l'.phase) == if NeedsQuota(s, l'.user) then 0 else 2
            else
              && l'.user == w.live[id].user && l'.request == w.live[id].request
              && (Rank(l'.phase) == Rank(w.live[id].phase)
                  || (e.IsGate() && e.id == id && Open(s, w, e, w.live[id])
                      && Rank(l'.phase) == Rank(w.live[id].phase) + 1))
  {
    hide Entry, Open, Refusal, NeedsQuota, ModelOf;
  }

  ghost predicate HasPassed(s: Setting, store: Store, events: seq<Event>, id: nat, k: nat) {
    exists i: nat :: i < |events| && PassedAt(s, store, events, i, id, k)
  }

  ghost predicate HasEntered(s: Setting, store: Store, events: seq<Event>, id: nat, r: Request, user: string) {
    exists i: nat :: i < |events| && EnteredAt(s, store, events, i, id, r, user)
  }

  lemma HistoryGrows(s: Setting, store: Store, events: seq<Event>, id: nat, k: nat, r: Request, user: string)
    requires events != []
    ensures HasPassed(s, store, events[..|events| - 1], id, k) ==> HasPassed(s, store, events, id, k)
    ensures HasEntered(s, store, events[..|events| - 1], id, r, user) ==> HasEntered(s, store, events, id, r, user)
  {
    hide After, Enabled, Entry, Open, Rank;
    var before := events[..|events| - 1];
    forall i: nat | i < |before|
      ensures PassedAt(s, store, before, i, id, k) ==> PassedAt(s, store, events, i, id, k)
      ensures EnteredAt(s, store, before, i, id, r, user) ==> EnteredAt(s, store, events, i, id, r, user)
    {
      assert before[..i] == events[..i] && before[i] == events[i];
    }
  }

  /** Whoever is at or past a gate entered, and passed every gate before it that applies to it. */
  lemma {:induction false} GatesAreBehind(s: Setting, store: Store, events: seq<Event>, id: nat, k: nat)
    requires id in After(s, store, events).live
    ensures var l := After(s, store, events).live[id];
            && HasEntered(s, store, events, id, l.request, l.user)
            && (k < Rank(l.phase) && (k >= 2 || NeedsQuota(s, l.user)) ==> HasPassed(s, store, events, id, k))
  {
    if events != [] {
      var n := |events| - 1;
      var w := After(s, store, events[..n]);
      var l := After(s, store, events).live[id];
      HistoryGrows(s, store, events, id, k, l.request, l.user);
      if Enabled(s, w, events[n]) {
        StepOfRequest(s, w, events[n], id);
        hide Enabled, Entry, Open, NeedsQuota, After, Next;
        if id in w.live {
          GatesAreBehind(s, store, events[..n], id, k);
          if Rank(w.live[id].phase) == k {
            assert PassedAt(s, store, events, n, id, k) || Rank(After(s, store, events).live[id].phase) == k;
          }
        } else {
          assert EnteredAt(s, store, events, n, id, l.request, l.user);
        }
      } else {
        GatesAreBehind(s, store, events[..n], id, k);
      }
    }
  }

  /** A request that was there is still there or has been answered, and numbers are not used again. */
  lemma StaysKnown(s: Setting, w: World, e: Event, id: nat)
    requires Enabled(s, w, e) && (id in w.live || id in w.answers)
    ensures id in LiveAfter(s, w, e) || id in AnswersAfter(s, w, e)
    ensures id in LiveAfter(s, w, e) && id !in w.live ==> id !in w.answers
  {
    hide Entry, Open, Refusal, NeedsQuota, ModelOf;
  }

  /** So it is the same request, of the same user, for as long as it is there. */
  lemma {:induction false} SameRequest(s: Setting, store: Store, events: seq<Event>, i: nat, id: nat)
    requires i <= |events| && id in After(s, store, events[..i]).live
    ensures var w := After(s, store, events);
            && (id in w.live || id in w.answers)
            && (id in w.live ==>
                  && w.live[id].user == After(s, store, events[..i]).live[id].user
                  && w.live[id].request == After(s, store, events[..i]).live[id].request)
  {
    if i == |events| {
      assert events[..i] == events;
    } else {
      var n := |events| - 1;
      var w := After(s, store, events[..n]);
      assert events[..n][..i] == events[..i];
      SameRequest(s, store, events[..n], i, id);
      if Enabled(s, w, events[n]) {
        StaysKnown(s, w, events[n], id);
        if id in LiveAfter(s, w, events[n]) {
          StepOfRequest(s, w, events[n], id);
        }
        hide Enabled, LiveAfter, AnswersAfter, Entry, NeedsQuota, Rank;
      }
    }
  }

  /** Gate `k` is asked for a request that has the gate before it behind it, if that one applies. */
  ghost predicate InOrderAt(s: Setting, store: Store, events: seq<Event>, i: nat, id: nat, k: nat, l: Live)
    requires i <= |events|
  {
    && HasEntered(s, store, events[..i], id, l.request, l.user)
    && (k > 2 || (k > 0 && NeedsQuota(s, l.user)) ==> HasPassed(s, store, events[..i], id, k - 1))
  }

  lemma WasAtGate(s: Setting, store: Store, events: seq<Event>, i: nat, id: nat, k: nat)
    requires i < |events| && PassedAt(s, store, events, i, id, k)
    ensures var w := After(s, store, events[..i]); id in w.live && Rank(w.live[id].phase) == k
  {
    hide After, Entry, Open, Rank;
  }

  lemma GatesInOrder(s: Setting, store: Store, events: seq<Event>, i: nat, id: nat, k: nat)
    requires i < |events| && PassedAt(s, store, events, i, id, k) && id in After(s, store, events).live
    ensures InOrderAt(s, store, events, i, id, k, After(s, store, events).live[id])
  {
    hide After, Rank, PassedAt, HasPassed, HasEntered, NeedsQuota;
    WasAtGate(s, store, events, i, id, k);
    SameRequest(s, store, events, i, id);
    GatesAreBehind(s, store, events[..i], id, if k > 0 then k - 1 else 0);
  }

  /** The authentication provider was asked about the request's key and named this user. */
  predicate Vouched(g: Gates, r: Request, user: string) {
    g.authenticate.Some? && r.apiKey != "" && (g.authenticate.value)(r.apiKey) == Some(user)
  }

  /** What is behind a request that has been sent to its backend: it entered as the user it is sent
      for, and then passed the rate, admission and capability gates in this order, after both quota
      checks if a user and a quota manager are there. With an authentication provider, the provider
      vouched for that user if and only if the request came with a key; with a user, the source and
      access gates, if configured, let it in. */
  lemma SentPassedEveryGate(s: Setting, store: Store, events: seq<Event>, id: nat)
    requires id in After(s, store, events).live && Rank(After(s, store, events).live[id].phase) == 5
    ensures var l := After(s, store, events).live[id];
            var g := s.gates;
            && HasEntered(s, store, events, id, l.request, l.user)
            && (forall k: nat | k < 5 && (k >= 2 || NeedsQuota(s, l.user)) :: HasPassed(s, store, events, id, k))
            && (forall i: nat, k: nat | i < |events| && PassedAt(s, store, events, i, id, k) ::
                  InOrderAt(s, store, events, i, id, k, l))
            && (g.authenticate.Some? ==> (Vouched(g, l.request, l.user) <==> l.request.apiKey != ""))
            && (l.user != "" ==> Vouched(g, l.request, l.user))
            && (l.user != "" && g.sourceAllowed.Some? ==> (g.sourceAllowed.value)(l.user, l.request.clientIP))
            && (l.user != "" && g.canAccess.Some? ==> (g.canAccess.value)(l.user, ModelOf(l.request)))
  {
    var l := After(s, store, events).live[id];
    forall k: nat | k < 5 && (k >= 2 || NeedsQuota(s, l.user)) ensures HasPassed(s, store, events, id, k) {
      hide After, HasPassed, HasEntered, NeedsQuota;
      GatesAreBehind(s, store, events, id, k);
    }
    forall i: nat, k: nat | i < |events| && PassedAt(s, store, events, i, id, k)
      ensures InOrderAt(s, store, events, i, id, k, l)
    {
      hide After, HasPassed, HasEntered, NeedsQuota, PassedAt, InOrderAt;
      GatesInOrder(s, store, events, i, id, k);
    }
    hide After, HasPassed, ModelOf, PassedAt, InOrderAt;
    GatesAreBehind(s, store, events, id, 0);
    EnteredThroughTheGates(s, store, events, id, l.request, l.user);
  }

  lemma EnteredThroughTheGates(s: Setting, store: Store, events: seq<Event>, id: nat, r: Request, user: string)
    requires HasEntered(s, store, events, id, r, user)
    ensures s.gates.authenticate.Some? ==> (Vouched(s.gates, r, user) <==> r.apiKey != "")
    ensures user != "" ==> Vouched(s.gates, r, user)
    ensures user != "" && s.gates.sourceAllowed.Some? ==> (s.gates.sourceAllowed.value)(user, r.clientIP)
    ensures user != "" && s.gates.canAccess.Some? ==> (s.gates.canAccess.value)(user, ModelOf(r))
  {
    hide After, Enabled, ModelOf;
    var i: nat :| i < |events| && EnteredAt(s, store, events, i, id, r, user);
  }

  /** A request without a key goes on as nobody, whatever the provider, the source list and the access
      lists would have said, and without quota checks. */
  lemma KeylessSkipsFourGates(s: Setting, r: Request)
    requires r.apiKey == ""
    ensures Entry(s.gates, s.hasRouter, r) == Entry(Gates(None, None, None), s.hasRouter, r)
    ensures Entry(s.gates, s.hasRouter, r).Ok? ==>
              Entry(s.gates, s.hasRouter, r).value == "" && !NeedsQuota(s, Entry(s.gates, s.hasRouter, r).value)
  {
  }

  lemma PassOneGate(s: Setting, store: Store, events: seq<Event>, e: Event)
    requires Enabled(s, After(s, store, events), e) && e.IsGate() && (e.AskRate? ==> s.rate <= 0.0)
    requires Open(s, After(s, store, events), e, After(s, store, events).live[e.id])
    ensures var w := After(s, store, events);
            var l := w.live[e.id];
            var now := e.Last(w.clock);
            After(s, store, events + [e]) ==
              w.(live := w.live[e.id := l.(phase := NextGate(l.phase, now))], clock := now)
  {
    hide After, Open, Entry;
    AfterNext(s, store, events, e);
  }

  /** Without a rate limit, an admission controller and a router the last three gates are open. */
  lemma PassUnlimited(s: Setting, store: Store, events: seq<Event>, id: nat) returns (longer: seq<Event>)
    requires s.rate <= 0.0 && s.admission == None && !s.hasRouter
    requires id in After(s, store, events).live && After(s, store, events).live[id].phase == AtRate
    ensures var w := After(s, store, events);
            After(s, store, longer) == w.(live := w.live[id := w.live[id].(phase := Sent)])
    ensures var t := After(s, store, events).clock;
            longer == events + [AskRate(id, t, t)] + [AskAdmission(id, t)] + [AskRouter(id)]
  {
    hide After;
    var w := After(s, store, events);
    var t := w.clock;
    PassOneGate(s, store, events, AskRate(id, t, t));
    PassOneGate(s, store, events + [AskRate(id, t, t)], AskAdmission(id, t));
    PassOneGate(s, store, events + [AskRate(id, t, t)] + [AskAdmission(id, t)], AskRouter(id));
    longer := events + [AskRate(id, t, t)] + [AskAdmission(id, t)] + [AskRouter(id)];
    var l := w.live[id];
    assert w.live[id := l.(phase := AtAdmission)][id := l.(phase := AtRouter)][id := l.(phase := Sent)]
        == w.live[id := l.(phase := Sent)];
  }

  /** Such a request is sent even with a provider that accepts nobody, gates that admit nobody and a
      quota for nobody. */
  lemma KeylessIsSent(s: Setting, store: Store, r: Request) returns (events: seq<Event>)
    requires s.gates == Gates(Some(_ => None), Some((_, _) => false), Some((_, _) => false))
    requires s.profiles == Some(map[]) && s.rate == 0.0 && s.admission == None && !s.hasRouter && r.apiKey == ""
    ensures After(s, store, events).live == map[0 := Live("", r, Sent)]
  {
    KeylessSkipsFourGates(s, r);
    assert Entry(s.gates, s.hasRouter, r) == Ok("");
    assert After(s, store, []) == Initial(store);
    AfterNext(s, store, [], Arrive(0, r));
    events := PassUnlimited(s, store, [] + [Arrive(0, r)], 0);
  }
}
