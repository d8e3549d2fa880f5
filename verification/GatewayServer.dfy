/** The gateway on its real objects: every method keeps them in the state that some run reaches. */
module GatewayServer {
  import opened Wrappers
  import opened QuotaPeriods
  import opened QuotaStores
  import opened Gateway
  import opened GatewayRuns
  import T = MetricsParser
  import A = Admission
  import L = RateLimiting
  import Q = QuotaProtocol
  import O = QuotaOvershoot

  /** The clock readings of one request on its way through the gates. */
  datatype Readings = Readings(dailyAt: nat, monthlyAt: nat, created: nat, now: nat, admissionAt: nat)

  predicate QuotaLets(s: Setting, store: Store, user: string, at: Readings) {
    NeedsQuota(s, user) ==>
      && QuotaLeft(s, store, Daily, user, at.dailyAt, at.dailyAt)
      && QuotaLeft(s, store, Monthly, user, at.monthlyAt, at.monthlyAt)
  }

  predicate AdmissionLets(s: Setting, models: map<string, A.State>, r: Request, at: Readings) {
    var model := ModelOf(r);
    s.admission.None? ||
    A.Verdict(s.admission.value, if model in models then Some(models[model]) else None, at.admissionAt).allow
  }

  /** The buckets and the answer after the rate gate was asked for a user. */
  function Asked(s: Setting, buckets: map<string, L.Bucket>, user: string, at: Readings): (map<string, L.Bucket>, bool)
  {
    if s.rate <= 0.0 then (buckets, true) else L.AllowStep(buckets, CallOf(user, at.created, at.now), s.rate)
  }

  /** How the request is answered, or the user it is forwarded for, when nothing comes between its gates. */
  function Gated(s: Setting, w: World, r: Request, at: Readings): Result<string, Outcome> {
    var entry := Entry(s.gates, s.hasRouter, r);
    if entry.Err? then Err(entry.error)
    else
      var user := entry.value;
      if !QuotaLets(s, w.store, user, at) then Err(QuotaExceeded)
      else if !Asked(s, w.buckets, user, at).1 then Err(RateLimited)
      else if !AdmissionLets(s, w.models, r, at) then Err(Shed)
      else
        var c := Capability(if s.hasRouter then Some(w.registry) else None, r);
        if c.Some? then Err(c.value) else Ok(user)
  }

  /** The buckets change only if the request gets as far as the rate gate. */
  function BucketsAfterServing(s: Setting, w: World, r: Request, at: Readings): map<string, L.Bucket> {
    var entry := Entry(s.gates, s.hasRouter, r);
    if entry.Err? then w.buckets
    else if !QuotaLets(s, w.store, entry.value, at) then w.buckets
    else Asked(s, w.buckets, entry.value, at).0
  }

  // ---- The same request in a run ----------------------------------------------------

  /** Where a request stands: at some phase, or answered. */
  datatype Status = Waiting(l: Live) | Done(outcome: Outcome)

  /** World `t` differs from `w` only in what one request has done so far. */
  predicate Stands(s: Setting, w: World, t: World, id: nat, status: Status, buckets: map<string, L.Bucket>) {
    && t.store == w.store && t.models == w.models && t.registry == w.registry && t.buckets == buckets
    && match status
       case Waiting(l) =>
         id in t.live && t.live[id] == l && (l.phase.AtDaily? || l.phase.AtMonthly? ==> s.profiles.Some?)
       case Done(outcome) => id !in t.live && id in t.answers && t.answers[id] == outcome
  }

  /** What asking one gate does to a request's standing. */
  function AskedOne(s: Setting, w: World, e: Event, status: Status,
                    buckets: map<string, L.Bucket>): (Status, map<string, L.Bucket>)
    requires e.IsGate()
  {
    if status.Done? || !WaitsFor(status.l.phase, e) then (status, buckets)
    else if (e.CheckDaily? || e.CheckMonthly?) && s.profiles.None? then (status, buckets)
    else
      var l, now := status.l, w.(buckets := buckets);
      (if Open(s, now, e, l) then Waiting(l.(phase := NextGate(l.phase, e.Last(w.clock))))
       else Done(Refusal(s, now, e, l)),
       if e.AskRate? && s.rate > 0.0 then L.AllowStep(buckets, CallOf(l.user, e.created, e.now), s.rate).0 else buckets)
  }

  lemma OneGate(s: Setting, store: Store, events: seq<Event>, e: Event, w: World, status: Status,
                buckets: map<string, L.Bucket>)
    requires e.IsGate() && Stands(s, w, After(s, store, events), e.id, status, buckets)
    requires var clock := After(s, store, events).clock; clock <= e.First(clock) <= e.Last(clock)
    ensures var t := After(s, store, events + [e]);
            var (after, left) := AskedOne(s, w, e, status, buckets);
            Stands(s, w, t, e.id, after, left) && t.clock <= e.Last(After(s, store, events).clock)
  {
    AfterNext(s, store, events, e);
    hide After, L.AllowStep, A.Verdict, Capability, QuotaLeft, ModelOf, Entry;
    var t := After(s, store, events);
    assert t.store == w.store && t.models == w.models && t.registry == w.registry && t.buckets == buckets;
    if status.Waiting? {
      assert Enabled(s, t, e) <==>
             WaitsFor(status.l.phase, e) && (e.CheckDaily? || e.CheckMonthly? ==> s.profiles.Some?);
    }
  }

  predicate InOrder(clock: nat, at: Readings) {
    clock <= at.dailyAt <= at.monthlyAt <= at.created <= at.now <= at.admissionAt
  }

  function GateEvents(id: nat, at: Readings): seq<Event> {
    [CheckDaily(id, at.dailyAt, at.dailyAt), CheckMonthly(id, at.monthlyAt, at.monthlyAt),
     AskRate(id, at.created, at.now), AskAdmission(id, at.admissionAt), AskRouter(id)]
  }

  /** The five gates one after the other. */
  function AllAsked(s: Setting, w: World, id: nat, at: Readings, status: Status): (Status, map<string, L.Bucket>) {
    var daily := AskedOne(s, w, CheckDaily(id, at.dailyAt, at.dailyAt), status, w.buckets);
    var monthly := AskedOne(s, w, CheckMonthly(id, at.monthlyAt, at.monthlyAt), daily.0, daily.1);
    var rate := AskedOne(s, w, AskRate(id, at.created, at.now), monthly.0, monthly.1);
    var admission := AskedOne(s, w, AskAdmission(id, at.admissionAt), rate.0, rate.1);
    AskedOne(s, w, AskRouter(id), admission.0, admission.1)
  }

  lemma AskingAll(s: Setting, store: Store, events: seq<Event>, w: World, id: nat, at: Readings, status: Status)
    returns (run: seq<Event>)
    requires Stands(s, w, After(s, store, events), id, status, w.buckets) && InOrder(After(s, store, events).clock, at)
    ensures run == events + GateEvents(id, at)
    ensures var (after, left) := AllAsked(s, w, id, at, status);
            Stands(s, w, After(s, store, run), id, after, left)
  {
    hide After, Stands, AskedOne, InOrder;
    assert After(s, store, events).clock <= at.dailyAt <= at.monthlyAt <= at.created <= at.now <= at.admissionAt by {
      InOrderIs(After(s, store, events).clock, at);
    }
    var daily := AskedOne(s, w, CheckDaily(id, at.dailyAt, at.dailyAt), status, w.buckets);
    OneGate(s, store, events, CheckDaily(id, at.dailyAt, at.dailyAt), w, status, w.buckets);
    run := events + [CheckDaily(id, at.dailyAt, at.dailyAt)];
    var monthly := AskedOne(s, w, CheckMonthly(id, at.monthlyAt, at.monthlyAt), daily.0, daily.1);
    OneGate(s, store, run, CheckMonthly(id, at.monthlyAt, at.monthlyAt), w, daily.0, daily.1);
    run := run + [CheckMonthly(id, at.monthlyAt, at.monthlyAt)];
    var rate := AskedOne(s, w, AskRate(id, at.created, at.now), monthly.0, monthly.1);
    OneGate(s, store, run, AskRate(id, at.created, at.now), w, monthly.0, monthly.1);
    run := run + [AskRate(id, at.created, at.now)];
    var admission := AskedOne(s, w, AskAdmission(id, at.admissionAt), rate.0, rate.1);
    OneGate(s, store, run, AskAdmission(id, at.admissionAt), w, rate.0, rate.1);
    run := run + [AskAdmission(id, at.admissionAt)];
    OneGate(s, store, run, AskRouter(id), w, admission.0, admission.1);
    run := run + [AskRouter(id)];
    assert run == events + GateEvents(id, at);
  }

  lemma InOrderIs(clock: nat, at: Readings)
    requires InOrder(clock, at)
    ensures clock <= at.dailyAt <= at.monthlyAt <= at.created <= at.now <= at.admissionAt
  {
  }

  lemma QuotaAsked(s: Setting, w: World, id: nat, r: Request, at: Readings, user: string)
    requires InOrder(w.clock, at)
    ensures var status := Waiting(Live(user, r, EntryPhase(s, user, w.clock)));
            var daily := AskedOne(s, w, CheckDaily(id, at.dailyAt, at.dailyAt), status, w.buckets);
            var monthly := AskedOne(s, w, CheckMonthly(id, at.monthlyAt, at.monthlyAt), daily.0, daily.1);
            monthly ==
            (if QuotaLets(s, w.store, user, at) then Waiting(Live(user, r, AtRate)) else Done(QuotaExceeded), w.buckets)
  {
    hide QuotaLeft;
  }

  lemma RateAsked(s: Setting, w: World, id: nat, r: Request, at: Readings, user: string)
    ensures var (left, ok) := Asked(s, w.buckets, user, at);
            AskedOne(s, w, AskRate(id, at.created, at.now), Waiting(Live(user, r, AtRate)), w.buckets) ==
            (if ok then Waiting(Live(user, r, AtAdmission)) else Done(RateLimited), left)
  {
    hide L.AllowStep;
  }

  lemma LastTwoAsked(s: Setting, w: World, id: nat, r: Request, at: Readings, user: string,
                     buckets: map<string, L.Bucket>)
    ensures var waiting := Waiting(Live(user, r, AtAdmission));
            var admission := AskedOne(s, w, AskAdmission(id, at.admissionAt), waiting, buckets);
            var c := Capability(if s.hasRouter then Some(w.registry) else None, r);
            AskedOne(s, w, AskRouter(id), admission.0, admission.1) ==
            (if !AdmissionLets(s, w.models, r, at) then Done(Shed)
             else if c.Some? then Done(c.value)
             else Waiting(Live(user, r, Sent)), buckets)
  {
    hide Capability, A.Verdict, ModelOf;
  }

  lemma AllAskedIsGated(s: Setting, w: World, id: nat, r: Request, at: Readings, user: string)
    requires Entry(s.gates, s.hasRouter, r) == Ok(user) && InOrder(w.clock, at)
    ensures var status := Waiting(Live(user, r, EntryPhase(s, user, w.clock)));
            var (after, left) := AllAsked(s, w, id, at, status);
            && left == BucketsAfterServing(s, w, r, at)
            && after == match Gated(s, w, r, at)
                        case Ok(_) => Waiting(Live(user, r, Sent))
                        case Err(outcome) => Done(outcome)
  {
    QuotaAsked(s, w, id, r, at, user);
    RateAsked(s, w, id, r, at, user);
    LastTwoAsked(s, w, id, r, at, user, Asked(s, w.buckets, user, at).0);
    DoneStays(s, w, AskRate(id, at.created, at.now), QuotaExceeded, w.buckets);
    DoneStays(s, w, AskAdmission(id, at.admissionAt), QuotaExceeded, w.buckets);
    DoneStays(s, w, AskRouter(id), QuotaExceeded, w.buckets);
    DoneStays(s, w, AskAdmission(id, at.admissionAt), RateLimited, Asked(s, w.buckets, user, at).0);
    DoneStays(s, w, AskRouter(id), RateLimited, Asked(s, w.buckets, user, at).0);
    hide AskedOne, Asked, QuotaLets, AdmissionLets, Capability, Entry, NeedsQuota;
  }

  lemma DoneStays(s: Setting, w: World, e: Event, outcome: Outcome, buckets: map<string, L.Bucket>)
    requires e.IsGate()
    ensures AskedOne(s, w, e, Done(outcome), buckets) == (Done(outcome), buckets)
  {
  }

  /** Serving a request is a run of the gateway in which nothing comes between its events: the same
      answer, the same buckets, and the counters, models and registry as they were. */
  lemma ServingIsARun(s: Setting, store: Store, events: seq<Event>, id: nat, r: Request, at: Readings)
    requires Enabled(s, After(s, store, events), Arrive(id, r)) && InOrder(After(s, store, events).clock, at)
    ensures var w := After(s, store, events);
            var t := After(s, store, events + [Arrive(id, r)] + GateEvents(id, at));
            && t.store == w.store && t.models == w.models && t.registry == w.registry
            && t.buckets == BucketsAfterServing(s, w, r, at)
            && match Gated(s, w, r, at)
               case Ok(user) => id in t.live && t.live[id] == Live(user, r, Sent)
               case Err(outcome) => id in t.answers && t.answers[id] == outcome
  {
    var w := After(s, store, events);
    var arrived := events + [Arrive(id, r)];
    var status := Arrived(s, store, events, id, r);
    hide After, Entry, Gated, InOrder, GateEvents, AllAsked, Enabled, BucketsAfterServing, NeedsQuota;
    var run := AskingAll(s, store, arrived, w, id, at, status);
    if status.Waiting? {
      AllAskedIsGated(s, w, id, r, at, status.l.user);
    } else {
      RefusedStays(s, w, id, r, at);
    }
  }

  /** Where a request stands when it has arrived. */
  lemma Arrived(s: Setting, store: Store, events: seq<Event>, id: nat, r: Request) returns (status: Status)
    requires Enabled(s, After(s, store, events), Arrive(id, r))
    ensures var w, t := After(s, store, events), After(s, store, events + [Arrive(id, r)]);
            && Stands(s, w, t, id, status, w.buckets) && t.clock == w.clock
    ensures var entry, clock := Entry(s.gates, s.hasRouter, r), After(s, store, events).clock;
            status == if entry.Err? then Done(entry.error)
                      else Waiting(Live(entry.value, r, EntryPhase(s, entry.value, clock)))
  {
    var entry := Entry(s.gates, s.hasRouter, r);
    status := if entry.Err? then Done(entry.error)
              else Waiting(Live(entry.value, r, EntryPhase(s, entry.value, After(s, store, events).clock)));
    ArriveStep(s, After(s, store, events), Arrive(id, r));
    hide After, Entry, Enabled, Next;
    AfterNext(s, store, events, Arrive(id, r));
  }

  lemma RefusedStays(s: Setting, w: World, id: nat, r: Request, at: Readings)
    requires Entry(s.gates, s.hasRouter, r).Err?
    ensures var outcome := Entry(s.gates, s.hasRouter, r).error;
            && AllAsked(s, w, id, at, Done(outcome)) == (Done(outcome), w.buckets)
            && Gated(s, w, r, at) == Err(outcome) && BucketsAfterServing(s, w, r, at) == w.buckets
  {
    hide Entry;
  }

  // ---- Recording in a run -----------------------------------------------------------

  /** The readings of the two adds of a record, from `clock` on. */
  predicate RecordInOrder(clock: nat, daily: Q.Readings, monthly: Q.Readings) {
    && clock <= daily.created <= daily.checked <= daily.reset
    && daily.reset <= monthly.created <= monthly.checked <= monthly.reset
  }

  function AddEvents(id: nat, at: Q.Readings): seq<Event> {
    [FindCounter(id, at.created), AddTokens(id, at.checked, at.reset)]
  }

  /** A reply without tokens, or to nobody, is not recorded. */
  predicate IsRecorded(s: Setting, user: string, tokens: nat) { tokens > 0 && NeedsQuota(s, user) }

  function RecordEvents(s: Setting, user: string, id: nat, tokens: nat,
                        daily: Q.Readings, monthly: Q.Readings): seq<Event>
  {
    [Reply(id, tokens)] + if IsRecorded(s, user, tokens) then AddEvents(id, daily) + AddEvents(id, monthly) else []
  }

  function Recorded(s: Setting, store: Store, user: string, tokens: nat, daily: Q.Readings, monthly: Q.Readings): Store
  {
    if IsRecorded(s, user, tokens) then
      Q.Added(Q.Added(store, Daily, user, tokens, daily), Monthly, user, tokens, monthly)
    else store
  }

  /** Request `id` is there as `l`. */
  predicate Is(s: Setting, store: Store, events: seq<Event>, id: nat, l: Live) {
    id in After(s, store, events).live && After(s, store, events).live[id] == l
  }

  lemma ReplyStep(s: Setting, store: Store, events: seq<Event>, id: nat, l: Live, tokens: nat)
    requires Is(s, store, events, id, l) && l.phase == Sent
    ensures var w := After(s, store, events);
            After(s, store, events + [Reply(id, tokens)]) ==
              if IsRecorded(s, l.user, tokens) then w.(live := w.live[id := l.(phase := Replied(tokens))])
              else w.(live := w.live - {id}, answers := w.answers[id := Forwarded(l.user, ModelOf(l.request))])
  {
    hide After, Entry, Open, ModelOf;
    AfterNext(s, store, events, Reply(id, tokens));
  }

  /** One whole add, from one recording phase to the next. */
  lemma AddIsARun(s: Setting, store: Store, events: seq<Event>, id: nat, l: Live, q: Period, tokens: nat,
                  at: Q.Readings)
    requires Is(s, store, events, id, l) && l.phase == if q == Daily then Replied(tokens) else DailyAdded(tokens)
    requires After(s, store, events).clock <= at.created <= at.checked <= at.reset
    ensures var w := After(s, store, events);
            var t := w.(store := Q.Added(w.store, q, l.user, tokens, at), clock := at.reset);
            After(s, store, events + AddEvents(id, at)) ==
              if q == Daily then t.(live := w.live[id := l.(phase := DailyAdded(tokens))])
              else t.(live := w.live - {id}, answers := w.answers[id := Forwarded(l.user, ModelOf(l.request))])
  {
    hide After, Entry, Open, ModelOf, Find, Update;
    var found := events + [FindCounter(id, at.created)];
    AfterNext(s, store, events, FindCounter(id, at.created));
    AfterNext(s, store, found, AddTokens(id, at.checked, at.reset));
    assert events + AddEvents(id, at) == found + [AddTokens(id, at.checked, at.reset)];
    var live := After(s, store, events).live;
    assert After(s, store, found).live - {id} == live - {id};
  }

  /** A reply and what it records: the counters change by the two adds, and the request is answered. */
  lemma RecordingIsARun(s: Setting, store: Store, events: seq<Event>, id: nat, l: Live, tokens: nat,
                        daily: Q.Readings, monthly: Q.Readings)
    requires Is(s, store, events, id, l) && l.phase == Sent
    requires RecordInOrder(After(s, store, events).clock, daily, monthly)
    ensures var w := After(s, store, events);
            var t := After(s, store, events + RecordEvents(s, l.user, id, tokens, daily, monthly));
            && t.store == Recorded(s, w.store, l.user, tokens, daily, monthly)
            && t.buckets == w.buckets && t.models == w.models && t.registry == w.registry
            && t.live == w.live - {id} && t.answers == w.answers[id := Forwarded(l.user, ModelOf(l.request))]
  {
    hide After, ModelOf, AddEvents, Q.Added, NeedsQuota;
    var live, replied := After(s, store, events).live, events + [Reply(id, tokens)];
    ReplyStep(s, store, events, id, l, tokens);
    if IsRecorded(s, l.user, tokens) {
      AddIsARun(s, store, replied, id, l.(phase := Replied(tokens)), Daily, tokens, daily);
      var added := replied + AddEvents(id, daily);
      AddIsARun(s, store, added, id, l.(phase := DailyAdded(tokens)), Monthly, tokens, monthly);
      assert events + RecordEvents(s, l.user, id, tokens, daily, monthly)
          == replied + AddEvents(id, daily) + AddEvents(id, monthly);
      assert live[id := l.(phase := DailyAdded(tokens))] - {id} == live - {id};
    } else {
      assert events + RecordEvents(s, l.user, id, tokens, daily, monthly) == replied;
    }
  }

  // ---- Observations and refreshes in a run ------------------------------------------

  function ObservedModels(s: Setting, models: map<string, A.State>, e: Event): map<string, A.State>
    requires e.Observe?
  {
    if s.admission.Some? then
      A.ObserveStep(s.admission.value, s.vramBytes, models, e.model, e.sample, e.running, e.now)
    else models
  }

  lemma ObservingIsARun(s: Setting, store: Store, events: seq<Event>, e: Event)
    requires e.Observe? && After(s, store, events).clock <= e.now
    ensures var w := After(s, store, events);
            After(s, store, events + [e]) == w.(models := ObservedModels(s, w.models, e), clock := e.now)
  {
    hide After, A.ObserveStep;
    AfterNext(s, store, events, e);
  }

  lemma RefreshingIsARun(s: Setting, store: Store, events: seq<Event>, e: Event)
    requires e.Refresh?
    ensures After(s, store, events + [e]) == After(s, store, events).(registry := RegistryOf(e.reported, e.endpoints))
  {
    hide After, RegistryOf;
    AfterNext(s, store, events, e);
  }

  // ---- The gateway's objects --------------------------------------------------------

  class GatewayServer {
    const s: Setting
    const limiter: L.RateLimiter
    const quota: Option<Q.TokenQuotaManager>
    const admission: Option<A.Controller>
    const router: Option<ModelRouter>
    ghost var initial: Store
    ghost var events: seq<Event>

    /** The components are the configured ones. */
    ghost predicate Configured() {
      && (quota.Some? <==> s.profiles.Some?) && (quota.Some? ==> quota.value.profiles == s.profiles.value)
      && (admission.Some? <==> s.admission.Some?)
      && (admission.Some? ==> admission.value.cfg == s.admission.value && admission.value.vramBytes == s.vramBytes)
      && (router.Some? <==> s.hasRouter)
    }

    ghost function QuotaParts(): set<object>
      reads if quota.Some? then quota.value.Tables() else {}
    {
      if quota.Some? then quota.value.Objects() else {}
    }

    ghost function AdmissionParts(): set<object>
      reads if admission.Some? then {admission.value} else {}
    {
      if admission.Some? then
        {admission.value} + (set m | m in admission.value.states :: admission.value.states[m])
      else {}
    }

    ghost function RouterParts(): set<object> { if router.Some? then {router.value} else {} }

    ghost predicate LimiterHolds(buckets: map<string, L.Bucket>)
      reads limiter, limiter.limits.Values
    {
      limiter.Valid() && limiter.Buckets() == buckets
    }

    ghost predicate QuotaHolds(store: Store)
      reads if quota.Some? then quota.value.Tables() else {}, QuotaParts()
    {
      quota.Some? ==> quota.value.Valid() && quota.value.Contents() == store
    }

    ghost predicate AdmissionHolds(models: map<string, A.State>)
      reads if admission.Some? then {admission.value} else {}, AdmissionParts()
    {
      admission.Some? ==> admission.value.Valid() && admission.value.Models() == models
    }

    ghost predicate RouterHolds(registry: Registry)
      reads RouterParts()
    {
      router.Some? ==> router.value.Valid() && router.value.registry == registry
    }

    /** The objects hold these counters, buckets, observed models and registered backends. */
    ghost predicate Holds(store: Store, buckets: map<string, L.Bucket>, models: map<string, A.State>,
                          registry: Registry)
      reads limiter, limiter.limits.Values
      reads if quota.Some? then quota.value.Tables() else {}, QuotaParts()
      reads if admission.Some? then {admission.value} else {}, AdmissionParts()
      reads RouterParts()
    {
      LimiterHolds(buckets) && QuotaHolds(store) && AdmissionHolds(models) && RouterHolds(registry)
    }

    /** The world that the run so far has reached. */
    ghost function Now(): World
      reads this
    {
      After(s, initial, events)
    }

    /** The objects are in the state of that world. */
    ghost predicate Valid()
      reads this, limiter, limiter.limits.Values
      reads if quota.Some? then quota.value.Tables() else {}, QuotaParts()
      reads if admission.Some? then {admission.value} else {}, AdmissionParts()
      reads RouterParts()
    {
      Configured() && Holds(Now().store, Now().buckets, Now().models, Now().registry)
    }

    constructor (s: Setting, quota: Option<Q.TokenQuotaManager>, admission: Option<A.Controller>,
                 router: Option<ModelRouter>)
      requires (quota.Some? <==> s.profiles.Some?) && (quota.Some? ==> quota.value.profiles == s.profiles.value)
      requires admission.Some? <==> s.admission.Some?
      requires admission.Some? ==> admission.value.cfg == s.admission.value && admission.value.vramBytes == s.vramBytes
      requires router.Some? <==> s.hasRouter
      requires quota.Some? ==> quota.value.Valid()
      requires admission.Some? ==> admission.value.Valid() && admission.value.Models() == map[]
      requires router.Some? ==> router.value.Valid() && router.value.registry == map[]
      ensures Valid() && events == [] && (quota.Some? ==> initial == quota.value.Contents())
      ensures this.s == s && this.quota == quota && this.admission == admission && this.router == router
    {
      hide After;
      this.s, this.quota, this.admission, this.router := s, quota, admission, router;
      limiter := new L.RateLimiter();
      initial, events := if quota.Some? then quota.value.Contents() else Keyed([]), [];
      new;
      StartsValid();
    }

    lemma StartsValid()
      requires Configured() && events == []
      requires LimiterHolds(map[]) && QuotaHolds(initial) && AdmissionHolds(map[]) && RouterHolds(map[])
      ensures Valid()
    {
      hide LimiterHolds, QuotaHolds, AdmissionHolds, RouterHolds;
    }

    /** The objects behind the components are different ones. */
    lemma LimiterApart()
      ensures limiter !in QuotaParts() + AdmissionParts() + RouterParts()
      ensures limiter.limits.Values !! QuotaParts() + AdmissionParts() + RouterParts()
    {
    }

    lemma PartsApart()
      ensures QuotaParts() !! AdmissionParts() && QuotaParts() !! RouterParts() && AdmissionParts() !! RouterParts()
    {
    }

    /** A component whose objects are unchanged holds what it held. */
    twostate lemma LimiterStill(buckets: map<string, L.Bucket>)
      requires old(LimiterHolds(buckets)) && unchanged(limiter) && unchanged(old(limiter.limits.Values))
      ensures LimiterHolds(buckets)
    {
    }

    twostate lemma QuotaStill(store: Store)
      requires old(QuotaHolds(store)) && unchanged(old(QuotaParts()))
      ensures QuotaHolds(store)
    {
    }

    twostate lemma AdmissionStill(models: map<string, A.State>)
      requires old(AdmissionHolds(models)) && unchanged(old(AdmissionParts()))
      ensures AdmissionHolds(models)
    {
    }

    twostate lemma RouterStill(registry: Registry)
      requires old(RouterHolds(registry)) && unchanged(RouterParts())
      ensures RouterHolds(registry)
    {
    }

    // ---- The gates ------------------------------------------------------------------

    method AskQuota(user: string, at: Readings, ghost store: Store) returns (ok: bool)
      requires Configured() && QuotaHolds(store)
      ensures ok <==> QuotaLets(s, store, user, at)
    {
      if quota.None? || user == "" { return true; }
      var refusal := quota.value.CheckQuota(user, at.dailyAt, at.monthlyAt);
      return refusal.None?;
    }

    method AskController(r: Request, at: Readings, ghost models: map<string, A.State>) returns (ok: bool)
      requires Configured() && AdmissionHolds(models)
      ensures ok <==> AdmissionLets(s, models, r, at)
    {
      hide A.Verdict;
      if admission.None? { return true; }
      var d := admission.value.Allow(ModelOf(r), at.admissionAt);
      return d.allow;
    }

    method QuotaOpen(user: string, at: Readings, ghost store: Store, ghost buckets: map<string, L.Bucket>,
                     ghost models: map<string, A.State>, ghost registry: Registry)
      returns (ok: bool)
      requires Configured() && Holds(store, buckets, models, registry)
      ensures Holds(store, buckets, models, registry)
      ensures ok <==> QuotaLets(s, store, user, at)
    {
      hide QuotaLets, Configured, LimiterHolds, QuotaHolds, AdmissionHolds, RouterHolds;
      ok := AskQuota(user, at, store);
      LimiterStill(buckets);
      QuotaStill(store);
      AdmissionStill(models);
      RouterStill(registry);
    }

    method AdmissionOpen(r: Request, at: Readings, ghost store: Store, ghost buckets: map<string, L.Bucket>,
                         ghost models: map<string, A.State>, ghost registry: Registry)
      returns (ok: bool)
      requires Configured() && Holds(store, buckets, models, registry)
      ensures Holds(store, buckets, models, registry)
      ensures ok <==> AdmissionLets(s, models, r, at)
    {
      hide AdmissionLets, Configured, LimiterHolds, QuotaHolds, AdmissionHolds, RouterHolds;
      ok := AskController(r, at, models);
      LimiterStill(buckets);
      QuotaStill(store);
      AdmissionStill(models);
      RouterStill(registry);
    }

    method RouterOpen(r: Request, ghost store: Store, ghost buckets: map<string, L.Bucket>,
                      ghost models: map<string, A.State>, ghost registry: Registry)
      returns (refusal: Option<Outcome>)
      requires Configured() && Holds(store, buckets, models, registry)
      ensures Holds(store, buckets, models, registry)
      ensures refusal == Capability(if s.hasRouter then Some(registry) else None, r)
    {
      refusal := Capability(if router.Some? then Some(router.value.registry) else None, r);
    }

    method AskLimiter(user: string, at: Readings, ghost buckets: map<string, L.Bucket>) returns (ok: bool)
      requires LimiterHolds(buckets)
      modifies limiter, limiter.limits.Values
      ensures fresh(limiter.limits.Values - old(limiter.limits.Values))
      ensures ok == Asked(s, buckets, user, at).1 && LimiterHolds(Asked(s, buckets, user, at).0)
    {
      hide L.AllowStep;
      if s.rate <= 0.0 { return true; }
      ok := limiter.Allow(user, s.rate, Minutes(at.created), Minutes(at.now));
    }

    /** Asking the limiter changes nothing that the other gates consult. */
    method RateOpen(user: string, at: Readings, ghost store: Store, ghost buckets: map<string, L.Bucket>,
                    ghost models: map<string, A.State>, ghost registry: Registry)
      returns (ok: bool)
      requires Holds(store, buckets, models, registry)
      modifies limiter, limiter.limits.Values
      ensures fresh(limiter.limits.Values - old(limiter.limits.Values))
      ensures ok == Asked(s, buckets, user, at).1 && Holds(store, Asked(s, buckets, user, at).0, models, registry)
    {
      hide Asked, LimiterHolds, QuotaHolds, AdmissionHolds, RouterHolds;
      LimiterApart();
      ok := AskLimiter(user, at, buckets);
      QuotaStill(store);
      AdmissionStill(models);
      RouterStill(registry);
    }

    /** One request through its gates, in the order of the code. The buckets change only if it gets as
        far as the rate gate, and then by one step for its user. */
    method Gate(r: Request, at: Readings, ghost w: World) returns (answer: Result<string, Outcome>)
      requires Configured() && Holds(w.store, w.buckets, w.models, w.registry)
      modifies limiter, limiter.limits.Values
      ensures fresh(limiter.limits.Values - old(limiter.limits.Values))
      ensures answer == Gated(s, w, r, at) && Holds(w.store, BucketsAfterServing(s, w, r, at), w.models, w.registry)
    {
      hide Asked, Capability, Entry, QuotaLets, AdmissionLets, Configured, Holds;
      var entry := Entry(s.gates, s.hasRouter, r);
      if entry.Err? { return Err(entry.error); }
      var ok := QuotaOpen(entry.value, at, w.store, w.buckets, w.models, w.registry);
      if !ok { return Err(QuotaExceeded); }
      ghost var asked := Asked(s, w.buckets, entry.value, at).0;
      ok := RateOpen(entry.value, at, w.store, w.buckets, w.models, w.registry);
      if !ok { return Err(RateLimited); }
      ok := AdmissionOpen(r, at, w.store, asked, w.models, w.registry);
      if !ok { return Err(Shed); }
      var refusal := RouterOpen(r, w.store, asked, w.models, w.registry);
      return if refusal.Some? then Err(refusal.value) else Ok(entry.value);
    }

    // ---- What the gateway does ------------------------------------------------------

    /** The objects have gone where the run goes with `more`. */
    ghost method Extend(more: seq<Event>)
      requires Configured()
      requires var t := After(s, initial, events + more); Holds(t.store, t.buckets, t.models, t.registry)
      modifies this
      ensures Valid() && initial == old(initial) && events == old(events) + more
    {
      hide After;
      events := events + more;
    }

    /** Serves request `id`: the objects go where the run goes that makes its gate events, and the answer
        is the one of that run. */
    method Serve(r: Request, at: Readings, ghost id: nat) returns (answer: Result<string, Outcome>)
      requires Valid() && id !in Now().live && id !in Now().answers && InOrder(Now().clock, at)
      modifies this, limiter, limiter.limits.Values
      ensures Valid() && fresh(limiter.limits.Values - old(limiter.limits.Values))
      ensures initial == old(initial) && events == old(events) + ([Arrive(id, r)] + GateEvents(id, at))
      ensures answer == Gated(s, old(Now()), r, at)
      ensures Now().buckets == BucketsAfterServing(s, old(Now()), r, at) && Now().store == old(Now()).store
      ensures match answer
              case Ok(user) => id in Now().live && Now().live[id] == Live(user, r, Sent)
              case Err(outcome) => id in Now().answers && Now().answers[id] == outcome
    {
      hide After, Entry, Gated, InOrder, GateEvents, BucketsAfterServing, Configured, Holds;
      ghost var w, before := Now(), events;
      answer := Gate(r, at, w);
      ServingIsARun(s, initial, before, id, r, at);
      assert before + [Arrive(id, r)] + GateEvents(id, at) == before + ([Arrive(id, r)] + GateEvents(id, at));
      Extend([Arrive(id, r)] + GateEvents(id, at));
    }

    method RecordTokens(user: string, input: nat, output: nat, daily: Q.Readings, monthly: Q.Readings,
                        ghost store: Store)
      requires Configured() && QuotaHolds(store)
      modifies QuotaParts()
      ensures forall o | o in QuotaParts() :: o in old(QuotaParts()) || fresh(o)
      ensures QuotaHolds(Recorded(s, store, user, input + output, daily, monthly))
    {
      hide Q.Added;
      if quota.Some? && (input > 0 || output > 0) {
        quota.value.Record(user, input, output, daily, monthly);
      }
    }

    method RecordOnly(user: string, input: nat, output: nat, daily: Q.Readings, monthly: Q.Readings, ghost w: World)
      requires Configured() && Holds(w.store, w.buckets, w.models, w.registry)
      modifies QuotaParts()
      ensures forall o | o in QuotaParts() :: o in old(QuotaParts()) || fresh(o)
      ensures Holds(Recorded(s, w.store, user, input + output, daily, monthly), w.buckets, w.models, w.registry)
    {
      hide Recorded, LimiterHolds, QuotaHolds, AdmissionHolds, RouterHolds;
      LimiterApart();
      PartsApart();
      RecordTokens(user, input, output, daily, monthly, w.store);
      LimiterStill(w.buckets);
      AdmissionStill(w.models);
      RouterStill(w.registry);
    }

    /** The reply of request `id` comes back and its tokens are recorded. */
    method Complete(user: string, input: nat, output: nat, daily: Q.Readings, monthly: Q.Readings, ghost id: nat)
      requires Valid() && id in Now().live && Now().live[id].phase == Sent && Now().live[id].user == user
      requires RecordInOrder(Now().clock, daily, monthly)
      modifies this, QuotaParts()
      ensures Valid() && forall o | o in QuotaParts() :: o in old(QuotaParts()) || fresh(o)
      ensures initial == old(initial)
      ensures events == old(events) + RecordEvents(s, user, id, input + output, daily, monthly)
      ensures Now().store == Recorded(s, old(Now()).store, user, input + output, daily, monthly)
      ensures Now().live == old(Now()).live - {id} && id in Now().answers
    {
      hide After, Recorded, RecordInOrder, RecordEvents, Configured, Holds;
      ghost var w := Now();
      RecordingIsARun(s, initial, events, id, w.live[id], input + output, daily, monthly);
      RecordOnly(user, input, output, daily, monthly, w);
      Extend(RecordEvents(s, user, id, input + output, daily, monthly));
    }

    method ObserveOne(model: string, sample: T.ModelMetrics, running: int, now: nat, ghost models: map<string, A.State>)
      requires Configured() && AdmissionHolds(models)
      modifies AdmissionParts()
      ensures forall o | o in AdmissionParts() :: o in old(AdmissionParts()) || fresh(o)
      ensures AdmissionHolds(ObservedModels(s, models, Observe(model, sample, running, now)))
    {
      hide A.ObserveStep;
      if admission.Some? {
        admission.value.Observe(model, sample, running, now);
      }
    }

    method ObserveOnly(model: string, sample: T.ModelMetrics, running: int, now: nat, ghost w: World)
      requires Configured() && Holds(w.store, w.buckets, w.models, w.registry)
      modifies AdmissionParts()
      ensures forall o | o in AdmissionParts() :: o in old(AdmissionParts()) || fresh(o)
      ensures Holds(w.store, w.buckets, ObservedModels(s, w.models, Observe(model, sample, running, now)), w.registry)
    {
      hide ObservedModels, LimiterHolds, QuotaHolds, AdmissionHolds, RouterHolds;
      LimiterApart();
      PartsApart();
      ObserveOne(model, sample, running, now, w.models);
      LimiterStill(w.buckets);
      QuotaStill(w.store);
      RouterStill(w.registry);
    }

    /** One observation of the poll loop. */
    method ObserveModel(model: string, sample: T.ModelMetrics, running: int, now: nat)
      requires Valid() && Now().clock <= now
      modifies this, AdmissionParts()
      ensures Valid() && forall o | o in AdmissionParts() :: o in old(AdmissionParts()) || fresh(o)
      ensures initial == old(initial) && events == old(events) + [Observe(model, sample, running, now)]
    {
      hide After, ObservedModels, Configured, Holds;
      ghost var w := Now();
      ObservingIsARun(s, initial, events, Observe(model, sample, running, now));
      ObserveOnly(model, sample, running, now, w);
      Extend([Observe(model, sample, running, now)]);
    }

    method RefreshOne(reported: seq<Reported>, capabilities: map<string, seq<string>>, ghost registry: Registry)
      requires router.Some? && RouterHolds(registry)
      modifies RouterParts()
      ensures RouterHolds(RegistryOf(reported, capabilities))
    {
      hide RegistryOf;
      router.value.Refresh(Some(reported), capabilities);
    }

    method RefreshOnly(reported: seq<Reported>, capabilities: map<string, seq<string>>, ghost w: World)
      requires router.Some? && Holds(w.store, w.buckets, w.models, w.registry)
      modifies RouterParts()
      ensures Holds(w.store, w.buckets, w.models, RegistryOf(reported, capabilities))
    {
      hide RegistryOf, LimiterHolds, QuotaHolds, AdmissionHolds, RouterHolds;
      LimiterApart();
      PartsApart();
      RefreshOne(reported, capabilities, w.registry);
      LimiterStill(w.buckets);
      QuotaStill(w.store);
      AdmissionStill(w.models);
    }

    /** One refresh of the registry; a failed query is no event and changes nothing. */
    method RefreshRegistry(response: Option<seq<Reported>>, capabilities: map<string, seq<string>>)
      requires Valid()
      modifies this, RouterParts()
      ensures Valid() && initial == old(initial)
      ensures events == old(events) + (if router.Some? && response.Some? then [Refresh(response.value, capabilities)]
                                       else [])
    {
      hide After, RegistryOf, Configured, Holds;
      if router.Some? && response.Some? {
        ghost var w := Now();
        RefreshingIsARun(s, initial, events, Refresh(response.value, capabilities));
        RefreshOnly(response.value, capabilities, w);
        Extend([Refresh(response.value, capabilities)]);
      }
    }

    /** What holds over every run holds of the objects: here the overshoot bound, for what the quota
        manager would read at any instant from now on. */
    lemma UsageIsBounded(p: Period, user: string, limit: int, width: nat, size: nat, now: nat)
      requires Valid() && EmptyStore(initial) && O.Limited(s, p, user, limit)
      requires O.Bounded(s, initial, events, user, width, size) && Now().clock <= now
      ensures quota.Some? && Read(quota.value.Contents(), p, user, now) <= limit - 1 + width * size
    {
      O.OvershootBound(s, initial, events, p, user, limit, width, size, now);
    }
  }
}
