/** How far recorded usage can overshoot a limit that is checked before a request and added to after
    it, whichever backend keeps the counters. */
module QuotaOvershoot {
  import opened Wrappers
  import opened QuotaPeriods
  import opened QuotaStores
  import opened Gateway
  import opened GatewayRuns
  import Q = QuotaProtocol

  function Users(live: map<nat, Live>, user: string): (ids: set<nat>) {
    set id | id in live && live[id].user == user
  }

  /** If `e` is a reply to the user, it uses at most `size` tokens. */
  predicate SmallReply(s: Setting, w: World, e: Event, user: string, size: nat) {
    e.Reply? && Enabled(s, w, e) && w.live[e.id].user == user ==> e.tokens <= size
  }

  /** At every point of the run at most `width` requests of the user are in flight, and none of its
      replies uses more than `size` tokens. */
  ghost predicate Bounded(s: Setting, store: Store, events: seq<Event>, user: string, width: nat, size: nat) {
    && |Users(After(s, store, events).live, user)| <= width
    && (events != [] ==>
          var n := |events| - 1;
          && Bounded(s, store, events[..n], user, width, size)
          && SmallReply(s, After(s, store, events[..n]), events[n], user, size))
  }

  /** The user has a limit for the period. */
  predicate Limited(s: Setting, p: Period, user: string, limit: int) {
    && user != "" && s.profiles.Some? && user in s.profiles.value
    && limit == s.profiles.value[user].Of(p) > 0
  }

  // ---- Who may still add to a counter -----------------------------------------------

  predicate Checking(p: Period, phase: Phase) { if p == Daily then phase.AtDaily? else phase.AtMonthly? }

  predicate Adding(p: Period, phase: Phase) { if p == Daily then phase.DailyFound? else phase.MonthlyFound? }

  /** The request has passed the check of period `p` and its tokens are not yet added there. */
  predicate PendingFor(p: Period, phase: Phase) {
    match phase
    case AtDaily(_) => false
    case AtMonthly(_) => p == Daily
    case DailyAdded(_) => p == Monthly
    case MonthlyFound(_, _) => p == Monthly
    case _ => true
  }

  function Pending(live: map<nat, Live>, p: Period, user: string): (ids: set<nat>) {
    set id | id in live && live[id].user == user && PendingFor(p, live[id].phase)
  }

  /** The request may add to the keyed counter of period `k` whatever that counter says from now on: its
      key may be that of `k` or a later one, or the check it waits for may still read an earlier one. */
  predicate Owes(p: Period, phase: Phase, k: nat, current: nat) {
    if Checking(p, phase) then PeriodOf(p, phase.since) < k
    else if Adding(p, phase) then PeriodOf(p, phase.keyed) <= k
    else PendingFor(p, phase) && current <= k
  }

  function Owing(live: map<nat, Live>, p: Period, user: string, k: nat, current: nat): (ids: set<nat>) {
    set id | id in live && live[id].user == user && Owes(p, live[id].phase, k, current)
  }

  /** What is known of a request in flight: its tokens are few, and its key is not from the future. */
  predicate Sound(phase: Phase, size: nat, clock: nat) {
    match phase
    case Replied(tokens) => tokens <= size
    case DailyFound(tokens, keyed) => tokens <= size && keyed <= clock
    case DailyAdded(tokens) => tokens <= size
    case MonthlyFound(tokens, keyed) => tokens <= size && keyed <= clock
    case _ => true
  }

  ghost predicate AllSound(w: World, user: string, size: nat) {
    forall id | id in w.live && w.live[id].user == user :: Sound(w.live[id].phase, size, w.clock)
  }

  lemma Fewer(some: set<nat>, all: set<nat>)
    requires some <= all
    ensures |some| <= |all|
  {
    if some != all {
      assert all == some + (all - some);
    }
  }

  lemma FewOwe(live: map<nat, Live>, p: Period, user: string, k: nat, current: nat)
    ensures |Owing(live, p, user, k, current)| <= |Users(live, user)|
    ensures |Pending(live, p, user)| <= |Users(live, user)|
  {
    Fewer(Owing(live, p, user, k, current), Users(live, user));
    Fewer(Pending(live, p, user), Users(live, user));
  }

  // ---- What a step does to its own request, and to the others ------------------------

  predicate Moves(e: Event, id: nat) { !e.Observe? && !e.Refresh? && e.id == id }

  lemma OthersStay(s: Setting, w: World, e: Event, id: nat)
    requires Enabled(s, w, e) && !Moves(e, id)
    ensures id in LiveAfter(s, w, e) <==> id in w.live
    ensures id in w.live ==> LiveAfter(s, w, e)[id] == w.live[id]
  {
    hide Entry, Open, Refusal, ModelOf, NeedsQuota, EntryPhase;
  }

  lemma OneStaysSound(s: Setting, w: World, e: Event, user: string, size: nat, id: nat)
    requires Enabled(s, w, e) && AllSound(w, user, size) && SmallReply(s, w, e, user, size)
    requires id in LiveAfter(s, w, e) && LiveAfter(s, w, e)[id].user == user
    ensures Sound(LiveAfter(s, w, e)[id].phase, size, e.Last(w.clock))
  {
    hide Entry, Open, Refusal, ModelOf, NeedsQuota;
    assert id in w.live && w.live[id].user == user ==> Sound(w.live[id].phase, size, w.clock);
  }

  lemma StaysSound(s: Setting, w: World, e: Event, user: string, size: nat)
    requires Enabled(s, w, e) && AllSound(w, user, size) && SmallReply(s, w, e, user, size)
    ensures AllSound(Next(s, w, e), user, size)
  {
    forall id | id in LiveAfter(s, w, e) && LiveAfter(s, w, e)[id].user == user
      ensures Sound(LiveAfter(s, w, e)[id].phase, size, e.Last(w.clock))
    {
      hide *;
      OneStaysSound(s, w, e, user, size, id);
    }
    hide Enabled, LiveAfter, Sound;
  }

  /** The user's own add for the period, and the user's own check for it. */
  predicate OwnAdd(w: World, e: Event, p: Period, user: string) {
    e.AddTokens? && e.id in w.live && w.live[e.id].user == user && Adding(p, w.live[e.id].phase)
  }

  predicate OwnCheck(w: World, e: Event, p: Period, user: string) {
    (if p == Daily then e.CheckDaily? else e.CheckMonthly?) && e.id in w.live && w.live[e.id].user == user
  }

  /** Only passing the check makes a request pending. */
  lemma BecomesPending(s: Setting, w: World, e: Event, p: Period, user: string, id: nat)
    requires NeedsQuota(s, user) && Enabled(s, w, e)
    requires id in Pending(LiveAfter(s, w, e), p, user) && id !in Pending(w.live, p, user)
    ensures OwnCheck(w, e, p, user) && Open(s, w, e, w.live[e.id])
  {
    hide Entry, Open, Refusal, ModelOf, NeedsQuota;
  }

  /** Adding its tokens ends that; until then it owed them to the period of its key and every later one. */
  lemma AddingEnds(s: Setting, w: World, e: Event, p: Period, user: string)
    requires Enabled(s, w, e) && OwnAdd(w, e, p, user)
    ensures e.id in Pending(w.live, p, user) && e.id !in Pending(LiveAfter(s, w, e), p, user)
    ensures forall k: nat, current: nat | PeriodOf(p, w.live[e.id].phase.keyed) <= k ::
              e.id in Owing(w.live, p, user, k, current)
    ensures forall k: nat, current: nat :: e.id !in Owing(LiveAfter(s, w, e), p, user, k, current)
  {
    hide Entry, Open, Refusal, ModelOf, NeedsQuota;
  }

  /** A passed check makes a request owe to period `k`, which has begun, only if its key was of `k`: one that
      passes under an earlier key owed to `k` before. */
  lemma OwesAfterCheck(s: Setting, w: World, e: Event, p: Period, l: Live, k: nat)
    requires WaitsFor(l.phase, e) && (e.CheckDaily? || e.CheckMonthly?) && w.clock <= e.at && k <= PeriodOf(p, w.clock)
    requires Owes(p, NextGate(l.phase, e.at), k, PeriodOf(p, e.at)) && !Owes(p, l.phase, k, PeriodOf(p, w.clock))
    ensures Checking(p, l.phase) && PeriodOf(p, e.keyed) == k
  {
    hide PeriodOf;
    PeriodOfMonotone(p, w.clock, e.at);
    PeriodOfMonotone(p, l.phase.since, e.keyed);
    PeriodOfMonotone(p, e.keyed, e.at);
  }

  /** Neither does any other step of a request in flight: keys are computed no earlier than now. */
  lemma OwesAfterStep(s: Setting, w: World, e: Event, p: Period, id: nat, k: nat)
    requires Enabled(s, w, e) && Moves(e, id) && id in w.live && !e.CheckDaily? && !e.CheckMonthly?
    requires id in LiveAfter(s, w, e) && Owes(p, LiveAfter(s, w, e)[id].phase, k, PeriodOf(p, e.Last(w.clock)))
    ensures Owes(p, w.live[id].phase, k, PeriodOf(p, w.clock))
  {
    hide Entry, Open, Refusal, ModelOf, NeedsQuota, PeriodOf, EntryPhase;
    PeriodOfMonotone(p, w.clock, e.Last(w.clock));
  }

  lemma OwesAtEntry(s: Setting, w: World, e: Event, p: Period, id: nat, k: nat)
    requires Enabled(s, w, e) && e.Arrive? && id == e.id && k <= PeriodOf(p, w.clock)
    requires id in LiveAfter(s, w, e) && NeedsQuota(s, LiveAfter(s, w, e)[id].user)
    ensures !Owes(p, LiveAfter(s, w, e)[id].phase, k, PeriodOf(p, w.clock))
  {
    hide Entry, NeedsQuota, PeriodOf;
  }

  lemma CheckMoves(s: Setting, w: World, e: Event, id: nat)
    requires Enabled(s, w, e) && (e.CheckDaily? || e.CheckMonthly?) && id == e.id
    ensures id in w.live && WaitsFor(w.live[id].phase, e) && e.Last(w.clock) == e.at >= w.clock
    ensures id in LiveAfter(s, w, e) ==>
              && Open(s, w, e, w.live[id])
              && LiveAfter(s, w, e)[id] == w.live[id].(phase := NextGate(w.live[id].phase, e.at))
  {
    hide Open, Refusal, Entry;
  }

  lemma UserStays(s: Setting, w: World, e: Event, id: nat)
    requires Enabled(s, w, e) && Moves(e, id) && id in LiveAfter(s, w, e)
    ensures e.Arrive? || (id in w.live && LiveAfter(s, w, e)[id].user == w.live[id].user)
  {
    hide Entry, Open, Refusal, ModelOf, NeedsQuota;
  }

  /** So only passing the user's own check under a key of `k` makes a request owe to `k`. */
  lemma BecomesOwing(s: Setting, w: World, e: Event, p: Period, user: string, k: nat, id: nat)
    requires NeedsQuota(s, user) && Enabled(s, w, e) && k <= PeriodOf(p, w.clock)
    requires id in Owing(LiveAfter(s, w, e), p, user, k, PeriodOf(p, e.Last(w.clock)))
    requires id !in Owing(w.live, p, user, k, PeriodOf(p, w.clock))
    ensures OwnCheck(w, e, p, user) && Open(s, w, e, w.live[e.id]) && PeriodOf(p, e.keyed) == k
  {
    if !Moves(e, id) {
      OthersStay(s, w, e, id);
      PeriodOfMonotone(p, w.clock, e.Last(w.clock));
      hide Enabled, LiveAfter, Open, OwnCheck, PeriodOf;
    } else {
      UserStays(s, w, e, id);
      hide Enabled, LiveAfter, Open, PeriodOf, Owes, WaitsFor, NextGate, NeedsQuota;
      if e.CheckDaily? || e.CheckMonthly? {
        CheckMoves(s, w, e, id);
        OwesAfterCheck(s, w, e, p, w.live[id], k);
        CheckIsOwn(w, e, p, user);
      } else if e.Arrive? {
        OwesAtEntry(s, w, e, p, id, k);
      } else {
        OwesAfterStep(s, w, e, p, id, k);
      }
    }
  }

  lemma CheckIsOwn(w: World, e: Event, p: Period, user: string)
    requires (e.CheckDaily? || e.CheckMonthly?) && e.id in w.live && w.live[e.id].user == user
    requires WaitsFor(w.live[e.id].phase, e) && Checking(p, w.live[e.id].phase)
    ensures OwnCheck(w, e, p, user)
  {
  }

  // ---- Memory: room after a step ----------------------------------------------------

  /** What a step does to the number of pending requests. */
  lemma PendingAfterStep(s: Setting, w: World, e: Event, p: Period, user: string)
    requires NeedsQuota(s, user) && Enabled(s, w, e)
    ensures var before, after := Pending(w.live, p, user), Pending(LiveAfter(s, w, e), p, user);
            && (|after| <= |before| || (OwnCheck(w, e, p, user) && Open(s, w, e, w.live[e.id])))
            && (OwnAdd(w, e, p, user) ==> |after| < |before|)
  {
    var before, after := Pending(w.live, p, user), Pending(LiveAfter(s, w, e), p, user);
    if !(OwnCheck(w, e, p, user) && Open(s, w, e, w.live[e.id])) {
      forall id | id in after ensures id in before {
        hide *;
        if id !in before {
          BecomesPending(s, w, e, p, user, id);
        }
      }
      Fewer(after, before);
      if OwnAdd(w, e, p, user) {
        AddingEnds(s, w, e, p, user);
        Fewer(after, before - {e.id});
      }
    }
    hide *;
  }

  lemma StoreKeepsRoom(s: Setting, w: World, e: Event, p: Period, user: string, most: int, size: nat, n: nat)
    requires w.store.Memory? && Enabled(s, w, e) && !OwnAdd(w, e, p, user)
    requires Room(w.store, p, user, most, size, n, w.clock)
    ensures StoreAfter(s, w, e).Memory? && Room(StoreAfter(s, w, e), p, user, most, size, n, e.Last(w.clock))
  {
    hide Room, Find, Update, Open;
    RoomLater(w.store, p, user, most, size, n, w.clock, e.Last(w.clock));
    if e.FindCounter? {
      var l := w.live[e.id];
      RoomAfterFind(w.store, if l.phase.Replied? then Daily else Monthly, l.user, e.created, p, user, most, size, n);
    } else if e.AddTokens? {
      var l := w.live[e.id];
      RoomAfterOther(w.store, if l.phase.DailyFound? then Daily else Monthly, l.user, l.phase.tokens, l.phase.keyed,
                     e.checked, e.reset, p, user, most, size, n, e.reset);
    }
  }

  lemma OwnAddKeepsRoom(s: Setting, w: World, e: Event, p: Period, user: string, most: int, size: nat, n: nat)
    requires w.store.Memory? && Enabled(s, w, e) && OwnAdd(w, e, p, user)
    requires Room(w.store, p, user, most, size, n, w.clock)
    requires n > 0 && Sound(w.live[e.id].phase, size, w.clock)
    ensures StoreAfter(s, w, e).Memory? && Room(StoreAfter(s, w, e), p, user, most, size, n - 1, e.Last(w.clock))
  {
    hide Room, Update;
    var phase := w.live[e.id].phase;
    RoomLater(w.store, p, user, most, size, n, w.clock, e.checked);
    RoomAfterUpdate(w.store, p, user, most, size, n, phase.tokens, phase.keyed, e.checked, e.reset);
  }

  lemma MemoryStep(s: Setting, w: World, e: Event, p: Period, user: string, limit: int, width: nat, size: nat)
    requires w.store.Memory? && Limited(s, p, user, limit) && Enabled(s, w, e) && AllSound(w, user, size)
    requires |Users(LiveAfter(s, w, e), user)| <= width
    requires Room(w.store, p, user, Most(limit, width, size), size, |Pending(w.live, p, user)|, w.clock)
    ensures StoreAfter(s, w, e).Memory?
    ensures Room(StoreAfter(s, w, e), p, user, Most(limit, width, size), size,
                 |Pending(LiveAfter(s, w, e), p, user)|, e.Last(w.clock))
  {
    hide Room, Pending, Owing, LiveAfter, StoreAfter, Sound, Users, Most;
    var most, later := Most(limit, width, size), e.Last(w.clock);
    var n, n' := |Pending(w.live, p, user)|, |Pending(LiveAfter(s, w, e), p, user)|;
    PendingAfterStep(s, w, e, p, user);
    FewOwe(LiveAfter(s, w, e), p, user, 0, 0);
    if OwnAdd(w, e, p, user) {
      OwnAddKeepsRoom(s, w, e, p, user, most, size, n);
      RoomForFewer(StoreAfter(s, w, e), p, user, most, size, n - 1, n', later);
    } else {
      StoreKeepsRoom(s, w, e, p, user, most, size, n);
      if n' <= n {
        RoomForFewer(StoreAfter(s, w, e), p, user, most, size, n, n', later);
      } else {
        CheckedBelow(s, w, e, p, user, limit);
        RoomBelowLimit(StoreAfter(s, w, e), p, user, limit, width, size, n, n', later);
      }
    }
  }

  /** A check that lets the user through read less than the limit. */
  lemma CheckedBelow(s: Setting, w: World, e: Event, p: Period, user: string, limit: int)
    requires Limited(s, p, user, limit) && Enabled(s, w, e) && OwnCheck(w, e, p, user) && Open(s, w, e, w.live[e.id])
    ensures ReadWith(w.store, p, user, e.keyed, e.at) < limit
    ensures StoreAfter(s, w, e) == w.store && e.Last(w.clock) == e.at
  {
    hide Read;
  }

  // ---- Keyed counters: room after a step ---------------------------------------------

  /** The counter of period `k` leaves room for whoever owes to it, and is empty before `k` begins. */
  ghost predicate KeyedRoom(w: World, p: Period, user: string, most: int, size: nat, k: nat)
    requires w.store.Keyed?
  {
    var used := At(TableOf(w.store.adds), p, user, k);
    && RoomAt(used, most, size, |Owing(w.live, p, user, k, PeriodOf(p, w.clock))|)
    && (k > PeriodOf(p, w.clock) ==> used == 0)
  }

  /** A step changes the counter of period `k` only if it is the user's own add under a key of `k`. */
  lemma CounterAfterStep(s: Setting, w: World, e: Event, p: Period, user: string, k: nat)
    requires w.store.Keyed? && Enabled(s, w, e)
    ensures StoreAfter(s, w, e).Keyed?
    ensures At(TableOf(StoreAfter(s, w, e).adds), p, user, k)
         == At(TableOf(w.store.adds), p, user, k)
            + if OwnAdd(w, e, p, user) && PeriodOf(p, w.live[e.id].phase.keyed) == k then w.live[e.id].phase.tokens
              else 0
  {
    if e.AddTokens? {
      var l := w.live[e.id];
      var added := Add(if l.phase.DailyFound? then Daily else Monthly, l.user, l.phase.tokens, l.phase.keyed);
      AtAppend(w.store.adds, added, p, user, k);
    }
    hide At, TableOf, PeriodOf;
  }

  /** While no check under a key of `k` lets the user through, nobody new owes to `k`. */
  lemma OwingAfterStep(s: Setting, w: World, e: Event, p: Period, user: string, k: nat)
    requires NeedsQuota(s, user) && Enabled(s, w, e) && k <= PeriodOf(p, w.clock)
    requires !(OwnCheck(w, e, p, user) && Open(s, w, e, w.live[e.id]) && PeriodOf(p, e.keyed) == k)
    ensures Owing(LiveAfter(s, w, e), p, user, k, PeriodOf(p, e.Last(w.clock)))
         <= Owing(w.live, p, user, k, PeriodOf(p, w.clock))
  {
    forall id | id in Owing(LiveAfter(s, w, e), p, user, k, PeriodOf(p, e.Last(w.clock)))
      ensures id in Owing(w.live, p, user, k, PeriodOf(p, w.clock))
    {
      hide *;
      if id !in Owing(w.live, p, user, k, PeriodOf(p, w.clock)) {
        BecomesOwing(s, w, e, p, user, k, id);
      }
    }
    hide *;
  }

  lemma KeyedAdd(s: Setting, w: World, e: Event, p: Period, user: string, most: int, size: nat, k: nat)
    requires w.store.Keyed? && NeedsQuota(s, user) && Enabled(s, w, e) && OwnAdd(w, e, p, user)
    requires PeriodOf(p, w.live[e.id].phase.keyed) == k && Sound(w.live[e.id].phase, size, w.clock)
    requires KeyedRoom(w, p, user, most, size, k)
    ensures KeyedRoom(Next(s, w, e), p, user, most, size, k)
  {
    hide Owing, At, TableOf, LiveAfter, StoreAfter, RoomAt, PeriodOf, Open, Pending;
    var before := Owing(w.live, p, user, k, PeriodOf(p, w.clock));
    var after := Owing(LiveAfter(s, w, e), p, user, k, PeriodOf(p, e.Last(w.clock)));
    var used, phase := At(TableOf(w.store.adds), p, user, k), w.live[e.id].phase;
    PeriodOfMonotone(p, phase.keyed, w.clock);
    PeriodOfMonotone(p, w.clock, e.Last(w.clock));
    CounterAfterStep(s, w, e, p, user, k);
    OwingAfterStep(s, w, e, p, user, k);
    AddingEnds(s, w, e, p, user);
    Fewer(after, before - {e.id});
    RoomAtAfterAdd(used, most, size, |before|, phase.tokens);
    RoomAtForFewer(used + phase.tokens, most, size, |before| - 1, |after|);
  }

  lemma KeyedStep(s: Setting, w: World, e: Event, p: Period, user: string, limit: int, width: nat, size: nat, k: nat)
    requires w.store.Keyed? && Limited(s, p, user, limit) && Enabled(s, w, e) && AllSound(w, user, size)
    requires |Users(LiveAfter(s, w, e), user)| <= width
    requires KeyedRoom(w, p, user, Most(limit, width, size), size, k)
    ensures StoreAfter(s, w, e).Keyed? && KeyedRoom(Next(s, w, e), p, user, Most(limit, width, size), size, k)
  {
    hide Owing, Users, At, TableOf, LiveAfter, StoreAfter, RoomAt, PeriodOf, Open, Most, Sound;
    var current, later := PeriodOf(p, w.clock), PeriodOf(p, e.Last(w.clock));
    var before, after := Owing(w.live, p, user, k, current), Owing(LiveAfter(s, w, e), p, user, k, later);
    var used := At(TableOf(w.store.adds), p, user, k);
    CounterAfterStep(s, w, e, p, user, k);
    PeriodOfMonotone(p, w.clock, e.Last(w.clock));
    FewOwe(LiveAfter(s, w, e), p, user, k, later);
    if OwnAdd(w, e, p, user) && PeriodOf(p, w.live[e.id].phase.keyed) == k {
      KeyedAdd(s, w, e, p, user, Most(limit, width, size), size, k);
    } else if used == 0 {
      RoomAtBelowLimit(used, limit, width, size, |after|);
    } else if OwnCheck(w, e, p, user) && Open(s, w, e, w.live[e.id]) && PeriodOf(p, e.keyed) == k {
      CheckedBelow(s, w, e, p, user, limit);
      RoomAtBelowLimit(used, limit, width, size, |after|);
    } else {
      OwingAfterStep(s, w, e, p, user, k);
      Fewer(after, before);
      RoomAtForFewer(used, Most(limit, width, size), size, |before|, |after|);
    }
  }

  // ---- Main results -----------------------------------------------------------------

  /** In memory what a check would read now, and in a keyed backend the counter of every period, leaves
      room for the tokens of all requests that may still be added to it. */
  ghost predicate RoomLeft(w: World, p: Period, user: string, limit: int, width: nat, size: nat) {
    match w.store
    case Memory(_, _) => Room(w.store, p, user, Most(limit, width, size), size, |Pending(w.live, p, user)|, w.clock)
    case Keyed(_) => forall k: nat :: KeyedRoom(w, p, user, Most(limit, width, size), size, k)
  }

  lemma StepLeavesRoom(s: Setting, w: World, e: Event, p: Period, user: string, limit: int, width: nat, size: nat)
    requires Limited(s, p, user, limit) && Enabled(s, w, e) && AllSound(w, user, size)
    requires |Users(LiveAfter(s, w, e), user)| <= width && RoomLeft(w, p, user, limit, width, size)
    ensures RoomLeft(Next(s, w, e), p, user, limit, width, size)
  {
    hide Enabled, LiveAfter, StoreAfter, Users, Pending, KeyedRoom, Room, AllSound, Limited, Most;
    if w.store.Memory? {
      MemoryStep(s, w, e, p, user, limit, width, size);
    } else {
      CounterAfterStep(s, w, e, p, user, 0);
      forall k: nat ensures KeyedRoom(Next(s, w, e), p, user, Most(limit, width, size), size, k) {
        KeyedStep(s, w, e, p, user, limit, width, size, k);
      }
    }
  }

  lemma RoomAtStart(store: Store, p: Period, user: string, limit: int, width: nat, size: nat)
    requires EmptyStore(store) && limit > 0
    ensures RoomLeft(Initial(store), p, user, limit, width, size)
  {
    SizesAddUp(0, width, size);
    assert Pending(map[], p, user) == {};
    forall k: nat ensures Owing(map[], p, user, k, PeriodOf(p, 0)) == {} {}
    assert TableOf([]) == map[];
    hide PeriodOf;
  }

  /** Over every bounded run, with the two checks and the four halves of the two adds of every request as
      separate events, and with keys of keyed counters computed any time before they are used, the
      counters leave room for all requests that may still be added to them. */
  lemma {:induction false} RoomIsAlwaysLeft(s: Setting, store: Store, events: seq<Event>, p: Period, user: string,
                                            limit: int, width: nat, size: nat)
    requires EmptyStore(store) && Limited(s, p, user, limit) && Bounded(s, store, events, user, width, size)
    ensures AllSound(After(s, store, events), user, size)
    ensures RoomLeft(After(s, store, events), p, user, limit, width, size)
  {
    if events == [] {
      RoomAtStart(store, p, user, limit, width, size);
    } else {
      var n := |events| - 1;
      RoomIsAlwaysLeft(s, store, events[..n], p, user, limit, width, size);
      var w := After(s, store, events[..n]);
      if Enabled(s, w, events[n]) {
        hide Enabled, AllSound, RoomLeft, Limited, LiveAfter, Users, SmallReply;
        StaysSound(s, w, events[n], user, size);
        StepLeavesRoom(s, w, events[n], p, user, limit, width, size);
      }
    }
  }

  /** The overshoot bound: while at most `width` requests of the user are in flight and none uses more
      than `size` tokens, the recorded usage that a check would read at any instant from now on is at most
      limit - 1 + width * size; so is what the memory backend holds for the user, and what a keyed
      backend holds for any day or month. Reset instants, overflowing dates and keys that are out of
      date when they are used make no exception. */
  lemma OvershootBound(s: Setting, store: Store, events: seq<Event>, p: Period, user: string, limit: int,
                       width: nat, size: nat, now: nat)
    requires EmptyStore(store) && Limited(s, p, user, limit) && Bounded(s, store, events, user, width, size)
    requires After(s, store, events).clock <= now
    ensures var after := After(s, store, events).store;
            && Read(after, p, user, now) <= limit - 1 + width * size
            && (after.Memory? && user in Counters(after, p) ==>
                  Counters(after, p)[user].used <= limit - 1 + width * size)
            && (after.Keyed? ==> forall k: nat :: At(TableOf(after.adds), p, user, k) <= limit - 1 + width * size)
  {
    RoomIsAlwaysLeft(s, store, events, p, user, limit, width, size);
    var w := After(s, store, events);
    if w.store.Memory? {
      var n := |Pending(w.live, p, user)|;
      RoomLater(w.store, p, user, Most(limit, width, size), size, n, w.clock, now);
      SizesAddUp(0, n, size);
    } else {
      forall k: nat ensures At(TableOf(w.store.adds), p, user, k) <= limit - 1 + width * size {
        assert KeyedRoom(w, p, user, Most(limit, width, size), size, k);
        SizesAddUp(0, |Owing(w.live, p, user, k, PeriodOf(p, w.clock))|, size);
      }
    }
  }

  // ---- The bound is reached ---------------------------------------------------------

  /** A user's limit to be exceeded, over a store, by requests like `r`. */
  datatype Plan = Plan(s: Setting, store: Store, p: Period, user: string, r: Request, width: nat, size: nat)
  {
    function Limit(): int {
      if s.profiles.Some? && user in s.profiles.value then s.profiles.value[user].Of(p) else 0
    }

    function At(events: seq<Event>): World { After(s, store, events) }

    /** Only period `p` is limited, the request enters as the user, and no later gate refuses it. */
    predicate OnlyLimited() {
      && EmptyStore(store) && Limited(s, p, user, Limit())
      && s.profiles.value[user].Of(if p == Daily then Monthly else Daily) <= 0
      && Entry(s.gates, s.hasRouter, r) == Ok(user)
      && s.rate <= 0.0 && s.admission == None && !s.hasRouter
    }

    ghost predicate Keeps(events: seq<Event>) { Bounded(s, store, events, user, width, size) }
  }

  /** Only an arrival adds to the requests in flight. */
  lemma UsersAfterStep(s: Setting, w: World, e: Event, user: string)
    requires Enabled(s, w, e)
    ensures |Users(LiveAfter(s, w, e), user)| <= |Users(w.live, user)| + if e.Arrive? then 1 else 0
  {
    var before, after := Users(w.live, user), Users(LiveAfter(s, w, e), user);
    forall id | id in after ensures id in before || (e.Arrive? && id == e.id) {
      hide Enabled, LiveAfter;
      if Moves(e, id) {
        UserStays(s, w, e, id);
      } else {
        OthersStay(s, w, e, id);
      }
    }
    hide Enabled, LiveAfter, Users;
    if e.Arrive? {
      Fewer(after, before + {e.id});
    } else {
      Fewer(after, before);
    }
  }

  lemma BoundedNext(s: Setting, store: Store, events: seq<Event>, e: Event, user: string, width: nat, size: nat)
    requires Bounded(s, store, events, user, width, size)
    requires e.Arrive? ==> |Users(After(s, store, events).live, user)| < width
    requires e.Reply? ==> e.tokens <= size
    ensures Bounded(s, store, events + [e], user, width, size)
  {
    hide Enabled, Users, LiveAfter, Initial;
    var w := After(s, store, events);
    assert (events + [e])[..|events|] == events;
    AfterNext(s, store, events, e);
    if Enabled(s, w, e) {
      UsersAfterStep(s, w, e, user);
    }
  }

  /** Requests a to b - 1, all sent. */
  function SentOnes(user: string, r: Request, a: nat, b: nat): map<nat, Live> {
    if b <= a then map[] else SentOnes(user, r, a, b - 1)[b - 1 := Live(user, r, Sent)]
  }

  lemma {:induction false} SentOnesAre(user: string, r: Request, a: nat, b: nat)
    requires a <= b
    ensures forall id: nat :: id in SentOnes(user, r, a, b) <==> a <= id < b
    ensures forall id: nat | a <= id < b :: SentOnes(user, r, a, b)[id] == Live(user, r, Sent)
  {
    if a < b {
      SentOnesAre(user, r, a, b - 1);
    }
  }

  lemma OneMoreUser(live: map<nat, Live>, id: nat, l: Live, user: string)
    requires id !in live && l.user == user
    ensures |Users(live[id := l], user)| == |Users(live, user)| + 1
  {
    assert Users(live[id := l], user) == Users(live, user) + {id};
  }

  lemma {:induction false} SentOnesCount(user: string, r: Request, a: nat, b: nat)
    requires a <= b
    ensures |Users(SentOnes(user, r, a, b), user)| == b - a
  {
    if a < b {
      hide *;
      SentOnesCount(user, r, a, b - 1);
      SentOnesAre(user, r, a, b - 1);
      OneMoreSent(user, r, a, b - 1);
      OneMoreUser(SentOnes(user, r, a, b - 1), b - 1, Live(user, r, Sent), user);
    } else {
      assert Users(map[], user) == {};
    }
  }

  lemma OneFewerSent(user: string, r: Request, a: nat, b: nat)
    requires a < b
    ensures SentOnes(user, r, a, b) - {a} == SentOnes(user, r, a + 1, b)
  {
    SentOnesAre(user, r, a, b);
    SentOnesAre(user, r, a + 1, b);
    hide SentOnes;
  }

  lemma OneMoreSent(user: string, r: Request, a: nat, b: nat)
    requires a <= b
    ensures SentOnes(user, r, a, b)[b := Live(user, r, Sent)] == SentOnes(user, r, a, b + 1)
  {
  }

  /** After `events`, all at instant 0, `used` tokens are recorded and requests a to b - 1 are sent. */
  ghost predicate Stands(plan: Plan, events: seq<Event>, used: int, a: nat, b: nat) {
    var w := plan.At(events);
    && plan.Keeps(events)
    && w.clock == 0 && Read(w.store, plan.p, plan.user, 0) == used && a <= b
    && w.live == SentOnes(plan.user, plan.r, a, b)
    && forall id | id in w.answers :: id < b
  }

  /** At instant 0 no window is over, so an add raises the read of its own counter alone. */
  lemma AddAtZero(store: Store, q: Period, p: Period, user: string, tokens: nat)
    ensures Read(Update(Find(store, q, user, 0), q, user, tokens, 0, 0, 0), p, user, 0)
         == Read(store, p, user, 0) + if q == p then tokens else 0
  {
    if store.Keyed? {
      AtAppend(store.adds, Add(q, user, tokens, 0), p, user, PeriodOf(p, 0));
    }
  }

  lemma Arrives(plan: Plan, events: seq<Event>, id: nat)
    requires plan.OnlyLimited() && plan.Keeps(events) && |Users(plan.At(events).live, plan.user)| < plan.width
    requires plan.At(events).clock == 0 && id !in plan.At(events).live && id !in plan.At(events).answers
    ensures plan.Keeps(events + [Arrive(id, plan.r)])
    ensures plan.At(events + [Arrive(id, plan.r)])
         == plan.At(events).(live := plan.At(events).live[id := Live(plan.user, plan.r, AtDaily(0))])
  {
    hide After, Entry, Next, Bounded, Users, EmptyStore;
    var w := plan.At(events);
    BoundedNext(plan.s, plan.store, events, Arrive(id, plan.r), plan.user, plan.width, plan.size);
    AfterNext(plan.s, plan.store, events, Arrive(id, plan.r));
    ArriveStep(plan.s, w, Arrive(id, plan.r));
  }

  lemma Overwritten(live: map<nat, Live>, id: nat, x: Live, y: Live)
    ensures live[id := x][id := y] == live[id := y]
  {
  }

  /** A request passes its two quota checks at instant 0, one of which has no limit. */
  lemma PassChecks(plan: Plan, events: seq<Event>, id: nat)
    requires plan.OnlyLimited() && plan.Keeps(events) && plan.At(events).clock == 0
    requires Read(plan.At(events).store, plan.p, plan.user, 0) < plan.Limit()
    requires id in plan.At(events).live && plan.At(events).live[id] == Live(plan.user, plan.r, AtDaily(0))
    ensures var longer := events + [CheckDaily(id, 0, 0)] + [CheckMonthly(id, 0, 0)];
            && plan.Keeps(longer)
            && plan.At(longer) == plan.At(events).(live := plan.At(events).live[id := Live(plan.user, plan.r, AtRate)])
  {
    hide After, Read, Bounded, Entry, EmptyStore, Users;
    var checked := events + [CheckDaily(id, 0, 0)];
    PassOneGate(plan.s, plan.store, events, CheckDaily(id, 0, 0));
    PassOneGate(plan.s, plan.store, checked, CheckMonthly(id, 0, 0));
    BoundedNext(plan.s, plan.store, events, CheckDaily(id, 0, 0), plan.user, plan.width, plan.size);
    BoundedNext(plan.s, plan.store, checked, CheckMonthly(id, 0, 0), plan.user, plan.width, plan.size);
    Overwritten(plan.At(events).live, id, Live(plan.user, plan.r, AtMonthly(0)), Live(plan.user, plan.r, AtRate));
  }

  lemma PassRest(plan: Plan, events: seq<Event>, id: nat) returns (longer: seq<Event>)
    requires plan.OnlyLimited() && plan.Keeps(events)
    requires id in plan.At(events).live && plan.At(events).live[id] == Live(plan.user, plan.r, AtRate)
    ensures plan.Keeps(longer)
    ensures plan.At(longer) == plan.At(events).(live := plan.At(events).live[id := Live(plan.user, plan.r, Sent)])
  {
    hide After, Bounded, Entry, EmptyStore, Users, Limited;
    longer := PassUnlimited(plan.s, plan.store, events, id);
    var t := plan.At(events).clock;
    var asked := events + [AskRate(id, t, t)];
    BoundedNext(plan.s, plan.store, events, AskRate(id, t, t), plan.user, plan.width, plan.size);
    BoundedNext(plan.s, plan.store, asked, AskAdmission(id, t), plan.user, plan.width, plan.size);
    BoundedNext(plan.s, plan.store, asked + [AskAdmission(id, t)], AskRouter(id), plan.user, plan.width, plan.size);
  }

  lemma AdmitOne(plan: Plan, events: seq<Event>, used: int, a: nat, b: nat) returns (longer: seq<Event>)
    requires plan.OnlyLimited() && Stands(plan, events, used, a, b) && b - a < plan.width && used < plan.Limit()
    ensures Stands(plan, longer, used, a, b + 1)
  {
    hide After, Read, SentOnes, Bounded, Users, Entry, EmptyStore, Limited;
    var live := plan.At(events).live;
    SentOnesAre(plan.user, plan.r, a, b);
    SentOnesCount(plan.user, plan.r, a, b);
    Arrives(plan, events, b);
    PassChecks(plan, events + [Arrive(b, plan.r)], b);
    longer := PassRest(plan, events + [Arrive(b, plan.r)] + [CheckDaily(b, 0, 0)] + [CheckMonthly(b, 0, 0)], b);
    Overwritten(live, b, Live(plan.user, plan.r, AtDaily(0)), Live(plan.user, plan.r, AtRate));
    Overwritten(live, b, Live(plan.user, plan.r, AtRate), Live(plan.user, plan.r, Sent));
    Overwritten(live, b, Live(plan.user, plan.r, AtDaily(0)), Live(plan.user, plan.r, Sent));
    OneMoreSent(plan.user, plan.r, a, b);
  }

  lemma FindStep(plan: Plan, events: seq<Event>, id: nat, q: Period, tokens: nat)
    requires var w := plan.At(events);
             && plan.Keeps(events) && w.clock == 0 && id in w.live
             && w.live[id].phase == if q == Daily then Replied(tokens) else DailyAdded(tokens)
    ensures var w, longer := plan.At(events), events + [FindCounter(id, 0)];
            var phase := if q == Daily then DailyFound(tokens, 0) else MonthlyFound(tokens, 0);
            && plan.Keeps(longer)
            && plan.At(longer) == w.(store := Find(w.store, q, w.live[id].user, 0),
                                     live := w.live[id := w.live[id].(phase := phase)])
  {
    hide After, Find, Open, Entry, Bounded, Users;
    BoundedNext(plan.s, plan.store, events, FindCounter(id, 0), plan.user, plan.width, plan.size);
    AfterNext(plan.s, plan.store, events, FindCounter(id, 0));
  }

  lemma AddStep(plan: Plan, events: seq<Event>, id: nat, q: Period, tokens: nat)
    requires var w := plan.At(events);
             && plan.Keeps(events) && w.clock == 0 && id in w.live
             && w.live[id].phase == if q == Daily then DailyFound(tokens, 0) else MonthlyFound(tokens, 0)
    ensures var w, t := plan.At(events), plan.At(events + [AddTokens(id, 0, 0)]);
            var l := w.live[id];
            && plan.Keeps(events + [AddTokens(id, 0, 0)]) && t.clock == 0
            && t.store == Update(w.store, q, l.user, tokens, 0, 0, 0)
            && t.live == (if q == Daily then w.live[id := l.(phase := DailyAdded(tokens))] else w.live - {id})
            && t.answers.Keys <= w.answers.Keys + {id}
  {
    hide After, Update, Open, Entry, Bounded, Users;
    BoundedNext(plan.s, plan.store, events, AddTokens(id, 0, 0), plan.user, plan.width, plan.size);
    AfterNext(plan.s, plan.store, events, AddTokens(id, 0, 0));
  }

  /** One whole add of request `id`, from one recording phase to the next. */
  lemma AddOne(plan: Plan, events: seq<Event>, id: nat, q: Period, tokens: nat) returns (longer: seq<Event>)
    requires var w := plan.At(events);
             && plan.Keeps(events) && w.clock == 0 && id in w.live
             && w.live[id].phase == if q == Daily then Replied(tokens) else DailyAdded(tokens)
    ensures var w, t := plan.At(events), plan.At(longer);
            var l := w.live[id];
            && plan.Keeps(longer) && t.clock == 0
            && t.store == Update(Find(w.store, q, l.user, 0), q, l.user, tokens, 0, 0, 0)
            && t.live == (if q == Daily then w.live[id := l.(phase := DailyAdded(tokens))] else w.live - {id})
            && t.answers.Keys <= w.answers.Keys + {id}
  {
    hide After, Find, Update, Bounded;
    var w := plan.At(events);
    FindStep(plan, events, id, q, tokens);
    AddStep(plan, events + [FindCounter(id, 0)], id, q, tokens);
    longer := events + [FindCounter(id, 0)] + [AddTokens(id, 0, 0)];
    Overwritten(w.live, id, w.live[id].(phase := DailyFound(tokens, 0)), w.live[id].(phase := DailyAdded(tokens)));
  }

  lemma ReplyOne(plan: Plan, events: seq<Event>, id: nat, tokens: nat)
    requires plan.Keeps(events) && id in plan.At(events).live && plan.At(events).live[id].phase == Sent
    requires NeedsQuota(plan.s, plan.At(events).live[id].user) && 0 < tokens <= plan.size
    ensures plan.Keeps(events + [Reply(id, tokens)])
    ensures plan.At(events + [Reply(id, tokens)])
         == plan.At(events).(live := plan.At(events).live[id := plan.At(events).live[id].(phase := Replied(tokens))])
  {
    hide After, Entry, Open, Bounded, Users;
    BoundedNext(plan.s, plan.store, events, Reply(id, tokens), plan.user, plan.width, plan.size);
    AfterNext(plan.s, plan.store, events, Reply(id, tokens));
  }

  /** A sent request replies and both its adds are made. */
  lemma Settle(plan: Plan, events: seq<Event>, id: nat, tokens: nat) returns (longer: seq<Event>)
    requires plan.Keeps(events)
    requires id in plan.At(events).live && plan.At(events).live[id] == Live(plan.user, plan.r, Sent)
    requires NeedsQuota(plan.s, plan.user) && 0 < tokens <= plan.size && plan.At(events).clock == 0
    ensures var w, t := plan.At(events), plan.At(longer);
            && plan.Keeps(longer) && t.clock == 0 && t.live == w.live - {id} && t.answers.Keys <= w.answers.Keys + {id}
            && Read(t.store, plan.p, plan.user, 0) == Read(w.store, plan.p, plan.user, 0) + tokens
  {
    hide *;
    var w := plan.At(events);
    ReplyOne(plan, events, id, tokens);
    longer := AddOne(plan, events + [Reply(id, tokens)], id, Daily, tokens);
    AddAtZero(w.store, Daily, plan.p, plan.user, tokens);
    AddAtZero(plan.At(longer).store, Monthly, plan.p, plan.user, tokens);
    longer := AddOne(plan, longer, id, Monthly, tokens);
    assert plan.At(longer).live == w.live - {id};
  }

  lemma FinishOne(plan: Plan, events: seq<Event>, used: int, a: nat, b: nat, tokens: nat) returns (longer: seq<Event>)
    requires plan.OnlyLimited() && Stands(plan, events, used, a, b) && a < b && 0 < tokens <= plan.size
    ensures Stands(plan, longer, used + tokens, a + 1, b)
  {
    hide After, Read, SentOnes, Entry, Bounded, EmptyStore;
    SentOnesAre(plan.user, plan.r, a, b);
    longer := Settle(plan, events, a, tokens);
    OneFewerSent(plan.user, plan.r, a, b);
  }

  lemma {:induction false} FillUp(plan: Plan, used: nat) returns (events: seq<Event>, a: nat)
    requires plan.OnlyLimited() && plan.width > 0 && plan.size > 0 && used < plan.Limit()
    ensures Stands(plan, events, used, a, a)
  {
    if used == 0 {
      events, a := [], 0;
      NothingInFlight(plan);
    } else {
      hide *;
      var last := if used < plan.size then used else plan.size;
      events, a := FillUp(plan, used - last);
      events := AdmitOne(plan, events, used - last, a, a);
      events := FinishOne(plan, events, used - last, a, a + 1, last);
      a := a + 1;
    }
  }

  lemma NothingInFlight(plan: Plan)
    requires EmptyStore(plan.store)
    ensures Stands(plan, [], 0, 0, 0)
  {
    assert Users(map[], plan.user) == {};
    assert TableOf([]) == map[];
    hide PeriodOf;
  }

  lemma {:induction false} AdmitMany(plan: Plan, n: nat) returns (events: seq<Event>, a: nat)
    requires plan.OnlyLimited() && plan.width > 0 && plan.size > 0 && plan.Limit() > 0 && n <= plan.width
    ensures Stands(plan, events, plan.Limit() - 1, a, a + n)
  {
    hide *;
    if n == 0 {
      events, a := FillUp(plan, plan.Limit() - 1);
    } else {
      events, a := AdmitMany(plan, n - 1);
      events := AdmitOne(plan, events, plan.Limit() - 1, a, a + n - 1);
    }
  }

  lemma {:induction false} FinishMany(plan: Plan, done: nat) returns (events: seq<Event>, a: nat)
    requires plan.OnlyLimited() && plan.width > 0 && plan.size > 0 && plan.Limit() > 0 && done <= plan.width
    ensures Stands(plan, events, plan.Limit() - 1 + done * plan.size, a, a + (plan.width - done))
  {
    hide *;
    var most := plan.Limit() - 1;
    if done == 0 {
      events, a := AdmitMany(plan, plan.width);
    } else {
      events, a := FinishMany(plan, done - 1);
      SizesAddUp(done - 1, done, plan.size);
      events := FinishOne(plan, events, most + (done - 1) * plan.size, a, a + (plan.width - done + 1), plan.size);
      a := a + 1;
    }
  }

  /** The overshoot bound is exact: for every limit, width and size, over either kind of backend, some
      run that keeps to them records limit - 1 + width * size. */
  lemma OvershootIsReached(plan: Plan) returns (events: seq<Event>)
    requires plan.OnlyLimited() && plan.width > 0 && plan.size > 0
    ensures var w := After(plan.s, plan.store, events);
            && Bounded(plan.s, plan.store, events, plan.user, plan.width, plan.size) && w.clock == 0
            && Read(w.store, plan.p, plan.user, 0) == plan.Limit() - 1 + plan.width * plan.size
  {
    var a: nat;
    events, a := FinishMany(plan, plan.width);
  }
}
