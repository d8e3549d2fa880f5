/** What the rate gate costs and guarantees when it is one of the gates of the running gateway. */
module GatewayRates {
  import opened Wrappers
  import opened QuotaStores
  import opened Gateway
  import opened GatewayRuns
  import L = RateLimiting

  // ---- Who is charged ---------------------------------------------------------------

  /** Event `e` asks the rate gate. */
  predicate Charges(s: Setting, w: World, e: Event) { s.rate > 0.0 && e.AskRate? && Enabled(s, w, e) }

  function ChargeOf(w: World, e: Event): L.Call
    requires e.AskRate? && e.id in w.live
  {
    CallOf(w.live[e.id].user, e.created, e.now)
  }

  /** The calls that the gateway made to the limiter in a run. */
  function RateCalls(s: Setting, store: Store, events: seq<Event>): seq<L.Call> {
    if events == [] then []
    else
      var before, e := events[..|events| - 1], events[|events| - 1];
      var w := After(s, store, before);
      if Charges(s, w, e) then RateCalls(s, store, before) + [ChargeOf(w, e)] else RateCalls(s, store, before)
  }

  lemma {:induction false} RunNext(calls: seq<L.Call>, c: L.Call, rate: real)
    ensures L.Run(calls + [c], rate).0 == L.AllowStep(L.Run(calls, rate).0, c, rate).0
  {
    assert (calls + [c])[..|calls|] == calls;
  }

  /** The bucket table of the gateway is what the limiter makes of those calls and nothing else. */
  lemma {:induction false} BucketsAreTheRun(s: Setting, store: Store, events: seq<Event>)
    ensures After(s, store, events).buckets == L.Run(RateCalls(s, store, events), s.rate).0
  {
    if events != [] {
      var before, e := events[..|events| - 1], events[|events| - 1];
      BucketsAreTheRun(s, store, before);
      var w := After(s, store, before);
      if Charges(s, w, e) {
        hide L.Run, L.AllowStep, Enabled, Entry, Open;
        RunNext(RateCalls(s, store, before), ChargeOf(w, e), s.rate);
      }
    }
  }

  /** The table changes only when a request that entered as its user, and passed both quota checks if
      it needs them, asks the rate gate; and then by exactly one step of the limiter for that user. A
      request refused earlier costs nothing. */
  lemma OnlyTheRateGateCharges(s: Setting, store: Store, events: seq<Event>, e: Event)
    requires Enabled(s, After(s, store, events), e)
    ensures var w := After(s, store, events);
            if Charges(s, w, e) then
              var l := w.live[e.id];
              && Next(s, w, e).buckets == L.AllowStep(w.buckets, CallOf(l.user, e.created, e.now), s.rate).0
              && HasEntered(s, store, events, e.id, l.request, l.user)
              && (NeedsQuota(s, l.user) ==>
                    HasPassed(s, store, events, e.id, 0) && HasPassed(s, store, events, e.id, 1))
            else Next(s, w, e).buckets == w.buckets
  {
    hide After, LiveAfter, AnswersAfter, StoreAfter, ModelsAfter, HasEntered, HasPassed, NeedsQuota, L.AllowStep, Open;
    if Charges(s, After(s, store, events), e) {
      GatesAreBehind(s, store, events, e.id, 0);
      GatesAreBehind(s, store, events, e.id, 1);
    }
  }

  /** How often a request has asked the rate gate. */
  function Asks(s: Setting, store: Store, events: seq<Event>, id: nat): nat {
    if events == [] then 0
    else
      var before, e := events[..|events| - 1], events[|events| - 1];
      Asks(s, store, before, id)
      + if e.AskRate? && e.id == id && Enabled(s, After(s, store, before), e) then 1 else 0
  }

  /** Past the rate gate, or answered. */
  predicate Behind(live: map<nat, Live>, answers: map<nat, Outcome>, id: nat) {
    id in answers || (id in live && Rank(live[id].phase) >= 3)
  }

  lemma StaysBehind(s: Setting, w: World, e: Event, id: nat)
    requires Enabled(s, w, e) && (Behind(w.live, w.answers, id) || (e.AskRate? && e.id == id))
    ensures Behind(LiveAfter(s, w, e), AnswersAfter(s, w, e), id)
  {
    hide Entry, Open, Refusal, NeedsQuota, ModelOf;
  }

  lemma AnsweredStayGone(s: Setting, w: World, e: Event)
    requires Enabled(s, w, e) && w.answers.Keys !! w.live.Keys
    ensures AnswersAfter(s, w, e).Keys !! LiveAfter(s, w, e).Keys
  {
    hide Entry, Open, Refusal, NeedsQuota, ModelOf;
  }

  lemma {:induction false} AskedIsBehind(s: Setting, store: Store, events: seq<Event>, id: nat)
    ensures var w := After(s, store, events);
            && Asks(s, store, events, id) <= 1
            && w.answers.Keys !! w.live.Keys
            && (Asks(s, store, events, id) == 1 ==> Behind(w.live, w.answers, id))
  {
    if events != [] {
      var before, e := events[..|events| - 1], events[|events| - 1];
      AskedIsBehind(s, store, before, id);
      var w := After(s, store, before);
      if Enabled(s, w, e) {
        AnsweredStayGone(s, w, e);
        if Asks(s, store, before, id) == 1 {
          assert !(e.AskRate? && e.id == id);
        }
        hide Enabled, Rank, LiveAfter, AnswersAfter;
        if Asks(s, store, events, id) == 1 {
          StaysBehind(s, w, e, id);
        }
      }
    }
  }

  /** A request asks at most once, so it is charged at most one token. */
  lemma AsksAtMostOnce(s: Setting, store: Store, events: seq<Event>, id: nat)
    ensures Asks(s, store, events, id) <= 1
  {
    AskedIsBehind(s, store, events, id);
  }

  // ---- What passes ------------------------------------------------------------------

  /** Event `e` takes a request of the user through the rate gate. */
  predicate Passes(s: Setting, w: World, e: Event, user: string) {
    e.AskRate? && Enabled(s, w, e) && w.live[e.id].user == user && Open(s, w, e, w.live[e.id])
  }

  /** The requests of a user that passed the rate gate between two instants. */
  function PassedBetween(s: Setting, store: Store, events: seq<Event>, user: string, from: nat, to: nat): nat {
    if events == [] then 0
    else
      var before, e := events[..|events| - 1], events[|events| - 1];
      PassedBetween(s, store, before, user, from, to)
      + if Passes(s, After(s, store, before), e, user) && from <= e.now <= to then 1 else 0
  }

  lemma MinutesInOrder(a: nat, b: nat)
    ensures a <= b <==> Minutes(a) <= Minutes(b)
  {
  }

  ghost predicate UpTo(calls: seq<L.Call>, times: seq<real>, last: real) {
    && (forall c | c in calls :: c.created <= c.now)
    && (forall i | 0 <= i < |times| :: times[i] <= last)
    && (forall i, j | 0 <= i <= j < |times| :: times[i] <= times[j])
  }

  lemma {:induction false} CallsInOrder(s: Setting, store: Store, events: seq<Event>, user: string)
    ensures var calls := RateCalls(s, store, events);
            UpTo(calls, L.TimesOf(calls, user), Minutes(After(s, store, events).clock))
  {
    if events != [] {
      var before, e := events[..|events| - 1], events[|events| - 1];
      CallsInOrder(s, store, before, user);
      var w := After(s, store, before);
      var calls := RateCalls(s, store, before);
      if Enabled(s, w, e) {
        MinutesInOrder(w.clock, e.Last(w.clock));
        if Charges(s, w, e) {
          MinutesInOrder(w.clock, e.now);
          MinutesInOrder(e.created, e.now);
          TimesNext(calls, ChargeOf(w, e), user);
          hide L.TimesOf, After, Enabled, Minutes;
          OneMoreCall(calls, L.TimesOf(calls, user), Minutes(w.clock), ChargeOf(w, e), user);
        }
      }
    }
  }

  lemma OneMoreCall(calls: seq<L.Call>, times: seq<real>, last: real, c: L.Call, user: string)
    requires UpTo(calls, times, last) && last <= c.now && c.created <= c.now
    ensures UpTo(calls + [c], if c.user == user then times + [c.now] else times, c.now)
  {
  }

  lemma TimesNext(calls: seq<L.Call>, c: L.Call, user: string)
    ensures L.TimesOf(calls + [c], user) ==
            if c.user == user then L.TimesOf(calls, user) + [c.now] else L.TimesOf(calls, user)
  {
    assert (calls + [c])[..|calls|] == calls;
  }

  lemma {:induction false} CountFrame(times: seq<real>, taken: seq<bool>, more: seq<real>, longer: seq<bool>,
                                      from: real, to: real, n: nat)
    requires n <= |times| && n <= |taken| && times <= more && taken <= longer
    ensures L.CountBetween(times, taken, from, to, n) == L.CountBetween(more, longer, from, to, n)
  {
    if n > 0 {
      CountFrame(times, taken, more, longer, from, to, n - 1);
      assert times[n - 1] == more[n - 1] && taken[n - 1] == longer[n - 1];
    }
  }

  /** What a step adds to the passed requests and to the user's calls. */
  lemma PassedNext(s: Setting, store: Store, events: seq<Event>, user: string, from: nat, to: nat)
    requires events != [] && s.rate > 0.0
    ensures var before, e := events[..|events| - 1], events[|events| - 1];
            var w := After(s, store, before);
            var own := Charges(s, w, e) && w.live[e.id].user == user;
            && PassedBetween(s, store, events, user, from, to) ==
               PassedBetween(s, store, before, user, from, to)
               + (if own && Open(s, w, e, w.live[e.id]) && from <= e.now <= to then 1 else 0)
            && L.TimesOf(RateCalls(s, store, events), user) ==
               if own then L.TimesOf(RateCalls(s, store, before), user) + [ChargeOf(w, e).now]
               else L.TimesOf(RateCalls(s, store, before), user)
  {
    hide After, Open, L.TimesOf, Entry, CallOf;
    var before, e := events[..|events| - 1], events[|events| - 1];
    var w := After(s, store, before);
    if Charges(s, w, e) {
      TimesNext(RateCalls(s, store, before), ChargeOf(w, e), user);
      ChargeUser(w, e);
    }
  }

  lemma ChargeUser(w: World, e: Event)
    requires e.AskRate? && e.id in w.live
    ensures ChargeOf(w, e).user == w.live[e.id].user
  {
  }

  /** What passed is what the user's own bucket admits. */
  lemma {:induction false} PassedIsAdmitted(s: Setting, store: Store, events: seq<Event>, user: string,
                                            from: nat, to: nat)
    requires s.rate > 0.0
    ensures var times := L.TimesOf(RateCalls(s, store, events), user);
            PassedBetween(s, store, events, user, from, to) ==
            L.CountBetween(times, L.Decisions(s.rate, times), Minutes(from), Minutes(to), |times|)
  {
    if events == [] {
      NothingPassed(s, store, user, from, to);
    } else {
      hide *;
      var before, e := events[..|events| - 1], events[|events| - 1];
      PassedIsAdmitted(s, store, before, user, from, to);
      PassedNext(s, store, events, user, from, to);
      var w := After(s, store, before);
      if Charges(s, w, e) && w.live[e.id].user == user {
        BucketsAreTheRun(s, store, before);
        CreatedBefore(s, store, before);
        ChargeIsOpen(s, w, e);
        OneMorePassed(s.rate, RateCalls(s, store, before), ChargeOf(w, e), e.now, from, to);
      }
    }
  }

  lemma NothingPassed(s: Setting, store: Store, user: string, from: nat, to: nat)
    ensures PassedBetween(s, store, [], user, from, to) == 0
    ensures var times := L.TimesOf(RateCalls(s, store, []), user);
            L.CountBetween(times, L.Decisions(s.rate, times), Minutes(from), Minutes(to), |times|) == 0
  {
  }

  lemma CreatedBefore(s: Setting, store: Store, events: seq<Event>)
    ensures forall c | c in RateCalls(s, store, events) :: c.created <= c.now
  {
    CallsInOrder(s, store, events, "");
  }

  lemma ChargeIsOpen(s: Setting, w: World, e: Event)
    requires Charges(s, w, e)
    ensures var c := ChargeOf(w, e);
            && c.user == w.live[e.id].user && c.now == Minutes(e.now) && c.created <= c.now
            && Open(s, w, e, w.live[e.id]) == L.AllowStep(w.buckets, c, s.rate).1
  {
    hide L.AllowStep;
  }

  lemma OneMorePassed(rate: real, calls: seq<L.Call>, c: L.Call, now: nat, from: nat, to: nat)
    requires rate > 0.0 && c.now == Minutes(now) && c.created <= c.now && forall d | d in calls :: d.created <= d.now
    ensures var times := L.TimesOf(calls, c.user);
            var longer := times + [c.now];
            L.CountBetween(longer, L.Decisions(rate, longer), Minutes(from), Minutes(to), |longer|) ==
            L.CountBetween(times, L.Decisions(rate, times), Minutes(from), Minutes(to), |times|)
            + if L.AllowStep(L.Run(calls, rate).0, c, rate).1 && from <= now <= to then 1 else 0
  {
    var times := L.TimesOf(calls, c.user);
    var longer := times + [c.now];
    L.TableIsPerUser(calls, rate, c.user);
    L.StepExtendsUser(L.Run(calls, rate).0, times, c, rate);
    L.DecisionsPrefix(rate, longer, |times|);
    assert longer[..|times|] == times;
    assert L.Decisions(rate, times) <= L.Decisions(rate, longer);
    CountFrame(times, L.Decisions(rate, times), longer, L.Decisions(rate, longer), Minutes(from), Minutes(to), |times|);
    MinutesInOrder(from, now);
    MinutesInOrder(now, to);
  }

  lemma GainOfMinutes(rate: real, from: nat, to: nat)
    requires from <= to
    ensures L.Gain(rate, Minutes(from), Minutes(to)) == rate * ((to - from) as real / 60_000_000_000.0)
  {
    assert Minutes(to) - Minutes(from) == (to - from) as real / 60_000_000_000.0;
  }

  /** The rate is kept end to end: in any run, among any other users' requests and whatever the other
      gates answer, at most rate + rate * minutes requests of a user pass the rate gate, and so reach
      a backend, in any interval of time given in nanoseconds. */
  lemma RateIsKept(s: Setting, store: Store, events: seq<Event>, user: string, from: nat, to: nat)
    requires s.rate > 0.0 && from <= to
    ensures PassedBetween(s, store, events, user, from, to) as real
         <= s.rate + s.rate * ((to - from) as real / 60_000_000_000.0)
  {
    hide Minutes, L.Gain, PassedBetween, RateCalls, L.TimesOf, L.Decisions, L.CountBetween, After;
    var calls := RateCalls(s, store, events);
    CallsInOrder(s, store, events, user);
    PassedIsAdmitted(s, store, events, user, from, to);
    MinutesInOrder(from, to);
    GainOfMinutes(s.rate, from, to);
    L.IntervalBound(s.rate, L.TimesOf(calls, user), Minutes(from), Minutes(to), |L.TimesOf(calls, user)|);
  }
}
