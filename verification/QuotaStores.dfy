/** What the quota manager sees of its backend, whichever it is, and how much room a counter leaves
    for the requests that may still be added to it. */
module QuotaStores {
  import opened QuotaPeriods
  import M = MemoryQuota

  /** The counters of the memory backend, or the adds behind a backend with keyed counters. */
  datatype Store = Memory(daily: M.Counters, monthly: M.Counters) | Keyed(adds: seq<Add>)

  function Counters(s: Store, p: Period): M.Counters
    requires s.Memory?
  {
    match p
    case Daily => s.daily
    case Monthly => s.monthly
  }

  function WithCounters(s: Store, p: Period, cs: M.Counters): Store
    requires s.Memory?
  {
    match p
    case Daily => s.(daily := cs)
    case Monthly => s.(monthly := cs)
  }

  /** A read: memory compares the clock with its window, a keyed backend has the key of one period. */
  function Read(s: Store, p: Period, user: string, at: nat): int {
    match s
    case Memory(_, _) => M.GetFrom(Counters(s, p), user, at)
    case Keyed(adds) => At(TableOf(adds), p, user, PeriodOf(p, at))
  }

  /** A read made at instant `at`; a keyed backend computed its key before, at `keyed`. */
  function ReadWith(s: Store, p: Period, user: string, keyed: nat, at: nat): int {
    Read(s, p, user, if s.Keyed? then keyed else at)
  }

  /** Memory goes by the instant of the read alone, and a keyed backend by the instant of its key alone. */
  lemma ReadsByItsOwnClock(s: Store, p: Period, user: string, keyed: nat, at: nat, other: nat)
    ensures s.Memory? ==> ReadWith(s, p, user, keyed, at) == ReadWith(s, p, user, other, at)
    ensures s.Keyed? ==> ReadWith(s, p, user, keyed, at) == ReadWith(s, p, user, keyed, other)
    ensures ReadWith(s, p, user, at, at) == Read(s, p, user, at)
  {
  }

  /** First half of an add: the memory backend looks its counter up, and a keyed one only computes
      its key. */
  function Find(s: Store, p: Period, user: string, created: nat): Store {
    match s
    case Memory(_, _) => WithCounters(s, p, M.LookUp(p, Counters(s, p), user, created))
    case Keyed(_) => s
  }

  /** Second half, with the key computed at `keyed` or with the counter found. */
  function Update(s: Store, p: Period, user: string, tokens: int, keyed: nat, checked: nat, reset: nat): Store {
    match s
    case Memory(_, _) =>
      var cs := Counters(s, p);
      if user !in cs then s else WithCounters(s, p, cs[user := M.Bump(p, cs[user], tokens, checked, reset)])
    case Keyed(adds) => Keyed(adds + [Add(p, user, tokens, keyed)])
  }

  // ---- Room for the requests in flight ----------------------------------------------

  function Most(limit: int, width: nat, size: nat): int { limit - 1 + width * size }

  lemma {:induction false} SizesAddUp(m: nat, n: nat, size: nat)
    requires m <= n
    ensures 0 <= m * size <= n * size && (m + 1) * size == m * size + size
  {
    if m < n {
      SizesAddUp(m, n - 1, size);
      assert n * size == (n - 1) * size + size;
    }
  }

  /** The room that a memory counter leaves: at most `most` is recorded, and what would be read now
      leaves room for `pending` requests of at most `size` tokens each. */
  ghost predicate Room(s: Store, p: Period, user: string, most: int, size: nat, pending: nat, clock: nat)
    requires s.Memory?
  {
    && (user in Counters(s, p) ==> 0 <= Counters(s, p)[user].used <= most)
    && Read(s, p, user, clock) + pending * size <= most
  }

  /** Time passing never raises a read: a window ends, or a later period is still empty. */
  lemma RoomLater(s: Store, p: Period, user: string, most: int, size: nat, pending: nat, clock: nat, later: nat)
    requires s.Memory? && Room(s, p, user, most, size, pending, clock) && clock <= later
    ensures Room(s, p, user, most, size, pending, later)
  {
  }

  lemma RoomForFewer(s: Store, p: Period, user: string, most: int, size: nat, pending: nat, fewer: nat, clock: nat)
    requires s.Memory? && Room(s, p, user, most, size, pending, clock) && fewer <= pending
    ensures Room(s, p, user, most, size, fewer, clock)
  {
    SizesAddUp(fewer, pending, size);
  }

  /** A read below the limit leaves room for everybody who can be in flight. */
  lemma RoomBelowLimit(s: Store, p: Period, user: string, limit: int, width: nat, size: nat,
                       few: nat, pending: nat, clock: nat)
    requires s.Memory? && Room(s, p, user, Most(limit, width, size), size, few, clock)
    requires Read(s, p, user, clock) < limit && pending <= width
    ensures Room(s, p, user, Most(limit, width, size), size, pending, clock)
  {
    SizesAddUp(pending, width, size);
  }

  lemma RoomAfterFind(s: Store, q: Period, other: string, created: nat,
                      p: Period, user: string, most: int, size: nat, pending: nat)
    requires s.Memory? && Room(s, p, user, most, size, pending, created)
    ensures Find(s, q, other, created).Memory?
    ensures Room(Find(s, q, other, created), p, user, most, size, pending, created)
  {
    SizesAddUp(0, pending, size);
  }

  /** An add of at most one request's tokens uses up at most the room kept for one request, whatever
      the window does. */
  lemma RoomAfterUpdate(s: Store, p: Period, user: string, most: int, size: nat, pending: nat,
                        tokens: nat, keyed: nat, checked: nat, reset: nat)
    requires s.Memory? && Room(s, p, user, most, size, pending, checked)
    requires checked <= reset && pending > 0 && tokens <= size
    ensures Update(s, p, user, tokens, keyed, checked, reset).Memory?
    ensures Room(Update(s, p, user, tokens, keyed, checked, reset), p, user, most, size, pending - 1, reset)
  {
    SizesAddUp(pending - 1, pending, size);
    SizesAddUp(0, pending - 1, size);
    if user in Counters(s, p) {
      ResetIsLater(p, reset);
    }
  }

  lemma ResetIsLater(p: Period, now: nat)
    ensures NextReset(p, now) > now
  {
    ResetIsNextPeriodIffRegular(p, now);
    PeriodContains(p, now);
  }

  /** An add to another counter leaves the room as it is. */
  lemma RoomAfterOther(s: Store, q: Period, other: string, tokens: int, keyed: nat, checked: nat, reset: nat,
                       p: Period, user: string, most: int, size: nat, pending: nat, clock: nat)
    requires s.Memory? && Room(s, p, user, most, size, pending, clock) && (q, other) != (p, user)
    ensures Update(s, q, other, tokens, keyed, checked, reset).Memory?
    ensures Room(Update(s, q, other, tokens, keyed, checked, reset), p, user, most, size, pending, clock)
  {
  }

  /** The same for a keyed counter: `used` is recorded and `owing` requests may still be added to it. */
  predicate RoomAt(used: int, most: int, size: nat, owing: nat) { used + owing * size <= most }

  lemma RoomAtBelowLimit(used: int, limit: int, width: nat, size: nat, owing: nat)
    requires used < limit && owing <= width
    ensures RoomAt(used, Most(limit, width, size), size, owing)
  {
    SizesAddUp(owing, width, size);
  }

  lemma RoomAtForFewer(used: int, most: int, size: nat, owing: nat, fewer: nat)
    requires RoomAt(used, most, size, owing) && fewer <= owing
    ensures RoomAt(used, most, size, fewer)
  {
    SizesAddUp(fewer, owing, size);
  }

  lemma RoomAtAfterAdd(used: int, most: int, size: nat, owing: nat, tokens: nat)
    requires RoomAt(used, most, size, owing) && owing > 0 && tokens <= size
    ensures RoomAt(used + tokens, most, size, owing - 1)
  {
    SizesAddUp(owing - 1, owing, size);
  }
}
