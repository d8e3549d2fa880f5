/** The two backends that file counters under a text key: SQLite rows that live forever and
    Redis entries with a time to live. Both stand for the same table. */
module KeyedQuota {
  import opened Wrappers
  import opened GoStrings
  import opened Calendar
  import opened QuotaPeriods

  // ---- SQLite -----------------------------------------------------------------------

  /** Rows by user and key text. */
  type Rows = map<(string, string), int>

  function Select(rows: Rows, user: string, key: string): int {
    if (user, key) in rows then rows[(user, key)] else 0
  }

  function Upsert(rows: Rows, user: string, key: string, tokens: int): Rows {
    if (user, key) in rows then rows[(user, key) := rows[(user, key)] + tokens]
    else rows[(user, key) := tokens]
  }

  function Filed(p: Period, rows: Rows, a: Add): Rows {
    if a.p == p then Upsert(rows, a.user, KeyText(p, PeriodOf(p, a.at)), a.tokens) else rows
  }

  function RowsOf(p: Period, adds: seq<Add>): Rows {
    if adds == [] then map[] else Filed(p, RowsOf(p, adds[..|adds| - 1]), adds[|adds| - 1])
  }

  lemma RowsAppend(p: Period, adds: seq<Add>, a: Add)
    ensures RowsOf(p, adds + [a]) == Filed(p, RowsOf(p, adds), a)
  {
    assert (adds + [a])[..|adds|] == adds;
  }

  lemma UpsertThenSelect(rows: Rows, user: string, key: string, tokens: int, other: string, text: string)
    ensures Select(Upsert(rows, user, key, tokens), other, text)
         == Select(rows, other, text) + if (other, text) == (user, key) then tokens else 0
  {
  }

  lemma FiledReadsBack(p: Period, rows: Rows, a: Add, user: string, k: nat)
    ensures Select(Filed(p, rows, a), user, KeyText(p, k))
         == Select(rows, user, KeyText(p, k))
            + if (p, user, k) == (a.p, a.user, PeriodOf(a.p, a.at)) then a.tokens else 0
  {
    if a.p == p {
      KeyTextIsInjective(p, PeriodOf(p, a.at), k);
      UpsertThenSelect(rows, a.user, KeyText(p, PeriodOf(p, a.at)), a.tokens, user, KeyText(p, k));
    }
  }

  function Share(a: Add, p: Period, user: string, k: nat): int {
    if (p, user, k) == (a.p, a.user, PeriodOf(a.p, a.at)) then a.tokens else 0
  }

  lemma LastAddInTable(adds: seq<Add>, p: Period, user: string, k: nat)
    requires adds != []
    ensures At(TableOf(adds), p, user, k)
         == At(TableOf(adds[..|adds| - 1]), p, user, k) + Share(adds[|adds| - 1], p, user, k)
  {
    assert adds == adds[..|adds| - 1] + [adds[|adds| - 1]];
    AtAppend(adds[..|adds| - 1], adds[|adds| - 1], p, user, k);
  }

  lemma LastAddInRows(adds: seq<Add>, p: Period, user: string, k: nat)
    requires adds != []
    ensures Select(RowsOf(p, adds), user, KeyText(p, k))
         == Select(RowsOf(p, adds[..|adds| - 1]), user, KeyText(p, k)) + Share(adds[|adds| - 1], p, user, k)
  {
    FiledReadsBack(p, RowsOf(p, adds[..|adds| - 1]), adds[|adds| - 1], user, k);
  }

  /** Whatever was added when, SQLite reads back the table's counter. */
  lemma {:induction false} SQLiteIsTheTable(adds: seq<Add>, p: Period, user: string, k: nat)
    ensures Select(RowsOf(p, adds), user, KeyText(p, k)) == At(TableOf(adds), p, user, k)
  {
    if adds != [] {
      SQLiteIsTheTable(adds[..|adds| - 1], p, user, k);
      LastAddInRows(adds, p, user, k);
      LastAddInTable(adds, p, user, k);
    }
  }

  /** The adds behind the rows are kept as history: `Valid` says that the rows are their sums. */
  class SQLiteQuotaBackend {
    var daily: Rows
    var monthly: Rows
    ghost var adds: seq<Add>

    ghost predicate Valid()
      reads this
    {
      daily == RowsOf(Daily, adds) && monthly == RowsOf(Monthly, adds)
    }

    constructor ()
      ensures Valid() && adds == []
    {
      daily, monthly, adds := map[], map[], [];
    }

    /** One upsert, at one clock reading. */
    method AddTokens(p: Period, user: string, tokens: int, now: nat)
      requires Valid()
      modifies this
      ensures Valid() && adds == old(adds) + [Add(p, user, tokens, now)]
    {
      hide RowsOf, KeyText, PeriodOf;
      var key := KeyText(p, PeriodOf(p, now));
      var rows := if p == Daily then daily else monthly;
      var row := if (user, key) in rows then rows[(user, key)] + tokens else tokens;
      if p == Daily {
        daily := daily[(user, key) := row];
      } else {
        monthly := monthly[(user, key) := row];
      }
      RowsAppend(Daily, adds, Add(p, user, tokens, now));
      RowsAppend(Monthly, adds, Add(p, user, tokens, now));
      adds := adds + [Add(p, user, tokens, now)];
    }

    /** A read is the sum of the user's adds in the current day or month. */
    method Get(p: Period, user: string, now: nat) returns (tokens: int)
      requires Valid()
      ensures tokens == At(TableOf(adds), p, user, PeriodOf(p, now))
    {
      SQLiteIsTheTable(adds, p, user, PeriodOf(p, now));
      var key := KeyText(p, PeriodOf(p, now));
      var rows := if p == Daily then daily else monthly;
      if (user, key) !in rows {
        return 0;
      }
      return rows[(user, key)];
    }
  }

  // ---- Redis ------------------------------------------------------------------------

  const HOUR: nat := 3_600_000_000_000

  function TimeToLive(p: Period): nat {
    match p
    case Daily => 48 * HOUR
    case Monthly => 70 * 24 * HOUR
  }

  function PeriodName(p: Period): string {
    match p
    case Daily => "daily"
    case Monthly => "monthly"
  }

  function RedisKey(prefix: string, p: Period, user: string, k: nat): string {
    prefix + PeriodName(p) + ":" + user + ":" + KeyText(p, k)
  }

  lemma ColonSeparatedParts(prefix: string, a: string, b: string, c: string, x: string, y: string, z: string)
    requires prefix + a + ":" + b + ":" + c == prefix + x + ":" + y + ":" + z
    requires ':' !in a && ':' !in x && ':' !in c && ':' !in z
    ensures a == x && b == y && c == z
  {
    var left, right := a + [':'] + (b + [':'] + c), x + [':'] + (y + [':'] + z);
    assert prefix + a + ":" + b + ":" + c == prefix + left && prefix + x + ":" + y + ":" + z == prefix + right;
    assert left == (prefix + left)[|prefix|..] && right == (prefix + right)[|prefix|..];
    SplitAtFirst(a, b + [':'] + c, x, y + [':'] + z, ':');
    SplitAtLast(b, c, y, z, ':');
  }

  /** Users may contain colons: keys still never collide. */
  lemma RedisKeyIsInjective(prefix: string, p: Period, user: string, k: nat, q: Period, other: string, j: nat)
    ensures RedisKey(prefix, p, user, k) == RedisKey(prefix, q, other, j) <==> (p, user, k) == (q, other, j)
  {
    hide KeyText;
    if RedisKey(prefix, p, user, k) == RedisKey(prefix, q, other, j) {
      KeyTextIsInjective(p, k, j);
      KeyTextIsInjective(q, j, k);
      ColonSeparatedParts(prefix, PeriodName(p), user, KeyText(p, k), PeriodName(q), other, KeyText(q, j));
      assert |PeriodName(Daily)| == 5 && |PeriodName(Monthly)| == 7;
    }
  }

  datatype Entry = Entry(value: int, expiresAt: Option<nat>)

  type Store = map<string, Entry>

  predicate Live(store: Store, key: string, now: nat) {
    key in store && (store[key].expiresAt.None? || now < store[key].expiresAt.value)
  }

  /** INCRBY keeps the expiry of a live entry and starts a new one without expiry. */
  function IncrBy(store: Store, key: string, tokens: int, now: nat): Store {
    if Live(store, key, now) then store[key := store[key].(value := store[key].value + tokens)]
    else store[key := Entry(tokens, None)]
  }

  function Expire(store: Store, key: string, ttl: nat, now: nat): Store {
    if Live(store, key, now) then store[key := store[key].(expiresAt := Some(now + ttl))] else store
  }

  function GetEntry(store: Store, key: string, now: nat): int {
    if Live(store, key, now) then store[key].value else 0
  }

  /** Commands of any number of gateways, interleaved; `keyed` is when the key was computed. */
  datatype Command =
    | Incr(p: Period, user: string, tokens: int, keyed: nat, at: nat)
    | Refresh(p: Period, user: string, keyed: nat, at: nat)

  function Applied(prefix: string, store: Store, c: Command): Store {
    var key := RedisKey(prefix, c.p, c.user, PeriodOf(c.p, c.keyed));
    if c.Incr? then IncrBy(store, key, c.tokens, c.at) else Expire(store, key, TimeToLive(c.p), c.at)
  }

  function StoreAfter(prefix: string, cmds: seq<Command>): Store {
    if cmds == [] then map[] else Applied(prefix, StoreAfter(prefix, cmds[..|cmds| - 1]), cmds[|cmds| - 1])
  }

  lemma StoreAppend(prefix: string, cmds: seq<Command>, c: Command)
    ensures StoreAfter(prefix, cmds + [c]) == Applied(prefix, StoreAfter(prefix, cmds), c)
  {
    assert (cmds + [c])[..|cmds|] == cmds;
  }

  /** An increment is an add at the instant that chose its key. */
  function Added(adds: seq<Add>, c: Command): seq<Add> {
    if c.Incr? then adds + [Add(c.p, c.user, c.tokens, c.keyed)] else adds
  }

  function AddsOf(cmds: seq<Command>): seq<Add> {
    if cmds == [] then [] else Added(AddsOf(cmds[..|cmds| - 1]), cmds[|cmds| - 1])
  }

  lemma LivesLongerThanItsPeriod(p: Period, t: nat)
    ensures t + TimeToLive(p) >= PeriodStart(p, PeriodOf(p, t) + 1)
  {
    PeriodContains(p, t);
  }

  /** The entry is live up to `until` and holds `value`, or there is none and `value` is 0. */
  ghost predicate Holds(store: Store, key: string, value: int, until: nat) {
    if key in store then
      store[key].value == value && (store[key].expiresAt.Some? ==> store[key].expiresAt.value >= until)
    else value == 0
  }

  lemma IncrByKeeps(store: Store, key: string, value: int, until: nat, other: string, tokens: int, at: nat)
    requires Holds(store, key, value, until) && at < until
    ensures Holds(IncrBy(store, other, tokens, at), key, value + if other == key then tokens else 0, until)
  {
  }

  lemma ExpireKeeps(store: Store, key: string, value: int, until: nat, other: string, ttl: nat, at: nat)
    requires Holds(store, key, value, until) && (other == key ==> at + ttl >= until)
    ensures Holds(Expire(store, other, ttl, at), key, value, until)
  {
  }

  lemma CommandKeeps(prefix: string, store: Store, adds: seq<Add>, c: Command, p: Period, user: string, k: nat)
    requires Holds(store, RedisKey(prefix, p, user, k), At(TableOf(adds), p, user, k), PeriodStart(p, k + 1))
    requires c.keyed <= c.at < PeriodStart(p, k + 1)
    ensures Holds(Applied(prefix, store, c), RedisKey(prefix, p, user, k),
                  At(TableOf(Added(adds, c)), p, user, k), PeriodStart(p, k + 1))
  {
    var j := PeriodOf(c.p, c.keyed);
    var key, other := RedisKey(prefix, p, user, k), RedisKey(prefix, c.p, c.user, j);
    var value, until := At(TableOf(adds), p, user, k), PeriodStart(p, k + 1);
    assert other == key <==> (c.p, c.user, j) == (p, user, k) by {
      RedisKeyIsInjective(prefix, c.p, c.user, j, p, user, k);
    }
    if c.Incr? {
      IncrByKeeps(store, key, value, until, other, c.tokens, c.at);
      AtAppend(adds, Add(c.p, c.user, c.tokens, c.keyed), p, user, k);
    } else {
      LivesLongerThanItsPeriod(c.p, c.keyed);
      ExpireKeeps(store, key, value, until, other, TimeToLive(c.p), c.at);
    }
  }

  /** Until its period is over, an entry is live and holds the table's counter. */
  lemma {:induction false} EntryHoldsCounter(prefix: string, cmds: seq<Command>, p: Period, user: string, k: nat)
    requires forall c | c in cmds :: c.keyed <= c.at < PeriodStart(p, k + 1)
    ensures Holds(StoreAfter(prefix, cmds), RedisKey(prefix, p, user, k),
                  At(TableOf(AddsOf(cmds)), p, user, k), PeriodStart(p, k + 1))
  {
    if cmds != [] {
      var before, c := cmds[..|cmds| - 1], cmds[|cmds| - 1];
      EntryHoldsCounter(prefix, before, p, user, k);
      CommandKeeps(prefix, StoreAfter(prefix, before), AddsOf(before), c, p, user, k);
    }
  }

  /** Expiry never drops a counter that can still be read: over any interleaving of commands a
      read equals the table's counter for the current period. */
  lemma RedisReadsTheTable(prefix: string, cmds: seq<Command>, p: Period, user: string, now: nat)
    requires forall c | c in cmds :: c.keyed <= c.at <= now
    ensures GetEntry(StoreAfter(prefix, cmds), RedisKey(prefix, p, user, PeriodOf(p, now)), now)
         == At(TableOf(AddsOf(cmds)), p, user, PeriodOf(p, now))
  {
    PeriodContains(p, now);
    EntryHoldsCounter(prefix, cmds, p, user, PeriodOf(p, now));
  }

  /** An entry that no command touches any more is gone 48 hours after its last refresh if it is a day's, and
      70 days after if it is a month's, and not before. */
  lemma EntryExpires(prefix: string, cmds: seq<Command>, p: Period, user: string, keyed: nat, at: nat, now: nat)
    requires Live(StoreAfter(prefix, cmds), RedisKey(prefix, p, user, PeriodOf(p, keyed)), at)
    ensures var store := StoreAfter(prefix, cmds + [Refresh(p, user, keyed, at)]);
            Live(store, RedisKey(prefix, p, user, PeriodOf(p, keyed)), now) <==>
            now < at + if p == Daily then 172_800_000_000_000 else 6_048_000_000_000_000
  {
    hide RedisKey, PeriodOf;
    StoreAppend(prefix, cmds, Refresh(p, user, keyed, at));
  }

  /** The commands behind the store are kept as history, those of other gateways included. */
  class RedisQuotaBackend {
    const keyPrefix: string
    var store: Store
    ghost var commands: seq<Command>

    ghost predicate Valid()
      reads this
    {
      store == StoreAfter(keyPrefix, commands)
    }

    constructor (keyPrefix: string)
      ensures Valid() && commands == []
      ensures this.keyPrefix == if keyPrefix == "" then "sovstack:quota:" else keyPrefix
    {
      this.keyPrefix := if keyPrefix == "" then "sovstack:quota:" else keyPrefix;
      store, commands := map[], [];
    }

    /** The server runs one command of any gateway with the same prefix. */
    method Run(c: Command)
      requires Valid()
      modifies this
      ensures Valid() && commands == old(commands) + [c]
    {
      StoreAppend(keyPrefix, commands, c);
      store := Applied(keyPrefix, store, c);
      commands := commands + [c];
    }

    method RunAll(others: seq<Command>)
      requires Valid()
      modifies this
      ensures Valid() && commands == old(commands) + others
    {
      hide Valid;
      for i := 0 to |others|
        invariant Valid() && commands == old(commands) + others[..i]
      {
        assert others[..i + 1] == others[..i] + [others[i]];
        Run(others[i]);
      }
      assert others[..|others|] == others;
    }

    /** The key is computed at `keyed`; the pipeline's two commands run at `incr` and `expire`, and any
        commands of other gateways between them. */
    method AddTokens(p: Period, user: string, tokens: int, keyed: nat, incr: nat, others: seq<Command>, expire: nat)
      requires Valid()
      modifies this
      ensures Valid()
      ensures commands ==
              old(commands) + [Incr(p, user, tokens, keyed, incr)] + others + [Refresh(p, user, keyed, expire)]
    {
      hide Valid;
      Run(Incr(p, user, tokens, keyed, incr));
      RunAll(others);
      Run(Refresh(p, user, keyed, expire));
    }

    /** Unless a command ran before its key was computed or after this read, or the period ended
        between computing the key and reading, a read is the sum of the user's increments of the
        current day or month: no expiry has dropped it. */
    method Get(p: Period, user: string, keyed: nat, now: nat) returns (tokens: int)
      requires Valid()
      ensures (forall c | c in commands :: c.keyed <= c.at <= now) && PeriodOf(p, keyed) == PeriodOf(p, now)
          ==> tokens == At(TableOf(AddsOf(commands)), p, user, PeriodOf(p, now))
    {
      tokens := GetEntry(store, RedisKey(keyPrefix, p, user, PeriodOf(p, keyed)), now);
      if (forall c | c in commands :: c.keyed <= c.at <= now) && PeriodOf(p, keyed) == PeriodOf(p, now) {
        RedisReadsTheTable(keyPrefix, commands, p, user, now);
      }
    }
  }
}
