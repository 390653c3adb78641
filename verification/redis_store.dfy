/**
 * The part of Redis the cache relies on: GET and SETEX on string values,
 * with expiry measured against a logical clock in whole seconds.
 */
module RedisStore {
  import opened Wrappers
  import opened Errors

  /** A stored string and the instant at which it expires, if it has a time to live. */
  datatype Entry = Entry(value: string, expiresAt: Option<int>)

  type Entries = map<string, Entry>

  /** The commands a store has received, in the order received. */
  datatype Command = Get(key: string) | SetEx(key: string, seconds: int, value: string)

  /**
   * An entry is live up to and including its expiry instant: Redis treats a
   * key as expired only once the clock has passed that instant.
   */
  predicate Live(e: Entry, now: int)
  {
    e.expiresAt.None? || now <= e.expiresAt.value
  }

  /** The reply to GET at instant `now`: nil for a missing or expired key. */
  function Visible(entries: Entries, now: int, key: string): (r: Option<string>)
    ensures r.Some? <==> key in entries && Live(entries[key], now)
  {
    if key in entries && Live(entries[key], now) then Some(entries[key].value) else None
  }

  /** The contents after a successful SETEX at instant `now`. */
  function Written(entries: Entries, now: int, key: string, seconds: int, value: string): (r: Entries)
    ensures key in r && r[key] == Entry(value, Some(now + seconds))
    ensures forall k :: k != key ==> (k in r <==> k in entries)
    ensures forall k :: k != key && k in entries ==> r[k] == entries[k]
  {
    entries[key := Entry(value, Some(now + seconds))]
  }

  /** The error reply Redis gives to SETEX with a time to live that is not positive. */
  const INVALID_EXPIRE := CommandError("ERR invalid expire time in 'setex' command")

  /** A value written with SETEX is what GET returns until its time to live runs out. */
  lemma SetExThenGet(entries: Entries, now: int, key: string, seconds: int, value: string, later: int)
    requires seconds > 0 && now <= later
    ensures later <= now + seconds ==> Visible(Written(entries, now, key, seconds, value), later, key) == Some(value)
    ensures later > now + seconds ==> Visible(Written(entries, now, key, seconds, value), later, key) == None
  {
  }

  /** SETEX on one key does not change what GET returns for any other key. */
  lemma SetExIsolated(entries: Entries, now: int, key: string, seconds: int, value: string, other: string, t: int)
    requires other != key
    ensures Visible(Written(entries, now, key, seconds, value), t, other) == Visible(entries, t, other)
  {
  }

  /**
   * A Redis server as the cache sees it: its keys, its clock, and (for
   * stating properties only) the log of commands it has received.
   */
  class Store {
    var entries: Entries
    var now: int
    ghost var commands: seq<Command>

    constructor (start: int)
      ensures entries == map[] && now == start && commands == []
    {
      entries := map[];
      now := start;
      commands := [];
    }

    /** GET: reads one key and changes nothing but the command log. */
    method Get(key: string) returns (r: Option<string>)
      modifies this`commands
      ensures r == Visible(entries, now, key)
      ensures r.Some? ==> r.value == entries[key].value
      ensures commands == old(commands) + [Command.Get(key)]
    {
      r := Visible(entries, now, key);
      commands := commands + [Command.Get(key)];
    }

    /** SETEX: replaces the key's value and time to live, or refuses a time to live that is not positive. */
    method SetEx(key: string, seconds: int, value: string) returns (r: Result<(), Error>)
      modifies this`entries, this`commands
      ensures seconds > 0 ==> r == Ok(()) && entries == Written(old(entries), now, key, seconds, value)
      ensures seconds <= 0 ==> r == Err(INVALID_EXPIRE) && entries == old(entries)
      ensures commands == old(commands) + [Command.SetEx(key, seconds, value)]
    {
      if seconds > 0 {
        entries := entries[key := Entry(value, Some(now + seconds))];
        r := Ok(());
      } else {
        r := Err(INVALID_EXPIRE);
      }
      commands := commands + [Command.SetEx(key, seconds, value)];
    }
  }
}
