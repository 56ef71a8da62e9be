/** The in-memory session-token store, and its meaning as a function of history. */
module TokenStores {
  import opened Basics
  import Codec

  datatype TokenEntry = TokenEntry(username: string, role: Role, expiresAt: int)

  /** The 32 random bytes behind a token. */
  type TokenBytes = s: seq<byte> | |s| == 32 witness seq(32, _ => 0)

  /** Clock ticks are nanoseconds, as on the steady clock. */
  const TICKS_PER_SECOND := 1_000_000_000

  /** Eight hours. */
  const DEFAULT_TTL := 8 * 60 * 60

  function Expiry(now: int, ttl: int): int {
    now + ttl * TICKS_PER_SECOND
  }

  /** A token lives for eight hours: so many ticks. */
  lemma EightHours(now: int)
    ensures Expiry(now, DEFAULT_TTL) == now + 28_800_000_000_000
  {
  }

  /** Lookup at time `now`; an entry is still good at the very tick it expires. */
  function Validate(store: map<string, TokenEntry>, token: string, now: int): Option<TokenEntry> {
    if token !in store then None
    else if store[token].expiresAt < now then None
    else Some(store[token])
  }

  /** What happened to a token: it was issued at some time, or revoked. */
  datatype TokenEvent =
    | Issued(token: string, username: string, role: Role, at: int, ttl: int)
    | Revoked(token: string)

  /** The store that a history of events leaves behind. */
  function Replay(history: seq<TokenEvent>): map<string, TokenEntry> {
    if history == [] then map[]
    else Record(Replay(history[..|history| - 1]), history[|history| - 1])
  }

  function Record(store: map<string, TokenEntry>, e: TokenEvent): map<string, TokenEntry> {
    match e
    case Issued(token, username, role, at, ttl) => store[token := TokenEntry(username, role, Expiry(at, ttl))]
    case Revoked(token) => store - {token}
  }

  class TokenStore {
    var store: map<string, TokenEntry>
    ghost var history: seq<TokenEvent>

    ghost predicate Valid()
      reads this
    {
      store == Replay(history)
    }

    constructor ()
      ensures Valid() && history == [] && store == map[]
    {
      store, history := map[], [];
    }

    /** Mints a token from random bytes; without them the source throws, which is
        the None result here, and nothing changes. */
    method Issue(username: string, role: Role, ttl: int, now: int, random: Option<TokenBytes>)
      returns (token: Option<string>)
      requires Valid()
      modifies this
      ensures Valid()
      ensures random.None? ==> token.None? && store == old(store) && history == old(history)
      ensures random.Some? ==>
                && token == Some(Codec.ToHex(random.value))
                && history == old(history) + [Issued(token.value, username, role, now, ttl)]
                && store == old(store)[token.value := TokenEntry(username, role, now + ttl * 1_000_000_000)]
    {
      if random.None? {
        return None;
      }
      var buf: seq<byte> := random.value;
      var text := "";
      var i := 0;
      while i < |buf|
        invariant 0 <= i <= |buf|
        invariant text == Codec.ToHex(buf[..i])
        invariant store == old(store) && history == old(history)
      {
        assert buf[..i + 1] == buf[..i] + [buf[i]];
        Codec.ToHexAppend(buf[..i], buf[i]);
        text := text + [Codec.HEX_DIGITS[buf[i] / 16], Codec.HEX_DIGITS[buf[i] % 16]];
        i := i + 1;
      }
      assert buf[..i] == buf;
      store := store[text := TokenEntry(username, role, Expiry(now, ttl))];
      history := history + [Issued(text, username, role, now, ttl)];
      assert history[..|history| - 1] == old(history);
      return Some(text);
    }

    method Lookup(token: string, now: int) returns (entry: Option<TokenEntry>)
      requires Valid()
      ensures entry == Validate(store, token, now)
    {
      if token !in store {
        return None;
      }
      if store[token].expiresAt < now {
        return None;
      }
      return Some(store[token]);
    }

    method Revoke(token: string)
      requires Valid()
      modifies this
      ensures Valid()
      ensures history == old(history) + [Revoked(token)]
      ensures store == old(store) - {token}
    {
      store := store - {token};
      history := history + [Revoked(token)];
      assert history[..|history| - 1] == old(history);
    }
  }

  /** Event i is the latest one about `token`. */
  ghost predicate Latest(history: seq<TokenEvent>, token: string, i: int) {
    && 0 <= i < |history|
    && history[i].token == token
    && forall j | i < j < |history| :: history[j].token != token
  }

  /** A token validates exactly when the latest event about it is an issue that
      has not expired, and then to exactly what that issue recorded. */
  lemma {:induction false} ValidateIsHistory(history: seq<TokenEvent>, token: string, now: int, e: TokenEntry)
    ensures Validate(Replay(history), token, now) == Some(e)
            <==> exists i ::
                   && Latest(history, token, i)
                   && history[i].Issued?
                   && e == TokenEntry(history[i].username, history[i].role,
                                      Expiry(history[i].at, history[i].ttl))
                   && now <= e.expiresAt
  {
    if history == [] {
    } else {
      var n := |history| - 1;
      var front := history[..n];
      if history[n].token == token {
        assert Latest(history, token, n);
        assert forall i :: Latest(history, token, i) ==> i == n;
      } else {
        ValidateIsHistory(front, token, now, e);
        assert forall i :: Latest(history, token, i) <==> Latest(front, token, i);
      }
    }
  }

  /** A store that also drops expired entries, now and then. */
  datatype Purging = Happened(event: TokenEvent) | Purge(now: int)

  function DropExpired(store: map<string, TokenEntry>, now: int): map<string, TokenEntry> {
    map t | t in store && now <= store[t].expiresAt :: store[t]
  }

  function ReplayPurging(steps: seq<Purging>): map<string, TokenEntry> {
    if steps == [] then map[]
    else
      var before := ReplayPurging(steps[..|steps| - 1]);
      match steps[|steps| - 1]
      case Happened(e) => Record(before, e)
      case Purge(now) => DropExpired(before, now)
  }

  function EventsOf(steps: seq<Purging>): seq<TokenEvent> {
    if steps == [] then []
    else
      EventsOf(steps[..|steps| - 1])
      + match steps[|steps| - 1]
        case Happened(e) => [e]
        case Purge(_) => []
  }

  /** Stores that agree on a token still do after the same event. */
  lemma RecordAgrees(a: map<string, TokenEntry>, b: map<string, TokenEntry>, e: TokenEvent, token: string, now: int)
    requires Validate(a, token, now) == Validate(b, token, now)
    ensures Validate(Record(a, e), token, now) == Validate(Record(b, e), token, now)
  {
  }

  /** Dropping what has expired by then does not show later. */
  lemma DropUnseen(store: map<string, TokenEntry>, at: int, token: string, now: int)
    requires at <= now
    ensures Validate(DropExpired(store, at), token, now) == Validate(store, token, now)
  {
  }

  /** Expired entries left in the map are never observable: dropping them at any
      moments up to `now` changes no lookup from `now` on. */
  lemma {:induction false} ExpiredIsInvisible(steps: seq<Purging>, token: string, now: int)
    requires forall i | 0 <= i < |steps| :: steps[i].Purge? ==> steps[i].now <= now
    ensures Validate(ReplayPurging(steps), token, now) == Validate(Replay(EventsOf(steps)), token, now)
  {
    if steps == [] {
    } else {
      hide Validate, Record, DropExpired;
      var n := |steps| - 1;
      ExpiredIsInvisible(steps[..n], token, now);
      var events := EventsOf(steps[..n]);
      match steps[n]
      case Happened(e) =>
        assert (events + [e])[..|events|] == events;
        RecordAgrees(ReplayPurging(steps[..n]), Replay(events), e, token, now);
      case Purge(at) =>
        assert EventsOf(steps) == events;
        DropUnseen(ReplayPurging(steps[..n]), at, token, now);
    }
  }
}
