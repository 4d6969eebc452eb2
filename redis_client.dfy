/** The duplicate cache (`RedisClient`): a lazily connected client over a Redis keyspace.

    The server is modelled by its keyspace, a map from key to the instant (in seconds)
    at which the key expires; a key is present while the clock is before its expiry.
    Whether the network answers is an input of every call (`Net`). Once the one
    connection attempt has failed, every operation degrades to its "not connected"
    answer. */
module RedisCache {
  import opened Common
  import HazardHash

  /** `HAZARD_KEY_TTL`: thirty minutes. */
  const HazardKeyTtl: int := 1800

  /** What the network does during one call: whether the connection attempt (if this call
      makes it) succeeds, whether `ping` answers, whether the command itself succeeds. */
  datatype Net = Net(reachable: bool, pingOk: bool, commandOk: bool)

  /** A key exists at `now` if it was stored with an expiry later than `now`. */
  predicate Live(entries: map<string, int>, key: string, now: int) {
    key in entries && now < entries[key]
  }

  /** `ttl or HAZARD_KEY_TTL`: a missing or zero TTL means the default. */
  function EffectiveTtl(ttl: Option<int>): (r: int)
    ensures ttl.None? || ttl.value == 0 ==> r == HazardKeyTtl
    ensures ttl.Some? && ttl.value != 0 ==> r == ttl.value
    ensures r != 0
  {
    if ttl.None? || ttl.value == 0 then HazardKeyTtl else ttl.value
  }

  /** The server's `TTL` reply: the seconds left for an existing key, -2 for a missing one. */
  function TtlReply(entries: map<string, int>, key: string, now: int): (r: int)
    ensures r == -2 <==> !Live(entries, key, now)
    ensures Live(entries, key, now) ==> r >= 1 && now + r == entries[key]
  {
    if Live(entries, key, now) then entries[key] - now else -2
  }

  class RedisClient {
    /** `_connection_attempted` */
    var attempted: bool
    /** `_client is not None` */
    var connected: bool
    /** The server's keyspace: key to expiry instant. */
    var entries: map<string, int>

    predicate Valid()
      reads this
    {
      connected ==> attempted
    }

    /** The client answers commands in this call. */
    predicate Serving(net: Net)
      reads this
    {
      connected && net.pingOk && net.commandOk
    }

    /** No connection is made on construction. */
    constructor()
      ensures Valid() && !attempted && !connected && entries == map[]
    {
      attempted := false;
      connected := false;
      entries := map[];
    }

    /** `_connect`: only the first call tries; a failure leaves no client and raises nothing. */
    method Connect(net: Net)
      requires Valid()
      modifies this
      ensures Valid() && attempted
      ensures connected == (if old(attempted) then old(connected) else net.reachable)
      ensures entries == old(entries)
    {
      if attempted {
        return;
      }
      attempted := true;
      connected := net.reachable;
    }

    /** `ensure_connected` */
    method EnsureConnected(net: Net)
      requires Valid()
      modifies this
      ensures Valid() && attempted
      ensures connected == (if old(attempted) then old(connected) else net.reachable)
      ensures entries == old(entries)
    {
      if !attempted {
        Connect(net);
      }
    }

    /** `is_connected`: a client exists and answers `ping`. */
    method IsConnected(net: Net) returns (up: bool)
      requires Valid()
      modifies this
      ensures Valid() && attempted
      ensures connected == (if old(attempted) then old(connected) else net.reachable)
      ensures entries == old(entries)
      ensures up <==> connected && net.pingOk
    {
      EnsureConnected(net);
      up := connected && net.pingOk;
    }

    /** `check_duplicate`: false when disconnected or on error, else whether the key exists. */
    method CheckDuplicate(key: string, now: int, net: Net) returns (dup: bool)
      requires Valid()
      modifies this
      ensures Valid() && attempted
      ensures connected == (if old(attempted) then old(connected) else net.reachable)
      ensures entries == old(entries)
      ensures dup <==> Serving(net) && Live(entries, key, now)
    {
      EnsureConnected(net);
      var up := IsConnected(net);
      if !up {
        return false;
      }
      if !net.commandOk {
        return false;
      }
      dup := Live(entries, key, now);
    }

    /** `store_hazard_key`: `SETEX key ttl "1"`; the server refuses a TTL that is not positive. */
    method StoreHazardKey(key: string, ttl: Option<int>, now: int, net: Net) returns (ok: bool)
      requires Valid()
      modifies this
      ensures Valid() && attempted
      ensures connected == (if old(attempted) then old(connected) else net.reachable)
      ensures ok <==> Serving(net) && EffectiveTtl(ttl) > 0
      ensures entries == if ok then old(entries)[key := now + EffectiveTtl(ttl)] else old(entries)
    {
      EnsureConnected(net);
      var up := IsConnected(net);
      if !up {
        return false;
      }
      var t := EffectiveTtl(ttl);
      if !net.commandOk || t <= 0 {
        return false;
      }
      entries := entries[key := now + t];
      ok := true;
    }

    /** `delete_hazard_key`: true iff a key was removed. */
    method DeleteHazardKey(key: string, now: int, net: Net) returns (ok: bool)
      requires Valid()
      modifies this
      ensures Valid() && attempted
      ensures connected == (if old(attempted) then old(connected) else net.reachable)
      ensures ok <==> Serving(net) && Live(old(entries), key, now)
      ensures entries == if Serving(net) then old(entries) - {key} else old(entries)
    {
      var up := IsConnected(net);
      if !up || !net.commandOk {
        return false;
      }
      ok := Live(entries, key, now);
      entries := entries - {key};
    }

    /** `get_ttl`: -1 when disconnected or on error, else the server's reply. */
    method GetTtl(key: string, now: int, net: Net) returns (t: int)
      requires Valid()
      modifies this
      ensures Valid() && attempted
      ensures connected == (if old(attempted) then old(connected) else net.reachable)
      ensures entries == old(entries)
      ensures t == if Serving(net) then TtlReply(entries, key, now) else -1
    {
      var up := IsConnected(net);
      if !up || !net.commandOk {
        return -1;
      }
      t := TtlReply(entries, key, now);
    }
  }

  // ---------------------------------------------------------------------------
  // Properties of the keyspace

  /** A stored key exists until its TTL has run out, and not after. */
  lemma StoredKeyLive(entries: map<string, int>, key: string, now: int, ttl: int, later: int)
    requires now <= later
    ensures Live(entries[key := now + ttl], key, later) <==> later < now + ttl
  {
  }

  /** Storing one key does not change whether another exists. */
  lemma StoreKeepsOthers(entries: map<string, int>, key: string, exp: int, other: string, now: int)
    requires other != key
    ensures Live(entries[key := exp], other, now) <==> Live(entries, other, now)
  {
  }

  /** After deleting a key it no longer exists; other keys are unaffected. */
  lemma DeleteRemoves(entries: map<string, int>, key: string, other: string, now: int)
    ensures !Live(entries - {key}, key, now)
    ensures other != key ==> (Live(entries - {key}, other, now) <==> Live(entries, other, now))
  {
  }

  /** With nothing but the key of one location stored, a location whose rounded coordinates
      differ is not a duplicate. */
  lemma DifferentLocationNotDuplicate(l1: Location, l2: Location, hazardType: string,
                                      precision: int, now: HazardHash.DateTime, exp: int, clock: int)
    requires HazardHash.RoundCoord(GetOr(l1, "lat", 0), precision) != HazardHash.RoundCoord(GetOr(l2, "lat", 0), precision)
    ensures !Live(map[HazardHash.SimpleKey(l1, hazardType, precision, now) := exp],
                  HazardHash.SimpleKey(l2, hazardType, precision, now), clock)
  {
    HazardHash.LocationSensitivity(l1, l2, hazardType, precision, now);
  }

  /** The store-then-check round trip of the cache: a key stored while the server answers is
      then found, and its TTL is the full TTL asked for. */
  method StoreThenCheck(c: RedisClient, key: string, ttl: int, now: int, net: Net)
      returns (stored: bool, dup: bool, left: int)
    requires c.Valid() && net.pingOk && net.commandOk && ttl > 0
    requires c.attempted ==> c.connected
    requires !c.attempted ==> net.reachable
    modifies c
    ensures stored && dup && left == ttl
  {
    stored := c.StoreHazardKey(key, Some(ttl), now, net);
    dup := c.CheckDuplicate(key, now, net);
    left := c.GetTtl(key, now, net);
  }
}
