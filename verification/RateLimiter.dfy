/** Token buckets per client, in a table bounded by evicting the least recently seen client.
    Instants are real seconds; a client is a route and an address, whose salted digest is taken to
    be collision-free. */
module RateLimiter {
  datatype Client = Client(route: string, address: string)
  datatype Bucket = Bucket(tokens: real, updated: real)

  /** `order` lists the clients from least to most recently seen. */
  datatype Table = Table(buckets: map<Client, Bucket>, order: seq<Client>)

  const EMPTY := Table(map[], [])

  function Min(a: real, b: real): real { if a < b then a else b }
  function Max(a: real, b: real): real { if a > b then a else b }

  /** Python's `int`: truncation toward zero. */
  function Truncate(x: real): int { if x >= 0.0 then x.Floor else -(-x).Floor }

  /** Tokens earned over some seconds. */
  function Earned(seconds: real, perMinute: real): real { seconds * perMinute / 60.0 }

  function Refill(bucket: Bucket, perMinute: int, now: real): real {
    Min(perMinute as real, bucket.tokens + Earned(Max(0.0, now - bucket.updated), perMinute as real))
  }

  function Offered(table: Table, client: Client, perMinute: int, now: real): real {
    if client in table.buckets then Refill(table.buckets[client], perMinute, now) else perMinute as real
  }

  predicate Allowed(table: Table, client: Client, perMinute: int, now: real) {
    Offered(table, client, perMinute, now) >= 1.0
  }

  function Left(table: Table, client: Client, perMinute: int, now: real): real {
    var offered := Offered(table, client, perMinute, now);
    if offered >= 1.0 then offered - 1.0 else offered
  }

  function Without(order: seq<Client>, client: Client): seq<Client> {
    if order == [] then []
    else if order[0] == client then Without(order[1..], client)
    else [order[0]] + Without(order[1..], client)
  }

  function Evict(table: Table, maxKeys: nat): Table
    decreases |table.order|
  {
    if |table.order| <= maxKeys then table
    else Evict(Table(table.buckets - {table.order[0]}, table.order[1..]), maxKeys)
  }

  function Seen(table: Table, client: Client, perMinute: int, now: real): Table {
    Table(table.buckets[client := Bucket(Left(table, client, perMinute, now), now)],
        Without(table.order, client) + [client])
  }

  function Call(table: Table, client: Client, perMinute: int, now: real, maxKeys: nat): Table {
    Evict(Seen(table, client, perMinute, now), maxKeys)
  }

  function RetryAfter(tokens: real, perMinute: int): int
    requires perMinute != 0
  {
    var seconds := Truncate((1.0 - tokens) * 60.0 / perMinute as real + 0.999);
    if seconds > 1 then seconds else 1
  }

  ghost predicate Distinct(order: seq<Client>) {
    forall i, j :: 0 <= i < j < |order| ==> order[i] != order[j]
  }

  ghost predicate Valid(table: Table) {
    && Distinct(table.order)
    && (forall c :: c in table.order <==> c in table.buckets)
  }

  class Limiter {
    const maxKeys: nat
    var buckets: map<Client, Bucket>
    var order: seq<Client>

    ghost function View(): Table reads this { Table(buckets, order) }

    constructor (maxKeys: nat)
      ensures View() == EMPTY && this.maxKeys == maxKeys
    {
      this.maxKeys := maxKeys;
      buckets, order := map[], [];
    }

    method Allow(client: Client, perMinute: int, current: real) returns (allowed: bool, retryAfter: int)
      requires perMinute != 0
      modifies this
      ensures View() == Call(old(View()), client, perMinute, current, maxKeys)
      ensures allowed == Allowed(old(View()), client, perMinute, current)
      ensures retryAfter == RetryAfter(Left(old(View()), client, perMinute, current), perMinute)
    {
      var tokens: real;
      if client in buckets {
        var elapsed := Max(0.0, current - buckets[client].updated);
        tokens := Min(perMinute as real, buckets[client].tokens + elapsed * perMinute as real / 60.0);
      } else {
        tokens := perMinute as real;
      }
      order := Without(order, client);
      allowed := tokens >= 1.0;
      if allowed {
        tokens := tokens - 1.0;
      }
      buckets := buckets[client := Bucket(tokens, current)];
      order := order + [client];
      while |order| > maxKeys
        invariant Evict(View(), maxKeys) == Call(old(View()), client, perMinute, current, maxKeys)
      {
        buckets, order := buckets - {order[0]}, order[1..];
      }
      retryAfter := RetryAfter(tokens, perMinute);
    }
  }
}
