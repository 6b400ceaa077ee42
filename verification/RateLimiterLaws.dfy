/** Runs of the rate limiter: any number of clients calling in any order. */
module RateLimiterLaws {
  import opened RateLimiter

  datatype Request = Request(client: Client, at: real)

  /** Every client has its own fixed limit, set by its route. */
  type Limits = c: (Client -> int) | forall k :: c(k) >= 1 witness (_ => 1)

  ghost function After(requests: seq<Request>, limits: Limits, maxKeys: nat): Table {
    if requests == [] then EMPTY
    else
      var r := requests[|requests| - 1];
      Call(After(requests[..|requests| - 1], limits, maxKeys), r.client, limits(r.client), r.at, maxKeys)
  }

  /** Whether the i-th request of the run is let through. */
  ghost predicate Granted(requests: seq<Request>, i: int, limits: Limits, maxKeys: nat)
    requires 0 <= i < |requests|
  {
    Allowed(After(requests[..i], limits, maxKeys), requests[i].client, limits(requests[i].client), requests[i].at)
  }

  ghost function TokensLeft(requests: seq<Request>, i: int, limits: Limits, maxKeys: nat): real
    requires 0 <= i < |requests|
  {
    Left(After(requests[..i], limits, maxKeys), requests[i].client, limits(requests[i].client), requests[i].at)
  }

  // ---------- the table ----------

  lemma {:induction false} WithoutFacts(order: seq<Client>, client: Client)
    requires Distinct(order)
    ensures Distinct(Without(order, client))
    ensures forall c :: c in Without(order, client) ==> c in order && c != client
    ensures forall c :: c in order && c != client ==> c in Without(order, client)
    ensures |Without(order, client)| == if client in order then |order| - 1 else |order|
    decreases |order|
  {
    if order != [] {
      WithoutFacts(order[1..], client);
      assert order == [order[0]] + order[1..];
      assert order[0] !in order[1..];
      assert order[0] !in Without(order[1..], client);
    }
  }

  lemma {:induction false} SeenValid(table: Table, client: Client, perMinute: int, now: real)
    requires Valid(table)
    ensures Valid(Seen(table, client, perMinute, now))
    ensures |Seen(table, client, perMinute, now).order| <= |table.order| + 1
  {
    WithoutFacts(table.order, client);
  }

  lemma {:induction false} EvictsOne(table: Table, maxKeys: nat)
    requires |table.order| <= maxKeys + 1
    ensures Evict(table, maxKeys)
         == if |table.order| <= maxKeys then table else Table(table.buckets - {table.order[0]}, table.order[1..])
  {
  }

  lemma {:induction false} FrontRemoved(table: Table)
    requires Valid(table) && table.order != []
    ensures Valid(Table(table.buckets - {table.order[0]}, table.order[1..]))
  {
    assert table.order == [table.order[0]] + table.order[1..];
  }

  /** From a table within its bound, a call evicts at most the front entry. */
  lemma {:induction false} CallFacts(table: Table, client: Client, perMinute: int, now: real, maxKeys: nat)
    requires Valid(table) && |table.order| <= maxKeys
    ensures var seen := Seen(table, client, perMinute, now);
            var next := Call(table, client, perMinute, now, maxKeys);
      && Valid(next)
      && |next.order| <= maxKeys
      && next == if |seen.order| <= maxKeys then seen else Table(seen.buckets - {seen.order[0]}, seen.order[1..])
  {
    SeenValid(table, client, perMinute, now);
    var seen := Seen(table, client, perMinute, now);
    EvictsOne(seen, maxKeys);
    if |seen.order| > maxKeys {
      FrontRemoved(seen);
    }
  }

  lemma {:induction false} TableBounded(requests: seq<Request>, limits: Limits, maxKeys: nat)
    ensures Valid(After(requests, limits, maxKeys))
    ensures |After(requests, limits, maxKeys).order| <= maxKeys
  {
    if requests != [] {
      var r := requests[|requests| - 1];
      TableBounded(requests[..|requests| - 1], limits, maxKeys);
      CallFacts(After(requests[..|requests| - 1], limits, maxKeys), r.client, limits(r.client), r.at, maxKeys);
    }
  }

  ghost function Last(requests: seq<Request>, client: Client): int
    ensures -1 <= Last(requests, client) < |requests|
    ensures Last(requests, client) >= 0 ==> requests[Last(requests, client)].client == client
    ensures forall i :: Last(requests, client) < i < |requests| ==> requests[i].client != client
  {
    if requests == [] then -1
    else if requests[|requests| - 1].client == client then |requests| - 1
    else Last(requests[..|requests| - 1], client)
  }

  /** A bucket in the table was left there by the client's latest request. */
  lemma {:induction false} BucketIsLatest(requests: seq<Request>, client: Client, limits: Limits, maxKeys: nat)
    requires client in After(requests, limits, maxKeys).buckets
    ensures var i := Last(requests, client);
      && i >= 0
      && After(requests, limits, maxKeys).buckets[client]
          == Bucket(TokensLeft(requests, i, limits, maxKeys), requests[i].at)
  {
    if requests != [] {
      var init, r := requests[..|requests| - 1], requests[|requests| - 1];
      TableBounded(init, limits, maxKeys);
      CallFacts(After(init, limits, maxKeys), r.client, limits(r.client), r.at, maxKeys);
      if r.client != client {
        BucketIsLatest(init, client, limits, maxKeys);
        var i := Last(init, client);
        assert init[..i] == requests[..i];
      }
    }
  }

  /** Tokens never go negative and never exceed the limit. */
  lemma {:induction false} TokensInRange(requests: seq<Request>, i: nat, limits: Limits, maxKeys: nat)
    requires i < |requests|
    ensures 0.0 <= TokensLeft(requests, i, limits, maxKeys) <= limits(requests[i].client) as real
    decreases i
  {
    var client := requests[i].client;
    var before := requests[..i];
    if client in After(before, limits, maxKeys).buckets {
      BucketIsLatest(before, client, limits, maxKeys);
      var j := Last(before, client);
      TokensInRange(before, j, limits, maxKeys);
      var gap := Max(0.0, requests[i].at - before[j].at);
      assert gap * limits(client) as real >= 0.0;
    }
  }

  // ---------- recency ----------

  ghost function OthersSince(requests: seq<Request>, from: int, client: Client): set<Client>
    requires 0 <= from
  {
    set i | from <= i < |requests| && requests[i].client != client :: requests[i].client
  }

  ghost predicate Trails(order: seq<Client>, client: Client, others: set<Client>) {
    exists k :: 0 <= k < |order| && order[k] == client && forall j :: k < j < |order| ==> order[j] in others
  }

  lemma {:induction false} DistinctFits(order: seq<Client>, others: set<Client>)
    requires Distinct(order)
    requires forall c :: c in order ==> c in others
    ensures |order| <= |others|
    decreases |order|
  {
    if order != [] {
      var rest := order[1..];
      assert order == [order[0]] + rest;
      assert order[0] in others;
      forall c | c in rest ensures c in others - {order[0]} {
        var i :| 0 <= i < |rest| && rest[i] == c;
        assert order[0] != order[i + 1];
      }
      DistinctFits(rest, others - {order[0]});
    }
  }

  lemma {:induction false} WithoutKeepsSuffix(order: seq<Client>, client: Client, gone: Client, others: set<Client>)
    requires Trails(order, client, others) && gone != client
    ensures Trails(Without(order, gone), client, others)
    decreases |order|
  {
    var k :| 0 <= k < |order| && order[k] == client && forall j :: k < j < |order| ==> order[j] in others;
    var rest := Without(order[1..], gone);
    if k > 0 {
      assert order[1..][k - 1] == client && forall j :: k - 1 < j < |order[1..]| ==> order[1..][j] in others;
      WithoutKeepsSuffix(order[1..], client, gone, others);
      var m :| 0 <= m < |rest| && rest[m] == client && forall j :: m < j < |rest| ==> rest[j] in others;
      if order[0] != gone {
        assert Without(order, gone)[m + 1] == client;
      }
    } else {
      assert forall c :: c in order[1..] ==> c in others;
      WithoutMembers(order[1..], gone);
      assert Without(order, gone)[0] == client;
    }
  }

  lemma {:induction false} WithoutMembers(order: seq<Client>, gone: Client)
    ensures forall c :: c in Without(order, gone) ==> c in order
    decreases |order|
  {
    if order != [] {
      WithoutMembers(order[1..], gone);
    }
  }

  lemma {:induction false} SeenTrails(table: Table, seen: Client, perMinute: int, now: real, client: Client,
                                      others: set<Client>)
    requires seen == client || Trails(table.order, client, others)
    ensures Trails(Seen(table, seen, perMinute, now).order, client,
                   others + if seen == client then {} else {seen})
  {
    var order := Seen(table, seen, perMinute, now).order;
    if seen == client {
      assert order[|order| - 1] == client;
    } else {
      WithoutKeepsSuffix(table.order, client, seen, others);
      var kept := Without(table.order, seen);
      var k :| 0 <= k < |kept| && kept[k] == client && forall j :: k < j < |kept| ==> kept[j] in others;
      assert order[k] == client;
    }
  }

  /** A call leaves a client in the table that fewer than `maxKeys` others stand behind. */
  lemma {:induction false} CallTrails(table: Table, caller: Client, perMinute: int, now: real, maxKeys: nat,
                                      client: Client, fewer: set<Client>)
    requires Valid(table) && |table.order| <= maxKeys
    requires caller == client || Trails(table.order, client, fewer)
    requires |fewer + if caller == client then {} else {caller}| < maxKeys
    ensures client in Call(table, caller, perMinute, now, maxKeys).buckets
    ensures Trails(Call(table, caller, perMinute, now, maxKeys).order, client,
                   fewer + if caller == client then {} else {caller})
  {
    var others := fewer + if caller == client then {} else {caller};
    CallFacts(table, caller, perMinute, now, maxKeys);
    SeenValid(table, caller, perMinute, now);
    SeenTrails(table, caller, perMinute, now, client, fewer);
    AtFrontOnlyIfFull(Seen(table, caller, perMinute, now).order, client, others, maxKeys);
    assert client in Call(table, caller, perMinute, now, maxKeys).order;
  }

  /** LRU: a client stays in the table while fewer than `maxKeys` other clients have called since. */
  lemma {:induction false} SurvivesFewOthers(requests: seq<Request>, from: nat, client: Client, limits: Limits,
                                             maxKeys: nat)
    requires from < |requests| && requests[from].client == client
    requires |OthersSince(requests, from, client)| < maxKeys
    ensures client in After(requests, limits, maxKeys).buckets
    ensures Trails(After(requests, limits, maxKeys).order, client, OthersSince(requests, from, client))
  {
    var init, r := requests[..|requests| - 1], requests[|requests| - 1];
    var fewer := OthersSince(init, from, client);
    OthersGrow(requests, from, client);
    assert OthersSince(requests, from, client) == fewer + if r.client == client then {} else {r.client};
    TableBounded(init, limits, maxKeys);
    if r.client != client {
      SubsetSmaller(fewer, OthersSince(requests, from, client));
      SurvivesFewOthers(init, from, client, limits, maxKeys);
    }
    CallTrails(After(init, limits, maxKeys), r.client, limits(r.client), r.at, maxKeys, client, fewer);
  }

  // ---------- and only then ----------

  /** Everyone in `others` has called after the client did. */
  ghost predicate Behind(order: seq<Client>, client: Client, others: set<Client>) {
    exists k :: 0 <= k < |order| && BehindAt(order, k, client, others)
  }

  ghost predicate BehindAt(order: seq<Client>, k: nat, client: Client, others: set<Client>)
    requires k < |order|
  {
    order[k] == client && forall c :: c in others ==> c in order[k + 1..]
  }

  lemma {:induction false} WithoutKeeps(order: seq<Client>, gone: Client)
    ensures forall c :: c in order && c != gone ==> c in Without(order, gone)
    decreases |order|
  {
    if order != [] {
      WithoutKeeps(order[1..], gone);
      assert order == [order[0]] + order[1..];
    }
  }

  lemma {:induction false} WithoutBehind(order: seq<Client>, gone: Client, client: Client, others: set<Client>)
    requires Behind(order, client, others) && gone != client
    ensures Behind(Without(order, gone), client, others - {gone})
    decreases |order|
  {
    var k :| 0 <= k < |order| && BehindAt(order, k, client, others);
    var rest := Without(order[1..], gone);
    if k == 0 {
      WithoutKeeps(order[1..], gone);
      assert Without(order, gone)[1..] == rest;
      assert BehindAt(Without(order, gone), 0, client, others - {gone});
    } else {
      assert order[1..][k - 1 + 1..] == order[k + 1..];
      assert BehindAt(order[1..], k - 1, client, others);
      WithoutBehind(order[1..], gone, client, others);
      var m :| 0 <= m < |rest| && BehindAt(rest, m, client, others - {gone});
      if order[0] != gone {
        assert Without(order, gone)[m + 1 + 1..] == rest[m + 1..];
        assert BehindAt(Without(order, gone), m + 1, client, others - {gone});
      }
    }
  }

  lemma {:induction false} SeenBehind(table: Table, seen: Client, perMinute: int, now: real, client: Client,
                                      others: set<Client>)
    requires seen != client && Behind(table.order, client, others)
    ensures Behind(Seen(table, seen, perMinute, now).order, client, others + {seen})
  {
    WithoutBehind(table.order, seen, client, others);
    var kept := Without(table.order, seen);
    var k :| 0 <= k < |kept| && BehindAt(kept, k, client, others - {seen});
    var behind := kept[k + 1..];
    assert (kept + [seen])[k + 1..] == behind + [seen];
    forall c | c in others + {seen} ensures c in behind + [seen] {
      if c == seen {
        assert (behind + [seen])[|behind|] == seen;
      } else {
        assert c in others - {seen};
      }
    }
    assert BehindAt(kept + [seen], k, client, others + {seen});
  }

  lemma {:induction false} FrontBehind(order: seq<Client>, client: Client, others: set<Client>)
    requires Behind(order, client, others) && order[0] != client
    ensures Behind(order[1..], client, others)
  {
    var k :| 0 <= k < |order| && BehindAt(order, k, client, others);
    assert order[1..][k - 1 + 1..] == order[k + 1..];
    assert BehindAt(order[1..], k - 1, client, others);
  }

  lemma {:induction false} OthersGrow(requests: seq<Request>, from: int, client: Client)
    requires requests != [] && 0 <= from
    ensures var n := |requests| - 1;
      OthersSince(requests, from, client)
      == if from <= n && requests[n].client != client then OthersSince(requests[..n], from, client)
          + {requests[n].client}
         else OthersSince(requests[..n], from, client)
  {
  }

  /** A client that a call leaves in the table has those behind it who were, and the caller. */
  lemma {:induction false} CallBehind(table: Table, caller: Client, perMinute: int, now: real, maxKeys: nat,
                                      client: Client, others: set<Client>)
    requires Valid(table) && |table.order| <= maxKeys
    requires client in Call(table, caller, perMinute, now, maxKeys).buckets
    requires caller != client ==> client in table.buckets && Behind(table.order, client, others)
    ensures Behind(Call(table, caller, perMinute, now, maxKeys).order, client, if caller == client then {}
        else others + {caller})
  {
    var seen := Seen(table, caller, perMinute, now);
    var since := if caller == client then {} else others + {caller};
    CallFacts(table, caller, perMinute, now, maxKeys);
    if caller == client {
      assert BehindAt(seen.order, |seen.order| - 1, client, {});
    } else {
      SeenBehind(table, caller, perMinute, now, client, others);
    }
    if |seen.order| > maxKeys {
      FrontBehind(seen.order, client, since);
    }
  }

  lemma {:induction false} LeftInTable(table: Table, caller: Client, perMinute: int, now: real, maxKeys: nat,
                                       client: Client)
    requires Valid(table) && |table.order| <= maxKeys && caller != client
    requires client in Call(table, caller, perMinute, now, maxKeys).buckets
    ensures client in table.buckets
  {
    CallFacts(table, caller, perMinute, now, maxKeys);
  }

  lemma {:induction false} OthersStandBehind(requests: seq<Request>, client: Client, limits: Limits, maxKeys: nat)
    requires client in After(requests, limits, maxKeys).buckets
    ensures Last(requests, client) >= 0
    ensures Behind(After(requests, limits, maxKeys).order, client,
        OthersSince(requests, Last(requests, client), client))
  {
    if requests != [] {
      var n := |requests| - 1;
      var init, r := requests[..n], requests[n];
      var table := After(init, limits, maxKeys);
      TableBounded(init, limits, maxKeys);
      if r.client == client {
        assert OthersSince(requests, n, client) == {};
        CallBehind(table, client, limits(client), r.at, maxKeys, client, {});
      } else {
        LeftInTable(table, r.client, limits(r.client), r.at, maxKeys, client);
        OthersStandBehind(init, client, limits, maxKeys);
        OthersGrow(requests, Last(init, client), client);
        CallBehind(table, r.client, limits(r.client), r.at, maxKeys, client,
            OthersSince(init, Last(init, client), client));
      }
    }
  }

  lemma {:induction false} SetFits(others: set<Client>, order: seq<Client>)
    requires forall c :: c in others ==> c in order
    ensures |others| <= |order|
    decreases |order|
  {
    if order != [] {
      var rest := others - {order[0]};
      assert order == [order[0]] + order[1..];
      SetFits(rest, order[1..]);
      assert others <= rest + {order[0]};
      SubsetSmaller(others, rest + {order[0]});
    }
  }

  /** LRU, exactly: a client is in the table if and only if it has called and fewer than `maxKeys` others
      have called since it last did. */
  lemma {:induction false} InTableExactly(requests: seq<Request>, client: Client, limits: Limits, maxKeys: nat)
    ensures client in After(requests, limits, maxKeys).buckets
       <==> Last(requests, client) >= 0 && |OthersSince(requests, Last(requests, client), client)| < maxKeys
  {
    var last := Last(requests, client);
    var order := After(requests, limits, maxKeys).order;
    if client in After(requests, limits, maxKeys).buckets {
      OthersStandBehind(requests, client, limits, maxKeys);
      TableBounded(requests, limits, maxKeys);
      var others := OthersSince(requests, last, client);
      var k :| 0 <= k < |order| && BehindAt(order, k, client, others);
      SetFits(others, order[k + 1..]);
    }
    if last >= 0 && |OthersSince(requests, last, client)| < maxKeys {
      SurvivesFewOthers(requests, last, client, limits, maxKeys);
    }
  }

  lemma {:induction false} SubsetSmaller(a: set<Client>, b: set<Client>)
    requires a <= b
    ensures |a| <= |b|
  {
    assert b == a + (b - a);
  }

  lemma {:induction false} AtFrontOnlyIfFull(order: seq<Client>, client: Client, others: set<Client>, maxKeys: nat)
    requires Distinct(order) && Trails(order, client, others) && |others| < maxKeys
    ensures |order| > maxKeys ==> order[0] != client && Trails(order[1..], client, others)
  {
    var k :| 0 <= k < |order| && order[k] == client && forall j :: k < j < |order| ==> order[j] in others;
    DistinctFits(order[k + 1..], others);
    if |order| > maxKeys {
      assert k > 0;
      assert order[1..][k - 1] == client;
    }
  }

  // ---------- how much is let through ----------

  ghost predicate Monotone(requests: seq<Request>) {
    forall i, j :: 0 <= i < j < |requests| ==> requests[i].at <= requests[j].at
  }

  /** How many of the client's requests numbered from `from` on were let through. */
  ghost function GrantedSince(requests: seq<Request>, from: nat, client: Client, limits: Limits, maxKeys: nat): nat {
    if |requests| <= from then 0
    else
      var n := |requests| - 1;
      GrantedSince(requests[..n], from, client, limits, maxKeys)
        + if requests[n].client == client && Granted(requests, n, limits, maxKeys) then 1 else 0
  }

  // Arithmetic about tokens earned, kept apart from the runs.

  lemma {:induction false} EarnedGrows(a: real, b: real, limit: real)
    requires a <= b && limit >= 0.0
    ensures Earned(a, limit) <= Earned(b, limit)
  {
  }

  lemma {:induction false} EarnedWhole(seconds: real, amount: real, limit: real)
    requires limit > 0.0 && seconds >= amount * 60.0 / limit
    ensures Earned(seconds, limit) >= amount
  {
  }

  lemma {:induction false} BalanceStep(granted: real, tokens: real, limit: real, cap: real, first: real, last: real,
                                       now: real)
    requires granted + tokens <= cap + Earned(last - first, limit)
    requires last <= now
    ensures granted + Min(limit, tokens + Earned(Max(0.0, now - last), limit)) <= cap + Earned(now - first, limit)
  {
  }

  /** A client still in the table is offered what it had left, topped up for the time since. */
  lemma {:induction false} OfferedNext(requests: seq<Request>, i: nat, last: int, limits: Limits, maxKeys: nat)
    requires i < |requests|
    requires requests[i].client in After(requests[..i], limits, maxKeys).buckets
    requires last == Last(requests[..i], requests[i].client)
    ensures 0 <= last < i && requests[last].client == requests[i].client
    ensures Offered(After(requests[..i], limits, maxKeys), requests[i].client, limits(requests[i].client),
        requests[i].at)
         == Min(limits(requests[i].client) as real, TokensLeft(requests, last, limits, maxKeys)
                + Earned(Max(0.0, requests[i].at - requests[last].at), limits(requests[i].client) as real))
  {
    BucketIsLatest(requests[..i], requests[i].client, limits, maxKeys);
    assert requests[..i][..last] == requests[..last];
  }

  /** The client has called before, and `maxKeys` others since. */
  ghost predicate Displaced(requests: seq<Request>, client: Client, maxKeys: nat) {
    Last(requests, client) >= 0 && |OthersSince(requests, Last(requests, client), client)| >= maxKeys
  }

  /** How often the client came back to the table after it was displaced, counted from its request `from`. */
  ghost function Returns(requests: seq<Request>, from: nat, client: Client, maxKeys: nat): nat {
    if |requests| <= from + 1 then 0
    else
      var n := |requests| - 1;
      Returns(requests[..n], from, client, maxKeys)
        + if requests[n].client == client && Displaced(requests[..n], client, maxKeys) then 1 else 0
  }

  /** Some bucketfuls of tokens. */
  ghost function Bucketfuls(count: nat, limit: real): real { count as real * limit }

  lemma {:induction false} OneMoreBucketful(count: nat, limit: real)
    ensures Bucketfuls(count + 1, limit) == Bucketfuls(count, limit) + limit
  {
  }

  /** What was let through plus what the `last` request left is at most one full bucket, and one more for each
      return, plus the refill. */
  ghost predicate Balanced(requests: seq<Request>, from: nat, last: int, client: Client, limits: Limits, maxKeys: nat)
    requires from <= last < |requests|
  {
    GrantedSince(requests, from, client, limits, maxKeys) as real + TokensLeft(requests, last, limits, maxKeys)
      <= Bucketfuls(1 + Returns(requests, from, client, maxKeys), limits(client) as real)
         + Earned(requests[last].at - requests[from].at, limits(client) as real)
  }

  lemma {:induction false} BalanceStarts(requests: seq<Request>, client: Client, limits: Limits, maxKeys: nat)
    requires requests != [] && requests[|requests| - 1].client == client
    ensures Balanced(requests, |requests| - 1, |requests| - 1, client, limits, maxKeys)
  {
    assert Bucketfuls(1, limits(client) as real) == limits(client) as real;
  }

  lemma {:induction false} BalanceCarries(requests: seq<Request>, from: nat, last: int, client: Client,
                                          limits: Limits, maxKeys: nat)
    requires from <= last < |requests| - 1 && requests[|requests| - 1].client != client
    requires Balanced(requests[..|requests| - 1], from, last, client, limits, maxKeys)
    ensures Balanced(requests, from, last, client, limits, maxKeys)
  {
    assert requests[..|requests| - 1][..last] == requests[..last];
  }

  /** The tokens offered to the last request, before it takes one. */
  ghost function LastOffer(requests: seq<Request>, limits: Limits, maxKeys: nat): real
    requires requests != []
  {
    var n := |requests| - 1;
    Offered(After(requests[..n], limits, maxKeys), requests[n].client, limits(requests[n].client), requests[n].at)
  }

  /** A request takes a token exactly when it is let through, so the balance follows from what it is offered. */
  lemma {:induction false} OfferBalances(requests: seq<Request>, from: nat, client: Client, limits: Limits,
                                         maxKeys: nat)
    requires from < |requests| && requests[|requests| - 1].client == client
    requires GrantedSince(requests[..|requests| - 1], from, client, limits, maxKeys) as real
          + LastOffer(requests, limits, maxKeys)
          <= Bucketfuls(1 + Returns(requests, from, client, maxKeys), limits(client) as real)
             + Earned(requests[|requests| - 1].at - requests[from].at, limits(client) as real)
    ensures Balanced(requests, from, |requests| - 1, client, limits, maxKeys)
  {
  }

  /** A client that still has its bucket is offered what its last request left, topped up. */
  lemma {:induction false} LastOfferNext(requests: seq<Request>, last: nat, client: Client, limits: Limits,
                                         maxKeys: nat)
    requires last < |requests| - 1 && requests[|requests| - 1].client == client
    requires client in After(requests[..|requests| - 1], limits, maxKeys).buckets
    requires last == Last(requests[..|requests| - 1], client)
    ensures LastOffer(requests, limits, maxKeys)
         == Min(limits(client) as real, TokensLeft(requests[..|requests| - 1], last, limits, maxKeys)
                + Earned(Max(0.0, requests[|requests| - 1].at - requests[last].at), limits(client) as real))
  {
    OfferedNext(requests, |requests| - 1, last, limits, maxKeys);
    assert requests[..|requests| - 1][..last] == requests[..last];
  }

  lemma {:induction false} NoReturn(requests: seq<Request>, from: nat, client: Client, maxKeys: nat)
    requires from < |requests| - 1 && !Displaced(requests[..|requests| - 1], client, maxKeys)
    ensures Returns(requests, from, client, maxKeys) == Returns(requests[..|requests| - 1], from, client, maxKeys)
  {
  }

  lemma {:induction false} BalanceExtends(requests: seq<Request>, from: nat, last: int, client: Client,
                                          limits: Limits, maxKeys: nat)
    requires from <= last < |requests| - 1 && requests[|requests| - 1].client == client
    requires LastOffer(requests, limits, maxKeys)
          == Min(limits(client) as real, TokensLeft(requests[..|requests| - 1], last, limits, maxKeys)
                 + Earned(Max(0.0, requests[|requests| - 1].at - requests[last].at), limits(client) as real))
    requires !Displaced(requests[..|requests| - 1], client, maxKeys)
    requires requests[last].at <= requests[|requests| - 1].at
    requires Balanced(requests[..|requests| - 1], from, last, client, limits, maxKeys)
    ensures Balanced(requests, from, |requests| - 1, client, limits, maxKeys)
  {
    var n, limit := |requests| - 1, limits(client) as real;
    NoReturn(requests, from, client, maxKeys);
    BalanceStep(GrantedSince(requests[..n], from, client, limits, maxKeys) as real,
                TokensLeft(requests[..n], last, limits, maxKeys), limit,
                Bucketfuls(1 + Returns(requests[..n], from, client, maxKeys), limit),
                requests[from].at, requests[last].at, requests[n].at);
    OfferBalances(requests, from, client, limits, maxKeys);
  }

  lemma {:induction false} BalanceRestarts(requests: seq<Request>, from: nat, last: int, client: Client,
                                           limits: Limits, maxKeys: nat)
    requires from <= last < |requests| - 1 && requests[|requests| - 1].client == client
    requires client !in After(requests[..|requests| - 1], limits, maxKeys).buckets
    requires Displaced(requests[..|requests| - 1], client, maxKeys)
    requires requests[last].at <= requests[|requests| - 1].at && requests[last].client == client
    requires Balanced(requests[..|requests| - 1], from, last, client, limits, maxKeys)
    ensures Balanced(requests, from, |requests| - 1, client, limits, maxKeys)
  {
    var n, limit := |requests| - 1, limits(client) as real;
    assert requests[..n][..last] == requests[..last];
    TokensInRange(requests, last, limits, maxKeys);
    EarnedGrows(requests[last].at - requests[from].at, requests[n].at - requests[from].at, limit);
    OneMoreBucketful(1 + Returns(requests[..n], from, client, maxKeys), limit);
    OfferBalances(requests, from, client, limits, maxKeys);
  }

  lemma {:induction false} Balance(requests: seq<Request>, from: nat, client: Client, limits: Limits, maxKeys: nat)
    requires Monotone(requests)
    requires from < |requests| && requests[from].client == client
    ensures from <= Last(requests, client)
    ensures Balanced(requests, from, Last(requests, client), client, limits, maxKeys)
  {
    var n := |requests| - 1;
    var init := requests[..n];
    if n == from {
      BalanceStarts(requests, client, limits, maxKeys);
    } else {
      Balance(init, from, client, limits, maxKeys);
      InTableExactly(init, client, limits, maxKeys);
      if requests[n].client != client {
        BalanceCarries(requests, from, Last(init, client), client, limits, maxKeys);
      } else if Displaced(init, client, maxKeys) {
        BalanceRestarts(requests, from, Last(init, client), client, limits, maxKeys);
      } else {
        LastOfferNext(requests, Last(init, client), client, limits, maxKeys);
      BalanceExtends(requests, from, Last(init, client), client, limits, maxKeys);
      }
    }
  }

  /** The rate bound, whatever the others do: from one of its requests on a client is let through at most one
      bucketful, and one more for each time it came back after `maxKeys` others displaced it, plus the refill
      for the time elapsed. */
  lemma {:induction false} AdmissionBound(requests: seq<Request>, from: nat, client: Client, limits: Limits,
                                          maxKeys: nat)
    requires Monotone(requests)
    requires from < |requests| && requests[from].client == client
    ensures GrantedSince(requests, from, client, limits, maxKeys) as real
         <= Bucketfuls(1 + Returns(requests, from, client, maxKeys), limits(client) as real)
            + Earned(requests[|requests| - 1].at - requests[from].at, limits(client) as real)
  {
    Balance(requests, from, client, limits, maxKeys);
    var last := Last(requests, client);
    TokensInRange(requests, last, limits, maxKeys);
    EarnedGrows(requests[last].at - requests[from].at, requests[|requests| - 1].at - requests[from].at,
        limits(client) as real);
  }

  /** Whenever the client calls again, fewer than `maxKeys` others have called since its call before. */
  ghost predicate NeverDisplaced(requests: seq<Request>, from: nat, client: Client, maxKeys: nat) {
    forall j :: from < j < |requests| && requests[j].client == client ==> !Displaced(requests[..j], client, maxKeys)
  }

  lemma {:induction false} NeverReturns(requests: seq<Request>, from: nat, client: Client, maxKeys: nat)
    requires NeverDisplaced(requests, from, client, maxKeys)
    ensures Returns(requests, from, client, maxKeys) == 0
  {
    if |requests| > from + 1 {
      var init := requests[..|requests| - 1];
      forall j | from < j < |init| && init[j].client == client ensures !Displaced(init[..j], client, maxKeys) {
        assert init[..j] == requests[..j];
      }
      NeverReturns(init, from, client, maxKeys);
    }
  }

  /** A client that is never displaced between its own calls is let through at most one bucketful plus the
      refill for the time elapsed. */
  lemma {:induction false} OneBucketful(requests: seq<Request>, from: nat, client: Client, limits: Limits,
                                        maxKeys: nat)
    requires Monotone(requests)
    requires from < |requests| && requests[from].client == client
    requires NeverDisplaced(requests, from, client, maxKeys)
    ensures GrantedSince(requests, from, client, limits, maxKeys) as real
         <= limits(client) as real + Earned(requests[|requests| - 1].at - requests[from].at, limits(client) as real)
  {
    NeverReturns(requests, from, client, maxKeys);
    AdmissionBound(requests, from, client, limits, maxKeys);
    OneMoreBucketful(0, limits(client) as real);
  }

  /** A client whose requests are at least 60/limit seconds apart is never refused, whatever the
      others do and whether or not it was evicted in between. */
  lemma {:induction false} SpacedClientNeverRefused(requests: seq<Request>, i: nat, limits: Limits, maxKeys: nat)
    requires i < |requests|
    requires forall j :: 0 <= j < i && requests[j].client == requests[i].client ==>
      requests[i].at - requests[j].at >= 60.0 / limits(requests[i].client) as real
    ensures Granted(requests, i, limits, maxKeys)
  {
    var client, before := requests[i].client, requests[..i];
    if client in After(before, limits, maxKeys).buckets {
      BucketIsLatest(before, client, limits, maxKeys);
      var j := Last(before, client);
      TokensInRange(before, j, limits, maxKeys);
      assert requests[i].at - requests[j].at >= 60.0 / limits(client) as real;
      EarnedWhole(requests[i].at - requests[j].at, 1.0, limits(client) as real);
    }
  }

  // ---------- the advertised wait ----------

  lemma {:induction false} RetryCoversDeficit(tokens: real, perMinute: int)
    requires perMinute >= 1 && tokens < 1.0
    ensures Earned(RetryAfter(tokens, perMinute) as real + 0.001, perMinute as real) >= 1.0 - tokens
  {
    var wait := (1.0 - tokens) * 60.0 / perMinute as real;
    assert wait >= 0.0;
    EarnedWhole(RetryAfter(tokens, perMinute) as real + 0.001, 1.0 - tokens, perMinute as real);
  }

  /** While a client keeps being refused its tokens follow the clock exactly. */
  lemma {:induction false} RefusedAccrues(requests: seq<Request>, s: nat, i: nat, limits: Limits, maxKeys: nat)
    requires Monotone(requests)
    requires s <= i < |requests| && requests[s].client == requests[i].client
    requires forall j :: s <= j <= i && requests[j].client == requests[s].client ==>
        !Granted(requests, j, limits, maxKeys)
    ensures TokensLeft(requests, i, limits, maxKeys)
         == TokensLeft(requests, s, limits, maxKeys)
             + Earned(requests[i].at - requests[s].at, limits(requests[s].client) as real)
    decreases i
  {
    var client, before := requests[s].client, requests[..i];
    if s < i {
      var j := Last(before, client);
      assert before[s].client == client && j >= s;
      RefusedNext(requests, i, j, limits, maxKeys);
      RefusedAccrues(requests, s, j, limits, maxKeys);
      Accrual(TokensLeft(requests, s, limits, maxKeys), TokensLeft(requests, j, limits, maxKeys),
          limits(client) as real,
              requests[s].at, requests[j].at, requests[i].at);
    } else {
      NothingEarned(limits(client) as real);
    }
  }

  lemma {:induction false} RefusedNext(requests: seq<Request>, i: nat, last: int, limits: Limits, maxKeys: nat)
    requires i < |requests| && last == Last(requests[..i], requests[i].client)
    requires !Granted(requests, i, limits, maxKeys)
    ensures 0 <= last < i && requests[last].client == requests[i].client
    ensures TokensLeft(requests, i, limits, maxKeys) < 1.0
    ensures TokensLeft(requests, i, limits, maxKeys)
         == Min(limits(requests[i].client) as real, TokensLeft(requests, last, limits, maxKeys)
                + Earned(Max(0.0, requests[i].at - requests[last].at), limits(requests[i].client) as real))
  {
    OfferedNext(requests, i, last, limits, maxKeys);
  }

  lemma {:induction false} Accrual(first: real, last: real, limit: real, s: real, j: real, i: real)
    requires j <= i && limit >= 1.0
    requires last == first + Earned(j - s, limit)
    requires Min(limit, last + Earned(Max(0.0, i - j), limit)) < 1.0
    ensures Min(limit, last + Earned(Max(0.0, i - j), limit)) == first + Earned(i - s, limit)
  {
  }

  /** After a refusal, a request at least the advertised seconds plus one millisecond later is let
      through, unless an earlier one already was. */
  lemma {:induction false} RetryAfterSuffices(requests: seq<Request>, s: nat, i: nat, limits: Limits, maxKeys: nat)
    requires Monotone(requests)
    requires s < i < |requests| && requests[s].client == requests[i].client
    requires forall j :: s <= j < i && requests[j].client == requests[s].client ==>
        !Granted(requests, j, limits, maxKeys)
    requires requests[i].at >= requests[s].at
      + RetryAfter(TokensLeft(requests, s, limits, maxKeys), limits(requests[s].client)) as real + 0.001
    ensures Granted(requests, i, limits, maxKeys)
  {
    var client := requests[s].client;
    var limit := limits(client) as real;
    if !Granted(requests, i, limits, maxKeys) {
      RefusedAccrues(requests, s, i, limits, maxKeys);
      assert !Granted(requests, s, limits, maxKeys);
      var tokens := TokensLeft(requests, s, limits, maxKeys);
      RetryCoversDeficit(tokens, limits(client));
      EarnedGrows(RetryAfter(tokens, limits(client)) as real + 0.001, requests[i].at - requests[s].at, limit);
      assert false;
    }
  }

  /** The seconds a client with so many tokens still has to wait. */
  function Deficit(tokens: real, perMinute: int): real
    requires perMinute >= 1
  {
    (1.0 - tokens) * 60.0 / perMinute as real
  }

  /** The advertised wait covers the deficit, unless that is more than a second and exceeds a whole
      number of seconds by less than a millisecond. */
  predicate WaitCovers(tokens: real, perMinute: int)
    requires perMinute >= 1
  {
    var seconds := Deficit(tokens, perMinute);
    var fraction := seconds - seconds.Floor as real;
    seconds <= 1.0 || fraction == 0.0 || fraction >= 0.001
  }

  lemma {:induction false} RetryCoversExactly(tokens: real, perMinute: int)
    requires perMinute >= 1 && tokens < 1.0
    ensures RetryAfter(tokens, perMinute) as real >= Deficit(tokens, perMinute) <==> WaitCovers(tokens, perMinute)
  {
    var seconds := Deficit(tokens, perMinute);
    assert seconds >= 0.0;
    assert (seconds + 0.999).Floor == if seconds - seconds.Floor as real >= 0.001 then seconds.Floor + 1
        else seconds.Floor;
  }

  lemma {:induction false} EarnedExactly(tokens: real, perMinute: int, wait: real)
    requires perMinute >= 1
    ensures tokens + Earned(wait, perMinute as real) >= 1.0 <==> wait >= Deficit(tokens, perMinute)
  {
  }

  /** A refused client whose next request comes after exactly the advertised seconds is let through if
      and only if `maxKeys` others have called meanwhile, which evicts it, or the wait covers its deficit. */
  lemma {:induction false} AdvertisedWaitSufficesExactly(requests: seq<Request>, s: nat, i: nat, limits: Limits,
                                                         maxKeys: nat)
    requires s < i < |requests| && requests[s].client == requests[i].client
        && Last(requests[..i], requests[s].client) == s
    requires !Granted(requests, s, limits, maxKeys)
    requires requests[i].at
        == requests[s].at + RetryAfter(TokensLeft(requests, s, limits, maxKeys), limits(requests[s].client)) as real
    ensures Granted(requests, i, limits, maxKeys) <==>
      || |OthersSince(requests[..i], s, requests[s].client)| >= maxKeys
      || WaitCovers(TokensLeft(requests, s, limits, maxKeys), limits(requests[s].client))
  {
    var client, tokens := requests[s].client, TokensLeft(requests, s, limits, maxKeys);
    InTableExactly(requests[..i], client, limits, maxKeys);
    if client in After(requests[..i], limits, maxKeys).buckets {
      OfferedNext(requests, i, s, limits, maxKeys);
      RetryCoversExactly(tokens, limits(client));
      EarnedExactly(tokens, limits(client), RetryAfter(tokens, limits(client)) as real);
    }
  }

  /** With at least sixty requests a minute the deficit never exceeds a second, so the wait always covers it. */
  lemma {:induction false} FastRoutesCover(tokens: real, perMinute: int)
    requires perMinute >= 60 && 0.0 <= tokens < 1.0
    ensures WaitCovers(tokens, perMinute)
  {
    var limit := perMinute as real;
    assert Deficit(tokens, perMinute) * limit == (1.0 - tokens) * 60.0 <= 60.0 <= limit;
  }

  /** On such routes the advertised wait suffices. */
  lemma {:induction false} AdvertisedWaitSufficesWhenFast(requests: seq<Request>, s: nat, i: nat, limits: Limits,
                                                          maxKeys: nat)
    requires s < i < |requests| && requests[s].client == requests[i].client
        && Last(requests[..i], requests[s].client) == s
    requires !Granted(requests, s, limits, maxKeys) && limits(requests[s].client) >= 60
    requires requests[i].at
        == requests[s].at + RetryAfter(TokensLeft(requests, s, limits, maxKeys), limits(requests[s].client)) as real
    ensures Granted(requests, i, limits, maxKeys)
  {
    TokensInRange(requests, s, limits, maxKeys);
    FastRoutesCover(TokensLeft(requests, s, limits, maxKeys), limits(requests[s].client));
    AdvertisedWaitSufficesExactly(requests, s, i, limits, maxKeys);
  }

  // ---------- one client draining its bucket ----------

  ghost predicate Alone(requests: seq<Request>, client: Client) {
    forall i :: 0 <= i < |requests| ==> requests[i].client == client
  }

  lemma {:induction false} AloneNext(requests: seq<Request>, i: nat, client: Client, limits: Limits, maxKeys: nat)
    requires 0 < i < |requests| && maxKeys >= 1 && Alone(requests, client)
    ensures Offered(After(requests[..i], limits, maxKeys), client, limits(client), requests[i].at)
         == Min(limits(client) as real, TokensLeft(requests, i - 1, limits, maxKeys)
                + Earned(Max(0.0, requests[i].at - requests[i - 1].at), limits(client) as real))
  {
    OnlyClient(requests, client, i - 1, limits, maxKeys);
    assert requests[..i][i - 1].client == client;
    OfferedNext(requests, i, i - 1, limits, maxKeys);
  }

  /** After k simultaneous requests a full bucket holds k tokens less. */
  lemma {:induction false} Drained(requests: seq<Request>, k: nat, client: Client, limits: Limits, maxKeys: nat)
    requires 1 <= k <= |requests| && k <= limits(client) && maxKeys >= 1 && Alone(requests, client)
    requires forall i :: 0 <= i < k ==> requests[i].at == requests[0].at
    ensures Granted(requests, k - 1, limits, maxKeys)
    ensures TokensLeft(requests, k - 1, limits, maxKeys) == (limits(client) - k) as real
    decreases k
  {
    if k == 1 {
      assert requests[..0] == [];
    } else {
      Drained(requests, k - 1, client, limits, maxKeys);
      AloneNext(requests, k - 1, client, limits, maxKeys);
      NothingEarned(limits(client) as real);
    }
  }

  lemma {:induction false} NothingEarned(limit: real)
    ensures Earned(0.0, limit) == 0.0
  {
  }

  function Burst(client: Client): seq<Request> {
    seq(22, i => Request(client, if i < 20 then 0.0 else if i == 20 then 0.9995 else 2.9995))
  }

  lemma {:induction false} BurstDrains(client: Client, limits: Limits, maxKeys: nat)
    requires limits(client) == 20 && maxKeys >= 1
    ensures var requests := Burst(client);
      && (forall i :: 0 <= i < 20 ==> Granted(requests, i, limits, maxKeys))
      && TokensLeft(requests, 19, limits, maxKeys) == 0.0
  {
    var requests := Burst(client);
    forall i | 0 <= i < 20 ensures Granted(requests, i, limits, maxKeys) {
      Drained(requests, i + 1, client, limits, maxKeys);
    }
    Drained(requests, 20, client, limits, maxKeys);
  }

  /** The shortfall happens on a route of twenty requests a minute: after a burst that uses them up a client
      refused 0.9995 s later is told to wait 2 s, and after these it is refused again. */
  lemma {:induction false} AdvertisedWaitMayFallShort(client: Client, limits: Limits, maxKeys: nat)
    requires limits(client) == 20 && maxKeys >= 1
    ensures var requests := Burst(client);
      && (forall i :: 0 <= i < 20 ==> Granted(requests, i, limits, maxKeys))
      && !Granted(requests, 20, limits, maxKeys)
      && RetryAfter(TokensLeft(requests, 20, limits, maxKeys), 20) == 2
      && requests[21].at == requests[20].at + 2.0
      && !Granted(requests, 21, limits, maxKeys)
  {
    var requests := Burst(client);
    BurstDrains(client, limits, maxKeys);
    AloneNext(requests, 20, client, limits, maxKeys);
    assert TokensLeft(requests, 20, limits, maxKeys) == 0.9995 * 20.0 / 60.0;
    AloneNext(requests, 21, client, limits, maxKeys);
    assert (2.9995).Floor == 2;
  }

  lemma {:induction false} OnlyClient(requests: seq<Request>, client: Client, i: nat, limits: Limits, maxKeys: nat)
    requires i < |requests| && maxKeys >= 1
    requires forall j :: 0 <= j < |requests| ==> requests[j].client == client
    ensures client in After(requests[..i + 1], limits, maxKeys).buckets
    ensures After(requests[..i + 1], limits, maxKeys).buckets[client]
        == Bucket(TokensLeft(requests, i, limits, maxKeys), requests[i].at)
  {
    var now := requests[..i + 1];
    assert OthersSince(now, i, client) == {};
    SurvivesFewOthers(now, i, client, limits, maxKeys);
    BucketIsLatest(now, client, limits, maxKeys);
    assert now[..i] == requests[..i];
  }
}
