/**
  The work plan `get_mailbox` makes for one mailbox (src/getmail.rs): the
  search result is cut into worksets of `len / connections` identifiers with
  `slice::chunks`, one fetch task is spawned per workset and one writer task
  drains the channel the fetchers send into. The tasks themselves (sessions,
  fetches, the channel, the Maildir writes) are not modelled: only the plan.
 */
module Mailbox {
  import opened Config

  /** Rust's `u32`, the message sequence numbers a search returns. */
  type u32 = x: int | 0 <= x < 0x1_0000_0000

  /** A spawned task: a fetcher owning a workset, or the single writer. */
  datatype Task = Fetcher(workset: seq<u32>) | Writer

  /** The largest capacity tokio's `mpsc::channel` accepts: its semaphore's
      `MAX_PERMITS`, that is `usize::MAX >> 3`. */
  const MAX_CHANNEL_CAPACITY: usize := 0x1FFF_FFFF_FFFF_FFFF

  /** `mpsc::channel(connections)` panics for a capacity of 0 and for one above
      `MAX_CHANNEL_CAPACITY`. */
  predicate ChannelPanics(connections: usize) {
    connections == 0 || connections > MAX_CHANNEL_CAPACITY
  }

  /** What `get_mailbox` does after its search:
      - Aborted: `mpsc::channel` panics (for 0, the division by zero after it
        would panic too);
      - NothingToFetch: the early `return Ok(())` when the workset size is 0;
      - Spawned: a channel of the given capacity and the task handles, in push order. */
  datatype Plan = Aborted | NothingToFetch | Spawned(capacity: nat, handles: seq<Task>)

  predicate Distinct<T(==)>(s: seq<T>) {
    forall i, j :: 0 <= i < j < |s| ==> s[i] != s[j]
  }

  /** The concatenation of a sequence of sequences. */
  function Flatten<T>(cs: seq<seq<T>>): seq<T> {
    if cs == [] then [] else cs[0] + Flatten(cs[1..])
  }

  /** `slice::chunks(k)`: consecutive pieces of k elements, the last one
      possibly shorter; the pieces give back the slice, none is empty. */
  function Chunks<T>(s: seq<T>, k: nat): (cs: seq<seq<T>>)
    requires k >= 1
    ensures Flatten(cs) == s
    ensures forall j :: 0 <= j < |cs| ==> 1 <= |cs[j]| <= k
    ensures forall j :: 0 <= j < |cs| - 1 ==> |cs[j]| == k
    decreases |s|
  {
    if s == [] then []
    else
      var n := if |s| < k then |s| else k;
      var rest := Chunks(s[n..], k);
      assert s == s[..n] + s[n..];
      assert ([s[..n]] + rest)[1..] == rest;
      [s[..n]] + rest
  }

  /** The fetcher tasks for a sequence of worksets, in order. */
  function Fetchers(cs: seq<seq<u32>>): (ts: seq<Task>)
    ensures |ts| == |cs|
    ensures forall j :: 0 <= j < |cs| ==> ts[j] == Fetcher(cs[j])
  {
    seq(|cs|, j requires 0 <= j < |cs| => Fetcher(cs[j]))
  }

  /** The worksets of the fetchers among some tasks, in order. */
  function Worksets(ts: seq<Task>): seq<seq<u32>> {
    if ts == [] then []
    else if ts[0].Fetcher? then [ts[0].workset] + Worksets(ts[1..])
    else Worksets(ts[1..])
  }

  /** The plan `get_mailbox` makes for a search result and a connection count. */
  function MailboxPlan(search: seq<u32>, connections: usize): Plan {
    if ChannelPanics(connections) then Aborted
    else
      var worksetSize := |search| / connections;
      if worksetSize == 0 then NothingToFetch
      else Spawned(connections, Fetchers(Chunks(search, worksetSize)) + [Writer])
  }

  /** The planning part of `get_mailbox`: the channel, the chunk size and its
      early return, then one handle pushed per chunk and one for the writer. */
  method GetMailboxPlan(acc: Account, search: seq<u32>) returns (plan: Plan)
    ensures plan == MailboxPlan(search, acc.connections)
  {
    if acc.connections == 0 || acc.connections > MAX_CHANNEL_CAPACITY {
      return Aborted;
    }
    var capacity := acc.connections;
    var conn := acc.connections;
    var worksetSize := |search| / conn;
    if worksetSize == 0 {
      return NothingToFetch;
    }
    var wholeWorkset := search;
    var chunks := Chunks(wholeWorkset, worksetSize);
    var handles: seq<Task> := [];
    for i := 0 to |chunks|
      invariant |handles| == i
      invariant forall j :: 0 <= j < i ==> handles[j] == Fetcher(chunks[j])
    {
      var workset := chunks[i];
      handles := handles + [Fetcher(workset)];
    }
    handles := handles + [Writer];
    plan := Spawned(capacity, handles);
  }

  // ---------------------------------------------------------------------------
  // Facts about chunks.

  lemma {:induction false} FlattenMembership<T>(cs: seq<seq<T>>, x: T)
    ensures x in Flatten(cs) <==> exists j :: 0 <= j < |cs| && x in cs[j]
  {
    if cs != [] {
      FlattenMembership(cs[1..], x);
      if x in Flatten(cs[1..]) {
        var j :| 0 <= j < |cs[1..]| && x in cs[1..][j];
        assert x in cs[j + 1];
      }
      if exists j :: 0 <= j < |cs| && x in cs[j] {
        var j :| 0 <= j < |cs| && x in cs[j];
        if j > 0 {
          assert x in cs[1..][j - 1];
        }
      }
    }
  }

  /** The pieces of a sequence without repetitions are pairwise disjoint and
      free of repetitions themselves. */
  lemma {:induction false} FlattenDistinct<T>(cs: seq<seq<T>>)
    requires Distinct(Flatten(cs))
    ensures forall j :: 0 <= j < |cs| ==> Distinct(cs[j])
    ensures forall i, j, x :: 0 <= i < j < |cs| && x in cs[i] ==> x !in cs[j]
  {
    if cs != [] {
      var f := Flatten(cs);
      var rest := Flatten(cs[1..]);
      assert f == cs[0] + rest;
      assert Distinct(rest) by {
        forall i, j | 0 <= i < j < |rest|
          ensures rest[i] != rest[j]
        {
          assert rest[i] == f[|cs[0]| + i] && rest[j] == f[|cs[0]| + j];
        }
      }
      FlattenDistinct(cs[1..]);
      assert Distinct(cs[0]) by {
        forall i, j | 0 <= i < j < |cs[0]|
          ensures cs[0][i] != cs[0][j]
        {
          assert cs[0][i] == f[i] && cs[0][j] == f[j];
        }
      }
      forall i, j, x | 0 <= i < j < |cs| && x in cs[i]
        ensures x !in cs[j]
      {
        if i > 0 {
          assert cs[i] == cs[1..][i - 1] && cs[j] == cs[1..][j - 1];
        } else {
          var p :| 0 <= p < |cs[0]| && cs[0][p] == x;
          assert f[p] == x;
          forall q | 0 <= q < |rest|
            ensures rest[q] != x
          {
            assert rest[q] == f[|cs[0]| + q];
          }
          FlattenMembership(cs[1..], x);
          assert cs[j] == cs[1..][j - 1];
        }
      }
    }
  }

  /** `chunks(k)` makes ceil(len / k) pieces. */
  lemma {:induction false} ChunkCount<T>(s: seq<T>, k: nat)
    requires k >= 1
    ensures |Chunks(s, k)| == (|s| + k - 1) / k
    decreases |s|
  {
    if s == [] {
      DivIsQuotient(k - 1, k, 0);
    } else if |s| < k {
      DivIsQuotient(|s| + k - 1, k, 1);
    } else {
      assert Chunks(s, k) == [s[..k]] + Chunks(s[k..], k);
      ChunkCount(s[k..], k);
      CeilDivStep(|s|, k);
    }
  }

  // ---------------------------------------------------------------------------
  // Integer division, as the chunk count needs it.

  lemma DivIsQuotient(n: int, k: int, q: int)
    requires k >= 1 && q * k <= n < q * k + k
    ensures n / k == q
  {
    var d := n / k;
    assert d * k + n % k == n;
    var t := d - q;
    assert t * k == d * k - q * k;
    if t >= 1 {
      MulAtLeast(t, k);
    } else if t <= -1 {
      MulAtLeast(-t, k);
    }
  }

  lemma MulAtLeast(a: int, b: int)
    requires a >= 1 && b >= 1
    ensures a * b >= b
  {
  }

  lemma DivAtLeastOne(n: int, k: int)
    requires 1 <= k <= n
    ensures n / k >= 1
  {
  }

  lemma DivBelow(n: int, k: int, m: int)
    requires k >= 1 && 0 <= n < m * k
    ensures n / k < m
  {
  }

  lemma CeilDivStep(len: int, k: int)
    requires 1 <= k <= len
    ensures (len + k - 1) / k == (len - k + k - 1) / k + 1
  {
    var m := len - 1;
    var q := m / k;
    assert q * k + m % k == m;
    assert (q + 1) * k == q * k + k;
    DivIsQuotient(m + k, k, q + 1);
  }

  /** ceil(r / k) lies between 0 and r, and is 0 exactly when r is. */
  lemma CeilDivBounds(r: int, k: int)
    requires r >= 0 && k >= 1
    ensures 0 <= (r + k - 1) / k <= r
    ensures (r + k - 1) / k == 0 <==> r == 0
  {
    if r == 0 {
      DivIsQuotient(k - 1, k, 0);
    } else {
      DivAtLeastOne(r + k - 1, k);
      MulAtLeast(k, r);
      assert (r + 1) * k == r * k + k;
      DivBelow(r + k - 1, k, r + 1);
    }
  }

  /** With k = len / c >= 1, ceil(len / k) is c plus ceil((len % c) / k). */
  lemma CeilOfSplit(len: int, c: int)
    requires c >= 1 && len >= 0 && len / c >= 1
    ensures var k := len / c;
      var n := (len + k - 1) / k;
      && c <= n <= 2 * c - 1
      && (n == c <==> len % c == 0)
  {
    var k := len / c;
    var r := len % c;
    assert len == k * c + r;
    var e := (r + k - 1) / k;
    CeilDivBounds(r, k);
    assert e * k + (r + k - 1) % k == r + k - 1;
    assert (c + e) * k == c * k + e * k;
    DivIsQuotient(len + k - 1, k, c + e);
  }

  // ---------------------------------------------------------------------------
  // Facts about the plan.

  lemma {:induction false} WorksetsOfFetchers(cs: seq<seq<u32>>)
    ensures Worksets(Fetchers(cs) + [Writer]) == cs
  {
    if cs != [] {
      var ts := Fetchers(cs) + [Writer];
      assert ts[0] == Fetcher(cs[0]);
      assert ts[1..] == Fetchers(cs[1..]) + [Writer];
      WorksetsOfFetchers(cs[1..]);
    } else {
      assert Worksets([Writer]) == Worksets([Writer][1..]);
    }
  }

  /** No connections, or more than a channel can hold: the channel constructor
      panics, whatever the mailbox. */
  lemma PlanAbortsIff(search: seq<u32>, connections: usize)
    ensures MailboxPlan(search, connections).Aborted?
        <==> connections == 0 || connections > MAX_CHANNEL_CAPACITY
  {
  }

  /** Nothing is fetched exactly when there are fewer messages than connections,
      which includes the empty mailbox but also every small non-empty one. */
  lemma PlanNothingToFetchIff(search: seq<u32>, connections: usize)
    ensures MailboxPlan(search, connections).NothingToFetch?
        <==> 1 <= connections <= MAX_CHANNEL_CAPACITY && |search| < connections
  {
    if !ChannelPanics(connections) {
      if |search| < connections {
        DivIsQuotient(|search|, connections, 0);
      } else {
        DivAtLeastOne(|search|, connections);
      }
    }
  }

  /** A spawned plan has a channel of capacity `connections`, fetchers first and
      exactly one writer, pushed last. */
  lemma PlanShape(search: seq<u32>, connections: usize)
    requires 1 <= connections <= MAX_CHANNEL_CAPACITY && connections <= |search|
    ensures var p := MailboxPlan(search, connections);
      && p.Spawned?
      && p.capacity == connections
      && |p.handles| >= 2
      && p.handles[|p.handles| - 1] == Writer
      && forall j :: 0 <= j < |p.handles| - 1 ==> p.handles[j].Fetcher?
  {
  }

  /** The worksets of a spawned plan give back the search result in order, and
      each has `len / connections` identifiers except the last, which has
      between 1 and that many. */
  lemma PlanWorksets(search: seq<u32>, connections: usize)
    requires 1 <= connections <= MAX_CHANNEL_CAPACITY && connections <= |search|
    ensures MailboxPlan(search, connections).Spawned?
    ensures var ws := Worksets(MailboxPlan(search, connections).handles);
      var k := |search| / connections;
      && Flatten(ws) == search
      && (forall j :: 0 <= j < |ws| ==> 1 <= |ws[j]| <= k)
      && (forall j :: 0 <= j < |ws| - 1 ==> |ws[j]| == k)
  {
    DivAtLeastOne(|search|, connections);
    WorksetsOfFetchers(Chunks(search, |search| / connections));
  }

  /** Since the search result has no repetitions, every identifier is fetched by
      exactly one fetcher: each belongs to some workset, and no two worksets
      share one. */
  lemma PlanFetchesEachOnce(search: seq<u32>, connections: usize)
    requires 1 <= connections <= MAX_CHANNEL_CAPACITY && connections <= |search|
    requires Distinct(search)
    ensures MailboxPlan(search, connections).Spawned?
    ensures var ws := Worksets(MailboxPlan(search, connections).handles);
      && (forall x :: x in search <==> exists j :: 0 <= j < |ws| && x in ws[j])
      && (forall j :: 0 <= j < |ws| ==> Distinct(ws[j]))
      && (forall i, j, x :: 0 <= i < j < |ws| && x in ws[i] ==> x !in ws[j])
  {
    var ws := Worksets(MailboxPlan(search, connections).handles);
    PlanWorksets(search, connections);
    forall x
      ensures x in search <==> exists j :: 0 <= j < |ws| && x in ws[j]
    {
      FlattenMembership(ws, x);
    }
    FlattenDistinct(ws);
  }

  /** The number of fetchers: ceil(len / k) for the workset size k. It is at
      least `connections` and at most 2 * connections - 1, and it equals
      `connections` exactly when `connections` divides the message count, so an
      uneven split spawns more fetchers than configured. */
  lemma PlanFetcherCount(search: seq<u32>, connections: usize)
    requires 1 <= connections <= MAX_CHANNEL_CAPACITY && connections <= |search|
    ensures MailboxPlan(search, connections).Spawned?
    ensures var n := |Worksets(MailboxPlan(search, connections).handles)|;
      var k := |search| / connections;
      && n == (|search| + k - 1) / k
      && connections <= n <= 2 * connections - 1
      && (n == connections <==> |search| % connections == 0)
  {
    DivAtLeastOne(|search|, connections);
    var k := |search| / connections;
    WorksetsOfFetchers(Chunks(search, k));
    ChunkCount(search, k);
    CeilOfSplit(|search|, connections);
  }

  /** Five messages over two connections: worksets of 2, 2 and 1, so three
      fetchers, then the writer. */
  lemma PlanFiveOverTwo(a: u32, b: u32, c: u32, d: u32, e: u32)
    ensures MailboxPlan([a, b, c, d, e], 2)
        == Spawned(2, [Fetcher([a, b]), Fetcher([c, d]), Fetcher([e]), Writer])
  {
    var s := [a, b, c, d, e];
    assert Chunks([e], 2) == [[e]] by {
      assert [e][..1] == [e] && [e][1..] == [];
    }
    assert Chunks([c, d, e], 2) == [[c, d]] + Chunks([e], 2) by {
      assert [c, d, e][..2] == [c, d] && [c, d, e][2..] == [e];
    }
    assert Chunks(s, 2) == [[a, b]] + Chunks([c, d, e], 2) by {
      assert s[..2] == [a, b] && s[2..] == [c, d, e];
    }
  }

  /** An account whose configuration leaves out `connections` gets the default
      0, and every mailbox of it aborts. */
  lemma DefaultConnectionsAbort(e: AccountEntry, search: seq<u32>)
    requires e.connections.None?
    ensures MailboxPlan(search, AccountFromEntry(e).connections) == Aborted
  {
  }

  // ---------------------------------------------------------------------------
  // The early return taken for a non-empty mailbox, and the intended plan.

  /** With fewer messages than connections the mailbox is treated as empty: a
      mailbox with 3 messages and 4 connections plans no fetcher at all. */
  lemma SmallMailboxNotFetched(a: u32, b: u32, c: u32)
    ensures MailboxPlan([a, b, c], 4) == NothingToFetch
  {
  }

  /** The plan with the early return limited to an empty mailbox, as its log
      message ("mailbox is empty") says, and a workset size of at least 1. */
  function IntendedMailboxPlan(search: seq<u32>, connections: usize): Plan {
    if ChannelPanics(connections) then Aborted
    else if search == [] then NothingToFetch
    else
      var worksetSize := if |search| < connections then 1 else |search| / connections;
      Spawned(connections, Fetchers(Chunks(search, worksetSize)) + [Writer])
  }

  /** Under the intended plan every message of a non-empty mailbox is fetched
      once the channel can be made, and the plan agrees with `MailboxPlan` on
      every empty mailbox and whenever there are at least as many messages as
      connections. */
  lemma IntendedPlanFetchesAll(search: seq<u32>, connections: usize)
    ensures !ChannelPanics(connections) && search != [] ==>
      IntendedMailboxPlan(search, connections).Spawned?
    ensures IntendedMailboxPlan(search, connections).Spawned? ==>
      Flatten(Worksets(IntendedMailboxPlan(search, connections).handles)) == search
    ensures search == [] ==>
      IntendedMailboxPlan(search, connections) == MailboxPlan(search, connections)
    ensures |search| >= connections ==>
      IntendedMailboxPlan(search, connections) == MailboxPlan(search, connections)
  {
    var p := IntendedMailboxPlan(search, connections);
    if p.Spawned? {
      var k := if |search| < connections then 1 else |search| / connections;
      WorksetsOfFetchers(Chunks(search, k));
    }
    if |search| >= connections && !ChannelPanics(connections) {
      DivAtLeastOne(|search|, connections);
    }
  }
}
