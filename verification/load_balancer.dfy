/** Round-robin selection among healthy targets. */
module LoadBalancing {
  import opened MetricApi
  import opened Arithmetic

  datatype Target = Target(url: string, healthy: bool, lastSeen: int)

  /** The healthy targets, in order. */
  function HealthyOf(targets: seq<Target>): (r: seq<Target>)
    ensures forall t :: t in r <==> t in targets && t.healthy
  {
    if targets == [] then []
    else
      var t := targets[|targets| - 1];
      HealthyOf(targets[..|targets| - 1]) + (if t.healthy then [t] else [])
  }

  /** The target whose turn it is at a counter value. */
  function Pick(targets: seq<Target>, counter: nat): Target
    requires HealthyOf(targets) != []
  {
    HealthyOf(targets)[counter % |HealthyOf(targets)|]
  }

  /** The targets of m consecutive turns, the first with counter c. */
  function Picks(targets: seq<Target>, c: nat, m: nat): (rs: seq<Target>)
    requires HealthyOf(targets) != []
    ensures |rs| == m
  {
    if m == 0 then [] else Picks(targets, c, m - 1) + [Pick(targets, c + m - 1)]
  }

  /** The first target with a URL, or the length. */
  function FirstWith(targets: seq<Target>, url: string): (i: nat)
    ensures i <= |targets|
    ensures forall j :: 0 <= j < i ==> targets[j].url != url
    ensures i < |targets| ==> targets[i].url == url
  {
    if targets == [] then 0
    else if targets[0].url == url then 0
    else FirstWith(targets[1..], url) + 1
  }

  /** The healthy targets of a list are those of its parts, one after the other; of a single
      target, itself if it is healthy: order and copies are kept. */
  lemma {:induction false} HealthyDistributes(a: seq<Target>, b: seq<Target>)
    ensures HealthyOf(a + b) == HealthyOf(a) + HealthyOf(b)
    decreases |b|
  {
    if b == [] {
      assert a + b == a;
    } else {
      HealthyDistributes(a, b[..|b| - 1]);
      assert (a + b)[..|a + b| - 1] == a + b[..|b| - 1];
    }
  }

  lemma HealthyOfOne(t: Target)
    ensures HealthyOf([t]) == if t.healthy then [t] else []
  {}

  class LoadBalancer {
    var targets: array<Target>
    var counter: nat

    constructor ()
      ensures fresh(targets) && targets.Length == 0 && counter == 0
    {
      targets := new Target[0];
      counter := 0;
    }

    method GetHealthyTargets() returns (healthy: seq<Target>)
      ensures healthy == HealthyOf(targets[..])
    {
      healthy := [];
      for n := 0 to targets.Length
        invariant healthy == HealthyOf(targets[..n])
      {
        assert targets[..n + 1][..n] == targets[..n];
        if targets[n].healthy {
          healthy := healthy + [targets[n]];
        }
      }
      assert targets[..targets.Length] == targets[..];
    }

    /** The healthy target whose turn it is; the turn passes on only if there is one. */
    method GetTarget() returns (r: Option<Target>)
      modifies this`counter
      ensures
        if HealthyOf(targets[..]) == [] then r == None && counter == old(counter)
        else r == Some(Pick(targets[..], old(counter))) && counter == old(counter) + 1
    {
      var healthy := GetHealthyTargets();
      if |healthy| == 0 {
        return None;
      }
      r := Some(healthy[counter % |healthy|]);
      counter := counter + 1;
    }

    /** m requests in a row, while targets and health stay as they are. */
    method GetTargets(m: nat) returns (rs: seq<Target>)
      requires HealthyOf(targets[..]) != []
      modifies this`counter
      ensures rs == Picks(targets[..], old(counter), m) && counter == old(counter) + m
    {
      rs := [];
      for i := 0 to m
        invariant rs == Picks(targets[..], old(counter), i)
        invariant counter == old(counter) + i
      {
        var t := GetTarget();
        rs := rs + [t.value];
      }
    }

    /** Marks the first target with the URL in place, and no other. */
    method UpdateTargetHealth(url: string, healthy: bool, now: int)
      modifies targets
      ensures var i, before := FirstWith(old(targets[..]), url), old(targets[..]);
        targets[..] == if i < |before| then before[i := Target(before[i].url, healthy, now)] else before
    {
      ghost var before := targets[..];
      for i := 0 to targets.Length
        invariant targets[..] == before
        invariant forall j :: 0 <= j < i ==> before[j].url != url
      {
        if targets[i].url == url {
          targets[i] := Target(targets[i].url, healthy, now);
          return;
        }
      }
    }

    /** A new list from service discovery replaces the old one. */
    method SetTargets(updated: array<Target>)
      modifies this`targets
      ensures targets == updated
    {
      targets := updated;
    }
  }

  // ---------------------------------------------------------------------------
  // Fairness

  /** How many of m consecutive turns, the first with counter c, go to index k of n. */
  function Turns(c: nat, n: nat, m: nat, k: nat): nat
    requires n > 0
  {
    if m == 0 then 0
    else Turns(c, n, m - 1, k) + (if (c + m - 1) % n == k then 1 else 0)
  }

  /** The number of turns until index k is next, starting from counter c. */
  function Wait(c: nat, n: nat, k: nat): (d: nat)
    requires k < n
    ensures d < n
  {
    if c % n <= k then k - c % n else k + n - c % n
  }

  /** Turn i goes to index k iff i is the wait for k, up to whole rounds. */
  lemma TurnIsWait(c: nat, n: nat, k: nat, i: nat)
    requires k < n
    ensures (c + i) % n == k <==> i % n == Wait(c, n, k)
  {
    var a, b := c % n, i % n;
    var q := c / n + i / n;
    assert c + i == q * n + (a + b) by {
      assert c == c / n * n + a && i == i / n * n + b;
      assert q * n == c / n * n + i / n * n;
    }
    if a + b < n {
      DivMod(c + i, n, q, a + b);
    } else {
      assert c + i == (q + 1) * n + (a + b - n);
      DivMod(c + i, n, q + 1, a + b - n);
    }
  }

  lemma NextTurn(m: nat, n: nat)
    requires n > 0
    ensures if m % n + 1 < n then (m + 1) / n == m / n && (m + 1) % n == m % n + 1
            else (m + 1) / n == m / n + 1 && (m + 1) % n == 0
  {
    var q, r := m / n, m % n;
    assert m == q * n + r;
    if r + 1 < n {
      DivMod(m + 1, n, q, r + 1);
    } else {
      assert m + 1 == (q + 1) * n + 0;
      DivMod(m + 1, n, q + 1, 0);
    }
  }

  lemma {:induction false} TurnsExactly(c: nat, n: nat, m: nat, k: nat)
    requires k < n
    ensures Turns(c, n, m, k) == m / n + (if m % n > Wait(c, n, k) then 1 else 0)
  {
    if m > 0 {
      TurnsExactly(c, n, m - 1, k);
      TurnIsWait(c, n, k, m - 1);
      NextTurn(m - 1, n);
      OneMoreTurn((m - 1) / n, (m - 1) % n, m / n, m % n, n, Wait(c, n, k));
    }
  }

  /** Counting whole rounds q and the turns r into the current one. */
  lemma OneMoreTurn(q: int, r: int, q': int, r': int, n: int, wait: int)
    requires 0 <= r < n && 0 <= wait < n
    requires if r + 1 < n then q' == q && r' == r + 1 else q' == q + 1 && r' == 0
    ensures q' + (if r' > wait then 1 else 0) ==
      q + (if r > wait then 1 else 0) + (if r == wait then 1 else 0)
  {}

  lemma RoundUp(m: nat, n: nat)
    requires n > 0
    ensures (m + n - 1) / n == m / n + (if m % n == 0 then 0 else 1)
  {
    var q, r := m / n, m % n;
    assert m == q * n + r;
    assert (q + 1) * n == q * n + n;
    if r == 0 {
      DivMod(m + n - 1, n, q, n - 1);
    } else {
      DivMod(m + n - 1, n, q + 1, r - 1);
    }
  }

  /** The turns among m that go to a target equal to t at one of the first j indices. */
  function TurnsTo(healthy: seq<Target>, c: nat, m: nat, t: Target, j: nat): nat
    requires j <= |healthy|
  {
    if j == 0 then 0
    else TurnsTo(healthy, c, m, t, j - 1) + (if healthy[j - 1] == t then Turns(c, |healthy|, m, j - 1) else 0)
  }

  /** One more turn goes to exactly one index. */
  lemma {:induction false} TurnsToStep(healthy: seq<Target>, c: nat, m: nat, t: Target, j: nat)
    requires 0 < m && j <= |healthy| && healthy != []
    ensures var k := (c + m - 1) % |healthy|;
      TurnsTo(healthy, c, m, t, j) ==
      TurnsTo(healthy, c, m - 1, t, j) + (if k < j && healthy[k] == t then 1 else 0)
  {
    if j > 0 {
      TurnsToStep(healthy, c, m, t, j - 1);
    }
  }

  lemma {:induction false} NoTurnsYet(healthy: seq<Target>, c: nat, t: Target, j: nat)
    requires j <= |healthy|
    ensures TurnsTo(healthy, c, 0, t, j) == 0
  {
    if j > 0 {
      NoTurnsYet(healthy, c, t, j - 1);
    }
  }

  function Count(rs: seq<Target>, t: Target): nat {
    if rs == [] then 0
    else Count(rs[..|rs| - 1], t) + (if rs[|rs| - 1] == t then 1 else 0)
  }

  lemma CountSnoc(rs: seq<Target>, r: Target, t: Target)
    ensures Count(rs + [r], t) == Count(rs, t) + (if r == t then 1 else 0)
  {
    assert (rs + [r])[..|rs|] == rs;
  }

  lemma {:induction false} CountIsMultiplicity(rs: seq<Target>, t: Target)
    ensures Count(rs, t) == multiset(rs)[t]
  {
    if rs != [] {
      CountIsMultiplicity(rs[..|rs| - 1], t);
      assert rs == rs[..|rs| - 1] + [rs[|rs| - 1]];
    }
  }

  /** What m requests return, counted by the indices their turns go to. */
  lemma {:induction false} PicksCount(targets: seq<Target>, c: nat, m: nat, t: Target)
    requires HealthyOf(targets) != []
    ensures var healthy := HealthyOf(targets);
      Count(Picks(targets, c, m), t) == TurnsTo(healthy, c, m, t, |healthy|)
  {
    var healthy := HealthyOf(targets);
    if m == 0 {
      NoTurnsYet(healthy, c, t, |healthy|);
    } else {
      PicksCount(targets, c, m - 1, t);
      TurnsToStep(healthy, c, m, t, |healthy|);
      CountSnoc(Picks(targets, c, m - 1), Pick(targets, c + m - 1), t);
    }
  }

  lemma {:induction false} TurnsToBounds(healthy: seq<Target>, c: nat, m: nat, t: Target, j: nat, low: nat, high: nat)
    requires j <= |healthy|
    requires forall k: nat :: k < |healthy| ==> low <= Turns(c, |healthy|, m, k) <= high
    ensures var copies := Count(healthy[..j], t);
      Times(copies, low) <= TurnsTo(healthy, c, m, t, j) <= Times(copies, high)
  {
    if j > 0 {
      TurnsToBounds(healthy, c, m, t, j - 1, low, high);
      OneMore(healthy, j - 1);
      CountSnoc(healthy[..j - 1], healthy[j - 1], t);
    }
  }

  lemma IndexBounds(c: nat, n: nat, m: nat) returns (low: nat, high: nat)
    requires 0 < n
    ensures low == m / n && high == (m + n - 1) / n
    ensures forall k: nat :: k < n ==> low <= Turns(c, n, m, k) <= high
  {
    low, high := m / n, (m + n - 1) / n;
    RoundUp(m, n);
    forall k: nat | k < n
      ensures low <= Turns(c, n, m, k) <= high
    {
      TurnsExactly(c, n, m, k);
    }
  }

  /** Each of the copies of t among the healthy targets is returned low to high times. */
  ghost predicate FairShare(targets: seq<Target>, c: nat, m: nat, t: Target, low: nat, high: nat)
    requires HealthyOf(targets) != []
  {
    var copies := multiset(HealthyOf(targets))[t];
    Times(copies, low) <= multiset(Picks(targets, c, m))[t] <= Times(copies, high)
  }

  lemma PicksBounds(targets: seq<Target>, c: nat, m: nat, t: Target, low: nat, high: nat)
    requires HealthyOf(targets) != []
    requires forall k: nat :: k < |HealthyOf(targets)| ==> low <= Turns(c, |HealthyOf(targets)|, m, k) <= high
    ensures FairShare(targets, c, m, t, low, high)
  {
    var healthy := HealthyOf(targets);
    PicksCount(targets, c, m, t);
    TurnsToBounds(healthy, c, m, t, |healthy|, low, high);
    CountIsMultiplicity(Picks(targets, c, m), t);
    CountIsMultiplicity(healthy, t);
    assert healthy[..|healthy|] == healthy;
  }

  lemma ShareBounds(targets: seq<Target>, c: nat, m: nat, t: Target) returns (low: nat, high: nat)
    requires HealthyOf(targets) != []
    ensures low == m / |HealthyOf(targets)| && high == (m + |HealthyOf(targets)| - 1) / |HealthyOf(targets)|
    ensures FairShare(targets, c, m, t, low, high)
  {
    low, high := IndexBounds(c, |HealthyOf(targets)|, m);
    PicksBounds(targets, c, m, t, low, high);
  }

  /** While targets and health stay as they are, any m consecutive requests, from any
      counter, return each of the n healthy targets m/n times, rounded down or up, once
      for each of its copies among them; a target of which there is none among them is
      never returned. */
  lemma RoundRobinIsFair(targets: seq<Target>, c: nat, m: nat, t: Target)
    requires HealthyOf(targets) != []
    ensures var n := |HealthyOf(targets)|;
      FairShare(targets, c, m, t, m / n, (m + n - 1) / n)
  {
    var low, high := ShareBounds(targets, c, m, t);
  }

  lemma {:induction false} TurnsToOne(healthy: seq<Target>, c: nat, m: nat, k: nat, j: nat)
    requires k < |healthy| && j <= |healthy| && NoDuplicates(healthy)
    ensures TurnsTo(healthy, c, m, healthy[k], j) == if k < j then Turns(c, |healthy|, m, k) else 0
  {
    if j > 0 {
      TurnsToOne(healthy, c, m, k, j - 1);
    }
  }

  /** Which of the two it is, if the healthy targets are distinct: rounded up exactly for
      those whose next turn comes before the last, incomplete round ends. */
  lemma PicksExactly(targets: seq<Target>, c: nat, m: nat, k: nat)
    requires k < |HealthyOf(targets)| && NoDuplicates(HealthyOf(targets))
    ensures var healthy := HealthyOf(targets);
      multiset(Picks(targets, c, m))[healthy[k]] ==
      m / |healthy| + (if m % |healthy| > Wait(c, |healthy|, k) then 1 else 0)
  {
    var healthy := HealthyOf(targets);
    PicksCount(targets, c, m, healthy[k]);
    CountIsMultiplicity(Picks(targets, c, m), healthy[k]);
    TurnsToOne(healthy, c, m, k, |healthy|);
    TurnsExactly(c, |healthy|, m, k);
  }

  /** No turn ever goes to an unhealthy target, and among any |healthy| consecutive turns
      every healthy target gets one. */
  lemma OnlyHealthyTurns(targets: seq<Target>, c: nat)
    requires HealthyOf(targets) != []
    ensures Pick(targets, c).healthy && Pick(targets, c) in targets
    ensures forall t :: t in targets && t.healthy ==>
      exists d: nat :: c <= d < c + |HealthyOf(targets)| && Pick(targets, d) == t
  {
    var healthy := HealthyOf(targets);
    var n := |healthy|;
    assert healthy[c % n] in healthy;
    forall t | t in targets && t.healthy
      ensures exists d: nat :: c <= d < c + n && Pick(targets, d) == t
    {
      assert t in healthy;
      var k :| 0 <= k < n && healthy[k] == t;
      var d := c + Wait(c, n, k);
      WaitIsOver(c, n, k);
      assert Pick(targets, d) == t;
    }
  }

  lemma WaitIsOver(c: nat, n: nat, k: nat)
    requires k < n
    ensures (c + Wait(c, n, k)) % n == k
  {
    DivMod(Wait(c, n, k), n, 0, Wait(c, n, k));
    TurnIsWait(c, n, k, Wait(c, n, k));
  }
}
