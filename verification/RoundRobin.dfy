/** The sidecar's choice of a worker: one counter for each service, kept across changes of the worker list. */
module RoundRobin {
  import opened Options

  class WorkerSelector {
    var counters: map<string, nat>

    constructor ()
      ensures counters == map[]
    {
      counters := map[];
    }

    /** The choice for a service with the workers now registered: in bounds whatever list the counter was
        left by; the counters of other services are untouched. */
    method Select<T>(service: string, workers: seq<T>) returns (choice: Option<T>)
      modifies this
      ensures workers == [] ==> choice == None && counters == old(counters)
      ensures workers != [] ==>
        && choice == Some(workers[Position(Counter(old(counters), service), |workers|)])
        && counters == old(counters)[service := Advance(Counter(old(counters), service), |workers|)]
    {
      if workers == [] {
        return None;
      }
      if service !in counters {
        counters := counters[service := 0];
      }
      var index := counters[service] % |workers|;
      counters := counters[service := index + 1];
      choice := Some(workers[index]);
    }

    /** A round of calls for one service while its list stays the same. */
    method SelectMany<T>(service: string, workers: seq<T>, times: nat) returns (chosen: seq<T>)
      requires workers != []
      modifies this
      ensures chosen == Take(workers, Picks(Counter(old(counters), service), |workers|, times))
      ensures forall other | other != service :: Counter(counters, other) == Counter(old(counters), other)
    {
      chosen := [];
      ghost var all := Take(workers, Picks(Counter(counters, service), |workers|, times));
      NothingChosen(workers, Counter(counters, service), times);
      for i := 0 to times
        invariant Outlook(chosen, workers, Counter(counters, service), times - i) == all
        invariant forall other | other != service :: Counter(counters, other) == Counter(old(counters), other)
      {
        OneTurn(chosen, workers, Counter(counters, service), times - i);
        var choice := Select(service, workers);
        chosen := chosen + [choice.value];
      }
      AllChosen(chosen, workers, Counter(counters, service));
    }
  }

  /** What will have been chosen, given what has been and the counter. */
  ghost function Outlook<T>(chosen: seq<T>, workers: seq<T>, c: nat, left: nat): seq<T>
    requires workers != []
  {
    chosen + Take(workers, Picks(c, |workers|, left))
  }

  lemma NothingChosen<T>(workers: seq<T>, c: nat, left: nat)
    requires workers != []
    ensures Outlook([], workers, c, left) == Take(workers, Picks(c, |workers|, left))
  {
  }

  lemma AllChosen<T>(chosen: seq<T>, workers: seq<T>, c: nat)
    requires workers != []
    ensures Outlook(chosen, workers, c, 0) == chosen
  {
  }

  lemma OneTurn<T>(chosen: seq<T>, workers: seq<T>, c: nat, left: nat)
    requires workers != [] && left > 0
    ensures var n := |workers|;
      Outlook(chosen, workers, c, left) == Outlook(chosen + [workers[Position(c, n)]], workers, Advance(c, n), left - 1)
  {
    var n := |workers|;
    var rest := Picks(Advance(c, n), n, left - 1);
    TakeCons(workers, Position(c, n), rest);
    Regroup(chosen, workers[Position(c, n)], Take(workers, rest));
  }

  lemma Regroup<T>(a: seq<T>, x: T, b: seq<T>)
    ensures a + ([x] + b) == a + [x] + b
  {
  }

  function Counter(counters: map<string, nat>, service: string): nat {
    if service in counters then counters[service] else 0
  }

  function Position(c: nat, n: nat): (i: nat)
    requires n > 0
    ensures i < n
  {
    c % n
  }

  function Advance(c: nat, n: nat): nat
    requires n > 0
  {
    c % n + 1
  }

  /** The positions chosen by `k` calls. */
  function Picks(c: nat, n: nat, k: nat): (r: seq<nat>)
    requires n > 0
    ensures |r| == k && forall i | 0 <= i < k :: r[i] < n
    decreases k
  {
    if k == 0 then [] else [Position(c, n)] + Picks(Advance(c, n), n, k - 1)
  }

  function Take<T>(workers: seq<T>, picks: seq<nat>): (r: seq<T>)
    requires forall i | 0 <= i < |picks| :: picks[i] < |workers|
    ensures |r| == |picks| && forall i | 0 <= i < |picks| :: r[i] == workers[picks[i]]
  {
    if picks == [] then [] else [workers[picks[0]]] + Take(workers, picks[1..])
  }

  lemma TakeCons<T>(workers: seq<T>, p: nat, picks: seq<nat>)
    requires p < |workers| && forall i | 0 <= i < |picks| :: picks[i] < |workers|
    ensures Take(workers, [p] + picks) == [workers[p]] + Take(workers, picks)
  {
    assert ([p] + picks)[1..] == picks;
  }

  // ----------------------------------------------------------------- fairness

  /** Calls until position `j` is next, from a counter. */
  function Distance(c: nat, n: nat, j: nat): (d: nat)
    requires j < n
    ensures d < n
  {
    var x := c % n;
    if j >= x then j - x else j + n - x
  }

  /** How often a position comes up in `k` calls if it is `d` calls away. */
  function Hits(k: nat, n: nat, d: nat): nat
    requires d < n
  {
    if k <= d then 0 else (k - 1 - d) / n + 1
  }

  lemma NextPosition(x: nat, n: nat)
    requires x < n
    ensures (x + 1) % n == if x + 1 < n then x + 1 else 0
  {
    if x + 1 < n { Remainder(x + 1, 0, x + 1, n); } else { Remainder(x + 1, 1, 0, n); }
  }

  lemma NextDistance(c: nat, n: nat, j: nat)
    requires j < n
    ensures var d := Distance(c, n, j); Distance(Advance(c, n), n, j) == if d == 0 then n - 1 else d - 1
    ensures Distance(c, n, j) == 0 <==> Position(c, n) == j
  {
    NextPosition(c % n, n);
  }

  lemma Remainder(a: int, q: int, r: int, n: int)
    requires n > 0 && a == q * n + r && 0 <= r < n
    ensures a % n == r
  {
    Quotient(a, q, r, n);
  }

  lemma OneRoundLess(a: nat, n: nat)
    requires a >= n > 0
    ensures (a - n) / n == a / n - 1
  {
    var q, r := a / n, a % n;
    assert a == q * n + r;
    assert a - n == (q - 1) * n + r;
    Quotient(a - n, q - 1, r, n);
  }

  lemma Multiple(e: int, n: int)
    requires n > 0
    ensures e >= 1 ==> e * n >= n
    ensures e <= -1 ==> e * n <= -n
  {
    if e >= 1 { assert e * n == n + (e - 1) * n; }
    if e <= -1 { assert e * n == -n + (e + 1) * n; }
  }

  lemma Distribute(q: int, q': int, n: int)
    ensures (q - q') * n == q * n - q' * n
  {
  }

  lemma Quotient(a: int, q: int, r: int, n: int)
    requires n > 0 && a == q * n + r && 0 <= r < n
    ensures a / n == q
  {
    Multiple(q - a / n, n);
    Distribute(q, a / n, n);
  }

  lemma HitNow(k: nat, n: nat)
    requires k > 0 && n > 0
    ensures Hits(k, n, 0) == 1 + Hits(k - 1, n, n - 1)
  {
    if k - 1 >= n {
      OneRoundLess(k - 1, n);
    } else {
      Quotient(k - 1, 0, k - 1, n);
    }
  }

  lemma CountCons(x: nat, rest: seq<nat>, j: nat)
    ensures multiset([x] + rest)[j] == (if x == j then 1 else 0) + multiset(rest)[j]
  {
  }

  lemma HitsStep(k: nat, n: nat, d: nat)
    requires k > 0 && d < n
    ensures Hits(k, n, d) == (if d == 0 then 1 else 0) + Hits(k - 1, n, if d == 0 then n - 1 else d - 1)
  {
    if d == 0 { HitNow(k, n); }
  }

  lemma PicksCounted(c: nat, n: nat, k: nat, j: nat)
    requires j < n && k > 0
    ensures multiset(Picks(c, n, k))[j]
         == (if Position(c, n) == j then 1 else 0) + multiset(Picks(Advance(c, n), n, k - 1))[j]
  {
    CountCons(Position(c, n), Picks(Advance(c, n), n, k - 1), j);
  }

  lemma {:induction false} HitsCounted(c: nat, n: nat, k: nat, j: nat)
    requires j < n
    ensures multiset(Picks(c, n, k))[j] == Hits(k, n, Distance(c, n, j))
    decreases k
  {
    if k > 0 {
      var d := Distance(c, n, j);
      HitsCounted(Advance(c, n), n, k - 1, j);
      NextDistance(c, n, j);
      PicksCounted(c, n, k, j);
      HitsStep(k, n, d);
    }
  }

  lemma DivMonotone(a: nat, b: nat, n: nat)
    requires a <= b && n > 0
    ensures a / n <= b / n
  {
    Multiple(a / n - b / n, n);
    Distribute(a / n, b / n, n);
  }

  lemma HitsAreFair(k: nat, n: nat, d: nat)
    requires d < n
    ensures k / n <= Hits(k, n, d) <= (k + n - 1) / n <= k / n + 1
  {
    OneRoundLess(k + 2 * n - 1, n);
    OneRoundLess(k + n, n);
    DivMonotone(k + n - 1, k + n, n);
    if k <= d {
      Quotient(k, 0, k, n);
    } else {
      OneRoundLess(k - 1 - d + n, n);
      DivMonotone(k, k - 1 - d + n, n);
      DivMonotone(k - 1 - d + n, k + n - 1, n);
    }
  }

  /** For a fixed list and any counter, each worker is chosen either floor(k/n) or ceil(k/n) times. */
  lemma RoundRobinIsFair(c: nat, n: nat, k: nat, j: nat)
    requires j < n
    ensures var count := multiset(Picks(c, n, k))[j]; count == k / n || count == (k + n - 1) / n
  {
    HitsCounted(c, n, k, j);
    HitsAreFair(k, n, Distance(c, n, j));
  }
}
