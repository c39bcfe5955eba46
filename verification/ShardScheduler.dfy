/** The greedy test-shard scheduler (scripts/select_test_shard.py:44-60).
    Paths are numbered in their lexicographic order; the weights of the source are
    whole seconds, and any weight function is allowed here. */
module ShardScheduler {
  import opened RunEvents

  // ---- Order and deduplication

  /** The sort key `(-file_weight(item), item)`. */
  predicate Before(weight: nat -> nat, x: nat, y: nat) { weight(x) > weight(y) || (weight(x) == weight(y) && x < y) }

  predicate StrictlySorted(weight: nat -> nat, s: seq<nat>) {
    forall i, j :: 0 <= i < j < |s| ==> Before(weight, s[i], s[j])
  }

  /** Put `x` at its place, unless it is already there. */
  function Insert(weight: nat -> nat, x: nat, s: seq<nat>): seq<nat> {
    if s == [] then [x]
    else if x == s[0] then s
    else if Before(weight, x, s[0]) then [x] + s
    else [s[0]] + Insert(weight, x, s[1..])
  }

  /** `sorted(set(files), key=...)`. */
  function SortedSet(weight: nat -> nat, files: seq<nat>): seq<nat> {
    if files == [] then [] else Insert(weight, Last(files), SortedSet(weight, Front(files)))
  }

  lemma {:induction false} InsertSorted(weight: nat -> nat, x: nat, s: seq<nat>)
    requires StrictlySorted(weight, s)
    ensures StrictlySorted(weight, Insert(weight, x, s))
    ensures forall y :: y in Insert(weight, x, s) <==> y == x || y in s
  {
    if s != [] && x != s[0] && !Before(weight, x, s[0]) {
      InsertSorted(weight, x, s[1..]);
      var rest := Insert(weight, x, s[1..]);
      forall j | 0 <= j < |rest| ensures Before(weight, s[0], rest[j]) { assert rest[j] in rest; }
    }
  }

  lemma {:induction false} SortedSetSorted(weight: nat -> nat, files: seq<nat>)
    ensures StrictlySorted(weight, SortedSet(weight, files))
    ensures forall y :: y in SortedSet(weight, files) <==> y in files
  {
    if files != [] {
      SortedSetSorted(weight, Front(files));
      InsertSorted(weight, Last(files), SortedSet(weight, Front(files)));
      assert files == Front(files) + [Last(files)];
    }
  }

  function Weights(weight: nat -> nat, jobs: seq<nat>): (ws: seq<nat>)
    ensures |ws| == |jobs| && forall i :: 0 <= i < |ws| ==> ws[i] == weight(jobs[i])
  { seq(|jobs|, i requires 0 <= i < |jobs| => weight(jobs[i])) }

  function Sum(ws: seq<nat>): nat { if ws == [] then 0 else Sum(Front(ws)) + Last(ws) }

  // ---- Placements: job number i goes to shard place[i]

  predicate Placement(place: seq<nat>, n: nat, m: nat) { |place| == n && forall i :: 0 <= i < n ==> place[i] < m }

  function Load(ws: seq<nat>, place: seq<nat>, q: nat): nat
    requires |ws| == |place|
  {
    if ws == [] then 0 else Load(Front(ws), Front(place), q) + (if Last(place) == q then Last(ws) else 0)
  }

  function Loads(ws: seq<nat>, place: seq<nat>, m: nat): (l: seq<nat>)
    requires |ws| == |place|
    ensures |l| == m && forall q :: 0 <= q < m ==> l[q] == Load(ws, place, q)
  { seq(m, q requires 0 <= q => Load(ws, place, q)) }

  /** The first of the least loaded shards. */
  predicate Lightest(totals: seq<nat>, q: nat) {
    q < |totals| && forall r :: 0 <= r < |totals| ==> totals[q] <= totals[r] && (r < q ==> totals[q] < totals[r])
  }

  function FirstLightest(totals: seq<nat>): (q: nat)
    requires totals != []
    ensures Lightest(totals, q)
  {
    if |totals| == 1 then 0
    else
      var q := FirstLightest(Front(totals));
      if Last(totals) < totals[q] then |totals| - 1 else q
  }

  lemma LightestUnique(totals: seq<nat>, p: nat, q: nat)
    requires Lightest(totals, p) && Lightest(totals, q)
    ensures p == q
  {
    assert totals[p] <= totals[q] && totals[q] <= totals[p];
  }

  /** Each job in turn goes to the first lightest shard. */
  function Greedy(ws: seq<nat>, m: nat): (place: seq<nat>)
    requires m > 0
    ensures Placement(place, |ws|, m)
  {
    if ws == [] then []
    else
      var before := Greedy(Front(ws), m);
      before + [FirstLightest(Loads(Front(ws), before, m))]
  }

  /** The jobs of one shard, in the order they were placed. */
  function Selected(jobs: seq<nat>, place: seq<nat>, q: nat): seq<nat>
    requires |jobs| == |place|
  {
    if jobs == [] then []
    else if Last(place) == q then Selected(Front(jobs), Front(place), q) + [Last(jobs)]
    else Selected(Front(jobs), Front(place), q)
  }

  /** Paths in their own order. */
  function ByName(shard: seq<nat>): seq<nat> { SortedSet(_ => 0, shard) }

  datatype Assignment = Assignment(shards: seq<seq<nat>>, totals: seq<nat>)

  /** What `assign_test_files` computes. */
  function Lpt(weight: nat -> nat, files: seq<nat>, m: nat): (a: Assignment)
    requires m > 0
    ensures |a.shards| == |a.totals| == m
  {
    var jobs := SortedSet(weight, files);
    var (ws, place) := (Weights(weight, jobs), Greedy(Weights(weight, jobs), m));
    Assignment(seq(m, q requires 0 <= q => ByName(Selected(jobs, place, q))), Loads(ws, place, m))
  }

  // ---- The loops of the source

  method SortFiles(weight: nat -> nat, files: seq<nat>) returns (jobs: seq<nat>)
    ensures jobs == SortedSet(weight, files)
  {
    jobs := [];
    for i := 0 to |files|
      invariant jobs == SortedSet(weight, files[..i])
    {
      TakeNext(files, i);
      jobs := Insert(weight, files[i], jobs);
    }
    assert files[..|files|] == files;
  }

  method PickLightest(totals: seq<nat>) returns (q: nat)
    requires totals != []
    ensures q == FirstLightest(totals)
  {
    q := 0;
    for r := 1 to |totals|
      invariant Lightest(totals[..r], q)
    {
      if totals[r] < totals[q] { q := r; }
    }
    assert totals[..|totals|] == totals;
    LightestUnique(totals, q, FirstLightest(totals));
  }

  lemma LoadNext(ws: seq<nat>, place: seq<nat>, w: nat, p: nat, q: nat)
    requires |ws| == |place|
    ensures Load(ws + [w], place + [p], q) == Load(ws, place, q) + (if p == q then w else 0)
  {
    Snoc(ws, w);
    Snoc(place, p);
  }

  lemma SelectedNext(jobs: seq<nat>, place: seq<nat>, f: nat, p: nat, q: nat)
    requires |jobs| == |place|
    ensures Selected(jobs + [f], place + [p], q) ==
              (if p == q then Selected(jobs, place, q) + [f] else Selected(jobs, place, q))
  {
    Snoc(jobs, f);
    Snoc(place, p);
  }

  /** What the two lists hold after the first `n` jobs. */
  ghost predicate Assigned(jobs: seq<nat>, ws: seq<nat>, m: nat, n: nat, shards: seq<seq<nat>>, totals: seq<nat>)
    requires |jobs| == |ws| && n <= |jobs| && m > 0
  {
    && totals == Loads(ws[..n], Greedy(ws[..n], m), m)
    && |shards| == m && forall q :: 0 <= q < m ==> shards[q] == Selected(jobs[..n], Greedy(ws[..n], m), q)
  }

  lemma AssignedNext(jobs: seq<nat>, ws: seq<nat>, m: nat, n: nat, shards: seq<seq<nat>>, totals: seq<nat>, index: nat)
    requires |jobs| == |ws| && n < |jobs| && m > 0 && Assigned(jobs, ws, m, n, shards, totals)
               && index == FirstLightest(totals)
    ensures index < m && Assigned(jobs, ws, m, n + 1, shards[index := shards[index] + [jobs[n]]],
              totals[index := totals[index] + ws[n]])
  {
    var place := Greedy(ws[..n], m);
    TakeNext(ws, n);
    assert Greedy(ws[..n + 1], m) == place + [index];
    assert ws[..n + 1] == ws[..n] + [ws[n]] && jobs[..n + 1] == jobs[..n] + [jobs[n]];
    hide Greedy, Load, Selected;
    var (t, s) := (totals[index := totals[index] + ws[n]], shards[index := shards[index] + [jobs[n]]]);
    forall q | 0 <= q < m
      ensures t[q] == Load(ws[..n + 1], place + [index], q) && s[q] == Selected(jobs[..n + 1], place + [index], q)
    {
      LoadNext(ws[..n], place, ws[n], index, q);
      SelectedNext(jobs[..n], place, jobs[n], index, q);
    }
  }

  /** `assign_test_files`. */
  method AssignTestFiles(weight: nat -> nat, files: seq<nat>, shardCount: int) returns (r: Result<Assignment, string>)
    ensures shardCount <= 0 <==> r.Err?
    ensures shardCount > 0 ==> r == Ok(Lpt(weight, files, shardCount))
  {
    hide Greedy, Load, Selected, SortedSet;
    if shardCount <= 0 { return Err("shard_count must be positive"); }
    var jobs := SortFiles(weight, files);
    var shards: seq<seq<nat>> := seq(shardCount, _ => []);
    var totals: seq<nat> := seq(shardCount, _ => 0);
    ghost var ws := Weights(weight, jobs);
    NothingAssigned(jobs, ws, shardCount, shards, totals);
    for i := 0 to |jobs|
      invariant Assigned(jobs, ws, shardCount, i, shards, totals)
    {
      var index := PickLightest(totals);
      AssignedNext(jobs, ws, shardCount, i, shards, totals, index);
      shards := shards[index := shards[index] + [jobs[i]]];
      totals := totals[index := totals[index] + weight(jobs[i])];
    }
    assert ws[..|jobs|] == ws && jobs[..|jobs|] == jobs;
    shards := SortShards(shards);
    assert shards == Lpt(weight, files, shardCount).shards;
    r := Ok(Assignment(shards, totals));
  }

  lemma NothingAssigned(jobs: seq<nat>, ws: seq<nat>, m: nat, shards: seq<seq<nat>>, totals: seq<nat>)
    requires |jobs| == |ws| && m > 0 && |shards| == |totals| == m
    requires forall q :: 0 <= q < m ==> shards[q] == [] && totals[q] == 0
    ensures Assigned(jobs, ws, m, 0, shards, totals)
  {}

  method SortShards(shards: seq<seq<nat>>) returns (sorted: seq<seq<nat>>)
    ensures |sorted| == |shards| && forall q :: 0 <= q < |shards| ==> sorted[q] == ByName(shards[q])
  {
    hide SortedSet;
    sorted := shards;
    for q := 0 to |shards|
      invariant |sorted| == |shards|
      invariant forall k :: 0 <= k < q ==> sorted[k] == ByName(shards[k])
      invariant forall k :: q <= k < |shards| ==> sorted[k] == shards[k]
    {
      var shard := SortFiles(_ => 0, sorted[q]);
      sorted := sorted[q := shard];
    }
  }

  // ---- The shards partition the files, and the totals are their sums

  lemma {:induction false} SelectedMembers(jobs: seq<nat>, place: seq<nat>, q: nat)
    requires |jobs| == |place|
    ensures forall f :: f in Selected(jobs, place, q) <==> exists i :: 0 <= i < |jobs| && jobs[i] == f && place[i] == q
  {
    if jobs == [] { return; }
    SelectedMembers(Front(jobs), Front(place), q);
    forall f ensures f in Selected(jobs, place, q) <==> exists i :: 0 <= i < |jobs| && jobs[i] == f && place[i] == q {
      if i :| 0 <= i < |jobs| && jobs[i] == f && place[i] == q {
        if i < |jobs| - 1 { assert Front(jobs)[i] == f && Front(place)[i] == q; }
      }
      if f in Selected(Front(jobs), Front(place), q) {
        var i :| 0 <= i < |Front(jobs)| && Front(jobs)[i] == f && Front(place)[i] == q;
        assert jobs[i] == f && place[i] == q;
      }
      if f == Last(jobs) && Last(place) == q { assert jobs[|jobs| - 1] == f && place[|jobs| - 1] == q; }
    }
  }

  /** File `f` is job number `i` for some i that was placed on shard q. */
  predicate PlacedOn(jobs: seq<nat>, place: seq<nat>, f: nat, q: nat)
    requires |jobs| == |place|
  { exists i :: 0 <= i < |jobs| && jobs[i] == f && place[i] == q }

  lemma ShardMembers(weight: nat -> nat, files: seq<nat>, m: nat, f: nat, q: nat)
    requires q < m
    ensures var jobs := SortedSet(weight, files);
            f in Lpt(weight, files, m).shards[q] <==> PlacedOn(jobs, Greedy(Weights(weight, jobs), m), f, q)
  {
    hide SortedSet, Greedy, Selected;
    var jobs := SortedSet(weight, files);
    var place := Greedy(Weights(weight, jobs), m);
    SelectedMembers(jobs, place, q);
    SortedSetSorted(_ => 0, Selected(jobs, place, q));
  }

  /** Every file is in exactly one shard, and nothing else is in any. */
  lemma ShardsPartition(weight: nat -> nat, files: seq<nat>, m: nat, f: nat)
    requires m > 0
    ensures f in files <==> exists q :: 0 <= q < m && f in Lpt(weight, files, m).shards[q]
    ensures forall p, q :: 0 <= p < q < m ==>
              !(f in Lpt(weight, files, m).shards[p] && f in Lpt(weight, files, m).shards[q])
  {
    hide SortedSet, Greedy, Lpt;
    var jobs := SortedSet(weight, files);
    var place := Greedy(Weights(weight, jobs), m);
    SortedSetSorted(weight, files);
    forall q: nat | q < m ensures f in Lpt(weight, files, m).shards[q] <==> PlacedOn(jobs, place, f, q) {
      ShardMembers(weight, files, m, f, q);
    }
    if f in files {
      var i :| 0 <= i < |jobs| && jobs[i] == f;
      assert PlacedOn(jobs, place, f, place[i]);
      assert f in Lpt(weight, files, m).shards[place[i]];
    }
  }

  /** Shards are listed in path order, without repetition. */
  lemma ShardsSorted(weight: nat -> nat, files: seq<nat>, m: nat, q: nat)
    requires q < m
    ensures forall i, j :: 0 <= i < j < |Lpt(weight, files, m).shards[q]| ==>
                             Lpt(weight, files, m).shards[q][i] < Lpt(weight, files, m).shards[q][j]
  {
    hide SortedSet, Greedy, Selected;
    var jobs := SortedSet(weight, files);
    var place := Greedy(Weights(weight, jobs), m);
    SortedSetSorted(_ => 0, Selected(jobs, place, q));
  }

  lemma {:induction false} InsertSum(weight: nat -> nat, order: nat -> nat, x: nat, s: seq<nat>)
    requires x !in s
    ensures Sum(Weights(weight, Insert(order, x, s))) == Sum(Weights(weight, s)) + weight(x)
    decreases |s|
  {
    var r := Insert(order, x, s);
    if s == [] {
      assert Weights(weight, r) == [weight(x)];
    } else if Before(order, x, s[0]) {
      HeadSum(weight, x, s);
    } else {
      InsertSum(weight, order, x, s[1..]);
      HeadSum(weight, s[0], s[1..]);
      HeadSum(weight, s[0], Insert(order, x, s[1..]));
      assert [s[0]] + s[1..] == s;
    }
  }

  lemma {:induction false} HeadSum(weight: nat -> nat, x: nat, s: seq<nat>)
    ensures Sum(Weights(weight, [x] + s)) == weight(x) + Sum(Weights(weight, s))
    decreases |s|
  {
    var ws := Weights(weight, [x] + s);
    if s == [] {
      assert ws == [weight(x)] && Front(ws) == [];
    } else {
      HeadSum(weight, x, Front(s));
      assert Front(ws) == Weights(weight, [x] + Front(s));
      assert Front(Weights(weight, s)) == Weights(weight, Front(s));
    }
  }

  lemma {:induction false} SortedSum(weight: nat -> nat, order: nat -> nat, s: seq<nat>)
    requires Distinct(s)
    ensures Sum(Weights(weight, SortedSet(order, s))) == Sum(Weights(weight, s))
  {
    if s == [] { return; }
    SortedSum(weight, order, Front(s));
    SortedSetSorted(order, Front(s));
    InsertSum(weight, order, Last(s), SortedSet(order, Front(s)));
    assert Front(Weights(weight, s)) == Weights(weight, Front(s));
  }

  lemma {:induction false} SelectedSum(weight: nat -> nat, jobs: seq<nat>, place: seq<nat>, q: nat)
    requires |jobs| == |place| && Distinct(jobs)
    ensures Distinct(Selected(jobs, place, q))
              && Sum(Weights(weight, Selected(jobs, place, q))) == Load(Weights(weight, jobs), place, q)
  {
    if jobs == [] { return; }
    SelectedSum(weight, Front(jobs), Front(place), q);
    SelectedMembers(Front(jobs), Front(place), q);
    assert Front(Weights(weight, jobs)) == Weights(weight, Front(jobs));
    var (s, before) := (Selected(jobs, place, q), Selected(Front(jobs), Front(place), q));
    if Last(place) == q {
      Snoc(before, Last(jobs));
      assert Front(Weights(weight, s)) == Weights(weight, before);
      assert Last(jobs) !in before;
    }
  }

  /** Each total is the sum of the weights of its shard. */
  lemma TotalsAreSums(weight: nat -> nat, files: seq<nat>, m: nat, q: nat)
    requires q < m
    ensures Lpt(weight, files, m).totals[q] == Sum(Weights(weight, Lpt(weight, files, m).shards[q]))
  {
    var jobs := SortedSet(weight, files);
    SortedSetSorted(weight, files);
    var place := Greedy(Weights(weight, jobs), m);
    SelectedSum(weight, jobs, place, q);
    SortedSum(weight, _ => 0, Selected(jobs, place, q));
  }

  // ---- Sums over shards

  function SumOver(f: nat -> nat, m: nat): nat { if m == 0 then 0 else SumOver(f, m - 1) + f(m - 1) }

  lemma {:induction false} SumOverStep(f: nat -> nat, g: nat -> nat, m: nat, p: nat, d: nat)
    requires forall q: nat :: q < m ==> g(q) == f(q) + (if q == p then d else 0)
    ensures SumOver(g, m) == SumOver(f, m) + (if p < m then d else 0)
  {
    if m > 0 { SumOverStep(f, g, m - 1, p, d); }
  }

  lemma {:induction false} SumOverBetween(f: nat -> nat, m: nat, lo: nat, hi: nat)
    requires forall q: nat :: q < m ==> lo <= f(q) <= hi
    ensures m * lo <= SumOver(f, m) <= m * hi
  {
    if m > 0 {
      SumOverBetween(f, m - 1, lo, hi);
      assert m * lo == (m - 1) * lo + lo && m * hi == (m - 1) * hi + hi;
    }
  }

  ghost function LoadAt(ws: seq<nat>, place: seq<nat>): nat -> nat
    requires |ws| == |place|
  { q => Load(ws, place, q) }

  lemma {:induction false} LoadsSum(ws: seq<nat>, place: seq<nat>, m: nat)
    requires Placement(place, |ws|, m)
    ensures SumOver(LoadAt(ws, place), m) == Sum(ws)
  {
    if ws == [] {
      SumOverBetween(LoadAt(ws, place), m, 0, 0);
    } else {
      LoadsSum(Front(ws), Front(place), m);
      SumOverStep(LoadAt(Front(ws), Front(place)), LoadAt(ws, place), m, Last(place), Last(ws));
    }
  }

  function Count(place: seq<nat>, q: nat): nat {
    if place == [] then 0 else Count(Front(place), q) + (if Last(place) == q then 1 else 0)
  }

  ghost function CountAt(place: seq<nat>): nat -> nat { q => Count(place, q) }

  lemma {:induction false} CountsSum(place: seq<nat>, m: nat)
    requires Placement(place, |place|, m)
    ensures SumOver(CountAt(place), m) == |place|
  {
    if place == [] {
      SumOverBetween(CountAt(place), m, 0, 0);
    } else {
      CountsSum(Front(place), m);
      SumOverStep(CountAt(Front(place)), CountAt(place), m, Last(place), 1);
    }
  }

  // ---- Graham's bound for any order

  lemma {:induction false} PrefixSum(ws: seq<nat>, j: nat)
    requires j < |ws|
    ensures Sum(ws[..j]) + ws[j] <= Sum(ws)
  {
    TakeNext(ws, j);
    if j < |ws| - 1 {
      PrefixSum(Front(ws), j);
      assert Front(ws)[..j] == ws[..j];
    }
  }

  lemma {:induction false} PrefixLoad(ws: seq<nat>, place: seq<nat>, q: nat, n: nat)
    requires |ws| == |place| && n <= |ws|
    ensures Load(ws[..n], place[..n], q) <= Load(ws, place, q)
  {
    if n < |ws| {
      PrefixLoad(Front(ws), Front(place), q, n);
      assert Front(ws)[..n] == ws[..n] && Front(place)[..n] == place[..n];
    } else {
      assert ws[..n] == ws && place[..n] == place;
    }
  }

  lemma {:induction false} GreedyPrefix(ws: seq<nat>, m: nat, n: nat)
    requires m > 0 && n <= |ws|
    ensures Greedy(ws[..n], m) == Greedy(ws, m)[..n]
  {
    if n < |ws| {
      GreedyPrefix(Front(ws), m, n);
      assert Front(ws)[..n] == ws[..n];
    } else {
      assert ws[..n] == ws;
    }
  }

  /** The last job of a non-empty shard was put there when the shard was lightest. */
  lemma {:induction false} LastJob(ws: seq<nat>, m: nat, q: nat) returns (j: nat)
    requires m > 0 && Load(ws, Greedy(ws, m), q) > 0
    ensures j < |ws| && Greedy(ws, m)[j] == q
              && Load(ws, Greedy(ws, m), q) == Load(ws[..j], Greedy(ws[..j], m), q) + ws[j]
    ensures forall r :: 0 <= r < m ==> Load(ws[..j], Greedy(ws[..j], m), q) <= Load(ws[..j], Greedy(ws[..j], m), r)
  {
    var (f, place) := (Front(ws), Greedy(ws, m));
    if Last(place) == q {
      j := |ws| - 1;
      assert ws[..j] == f;
      assert Lightest(Loads(f, Greedy(f, m), m), q);
    } else {
      j := LastJob(f, m, q);
      assert f[..j] == ws[..j];
    }
  }

  /** Some placement keeps every shard within `limit`. */
  predicate Fits(ws: seq<nat>, other: seq<nat>, m: nat, limit: nat) {
    Placement(other, |ws|, m) && forall q :: 0 <= q < m ==> Load(ws, other, q) <= limit
  }

  lemma FitsSum(ws: seq<nat>, other: seq<nat>, m: nat, limit: nat)
    requires Fits(ws, other, m, limit)
    ensures Sum(ws) <= m * limit
  {
    LoadsSum(ws, other, m);
    SumOverBetween(LoadAt(ws, other), m, 0, limit);
  }

  lemma FitsJob(ws: seq<nat>, other: seq<nat>, m: nat, limit: nat, j: nat)
    requires Fits(ws, other, m, limit) && j < |ws|
    ensures ws[j] <= limit && |other| == |ws|
  {
    var q := other[j];
    PrefixLoad(ws, other, q, j + 1);
    TakeNext(ws, j);
    TakeNext(other, j);
  }

  /** m times a total is at most the whole work, and m - 1 times the last job on top. */
  lemma {:induction false} LastJobBound(ws: seq<nat>, m: nat, q: nat, other: seq<nat>, limit: nat) returns (j: nat)
    requires 0 < m && q < m && Fits(ws, other, m, limit) && Load(ws, Greedy(ws, m), q) > 0
    ensures j < |ws| == |other| && m * Load(ws, Greedy(ws, m), q) <= m * limit + (m - 1) * ws[j] && ws[j] <= limit
    ensures Load(ws, Greedy(ws, m), q) == Load(ws[..j], Greedy(ws[..j], m), q) + ws[j]
    ensures forall r :: 0 <= r < m ==> Load(ws[..j], Greedy(ws[..j], m), q) <= Load(ws[..j], Greedy(ws[..j], m), r)
  {
    j := LastJob(ws, m, q);
    hide Greedy, Load, Fits;
    var low := Load(ws[..j], Greedy(ws[..j], m), q);
    LowestShare(ws[..j], Greedy(ws[..j], m), m, low);
    PrefixSum(ws, j);
    FitsSum(ws, other, m, limit);
    FitsJob(ws, other, m, limit, j);
    OneMore(m, low, ws[j], m * limit);
  }

  lemma LowestShare(ws: seq<nat>, place: seq<nat>, m: nat, low: nat)
    requires Placement(place, |ws|, m) && forall r :: 0 <= r < m ==> low <= Load(ws, place, r)
    ensures m * low <= Sum(ws)
  {
    hide Load;
    LoadsSum(ws, place, m);
    SumOverAtLeast(LoadAt(ws, place), m, low);
  }

  lemma OneMore(m: nat, low: nat, w: nat, work: nat)
    requires m > 0 && m * low + w <= work
    ensures m * (low + w) <= work + (m - 1) * w
  {
    assert m * (low + w) == m * low + m * w;
    assert (m - 1) * w == m * w - w;
  }

  lemma {:induction false} SumOverAtLeast(f: nat -> nat, m: nat, lo: nat)
    requires forall q: nat :: q < m ==> lo <= f(q)
    ensures m * lo <= SumOver(f, m)
  {
    if m > 0 {
      SumOverAtLeast(f, m - 1, lo);
      assert m * lo == (m - 1) * lo + lo;
    }
  }

  /** List scheduling is within 2 - 1/m of any placement, in any order of the jobs. */
  lemma GrahamBound(ws: seq<nat>, m: nat, q: nat, other: seq<nat>, limit: nat)
    requires 0 < m && q < m && Fits(ws, other, m, limit)
    ensures m * Load(ws, Greedy(ws, m), q) <= (2 * m - 1) * limit
  {
    hide Greedy, Load, Fits;
    var total := Load(ws, Greedy(ws, m), q);
    if total == 0 {
      assert (2 * m - 1) * limit >= 0;
    } else {
      var j := LastJobBound(ws, m, q, other, limit);
      NoLonger(m, total, ws[j], limit);
    }
  }

  lemma NoLonger(m: nat, total: nat, w: nat, limit: nat)
    requires m > 0 && m * total <= m * limit + (m - 1) * w && w <= limit
    ensures m * total <= (2 * m - 1) * limit
  {
    assert (m - 1) * w <= (m - 1) * limit;
    assert (2 * m - 1) * limit == m * limit + (m - 1) * limit;
  }

  // ---- Longest first: within 4/3 - 1/(3m)

  predicate NonIncreasing(ws: seq<nat>) { forall i, j :: 0 <= i < j < |ws| ==> ws[i] >= ws[j] }

  /** A job on the shard, if any. */
  function JobOn(place: seq<nat>, q: nat): (i: nat)
    requires Count(place, q) > 0
    ensures i < |place| && place[i] == q
  {
    if Last(place) == q then |place| - 1 else JobOn(Front(place), q)
  }

  lemma {:induction false} EmptyLoad(ws: seq<nat>, place: seq<nat>, q: nat)
    requires |ws| == |place| && Count(place, q) == 0
    ensures Load(ws, place, q) == 0
  {
    if ws != [] { EmptyLoad(Front(ws), Front(place), q); }
  }

  lemma {:induction false} SingleLoad(ws: seq<nat>, place: seq<nat>, q: nat)
    requires |ws| == |place| && Count(place, q) == 1
    ensures Load(ws, place, q) == ws[JobOn(place, q)]
  {
    if Last(place) == q { EmptyLoad(Front(ws), Front(place), q); } else { SingleLoad(Front(ws), Front(place), q); }
  }

  lemma {:induction false} LoadByCount(ws: seq<nat>, place: seq<nat>, q: nat, w: nat)
    requires |ws| == |place| && forall i :: 0 <= i < |ws| ==> ws[i] >= w
    ensures Load(ws, place, q) >= Count(place, q) * w
  {
    if ws != [] {
      LoadByCount(Front(ws), Front(place), q, w);
      assert (Count(Front(place), q) + 1) * w == Count(Front(place), q) * w + w;
    }
  }

  lemma {:induction false} LoadWithJob(ws: seq<nat>, place: seq<nat>, i: nat, w: nat)
    requires i < |ws| == |place| && forall k :: 0 <= k < |ws| ==> ws[k] >= w
    ensures Count(place, place[i]) >= 1 && Load(ws, place, place[i]) >= ws[i] + (Count(place, place[i]) - 1) * w
  {
    var q := place[i];
    if i == |ws| - 1 {
      LoadByCount(Front(ws), Front(place), q, w);
    } else {
      LoadWithJob(Front(ws), Front(place), i, w);
      if Last(place) == q {
        var c := Count(Front(place), q);
        assert c * w == (c - 1) * w + w;
      }
    }
  }

  lemma {:induction false} TwoJobs(place: seq<nat>, i: nat, k: nat)
    requires i < k < |place| && place[i] == place[k]
    ensures Count(place, place[i]) >= 2
  {
    if k == |place| - 1 { CountWithJob(Front(place), i); } else { TwoJobs(Front(place), i, k); }
  }

  lemma {:induction false} CountWithJob(place: seq<nat>, i: nat)
    requires i < |place|
    ensures Count(place, place[i]) >= 1
  {
    if i < |place| - 1 { CountWithJob(Front(place), i); }
  }

  ghost function Sparse(f: nat -> nat, m: nat): set<nat> { set q: nat | q < m && f(q) <= 1 }

  lemma {:induction false} SumAtLeastTwo(f: nat -> nat, m: nat)
    requires forall q: nat :: q < m ==> f(q) >= 1
    ensures SumOver(f, m) + |Sparse(f, m)| >= 2 * m
  {
    if m > 0 { SumAtLeastTwo(f, m - 1); SparseNext(f, m); }
  }

  lemma {:induction false} SumAtMostTwo(f: nat -> nat, m: nat)
    requires forall q: nat :: q < m ==> f(q) <= 2
    ensures SumOver(f, m) + |Sparse(f, m)| <= 2 * m
  {
    if m > 0 { SumAtMostTwo(f, m - 1); SparseNext(f, m); }
  }

  lemma SparseNext(f: nat -> nat, m: nat)
    requires m > 0
    ensures |Sparse(f, m)| == |Sparse(f, m - 1)| + (if f(m - 1) <= 1 then 1 else 0)
  {
    assert Sparse(f, m) == Sparse(f, m - 1) + (if f(m - 1) <= 1 then {m - 1} else {});
  }

  lemma {:induction false} InjectionBound(a: set<nat>, b: set<nat>, f: map<nat, nat>)
    requires forall x :: x in a ==> x in f && f[x] in b
    requires forall x, y :: x in a && y in a && x != y ==> f[x] != f[y]
    ensures |a| <= |b|
  {
    if a != {} {
      var x :| x in a;
      InjectionBound(a - {x}, b - {f[x]}, f);
    }
  }

  /** The shards with a single job map, one to one, to shards of any fitting placement with a single job. */
  lemma {:induction false} SinglesStaySingle(ws: seq<nat>, m: nat, place: seq<nat>, other: seq<nat>, limit: nat)
    requires ws != [] && NonIncreasing(ws) && Placement(place, |ws| - 1, m) && Fits(ws, other, m, limit)
    requires forall q :: 0 <= q < m ==> Count(place, q) >= 1 && Load(Front(ws), place, q) + Last(ws) > limit
    ensures |Sparse(CountAt(place), m)| <= |Sparse(CountAt(other), m)|
  {
    var (a, b) := (Sparse(CountAt(place), m), Sparse(CountAt(other), m));
    var image := map q | q in a :: other[JobOn(place, q)];
    forall q | q in a ensures image[q] in b {
      SingleLoad(Front(ws), place, q);
      var i := JobOn(place, q);
      assert Front(ws)[i] == ws[i];
      AloneIfLarge(ws, other, m, limit, i);
    }
    forall p, q | p in a && q in a && p != q ensures image[p] != image[q] {
      var (i, k) := (JobOn(place, p), JobOn(place, q));
      assert image[p] in b;
      if i < k { TwoApart(other, i, k); } else { TwoApart(other, k, i); }
    }
    InjectionBound(a, b, image);
  }

  lemma TwoApart(place: seq<nat>, i: nat, k: nat)
    requires i < k < |place|
    ensures Count(place, place[i]) <= 1 || Count(place, place[k]) <= 1 ==> place[i] != place[k]
  {
    if place[i] == place[k] { TwoJobs(place, i, k); }
  }

  /** With one job less, and at most two jobs a shard in the other placement, there are more single shards. */
  lemma {:induction false} MoreSingles(ws: seq<nat>, m: nat, place: seq<nat>, other: seq<nat>, limit: nat)
    requires ws != [] && NonIncreasing(ws) && Placement(place, |ws| - 1, m) && Fits(ws, other, m, limit)
    requires 3 * Last(ws) > limit && forall q :: 0 <= q < m ==> Count(place, q) >= 1
    ensures |Sparse(CountAt(place), m)| > |Sparse(CountAt(other), m)|
  {
    forall q: nat | q < m ensures Count(other, q) <= 2 { AtMostTwo(ws, other, m, limit, q); }
    CountsSum(place, m);
    CountsSum(other, m);
    SumAtLeastTwo(CountAt(place), m);
    SumAtMostTwo(CountAt(other), m);
  }

  /** A job of more than a third of the limit finds room on some shard: otherwise the jobs placed
      so far would leave no room for it in any placement. */
  lemma {:induction false} LargeJobFits(ws: seq<nat>, m: nat, place: seq<nat>, other: seq<nat>, limit: nat)
    requires ws != [] && NonIncreasing(ws) && Placement(place, |ws| - 1, m) && Fits(ws, other, m, limit)
    requires 3 * Last(ws) > limit
    ensures exists q :: 0 <= q < m && Load(Front(ws), place, q) + Last(ws) <= limit
  {
    FitsJob(ws, other, m, limit, |ws| - 1);
    if forall q :: 0 <= q < m ==> Load(Front(ws), place, q) + Last(ws) > limit {
      forall q | 0 <= q < m ensures Count(place, q) >= 1 { NoneIsEmpty(Front(ws), place, q); }
      hide Load, Count, Sparse;
      SinglesStaySingle(ws, m, place, other, limit);
      MoreSingles(ws, m, place, other, limit);
    }
  }

  lemma NoneIsEmpty(ws: seq<nat>, place: seq<nat>, q: nat)
    requires |ws| == |place|
    ensures Load(ws, place, q) > 0 ==> Count(place, q) >= 1
  {
    if Count(place, q) == 0 { EmptyLoad(ws, place, q); }
  }

  lemma AtMostTwo(ws: seq<nat>, other: seq<nat>, m: nat, limit: nat, q: nat)
    requires ws != [] && NonIncreasing(ws) && Fits(ws, other, m, limit) && 3 * Last(ws) > limit && q < m
    ensures Count(other, q) <= 2
  {
    hide Load, Count;
    LoadByCount(ws, other, q, Last(ws));
    Thrice(Count(other, q), Last(ws));
  }

  lemma Thrice(c: nat, w: nat)
    ensures c >= 3 ==> c * w >= 3 * w
  {}

  lemma AloneIfLarge(ws: seq<nat>, other: seq<nat>, m: nat, limit: nat, i: nat)
    requires ws != [] && NonIncreasing(ws) && Fits(ws, other, m, limit) && i < |ws| && ws[i] + Last(ws) > limit
    ensures Count(other, other[i]) <= 1
  {
    hide Load, Count;
    LoadWithJob(ws, other, i, Last(ws));
    if Count(other, other[i]) >= 2 { AtLeastOnce(Count(other, other[i]) - 1, Last(ws)); }
  }

  lemma AtLeastOnce(c: nat, w: nat)
    requires c >= 1
    ensures c * w >= w
  {}

  lemma FitsPrefix(ws: seq<nat>, other: seq<nat>, m: nat, limit: nat, n: nat)
    requires Fits(ws, other, m, limit) && n <= |ws|
    ensures Fits(ws[..n], other[..n], m, limit)
  {
    forall q | 0 <= q < m ensures Load(ws[..n], other[..n], q) <= limit { PrefixLoad(ws, other, q, n); }
  }

  lemma SmallLastJob(m: nat, total: nat, w: nat, limit: nat)
    requires m > 0 && m * total <= m * limit + (m - 1) * w && 3 * w <= limit
    ensures 3 * (m * total) <= (4 * m - 1) * limit
  {
    ThriceLess(m - 1, w, limit);
    FourTimes(m, limit);
  }

  lemma ThriceLess(n: nat, w: nat, limit: nat)
    requires 3 * w <= limit
    ensures 3 * (n * w) <= n * limit
  {
    assert n * (3 * w) <= n * limit;
    assert 3 * (n * w) == n * (3 * w);
  }

  lemma FourTimes(m: nat, limit: nat)
    requires m > 0
    ensures (m - 1) * limit == m * limit - limit && (4 * m - 1) * limit == 4 * (m * limit) - limit
  {}

  lemma WithinLimit(m: nat, total: nat, limit: nat)
    requires m > 0 && total <= limit
    ensures 3 * (m * total) <= (4 * m - 1) * limit
  {
    assert m * total <= m * limit && m * limit >= limit;
    FourTimes(m, limit);
  }

  /** Longest first, every total is within (4m - 1) / 3m of any placement of the same jobs. */
  lemma LptBound(ws: seq<nat>, m: nat, q: nat, other: seq<nat>, limit: nat)
    requires 0 < m && q < m && NonIncreasing(ws) && Fits(ws, other, m, limit)
    ensures 3 * (m * Load(ws, Greedy(ws, m), q)) <= (4 * m - 1) * limit
  {
    hide Load, Fits, Greedy;
    var total := Load(ws, Greedy(ws, m), q);
    if total == 0 {
      WithinLimit(m, total, limit);
      return;
    }
    var j := LastJobBound(ws, m, q, other, limit);
    if 3 * ws[j] <= limit {
      SmallLastJob(m, total, ws[j], limit);
    } else {
      FitsPrefix(ws, other, m, limit, j + 1);
      TakeNext(ws, j);
      LargeJobFits(ws[..j + 1], m, Greedy(ws[..j], m), other[..j + 1], limit);
      WithinLimit(m, total, limit);
    }
  }

  /** The same for the files: no assignment of the same files to m shards does better than 3m / (4m - 1). */
  lemma AssignmentWithinFourThirds(weight: nat -> nat, files: seq<nat>, m: nat, q: nat, other: seq<nat>, limit: nat)
    requires 0 < m && q < m && Fits(Weights(weight, SortedSet(weight, files)), other, m, limit)
    ensures 3 * (m * Lpt(weight, files, m).totals[q]) <= (4 * m - 1) * limit
  {
    hide Load, Fits, Greedy, SortedSet;
    var jobs := SortedSet(weight, files);
    SortedSetSorted(weight, files);
    LptBound(Weights(weight, jobs), m, q, other, limit);
  }

  // ---- The rule by which each file found its shard

  /** The weight of file `g` if it was placed before `f`: it weighs more, or as much and has the smaller path. */
  function EarlierWeight(weight: nat -> nat, f: nat): nat -> nat {
    (g: nat) => if weight(g) > weight(f) || (weight(g) == weight(f) && g < f) then weight(g) else 0
  }

  /** What lay on a shard when `f` was placed. */
  function EarlierTotal(weight: nat -> nat, f: nat, shard: seq<nat>): nat {
    Sum(Weights(EarlierWeight(weight, f), shard))
  }

  lemma {:induction false} LoadCut(ws: seq<nat>, cut: seq<nat>, place: seq<nat>, q: nat, i: nat)
    requires |ws| == |cut| == |place| && i <= |ws|
    requires forall k :: 0 <= k < |ws| ==> cut[k] == if k < i then ws[k] else 0
    ensures Load(cut, place, q) == Load(ws[..i], place[..i], q)
  {
    if ws == [] { return; }
    if i < |ws| {
      LoadCut(Front(ws), Front(cut), Front(place), q, i);
      assert Front(ws)[..i] == ws[..i] && Front(place)[..i] == place[..i];
    } else {
      LoadCut(Front(ws), Front(cut), Front(place), q, i - 1);
      assert ws[..i] == ws && place[..i] == place;
      assert Front(ws)[..i - 1] == Front(ws) && Front(place)[..i - 1] == Front(place);
    }
  }

  /** When job number `i` was placed, shard q carried what the earlier files on it weigh. */
  lemma TotalBefore(weight: nat -> nat, files: seq<nat>, m: nat, i: nat, q: nat)
    requires q < m && i < |SortedSet(weight, files)|
    ensures var jobs := SortedSet(weight, files);
            var ws := Weights(weight, jobs);
            EarlierTotal(weight, jobs[i], Lpt(weight, files, m).shards[q]) ==
              Load(ws[..i], Greedy(ws, m)[..i], q)
  {
    var jobs := SortedSet(weight, files);
    SortedSetSorted(weight, files);
    var (ws, earlier) := (Weights(weight, jobs), EarlierWeight(weight, jobs[i]));
    var place := Greedy(ws, m);
    SelectedSum(earlier, jobs, place, q);
    SortedSum(earlier, _ => 0, Selected(jobs, place, q));
    forall k | 0 <= k < |jobs| ensures earlier(jobs[k]) == if k < i then ws[k] else 0 {
      if k < i { assert Before(weight, jobs[k], jobs[i]); } else if k > i { assert Before(weight, jobs[i], jobs[k]); }
    }
    hide SortedSet, Greedy, Load, Selected, StrictlySorted;
    LoadCut(ws, Weights(earlier, jobs), place, q, i);
  }

  /** Each file is on the shard that carried least when all files of greater weight, and those of its weight with
      smaller paths, were placed, and among equals on the first. */
  lemma EachFileOnLightest(weight: nat -> nat, files: seq<nat>, m: nat, f: nat, q: nat, r: nat)
    requires q < m && r < m && f in Lpt(weight, files, m).shards[q]
    ensures var shards := Lpt(weight, files, m).shards;
            var (here, there) := (EarlierTotal(weight, f, shards[q]), EarlierTotal(weight, f, shards[r]));
            here <= there && (r < q ==> here < there)
  {
    hide SortedSet, Greedy, Lpt, EarlierTotal, Load;
    var jobs := SortedSet(weight, files);
    var ws := Weights(weight, jobs);
    var place := Greedy(ws, m);
    ShardMembers(weight, files, m, f, q);
    var i :| 0 <= i < |jobs| && jobs[i] == f && place[i] == q;
    TotalBefore(weight, files, m, i, q);
    TotalBefore(weight, files, m, i, r);
    GreedyAt(ws, m, i);
  }

  lemma GreedyAt(ws: seq<nat>, m: nat, i: nat)
    requires m > 0 && i < |ws|
    ensures Lightest(Loads(ws[..i], Greedy(ws, m)[..i], m), Greedy(ws, m)[i])
  {
    GreedyPrefix(ws, m, i);
    GreedyPrefix(ws, m, i + 1);
    TakeNext(ws, i);
    assert Greedy(ws[..i + 1], m)[i] == Greedy(ws, m)[i];
    hide Load;
  }
}
