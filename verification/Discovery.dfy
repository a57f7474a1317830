/** Finding the vault's SSH keys with a bounded window of concurrent probes (src/lpass/mod.rs). */
module Discovery {
  import opened Basics
  import opened LpassCli
  import opened Strings
  import Signing

  const MAX_DISCOVERY_PROBES: nat := 8
  const SSH_KEY: Bytes := Signing.Ascii("SSH Key")

  // --- The order of results ---

  predicate LexLeq(a: string, b: string) {
    a == "" || (b != "" && (a[0] < b[0] || (a[0] == b[0] && LexLeq(a[1..], b[1..]))))
  }

  lemma {:induction false} LexIsTotal(a: string, b: string)
    ensures LexLeq(a, b) || LexLeq(b, a)
  {
    if a != "" && b != "" {
      LexIsTotal(a[1..], b[1..]);
    }
  }

  lemma {:induction false} LexIsAntisymmetric(a: string, b: string)
    requires LexLeq(a, b) && LexLeq(b, a)
    ensures a == b
  {
    if a != "" && b != "" {
      LexIsAntisymmetric(a[1..], b[1..]);
      assert a == [a[0]] + a[1..] && b == [b[0]] + b[1..];
    }
  }

  lemma {:induction false} LexIsTransitive(a: string, b: string, c: string)
    requires LexLeq(a, b) && LexLeq(b, c)
    ensures LexLeq(a, c)
  {
    if a != "" && a[0] == b[0] && b[0] == c[0] {
      LexIsTransitive(a[1..], b[1..], c[1..]);
    }
  }

  /** By name, and by id where names are equal. */
  predicate Leq(a: ItemSummary, b: ItemSummary) {
    if a.name == b.name then LexLeq(a.id, b.id) else LexLeq(a.name, b.name)
  }

  lemma LeqIsAnOrder(a: ItemSummary, b: ItemSummary, c: ItemSummary)
    ensures Leq(a, b) || Leq(b, a)
    ensures Leq(a, b) && Leq(b, a) ==> a == b
    ensures Leq(a, b) && Leq(b, c) ==> Leq(a, c)
  {
    LexIsTotal(a.name, b.name);
    LexIsTotal(a.id, b.id);
    if Leq(a, b) && Leq(b, a) {
      if a.name == b.name { LexIsAntisymmetric(a.id, b.id); } else { LexIsAntisymmetric(a.name, b.name); }
    }
    if Leq(a, b) && Leq(b, c) {
      if a.name == b.name == c.name {
        LexIsTransitive(a.id, b.id, c.id);
      } else if a.name != b.name && b.name != c.name {
        LexIsTransitive(a.name, b.name, c.name);
        if a.name == c.name { LexIsAntisymmetric(a.name, b.name); }
      }
    }
  }

  predicate Sorted(items: seq<ItemSummary>) {
    forall i, j | 0 <= i < j < |items| :: Leq(items[i], items[j])
  }

  function Insert(items: seq<ItemSummary>, x: ItemSummary): seq<ItemSummary> {
    if items == [] || Leq(x, items[0]) then [x] + items else [items[0]] + Insert(items[1..], x)
  }

  function Sort(items: seq<ItemSummary>): seq<ItemSummary> {
    if items == [] then [] else Insert(Sort(items[..|items| - 1]), items[|items| - 1])
  }

  lemma InsertKeepsContents(items: seq<ItemSummary>, x: ItemSummary)
    ensures multiset(Insert(items, x)) == multiset(items) + multiset{x}
    decreases |items|
  {
    if items != [] {
      HeadAndRest(items);
      InsertKeepsContents(items[1..], x);
    }
  }

  lemma HeadAndRest<T>(xs: seq<T>)
    requires xs != []
    ensures xs == [xs[0]] + xs[1..] && multiset(xs) == multiset{xs[0]} + multiset(xs[1..])
  {
    assert xs == [xs[0]] + xs[1..];
  }

  lemma SameHeadSameRest<T>(a: seq<T>, b: seq<T>)
    requires a != [] && b != [] && a[0] == b[0] && multiset(a) == multiset(b)
    ensures multiset(a[1..]) == multiset(b[1..])
  {
    HeadAndRest(a);
    HeadAndRest(b);
    assert multiset(a[1..]) == multiset(a) - multiset{a[0]};
  }

  lemma {:induction false} InsertSorts(items: seq<ItemSummary>, x: ItemSummary)
    requires Sorted(items)
    ensures Sorted(Insert(items, x))
    decreases |items|
  {
    if items != [] {
      var head, rest := items[0], items[1..];
      LeqIsAnOrder(x, head, head);
      if Leq(x, head) {
        forall j | 0 <= j < |items| ensures Leq(x, items[j]) { LeqIsAnOrder(x, head, items[j]); }
      } else {
        InsertSorts(rest, x);
        InsertKeepsContents(rest, x);
        var longer := Insert(rest, x);
        forall j | 0 <= j < |longer|
          ensures Leq(head, longer[j])
        {
          assert longer[j] in multiset(longer);
          assert longer[j] in rest || longer[j] == x;
        }
      }
    }
  }

  lemma {:induction false} SortSorts(items: seq<ItemSummary>)
    ensures Sorted(Sort(items)) && multiset(Sort(items)) == multiset(items)
    decreases |items|
  {
    if items != [] {
      var init, last := items[..|items| - 1], items[|items| - 1];
      SortSorts(init);
      InsertSorts(Sort(init), last);
      InsertKeepsContents(Sort(init), last);
      assert items == init + [last];
    }
  }

  lemma TheLeastComesFirst(a: seq<ItemSummary>, b: seq<ItemSummary>)
    requires a != [] && b != [] && Sorted(a) && Sorted(b) && multiset(a) == multiset(b)
    ensures a[0] == b[0]
  {
    assert a[0] in multiset(b) && b[0] in multiset(a);
    var i :| 0 <= i < |b| && b[i] == a[0];
    var j :| 0 <= j < |a| && a[j] == b[0];
    LeqIsAnOrder(a[0], b[0], b[0]);
    LeqIsAnOrder(a[0], a[0], a[0]);
  }

  /** A sorted list is determined by what is in it. */
  lemma {:induction false} SortedIsUnique(a: seq<ItemSummary>, b: seq<ItemSummary>)
    requires Sorted(a) && Sorted(b) && multiset(a) == multiset(b)
    ensures a == b
    decreases |a|
  {
    assert |a| == |multiset(a)| == |multiset(b)| == |b|;
    if a != [] {
      TheLeastComesFirst(a, b);
      SameHeadSameRest(a, b);
      SortedIsUnique(a[1..], b[1..]);
      HeadAndRest(a);
      HeadAndRest(b);
    }
  }

  lemma SortDependsOnContentsAlone(a: seq<ItemSummary>, b: seq<ItemSummary>)
    requires multiset(a) == multiset(b)
    ensures Sort(a) == Sort(b)
  {
    SortSorts(a);
    SortSorts(b);
    SortedIsUnique(Sort(a), Sort(b));
  }

  // --- What a probe says ---

  /** The vault could not be asked, as against having no such note. */
  predicate IsFailure(answer: Result<Bytes, LpassError>) {
    answer.Err? && !answer.error.FieldNotFound? && !answer.error.ItemNotFound?
  }

  predicate IsSshKey(answer: Result<Bytes, LpassError>) { answer == Ok(SSH_KEY) }

  function Hits(answers: seq<Result<Bytes, LpassError>>): (hits: seq<bool>)
    ensures |hits| == |answers| && forall i | 0 <= i < |hits| :: hits[i] == IsSshKey(answers[i])
  {
    seq(|answers|, i requires 0 <= i < |answers| => IsSshKey(answers[i]))
  }

  /** The hits among the first `n` items, in the order they were listed. */
  function Kept<T>(items: seq<T>, hits: seq<bool>, n: nat): seq<T>
    requires n <= |items| == |hits|
  {
    if n == 0 then []
    else if hits[n - 1] then Kept(items, hits, n - 1) + [items[n - 1]]
    else Kept(items, hits, n - 1)
  }

  /** The candidates whose probe says SSH key. */
  function SshKeys(items: seq<ItemSummary>, answers: seq<Result<Bytes, LpassError>>): seq<ItemSummary>
    requires |answers| == |items|
  {
    Kept(items, Hits(answers), |items|)
  }

  /** What the probes in `done` have found among the first `n` candidates. */
  ghost function FoundBy<T>(items: seq<T>, hits: seq<bool>, done: set<nat>, n: nat): multiset<T>
    requires n <= |items| == |hits|
  {
    if n == 0 then multiset{}
    else if n - 1 in done && hits[n - 1] then FoundBy(items, hits, done, n - 1) + multiset{items[n - 1]}
    else FoundBy(items, hits, done, n - 1)
  }

  lemma EitherOrder<T>(found: multiset<T>, x: T, y: T)
    ensures found + multiset{x} + multiset{y} == found + multiset{y} + multiset{x}
  {
  }

  lemma {:induction false} OneMoreProbe<T>(items: seq<T>, hits: seq<bool>, done: set<nat>, i: nat, n: nat)
    requires n <= |items| == |hits| && i < |items| && i !in done
    ensures i < n && hits[i] ==> FoundBy(items, hits, done + {i}, n) == FoundBy(items, hits, done, n) + multiset{items[i]}
    ensures !(i < n && hits[i]) ==> FoundBy(items, hits, done + {i}, n) == FoundBy(items, hits, done, n)
  {
    if n > 0 {
      OneMoreProbe(items, hits, done, i, n - 1);
      if i < n - 1 && hits[i] {
        EitherOrder(FoundBy(items, hits, done, n - 1), items[i], items[n - 1]);
      }
    }
  }

  lemma AppendCounts<T>(xs: seq<T>, x: T)
    ensures multiset(xs + [x]) == multiset(xs) + multiset{x}
  {
  }

  lemma {:induction false} AllProbesFindAll<T>(items: seq<T>, hits: seq<bool>, done: set<nat>, n: nat)
    requires n <= |items| == |hits| && forall i: nat | i < n :: i in done
    ensures FoundBy(items, hits, done, n) == multiset(Kept(items, hits, n))
  {
    if n > 0 {
      AllProbesFindAll(items, hits, done, n - 1);
      AppendCounts(Kept(items, hits, n - 1), items[n - 1]);
    }
  }

  lemma {:induction false} NothingFoundYet<T>(items: seq<T>, hits: seq<bool>, n: nat)
    requires n <= |items| == |hits|
    ensures FoundBy(items, hits, {}, n) == multiset{}
  {
    if n > 0 {
      NothingFoundYet(items, hits, n - 1);
    }
  }

  lemma {:induction false} KeptIsExact<T>(items: seq<T>, hits: seq<bool>, n: nat, x: T)
    requires n <= |items| == |hits|
    ensures x in Kept(items, hits, n) <==> exists i | 0 <= i < n :: hits[i] && items[i] == x
  {
    if n > 0 {
      KeptIsExact(items, hits, n - 1, x);
    }
  }

  /** The result lists the SSH keys among the candidates, all of them, by name and then by id. */
  lemma ResultListsTheKeysInOrder(items: seq<ItemSummary>, answers: seq<Result<Bytes, LpassError>>, x: ItemSummary)
    requires |answers| == |items|
    ensures Sorted(Sort(SshKeys(items, answers)))
    ensures x in Sort(SshKeys(items, answers)) <==> exists i | 0 <= i < |items| :: items[i] == x && answers[i] == Ok(SSH_KEY)
  {
    var kept, result := SshKeys(items, answers), Sort(SshKeys(items, answers));
    SortSorts(kept);
    KeptIsExact(items, Hits(answers), |items|, x);
    assert x in result <==> x in multiset(result);
    assert x in kept <==> x in multiset(kept);
    assert forall i | 0 <= i < |items| :: Hits(answers)[i] <==> answers[i] == Ok(SSH_KEY);
  }

  // --- Discovery ---

  /** The candidates being probed, the next to probe, and the most ever under way at once. */
  class Probes {
    var outstanding: set<nat>
    var started: seq<nat>
    var peak: nat

    /** The window has never been exceeded, and the first `next` candidates have been started in turn. */
    ghost predicate Within(next: nat, candidates: nat)
      reads this
    {
      && peak <= MAX_DISCOVERY_PROBES && |outstanding| <= MAX_DISCOVERY_PROBES
      && next == |started| <= candidates && forall k | 0 <= k < |started| :: started[k] == k
    }

    /** Every probe started is either under way or done with. */
    ghost predicate Splits(done: set<nat>, next: nat)
      reads this
    {
      && (forall i | i in outstanding :: i !in done)
      && (forall i: nat :: (i in outstanding || i in done) <==> i < next)
    }

    constructor ()
      ensures outstanding == {} && started == [] && peak == 0
    {
      outstanding, started, peak := {}, [], 0;
    }

    method Spawn(i: nat)
      requires i !in outstanding
      modifies this
      ensures outstanding == old(outstanding) + {i} && started == old(started) + [i]
      ensures peak == if |outstanding| > old(peak) then |outstanding| else old(peak)
    {
      outstanding, started := outstanding + {i}, started + [i];
      if |outstanding| > peak {
        peak := |outstanding|;
      }
    }

    /** Start probes while the window has room and there are candidates left. */
    method Fill(from: nat, candidates: nat, ghost done: set<nat>) returns (next: nat)
      requires Within(from, candidates) && Splits(done, from)
      modifies this
      ensures Within(next, candidates) && Splits(done, next)
      ensures 2 * (candidates - next) + |outstanding| <= 2 * (candidates - from) + |old(outstanding)|
      ensures outstanding == {} ==> next == candidates
    {
      next := from;
      while |outstanding| < MAX_DISCOVERY_PROBES && next < candidates
        invariant Within(next, candidates) && Splits(done, next)
        invariant 2 * (candidates - next) + |outstanding| <= 2 * (candidates - from) + |old(outstanding)|
        decreases candidates - next
      {
        Spawn(next);
        next := next + 1;
      }
    }

    /** Whichever probe finishes next: nothing is said about which that is. */
    method JoinNext() returns (i: Option<nat>)
      modifies `outstanding
      ensures i.None? <==> old(outstanding) == {}
      ensures i.None? ==> outstanding == {}
      ensures i.Some? ==> i.value in old(outstanding) && outstanding == old(outstanding) - {i.value}
    {
      if outstanding == {} {
        return None;
      }
      var next :| next in outstanding;
      outstanding := outstanding - {next};
      i := Some(next);
    }
  }

  /** For every order in which probes may finish: never more than the window are under way, each
      candidate is probed at most once, a real failure of any probe is the result, and otherwise the
      result is the one sorted list of the candidates that are SSH keys. */
  method Discover(items: seq<ItemSummary>, answers: seq<Result<Bytes, LpassError>>)
    returns (r: Result<seq<ItemSummary>, LpassError>, probes: Probes)
    requires |answers| == |items|
    ensures fresh(probes) && probes.peak <= MAX_DISCOVERY_PROBES
    ensures |probes.started| <= |items| && forall k | 0 <= k < |probes.started| :: probes.started[k] == k
    ensures r.Ok? <==> forall i | 0 <= i < |items| :: !IsFailure(answers[i])
    ensures r.Ok? ==> r.value == Sort(SshKeys(items, answers)) && |probes.started| == |items|
    ensures r.Err? ==> exists i | 0 <= i < |items| :: IsFailure(answers[i]) && answers[i] == Err(r.error)
  {
    ghost var hits := Hits(answers);
    probes := new Probes();
    var next: nat := 0;
    var found: seq<ItemSummary> := [];
    ghost var done: set<nat> := {};
    NothingFoundYet(items, hits, |items|);
    while true
      invariant fresh(probes) && probes.Within(next, |items|) && probes.Splits(done, next)
      invariant multiset(found) == FoundBy(items, hits, done, |items|)
      invariant forall i: nat | i in done :: i < |items| && !IsFailure(answers[i])
      decreases 2 * (|items| - next) + |probes.outstanding|
    {
      next := probes.Fill(next, |items|, done);
      var finished := probes.JoinNext();
      if finished.None? {
        break;
      }
      var i := finished.value;
      if IsFailure(answers[i]) {
        return Err(answers[i].error), probes;
      }
      OneMoreProbe(items, hits, done, i, |items|);
      done := done + {i};
      if IsSshKey(answers[i]) {
        found := found + [items[i]];
      }
    }
    AllProbesFindAll(items, hits, done, |items|);
    SortDependsOnContentsAlone(found, SshKeys(items, answers));
    r := Ok(Sort(found));
  }

  // --- Which items are candidates ---

  /** For each listed item, whether its name has the needle in it; both are in lower case already. */
  function Wanted(lowered: seq<string>, needle: Option<string>): (wanted: seq<bool>)
    ensures |wanted| == |lowered|
    ensures forall i | 0 <= i < |wanted| :: wanted[i] == (needle.None? || Contains(lowered[i], needle.value))
  {
    seq(|lowered|, i requires 0 <= i < |lowered| => needle.None? || Contains(lowered[i], needle.value))
  }

  function Both(a: seq<bool>, b: seq<bool>): (both: seq<bool>)
    requires |a| == |b|
    ensures |both| == |a| && forall i | 0 <= i < |a| :: both[i] == (a[i] && b[i])
  {
    seq(|a|, i requires 0 <= i < |a| => a[i] && b[i])
  }

  lemma {:induction false} KeptAlike<T, U>(items: seq<T>, others: seq<U>, wanted: seq<bool>, n: nat)
    requires n <= |items| == |others| == |wanted|
    ensures |Kept(items, wanted, n)| == |Kept(others, wanted, n)|
  {
    if n > 0 {
      KeptAlike(items, others, wanted, n - 1);
    }
  }

  lemma {:induction false} KeptOfFront<T>(items: seq<T>, more: seq<T>, hits: seq<bool>, others: seq<bool>, n: nat)
    requires n <= |items| == |hits| && |more| == |others|
    ensures Kept(items + more, hits + others, n) == Kept(items, hits, n)
  {
    if n > 0 {
      KeptOfFront(items, more, hits, others, n - 1);
    }
  }

  /** Keeping the hits among the wanted keeps the wanted hits. */
  lemma {:induction false} KeptTwice<T>(items: seq<T>, answers: seq<Result<Bytes, LpassError>>, wanted: seq<bool>, n: nat)
    requires n <= |items| == |answers| == |wanted|
    requires |Kept(items, wanted, n)| == |Kept(answers, wanted, n)|
    ensures Kept(Kept(items, wanted, n), Hits(Kept(answers, wanted, n)), |Kept(items, wanted, n)|)
         == Kept(items, Both(wanted, Hits(answers)), n)
  {
    if n > 0 {
      KeptAlike(items, answers, wanted, n - 1);
      KeptTwice(items, answers, wanted, n - 1);
      if wanted[n - 1] {
        var xs, replies := Kept(items, wanted, n - 1), Kept(answers, wanted, n - 1);
        assert Hits(replies + [answers[n - 1]]) == Hits(replies) + [IsSshKey(answers[n - 1])];
        KeptOfFront(xs, [items[n - 1]], Hits(replies), [IsSshKey(answers[n - 1])], |xs|);
      }
    }
  }

  predicate IsWantedReply(answers: seq<Result<Bytes, LpassError>>, wanted: seq<bool>, a: Result<Bytes, LpassError>)
    requires |answers| == |wanted|
  {
    exists i | 0 <= i < |answers| :: wanted[i] && answers[i] == a
  }

  lemma AskedAreTheWanted(answers: seq<Result<Bytes, LpassError>>, wanted: seq<bool>)
    requires |answers| == |wanted|
    ensures var asked := Kept(answers, wanted, |answers|);
      && (forall k | 0 <= k < |asked| :: IsWantedReply(answers, wanted, asked[k]))
      && (forall i | 0 <= i < |answers| && wanted[i] :: answers[i] in asked)
  {
    var asked := Kept(answers, wanted, |answers|);
    forall k | 0 <= k < |asked|
      ensures IsWantedReply(answers, wanted, asked[k])
    {
      KeptIsExact(answers, wanted, |answers|, asked[k]);
    }
    forall i | 0 <= i < |answers| && wanted[i]
      ensures answers[i] in asked
    {
      KeptIsExact(answers, wanted, |answers|, answers[i]);
    }
  }

  /** List the vault, narrow the list, and probe what is left. A listing that fails is the result, and
      nothing is probed; else the wanted items decide, and the others are never asked about. */
  method DiscoverSshKeyItems(listed: Result<seq<ItemSummary>, LpassError>, lowered: seq<string>, needle: Option<string>,
                             answers: seq<Result<Bytes, LpassError>>)
    returns (r: Result<seq<ItemSummary>, LpassError>, probes: Probes)
    requires listed.Ok? ==> |lowered| == |answers| == |listed.value|
    ensures fresh(probes) && probes.peak <= MAX_DISCOVERY_PROBES
    ensures listed.Err? ==> r == Err(listed.error) && probes.started == []
    ensures listed.Ok? ==>
      var wanted := Wanted(lowered, needle);
      && |probes.started| <= |Kept(listed.value, wanted, |wanted|)|
      && (r.Ok? <==> forall i | 0 <= i < |wanted| :: wanted[i] ==> !IsFailure(answers[i]))
      && (r.Ok? ==> r.value == Sort(Kept(listed.value, Both(wanted, Hits(answers)), |wanted|)))
      && (r.Err? ==> exists i | 0 <= i < |wanted| :: wanted[i] && IsFailure(answers[i]) && answers[i] == Err(r.error))
  {
    if listed.Err? {
      probes := new Probes();
      return Err(listed.error), probes;
    }
    var wanted, items := Wanted(lowered, needle), listed.value;
    var candidates: seq<ItemSummary> := [];
    for i := 0 to |items|
      invariant candidates == Kept(items, wanted, i)
    {
      if needle.None? || Contains(lowered[i], needle.value) {
        candidates := candidates + [items[i]];
      }
    }
    var asked := Kept(answers, wanted, |items|);
    KeptAlike(items, answers, wanted, |items|);
    KeptTwice(items, answers, wanted, |items|);
    AskedAreTheWanted(answers, wanted);
    r, probes := Discover(candidates, asked);
  }
}
