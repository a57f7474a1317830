/** Keeping the served keys current while the agent runs (src/refresh.rs). */
module Refresh {
  import opened Basics
  import opened KeyStore

  // --- What may happen, and what it does ---

  /** What a scan came back with: the keys it looked for, and the vault's answer to each. */
  datatype Scan = Scan(keys: seq<KeyConfig>, answers: seq<Reply>)

  /** `scan` is absent if the vault would not even say which keys there are; `saved` says whether the
      file could be written. */
  datatype Event = Signature(now: int) | Startup | Finished(scan: Option<Scan>, saved: bool)

  /** `starts` is every scan begun so far: when, if a signature began it. */
  datatype State = State(
    clock: int,
    running: bool,
    last: Option<int>,
    starts: seq<Option<int>>,
    finished: nat,
    served: KeyStore,
    file: Option<seq<RememberedKey>>)

  datatype Rules = Rules(codec: Codec, config: Config, interval: int)

  ghost predicate MayHappen(rules: Rules, s: State, e: Event) {
    match e
    case Signature(now) => now >= s.clock
    case Startup => true
    case Finished(scan, _) =>
      && s.running
      && (scan.Some? ==> |scan.value.answers| == |scan.value.keys| && AreEffective(scan.value.keys, rules.config))
  }

  function Due(rules: Rules, s: State, now: int): bool {
    s.last.None? || now - s.last.value >= rules.interval
  }

  /** What a finished scan has to serve in place of the present set, if anything. */
  function Found(rules: Rules, scan: Option<Scan>): Option<KeyStore>
    requires scan.Some? ==> |scan.value.answers| == |scan.value.keys|
  {
    if scan.None? then None
    else Complete(rules.config, VaultOffers(rules.codec, scan.value.keys, scan.value.answers))
  }

  function Next(rules: Rules, s: State, e: Event): State
    requires e.Finished? && e.scan.Some? ==> |e.scan.value.answers| == |e.scan.value.keys|
  {
    match e
    case Signature(now) =>
      if s.running || !Due(rules, s, now) then s.(clock := now)
      else s.(clock := now, running := true, last := Some(now), starts := s.starts + [Some(now)])
    case Startup =>
      if s.running then s else s.(running := true, starts := s.starts + [None])
    case Finished(scan, saved) =>
      var found := Found(rules, scan);
      if found.None? then s.(running := false, finished := s.finished + 1)
      else s.(running := false, finished := s.finished + 1, served := found.value,
              file := if saved then Some(Remember(rules.codec, found.value.entries)) else s.file)
  }

  ghost predicate IsRun(rules: Rules, states: seq<State>, events: seq<Event>) {
    && |states| == |events| + 1
    && IsStart(states[0])
    && forall i {:trigger events[i]} | 0 <= i < |events| ::
         MayHappen(rules, states[i], events[i]) && states[i + 1] == Next(rules, states[i], events[i])
  }

  ghost predicate IsStart(s: State) {
    && !s.running && s.last.None? && s.starts == [] && s.finished == 0
    && s.served.entries != [] && DistinctKeys(s.served.entries)
  }

  // --- What every run keeps ---

  /** At most one scan is under way. */
  ghost predicate OneAtATime(s: State) {
    |s.starts| == s.finished + if s.running then 1 else 0
  }

  /** Scans begun by signatures are an interval apart, and `last` is the latest of them. */
  ghost predicate Spaced(rules: Rules, s: State) {
    && (forall i, j | 0 <= i < j < |s.starts| && s.starts[i].Some? && s.starts[j].Some? ::
          s.starts[j].value - s.starts[i].value >= rules.interval)
    && (s.last.Some? ==> s.last in s.starts && s.last.value <= s.clock)
    && (forall i | 0 <= i < |s.starts| && s.starts[i].Some? :: s.last.Some? && s.starts[i].value <= s.last.value)
  }

  ghost predicate Sound(rules: Rules, s: State) {
    && OneAtATime(s)
    && Spaced(rules, s)
    && s.served.entries != [] && DistinctKeys(s.served.entries)
  }

  lemma FoundIsServable(rules: Rules, scan: Option<Scan>)
    requires scan.Some? ==> |scan.value.answers| == |scan.value.keys|
    requires Found(rules, scan).Some?
    ensures Found(rules, scan).value.entries != [] && DistinctKeys(Found(rules, scan).value.entries)
  {
    var offers := VaultOffers(rules.codec, scan.value.keys, scan.value.answers);
    ServedKeysAreDistinct(rules.config, offers, |offers|);
  }

  lemma StartsStaySpaced(rules: Rules, s: State, now: int)
    requires Spaced(rules, s) && s.clock <= now
    ensures Spaced(rules, Next(rules, s, Signature(now)))
  {
    var next := Next(rules, s, Signature(now));
    if next.starts != s.starts {
      assert next.starts[|s.starts|] == next.last;
    }
  }

  lemma StepKeepsSound(rules: Rules, s: State, e: Event)
    requires Sound(rules, s) && MayHappen(rules, s, e) && rules.interval >= 0
    ensures Sound(rules, Next(rules, s, e))
  {
    match e
    case Signature(now) => StartsStaySpaced(rules, s, now);
    case Startup =>
      if !s.running && s.last.Some? {
        var k :| 0 <= k < |s.starts| && s.starts[k] == s.last;
        assert Next(rules, s, e).starts[k] == s.last;
      }
    case Finished(scan, saved) =>
      if Found(rules, scan).Some? {
        FoundIsServable(rules, scan);
      }
  }

  /** In every run, at every moment: no two scans at once, signatures begin scans no more often than the
      interval allows, and what is served is not empty and names each key once. */
  lemma {:induction false} RunsAreSound(rules: Rules, states: seq<State>, events: seq<Event>, i: nat)
    requires IsRun(rules, states, events) && i < |states| && rules.interval >= 0
    ensures Sound(rules, states[i])
  {
    if i > 0 {
      RunsAreSound(rules, states, events, i - 1);
      assert MayHappen(rules, states[i - 1], events[i - 1]);
      StepKeepsSound(rules, states[i - 1], events[i - 1]);
    }
  }

  /** A signature begins a scan exactly when none is under way and none was begun by a signature within
      the interval; so one landing during a scan does not spend the interval's attempt. */
  lemma SignatureScansExactlyWhenDue(rules: Rules, s: State, now: int)
    requires Sound(rules, s)
    ensures Next(rules, s, Signature(now)).starts
         == if !s.running && forall t | Some(t) in s.starts :: now - t >= rules.interval then s.starts + [Some(now)] else s.starts
    ensures s.running ==> Next(rules, s, Signature(now)) == s.(clock := now)
  {
    if s.last.Some? && forall t | Some(t) in s.starts :: now - t >= rules.interval {
      assert Some(s.last.value) in s.starts;
    }
    forall t | Some(t) in s.starts && Due(rules, s, now)
      ensures now - t >= rules.interval
    {
      var k :| 0 <= k < |s.starts| && s.starts[k] == Some(t);
    }
  }

  /** A finished scan changes nothing, or installs a set in which each wanted key is served or was ruled
      out by the vault itself. A file written from it starts the next agent with that very set, missing
      only pinned keys that were ruled out. */
  lemma RefreshIsAllOrNothing(rules: Rules, s: State, scan: Option<Scan>, saved: bool)
    requires MayHappen(rules, s, Finished(scan, saved))
    requires PrintsFaithfully(rules.codec) && (scan.Some? ==> DistinctIds(scan.value.keys))
    ensures var next := Next(rules, s, Finished(scan, saved));
      || (next.served == s.served && next.file == s.file)
      || (&& scan.Some? && next.served.entries != []
          && (var offers := VaultOffers(rules.codec, scan.value.keys, scan.value.answers);
              && (forall i | 0 <= i < |offers| :: IsServed(offers, i) || RuledOut(offers[i]))
              && (!saved ==> next.file == s.file)
              && (saved ==> next.file.Some? && RestartsAs(rules, next.file.value, next.served, offers))))
  {
    if Found(rules, scan).Some? {
      var offers := VaultOffers(rules.codec, scan.value.keys, scan.value.answers);
      RememberingIsUndone(rules.codec, rules.config, scan.value.keys, scan.value.answers);
      forall key | key in Missing(offers, |offers|)
        ensures exists i | 0 <= i < |offers| :: key == offers[i].wanted && RuledOut(offers[i])
      {
        MissingIsNotServed(offers, |offers|, key);
      }
    }
  }

  lemma {:induction false} MissingIsNotServed(offers: seq<Offer>, n: nat, key: KeyConfig)
    requires n <= |offers| && key in Missing(offers, n)
    ensures exists i | 0 <= i < n :: key == offers[i].wanted && !IsServed(offers, i)
  {
    if key in Missing(offers, n - 1) {
      MissingIsNotServed(offers, n - 1, key);
    }
  }

  /** A start from `file` serves `store`, and misses only what the vault ruled out. */
  ghost predicate RestartsAs(rules: Rules, file: seq<RememberedKey>, store: KeyStore, offers: seq<Offer>) {
    var recalled := RecallOffers(rules.codec, file, Wanted(file, rules.config));
    && Entries(rules.config, recalled, |recalled|) == store.entries
    && forall key | key in Missing(recalled, |recalled|) ::
         exists i | 0 <= i < |offers| :: key == offers[i].wanted && RuledOut(offers[i])
  }

  // --- The refresher ---

  class Refresher {
    const rules: Rules
    const served: Served
    var clock: int
    var running: bool
    var last: Option<int>
    var file: Option<seq<RememberedKey>>
    ghost var starts: seq<Option<int>>
    ghost var finished: nat

    ghost function Now(): State
      reads this, served
    {
      State(clock, running, last, starts, finished, served.store, file)
    }

    constructor (rules: Rules, served: Served, clock: int, file: Option<seq<RememberedKey>>)
      ensures this.rules == rules && this.served == served
      ensures Now() == State(clock, false, None, [], 0, served.store, file)
    {
      this.rules, this.served, this.clock, this.file := rules, served, clock, file;
      running, last, starts, finished := false, None, [], 0;
    }

    /** Sets `running`, and logs a start if it was not set. */
    method Spawn(ghost moment: Option<int>)
      modifies this
      ensures running && clock == old(clock) && last == old(last) && file == old(file) && finished == old(finished)
      ensures starts == if old(running) then old(starts) else old(starts) + [moment]
    {
      var was := running;
      running := true;
      if was {
        return;
      }
      starts := starts + [moment];
    }

    /** Reports `Due`, and stamps `last` with the time when it holds. */
    method BeginIfDue(now: int) returns (due: bool)
      modifies this
      ensures due == Due(rules, old(Now()), now)
      ensures Now() == old(Now()).(clock := now, last := if due then Some(now) else old(last))
    {
      clock := now;
      if last.Some? && now - last.value < rules.interval {
        return false;
      }
      last := Some(now);
      due := true;
    }

    method AfterSignature(now: int)
      modifies this
      ensures Now() == Next(rules, old(Now()), Signature(now))
    {
      if running {
        clock := now;
        return;
      }
      var due := BeginIfDue(now);
      if !due {
        return;
      }
      Spawn(Some(now));
    }

    method AtStartup()
      modifies this
      ensures Now() == Next(rules, old(Now()), Startup)
    {
      Spawn(None);
    }

    /** Finish the scan under way with what it found. */
    method RefreshNow(scan: Option<Scan>, saved: bool)
      requires scan.Some? ==> |scan.value.answers| == |scan.value.keys|
      modifies this, served
      ensures Now() == Next(rules, old(Now()), Finished(scan, saved))
    {
      running, finished := false, finished + 1;
      if scan.None? {
        return;
      }
      var store := LoadComplete(rules.codec, scan.value.keys, scan.value.answers, rules.config);
      if store.None? {
        return;
      }
      var remembered := Remember(rules.codec, store.value.entries);
      served.Replace(store.value);
      if saved {
        file := Some(remembered);
      }
    }
  }
}
