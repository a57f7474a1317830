/** The set of keys the agent serves: read from the vault, written down, and read back (src/keystore.rs). */
module KeyStore {
  import opened Basics
  import opened Signing
  import opened Strings
  import opened Text
  import opened LpassCli

  datatype PublicKey = PublicKey(data: KeyData, algorithm: string, comment: string)

  /** Reading, printing and telling apart public keys, which this model takes as given. */
  datatype Codec = Codec(
    parse: string -> Option<PublicKey>,
    show: PublicKey -> string,
    canSign: string -> bool)

  datatype Fallback = Prompt | Fail | Store

  datatype KeyConfig = KeyConfig(id: string, name: Option<string>, confirm: Option<bool>, fallback: Option<Fallback>) {
    function DisplayName(): string { if name.Some? then name.value else id }
  }

  datatype Config = Config(keys: seq<KeyConfig>, confirms: bool, fallback: Fallback) {
    predicate ConfirmRequired(key: KeyConfig) {
      if key.confirm.Some? then key.confirm.value && confirms else confirms
    }

    function PassphraseFallback(key: KeyConfig): Fallback {
      if key.fallback.Some? then key.fallback.value else fallback
    }
  }

  datatype KeyIssue = Fetch(error: LpassError) | Empty | Malformed | Unsupported(algorithm: string) | Duplicate(otherItem: string)

  datatype KeyEntry = KeyEntry(itemId: string, name: string, key: PublicKey, confirm: bool, fallback: Fallback)

  datatype Inspection = Usable(entry: KeyEntry) | Unusable(itemId: string, name: string, issue: KeyIssue)

  /** The key a text holds, if it is one to serve; else the first thing wrong with it. */
  function Accept(c: Codec, raw: string): Result<PublicKey, KeyIssue> {
    if raw == "" then Err(Empty)
    else
      match c.parse(Trim(raw))
      case None => Err(Malformed)
      case Some(key) => if c.canSign(key.algorithm) then Ok(key) else Err(Unsupported(key.algorithm))
  }

  predicate IsVerdict(issue: KeyIssue) {
    issue.Empty? || issue.Malformed? || issue.Unsupported? || (issue.Fetch? && (issue.error.ItemNotFound? || issue.error.FieldNotFound?))
  }

  // --- The rule across items ---

  /** What there is to serve a wanted key from: what was made of its text, or nothing at all. */
  datatype Offer = Offer(wanted: KeyConfig, key: Result<PublicKey, KeyIssue>) | Absent(wanted: KeyConfig)

  predicate Offers(offer: Offer, data: KeyData) { offer.Offer? && offer.key.Ok? && offer.key.value.data == data }

  /** The first of the first `n` offers of this key data, or `n`. */
  function FirstWith(offers: seq<Offer>, data: KeyData, n: nat): (first: nat)
    requires n <= |offers|
    ensures first <= n && (first < n ==> Offers(offers[first], data))
    ensures forall i | 0 <= i < first :: !Offers(offers[i], data)
  {
    if n == 0 then 0
    else
      var before := FirstWith(offers, data, n - 1);
      if before < n - 1 || Offers(offers[n - 1], data) then before else n
  }

  /** A key is served from the first item that offers it, and from no other. */
  predicate IsServed(offers: seq<Offer>, i: nat)
    requires i < |offers|
  {
    offers[i].Offer? && offers[i].key.Ok? && FirstWith(offers, offers[i].key.value.data, i) == i
  }

  function EntryOf(config: Config, wanted: KeyConfig, key: PublicKey): KeyEntry {
    KeyEntry(wanted.id, Escaped(wanted.DisplayName()), key, config.ConfirmRequired(wanted), config.PassphraseFallback(wanted))
  }

  function Entries(config: Config, offers: seq<Offer>, n: nat): seq<KeyEntry>
    requires n <= |offers|
  {
    if n == 0 then []
    else if IsServed(offers, n - 1) then
      Entries(config, offers, n - 1) + [EntryOf(config, offers[n - 1].wanted, offers[n - 1].key.value)]
    else Entries(config, offers, n - 1)
  }

  /** The wanted keys that are not served, in order. */
  function Missing(offers: seq<Offer>, n: nat): seq<KeyConfig>
    requires n <= |offers|
  {
    if n == 0 then []
    else if IsServed(offers, n - 1) then Missing(offers, n - 1)
    else Missing(offers, n - 1) + [offers[n - 1].wanted]
  }

  // --- The store ---

  datatype KeyStore = KeyStore(entries: seq<KeyEntry>)

  ghost predicate DistinctKeys(entries: seq<KeyEntry>) {
    forall i, j | 0 <= i < j < |entries| :: entries[i].key.data != entries[j].key.data
  }

  lemma {:induction false} EntriesComeFromOffers(config: Config, offers: seq<Offer>, n: nat, e: KeyEntry)
    requires n <= |offers| && e in Entries(config, offers, n)
    ensures exists i | 0 <= i < n :: IsServed(offers, i) && e == EntryOf(config, offers[i].wanted, offers[i].key.value)
  {
    if e in Entries(config, offers, n - 1) {
      EntriesComeFromOffers(config, offers, n - 1, e);
    }
  }

  /** No two entries share a key, wherever the offers came from. */
  lemma {:induction false} ServedKeysAreDistinct(config: Config, offers: seq<Offer>, n: nat)
    requires n <= |offers|
    ensures DistinctKeys(Entries(config, offers, n))
  {
    if n > 0 {
      ServedKeysAreDistinct(config, offers, n - 1);
      var before := Entries(config, offers, n - 1);
      if IsServed(offers, n - 1) {
        forall i | 0 <= i < |before|
          ensures before[i].key.data != offers[n - 1].key.value.data
        {
          EntriesComeFromOffers(config, offers, n - 1, before[i]);
        }
      }
    }
  }

  function Lookup(entries: seq<KeyEntry>, data: KeyData): Option<KeyEntry> {
    if entries == [] then None
    else if entries[0].key.data == data then Some(entries[0])
    else Lookup(entries[1..], data)
  }

  /** With distinct keys a lookup has one answer, and finds it whenever there is one. */
  lemma {:induction false} LookupIsUnique(entries: seq<KeyEntry>, data: KeyData, e: KeyEntry)
    requires DistinctKeys(entries)
    ensures Lookup(entries, data) == Some(e) <==> e in entries && e.key.data == data
    decreases |entries|
  {
    if entries != [] {
      assert entries == [entries[0]] + entries[1..];
      LookupIsUnique(entries[1..], data, e);
      if e in entries[1..] {
        assert e.key.data != entries[0].key.data;
      }
    }
  }

  /** One cell holding the current store. */
  class Served {
    var store: KeyStore

    constructor (store: KeyStore)
      ensures this.store == store
    {
      this.store := store;
    }

    method Replace(store: KeyStore)
      modifies this
      ensures this.store == store
    {
      this.store := store;
    }
  }

  // --- Inspecting the vault ---

  /** The keys seen so far, and the item each was seen in. */
  class Seen {
    var keys: seq<(KeyData, string)>

    constructor ()
      ensures keys == []
    {
      keys := [];
    }

    /** Let a key in once; the second item holding it is refused, and told which was the first. */
    method Unique(key: PublicKey, itemId: string) returns (r: Result<PublicKey, KeyIssue>)
      modifies this
      ensures r == Ok(key) || r.Err?
      ensures r.Ok? ==> keys == old(keys) + [(key.data, itemId)] && forall k | 0 <= k < |old(keys)| :: old(keys)[k].0 != key.data
      ensures r.Err? ==> keys == old(keys)
      ensures r.Err? ==> exists k | 0 <= k < |keys| ::
                keys[k].0 == key.data && r.error == Duplicate(keys[k].1) && forall j | 0 <= j < k :: keys[j].0 != key.data
    {
      for k := 0 to |keys|
        invariant forall j | 0 <= j < k :: keys[j].0 != key.data
      {
        if keys[k].0 == key.data {
          return Err(Duplicate(keys[k].1));
        }
      }
      keys := keys + [(key.data, itemId)];
      r := Ok(key);
    }
  }

  /** The keys served among the first `n` offers, with the item each is served from. */
  function SeenIn(offers: seq<Offer>, n: nat): seq<(KeyData, string)>
    requires n <= |offers|
  {
    if n == 0 then []
    else if IsServed(offers, n - 1) then SeenIn(offers, n - 1) + [(offers[n - 1].key.value.data, offers[n - 1].wanted.id)]
    else SeenIn(offers, n - 1)
  }

  lemma {:induction false} SeenIsTheFirstOffer(offers: seq<Offer>, n: nat, data: KeyData, k: nat)
    requires n <= |offers| && k < |SeenIn(offers, n)| && SeenIn(offers, n)[k].0 == data
    ensures FirstWith(offers, data, n) < n && SeenIn(offers, n)[k].1 == offers[FirstWith(offers, data, n)].wanted.id
  {
    if k < |SeenIn(offers, n - 1)| {
      SeenIsTheFirstOffer(offers, n - 1, data, k);
    }
  }

  lemma {:induction false} AnOfferIsSeen(offers: seq<Offer>, n: nat, data: KeyData) returns (k: nat)
    requires n <= |offers| && FirstWith(offers, data, n) < n
    ensures k < |SeenIn(offers, n)| && SeenIn(offers, n)[k].0 == data
  {
    if FirstWith(offers, data, n - 1) < n - 1 {
      k := AnOfferIsSeen(offers, n - 1, data);
    } else {
      k := |SeenIn(offers, n - 1)|;
    }
  }

  /** The verdict on the i-th wanted key, of which all offers are known. */
  function Inspected(config: Config, offers: seq<Offer>, i: nat): Inspection
    requires i < |offers| && offers[i].Offer?
  {
    var wanted, name := offers[i].wanted, Escaped(offers[i].wanted.DisplayName());
    match offers[i].key
    case Err(issue) => Unusable(wanted.id, name, issue)
    case Ok(key) =>
      var first := FirstWith(offers, key.data, i);
      if first == i then Usable(EntryOf(config, wanted, key))
      else Unusable(wanted.id, name, Duplicate(offers[first].wanted.id))
  }

  function Inspections(config: Config, offers: seq<Offer>): (inspected: seq<Inspection>)
    requires forall i | 0 <= i < |offers| :: offers[i].Offer?
    ensures |inspected| == |offers| && forall i | 0 <= i < |offers| :: inspected[i] == Inspected(config, offers, i)
  {
    seq(|offers|, i requires 0 <= i < |offers| => Inspected(config, offers, i))
  }

  /** What the vault said when asked for a public key. */
  type Reply = Result<string, LpassError>

  function VaultOffer(c: Codec, wanted: KeyConfig, answer: Reply): Offer {
    Offer(wanted, match answer case Ok(raw) => Accept(c, raw) case Err(e) => Err(Fetch(e)))
  }

  function VaultOffers(c: Codec, keys: seq<KeyConfig>, answers: seq<Reply>): (offers: seq<Offer>)
    requires |answers| == |keys|
    ensures |offers| == |keys| && forall i | 0 <= i < |keys| :: offers[i] == VaultOffer(c, keys[i], answers[i])
  {
    seq(|keys|, i requires 0 <= i < |keys| => VaultOffer(c, keys[i], answers[i]))
  }

  /** The entry an inspection of the i-th offer yields, if it is served at all. */
  ghost predicate Yields(config: Config, offers: seq<Offer>, i: nat, inspection: Inspection)
    requires i < |offers|
  {
    if IsServed(offers, i) then inspection == Usable(EntryOf(config, offers[i].wanted, offers[i].key.value))
    else inspection.Unusable?
  }

  /** Judge the next key by itself and by those before it. */
  method Inspect(ghost offers: seq<Offer>, ghost n: nat, seen: Seen, wanted: KeyConfig,
                 accepted: Result<PublicKey, KeyIssue>, config: Config) returns (inspection: Inspection)
    requires n < |offers| && offers[n] == Offer(wanted, accepted)
    requires seen.keys == SeenIn(offers, n)
    modifies seen
    ensures seen.keys == SeenIn(offers, n + 1)
    ensures inspection == Inspected(config, offers, n) && Yields(config, offers, n, inspection)
  {
    var name := Escaped(wanted.DisplayName());
    if accepted.Err? {
      return Unusable(wanted.id, name, accepted.error);
    }
    var key := accepted.value;
    if FirstWith(offers, key.data, n) < n {
      ghost var k := AnOfferIsSeen(offers, n, key.data);
    }
    var unique := seen.Unique(key, wanted.id);
    if unique.Err? {
      ghost var k: nat :| k < |seen.keys| && seen.keys[k].0 == key.data && unique.error == Duplicate(seen.keys[k].1);
      SeenIsTheFirstOffer(offers, n, key.data, k);
      return Unusable(wanted.id, name, unique.error);
    }
    inspection := Usable(EntryOf(config, wanted, key));
  }

  method InspectKeys(c: Codec, keys: seq<KeyConfig>, answers: seq<Reply>, config: Config)
    returns (inspected: seq<Inspection>)
    requires |answers| == |keys|
    ensures inspected == Inspections(config, VaultOffers(c, keys, answers))
  {
    ghost var offers := VaultOffers(c, keys, answers);
    inspected := [];
    var seen := new Seen();
    for n := 0 to |keys|
      invariant |inspected| == n && fresh(seen)
      invariant forall i | 0 <= i < n :: inspected[i] == Inspected(config, offers, i)
      invariant seen.keys == SeenIn(offers, n)
    {
      var accepted := match answers[n] case Ok(raw) => Accept(c, raw) case Err(e) => Err(Fetch(e));
      var inspection := Inspect(offers, n, seen, keys[n], accepted, config);
      inspected := inspected + [inspection];
    }
  }

  /** No identity is advertised that this agent could not sign with, or that its item does not hold. */
  lemma ServedKeysComeFromTheirItems(c: Codec, config: Config, keys: seq<KeyConfig>, answers: seq<Reply>,
                                     e: KeyEntry)
    requires |answers| == |keys| && e in Entries(config, VaultOffers(c, keys, answers), |keys|)
    ensures c.canSign(e.key.algorithm)
    ensures exists i | 0 <= i < |keys| :: keys[i].id == e.itemId && answers[i].Ok? && c.parse(Trim(answers[i].value)) == Some(e.key)
  {
    var offers := VaultOffers(c, keys, answers);
    EntriesComeFromOffers(config, offers, |keys|, e);
    var i :| 0 <= i < |keys| && IsServed(offers, i) && e == EntryOf(config, offers[i].wanted, offers[i].key.value);
    assert offers[i] == VaultOffer(c, keys[i], answers[i]);
    assert Accept(c, answers[i].value) == Ok(e.key);
  }

  // --- Loading ---

  datatype LoadError = Ambiguous(itemId: string, otherItem: string) | VaultShut(error: LpassError) | NoUsableKeys

  /** What about one key is reason not to start at all. */
  function StopsStart(inspection: Inspection): Option<LoadError> {
    match inspection
    case Unusable(itemId, _, Duplicate(otherItem)) => Some(Ambiguous(itemId, otherItem))
    case Unusable(_, _, Fetch(error)) =>
      if error.NotLoggedIn? || error.VaultLocked? || error.WrongMasterPassword? || error.NoMasterPassword?
      then Some(VaultShut(error)) else None
    case _ => None
  }

  /** The entries among the first `n` inspections. */
  function Usables(inspected: seq<Inspection>, n: nat): seq<KeyEntry>
    requires n <= |inspected|
  {
    if n == 0 then []
    else if inspected[n - 1].Usable? then Usables(inspected, n - 1) + [inspected[n - 1].entry]
    else Usables(inspected, n - 1)
  }

  lemma {:induction false} UsablesAreServed(config: Config, offers: seq<Offer>, inspected: seq<Inspection>, n: nat)
    requires n <= |offers| == |inspected|
    requires forall i {:trigger Yields(config, offers, i, inspected[i])} | 0 <= i < |offers| :: Yields(config, offers, i, inspected[i])
    ensures Usables(inspected, n) == Entries(config, offers, n)
  {
    if n > 0 {
      UsablesAreServed(config, offers, inspected, n - 1);
      assert Yields(config, offers, n - 1, inspected[n - 1]);
    }
  }

  lemma UsablesAreEntries(config: Config, offers: seq<Offer>)
    requires forall i | 0 <= i < |offers| :: offers[i].Offer?
    ensures Usables(Inspections(config, offers), |offers|) == Entries(config, offers, |offers|)
  {
    forall i | 0 <= i < |offers|
      ensures Yields(config, offers, i, Inspections(config, offers)[i])
    {
      assert Inspections(config, offers)[i] == Inspected(config, offers, i);
    }
    UsablesAreServed(config, offers, Inspections(config, offers), |offers|);
  }

  /** The first inspection that is reason to stop decides; else the usable keys do. */
  ghost predicate DecidesStart(r: Result<KeyStore, LoadError>, inspected: seq<Inspection>) {
    match r
    case Ok(store) =>
      && store.entries == Usables(inspected, |inspected|) != []
      && forall i | 0 <= i < |inspected| :: StopsStart(inspected[i]) == None
    case Err(NoUsableKeys) =>
      && Usables(inspected, |inspected|) == []
      && forall i | 0 <= i < |inspected| :: StopsStart(inspected[i]) == None
    case Err(e) =>
      exists i | 0 <= i < |inspected| ::
        StopsStart(inspected[i]) == Some(e) && forall j | 0 <= j < i :: StopsStart(inspected[j]) == None
  }

  method Collect(inspected: seq<Inspection>) returns (r: Result<KeyStore, LoadError>)
    ensures DecidesStart(r, inspected)
  {
    var entries := [];
    for i := 0 to |inspected|
      invariant entries == Usables(inspected, i)
      invariant forall j | 0 <= j < i :: StopsStart(inspected[j]) == None
    {
      var stop := StopsStart(inspected[i]);
      if stop.Some? {
        return Err(stop.value);
      }
      if inspected[i].Usable? {
        entries := entries + [inspected[i].entry];
      }
    }
    r := if entries == [] then Err(NoUsableKeys) else Ok(KeyStore(entries));
  }

  /** The set to start with: every key the vault would serve, unless some key is reason to stop. */
  method Load(c: Codec, keys: seq<KeyConfig>, answers: seq<Reply>, config: Config)
    returns (r: Result<KeyStore, LoadError>)
    requires |answers| == |keys|
    ensures DecidesStart(r, Inspections(config, VaultOffers(c, keys, answers)))
    ensures r.Ok? ==> r.value.entries == Entries(config, VaultOffers(c, keys, answers), |keys|)
  {
    var inspected := InspectKeys(c, keys, answers, config);
    UsablesAreEntries(config, VaultOffers(c, keys, answers));
    r := Collect(inspected);
  }

  /** The vault itself says this key is not there to serve, or not one this agent can serve. */
  predicate RuledOut(offer: Offer) { offer.Offer? && offer.key.Err? && IsVerdict(offer.key.error) }

  method CollectComplete(inspected: seq<Inspection>) returns (r: Option<KeyStore>)
    ensures r.Some? <==> && Usables(inspected, |inspected|) != []
                         && forall i | 0 <= i < |inspected| :: inspected[i].Usable? || IsVerdict(inspected[i].issue)
    ensures r.Some? ==> r.value.entries == Usables(inspected, |inspected|)
  {
    var entries := [];
    for i := 0 to |inspected|
      invariant entries == Usables(inspected, i)
      invariant forall j | 0 <= j < i :: inspected[j].Usable? || IsVerdict(inspected[j].issue)
    {
      match inspected[i] {
        case Usable(entry) => entries := entries + [entry];
        case Unusable(_, _, issue) =>
          if !IsVerdict(issue) {
            return None;
          }
      }
    }
    r := if entries == [] then None else Some(KeyStore(entries));
  }

  /** The set to replace one being served with: it must serve or rule out every key, and serve some. */
  method LoadComplete(c: Codec, keys: seq<KeyConfig>, answers: seq<Reply>, config: Config)
    returns (r: Option<KeyStore>)
    requires |answers| == |keys|
    ensures r == Complete(config, VaultOffers(c, keys, answers))
  {
    ghost var offers := VaultOffers(c, keys, answers);
    var inspected := InspectKeys(c, keys, answers, config);
    UsablesAreEntries(config, offers);
    r := CollectComplete(inspected);
    forall i | 0 <= i < |keys|
      ensures inspected[i].Usable? || IsVerdict(inspected[i].issue) <==> IsServed(offers, i) || RuledOut(offers[i])
    {
      assert inspected[i] == Inspected(config, offers, i);
    }
  }

  /** What a scan may replace the served set with. */
  function Complete(config: Config, offers: seq<Offer>): Option<KeyStore> {
    if Entries(config, offers, |offers|) != [] && (forall i | 0 <= i < |offers| :: IsServed(offers, i) || RuledOut(offers[i]))
    then Some(KeyStore(Entries(config, offers, |offers|))) else None
  }

  // --- Remembering ---

  datatype RememberedKey = RememberedKey(id: string, name: string, key: string)

  function Remember(c: Codec, entries: seq<KeyEntry>): (remembered: seq<RememberedKey>)
    ensures |remembered| == |entries|
    ensures forall i | 0 <= i < |entries| :: remembered[i] == RememberedKey(entries[i].itemId, entries[i].name, c.show(entries[i].key))
  {
    seq(|entries|, i requires 0 <= i < |entries| => RememberedKey(entries[i].itemId, entries[i].name, c.show(entries[i].key)))
  }

  /** With nothing pinned, what was remembered is what is wanted. */
  function Wanted(remembered: seq<RememberedKey>, config: Config): (wanted: seq<KeyConfig>)
    ensures config.keys != [] ==> wanted == config.keys
    ensures config.keys == [] ==> |wanted| == |remembered|
    ensures config.keys == [] ==> forall i | 0 <= i < |wanted| :: wanted[i] == KeyConfig(remembered[i].id, Some(remembered[i].name), None, None)
  {
    if config.keys != [] then config.keys
    else seq(|remembered|, i requires 0 <= i < |remembered| => KeyConfig(remembered[i].id, Some(remembered[i].name), None, None))
  }

  function FindById(remembered: seq<RememberedKey>, id: string): Option<RememberedKey>
    decreases |remembered|
  {
    if remembered == [] then None
    else if remembered[0].id == id then Some(remembered[0])
    else FindById(remembered[1..], id)
  }

  lemma {:induction false} FindByIdIsExact(remembered: seq<RememberedKey>, id: string, k: nat)
    ensures FindById(remembered, id) == None <==> forall j | 0 <= j < |remembered| :: remembered[j].id != id
    ensures k < |remembered| && remembered[k].id == id && (forall j | 0 <= j < k :: remembered[j].id != id)
        ==> FindById(remembered, id) == Some(remembered[k])
    decreases |remembered|
  {
    if remembered != [] && remembered[0].id != id {
      var rest := remembered[1..];
      FindByIdIsExact(rest, id, if k == 0 then 0 else k - 1);
      assert forall j | 0 <= j < |rest| :: rest[j] == remembered[j + 1];
      assert forall j | 1 <= j < |remembered| :: remembered[j] == rest[j - 1];
    }
  }

  function RecallOffer(c: Codec, remembered: seq<RememberedKey>, wanted: KeyConfig): Offer {
    match FindById(remembered, wanted.id)
    case None => Absent(wanted)
    case Some(known) => Offer(wanted, Accept(c, known.key))
  }

  function RecallOffers(c: Codec, remembered: seq<RememberedKey>, wanted: seq<KeyConfig>): (offers: seq<Offer>)
    ensures |offers| == |wanted| && forall i | 0 <= i < |wanted| :: offers[i] == RecallOffer(c, remembered, wanted[i])
  {
    seq(|wanted|, i requires 0 <= i < |wanted| => RecallOffer(c, remembered, wanted[i]))
  }

  /** Computes the entries and the missing keys of `RecallOffers`, one wanted key at a time. */
  method FromRemembered(c: Codec, remembered: seq<RememberedKey>, config: Config)
    returns (store: KeyStore, missing: seq<KeyConfig>)
    ensures var offers := RecallOffers(c, remembered, Wanted(remembered, config));
      store.entries == Entries(config, offers, |offers|) && missing == Missing(offers, |offers|)
  {
    var wanted := Wanted(remembered, config);
    ghost var offers := RecallOffers(c, remembered, wanted);
    var entries := [];
    missing := [];
    var seen := new Seen();
    for n := 0 to |wanted|
      invariant fresh(seen) && seen.keys == SeenIn(offers, n)
      invariant entries == Entries(config, offers, n) && missing == Missing(offers, n)
    {
      var known := FindById(remembered, wanted[n].id);
      assert offers[n] == RecallOffer(c, remembered, wanted[n]);
      if known.None? {
        missing := missing + [wanted[n]];
      } else {
        var inspection := Inspect(offers, n, seen, wanted[n], Accept(c, known.value.key), config);
        match inspection {
          case Usable(entry) => entries := entries + [entry];
          case Unusable(_, _, _) => missing := missing + [wanted[n]];
        }
      }
    }
    store := KeyStore(entries);
  }

  // --- What is remembered is what was served ---

  /** A key read from trimmed text prints as trimmed text that reads back as that key. */
  ghost predicate PrintsFaithfully(c: Codec) {
    forall text, key :: c.parse(Trim(text)) == Some(key) ==>
      c.show(key) != "" && Trim(c.show(key)) == c.show(key) && c.parse(c.show(key)) == Some(key)
  }

  ghost predicate DistinctIds(keys: seq<KeyConfig>) {
    forall i, j | 0 <= i < j < |keys| :: keys[i].id != keys[j].id
  }

  /** The keys a scan looks for: those pinned, or else what discovery found, which has no overrides. */
  ghost predicate AreEffective(keys: seq<KeyConfig>, config: Config) {
    if config.keys != [] then keys == config.keys
    else forall i | 0 <= i < |keys| :: keys[i].name.Some? && keys[i].confirm.None? && keys[i].fallback.None?
  }

  lemma AcceptedReadsBack(c: Codec, raw: string, key: PublicKey)
    requires PrintsFaithfully(c) && Accept(c, raw) == Ok(key)
    ensures Accept(c, c.show(key)) == Ok(key)
  {
    assert c.parse(Trim(raw)) == Some(key);
  }

  /** Where a served offer stands among the entries. */
  lemma {:induction false} EntryStandsAt(config: Config, offers: seq<Offer>, n: nat, i: nat)
    requires i < n <= |offers| && IsServed(offers, i)
    ensures |Entries(config, offers, i)| < |Entries(config, offers, n)|
    ensures Entries(config, offers, n)[|Entries(config, offers, i)|] == EntryOf(config, offers[i].wanted, offers[i].key.value)
    decreases n
  {
    if i < n - 1 {
      EntryStandsAt(config, offers, n - 1, i);
    }
  }

  /** With distinct wanted ids, the entries' ids are distinct too, and each leads back to its offer. */
  lemma EntryIdsLeadBack(config: Config, keys: seq<KeyConfig>, offers: seq<Offer>, i: nat, j: nat)
    requires |offers| == |keys| && DistinctIds(keys) && forall k | 0 <= k < |keys| :: offers[k].wanted == keys[k]
    requires j < |Entries(config, offers, |offers|)| && i < |keys|
    requires Entries(config, offers, |offers|)[j].itemId == keys[i].id
    ensures IsServed(offers, i) && j == |Entries(config, offers, i)|
    ensures Entries(config, offers, |offers|)[j] == EntryOf(config, keys[i], offers[i].key.value)
  {
    var entries := Entries(config, offers, |offers|);
    EntriesComeFromOffers(config, offers, |offers|, entries[j]);
    var k :| 0 <= k < |offers| && IsServed(offers, k) && entries[j] == EntryOf(config, offers[k].wanted, offers[k].key.value);
    assert k == i;
    EntryStandsAt(config, offers, |offers|, i);
    ServedKeysAreDistinct(config, offers, |offers|);
  }

  /** Looking a wanted key up in what was remembered finds it exactly if it was served. */
  lemma RecallingFinds(c: Codec, config: Config, keys: seq<KeyConfig>, answers: seq<Reply>, i: nat)
    requires PrintsFaithfully(c) && |answers| == |keys| && DistinctIds(keys) && i < |keys|
    ensures var offers := VaultOffers(c, keys, answers);
      RecallOffer(c, Remember(c, Entries(config, offers, |keys|)), keys[i])
        == if IsServed(offers, i) then offers[i] else Absent(keys[i])
  {
    var offers := VaultOffers(c, keys, answers);
    var entries := Entries(config, offers, |keys|);
    var remembered := Remember(c, entries);
    var k := |Entries(config, offers, i)|;
    forall j | 0 <= j < |remembered| && remembered[j].id == keys[i].id
      ensures IsServed(offers, i) && j == k
    {
      EntryIdsLeadBack(config, keys, offers, i, j);
    }
    FindByIdIsExact(remembered, keys[i].id, k);
    if IsServed(offers, i) {
      EntryStandsAt(config, offers, |keys|, i);
      AcceptedReadsBack(c, answers[i].value, offers[i].key.value);
    }
  }

  /** Offering only what was served serves the same. */
  lemma {:induction false} OfferingTheServedServesTheSame(config: Config, offers: seq<Offer>, recalled: seq<Offer>, n: nat)
    requires n <= |offers| == |recalled|
    requires forall i | 0 <= i < |offers| :: recalled[i] == if IsServed(offers, i) then offers[i] else Absent(offers[i].wanted)
    ensures Entries(config, recalled, n) == Entries(config, offers, n)
    ensures Missing(recalled, n) == Missing(offers, n)
  {
    if n > 0 {
      OfferingTheServedServesTheSame(config, offers, recalled, n - 1);
      if IsServed(offers, n - 1) {
        assert Offers(recalled[n - 1], offers[n - 1].key.value.data);
      }
    }
  }

  lemma DistinctOffersAreServed(entries: seq<KeyEntry>, recalled: seq<Offer>, i: nat)
    requires i < |entries| == |recalled| && DistinctKeys(entries)
    requires forall j | 0 <= j < |entries| :: recalled[j].Offer? && recalled[j].key == Ok(entries[j].key)
    ensures IsServed(recalled, i)
  {
    forall j | 0 <= j < i
      ensures !Offers(recalled[j], entries[i].key.data)
    {
      assert entries[j].key.data != entries[i].key.data;
    }
  }

  lemma {:induction false} ServingAllLeavesNoneOut(config: Config, recalled: seq<Offer>, n: nat)
    requires n <= |recalled| && forall i {:trigger IsServed(recalled, i)} | 0 <= i < |recalled| :: IsServed(recalled, i)
    ensures |Entries(config, recalled, n)| == n && Missing(recalled, n) == []
  {
    if n > 0 {
      ServingAllLeavesNoneOut(config, recalled, n - 1);
      assert IsServed(recalled, n - 1);
    }
  }

  lemma DiscoveredEntriesAreRecalled(c: Codec, config: Config, keys: seq<KeyConfig>, answers: seq<Reply>, j: nat)
    requires PrintsFaithfully(c) && |answers| == |keys| && DistinctIds(keys)
    requires config.keys == [] && AreEffective(keys, config)
    requires j < |Entries(config, VaultOffers(c, keys, answers), |keys|)|
    ensures var entry := Entries(config, VaultOffers(c, keys, answers), |keys|)[j];
      var wanted := KeyConfig(entry.itemId, Some(entry.name), None, None);
      && RecallOffer(c, Remember(c, Entries(config, VaultOffers(c, keys, answers), |keys|)), wanted) == Offer(wanted, Ok(entry.key))
      && EntryOf(config, wanted, entry.key) == entry
  {
    var offers := VaultOffers(c, keys, answers);
    var entries := Entries(config, offers, |keys|);
    EntriesComeFromOffers(config, offers, |keys|, entries[j]);
    var i :| 0 <= i < |keys| && IsServed(offers, i) && entries[j] == EntryOf(config, offers[i].wanted, offers[i].key.value);
    RecallingFinds(c, config, keys, answers, i);
    EscapingIsIdempotent(keys[i].DisplayName());
  }

  /** Each remembered entry is served again when nothing is pinned. */
  lemma RecalledEntriesAreServed(config: Config, entries: seq<KeyEntry>, recalled: seq<Offer>)
    requires |entries| == |recalled| && DistinctKeys(entries)
    requires forall j | 0 <= j < |entries| :: recalled[j].Offer? && recalled[j].key == Ok(entries[j].key)
    requires forall j | 0 <= j < |entries| :: EntryOf(config, recalled[j].wanted, entries[j].key) == entries[j]
    ensures Entries(config, recalled, |recalled|) == entries && Missing(recalled, |recalled|) == []
  {
    forall j | 0 <= j < |recalled|
      ensures IsServed(recalled, j)
    {
      DistinctOffersAreServed(entries, recalled, j);
    }
    ServingAllLeavesNoneOut(config, recalled, |recalled|);
    forall j | 0 <= j < |recalled|
      ensures Entries(config, recalled, |recalled|)[j] == entries[j]
    {
      ServingAllLeavesNoneOut(config, recalled, j);
      EntryStandsAt(config, recalled, |recalled|, j);
    }
  }

  /** What a scan served is what the next start serves, from the file alone: the same entries in the
      same order. Nothing is missing but the pinned keys the scan itself left out. */
  lemma RememberingIsUndone(c: Codec, config: Config, keys: seq<KeyConfig>, answers: seq<Reply>)
    requires PrintsFaithfully(c) && |answers| == |keys| && DistinctIds(keys) && AreEffective(keys, config)
    ensures var offers := VaultOffers(c, keys, answers);
      var served := Entries(config, offers, |keys|);
      var remembered := Remember(c, served);
      var recalled := RecallOffers(c, remembered, Wanted(remembered, config));
      && Entries(config, recalled, |recalled|) == served
      && Missing(recalled, |recalled|) == if config.keys == [] then [] else Missing(offers, |keys|)
  {
    var offers := VaultOffers(c, keys, answers);
    var served := Entries(config, offers, |keys|);
    var remembered := Remember(c, served);
    var recalled := RecallOffers(c, remembered, Wanted(remembered, config));
    if config.keys == [] {
      forall j | 0 <= j < |served|
        ensures recalled[j].Offer? && recalled[j].key == Ok(served[j].key)
        ensures EntryOf(config, recalled[j].wanted, served[j].key) == served[j]
      {
        DiscoveredEntriesAreRecalled(c, config, keys, answers, j);
      }
      ServedKeysAreDistinct(config, offers, |keys|);
      RecalledEntriesAreServed(config, served, recalled);
    } else {
      forall i | 0 <= i < |keys|
        ensures recalled[i] == if IsServed(offers, i) then offers[i] else Absent(offers[i].wanted)
      {
        RecallingFinds(c, config, keys, answers, i);
      }
      OfferingTheServedServesTheSame(config, offers, recalled, |keys|);
    }
  }
}
