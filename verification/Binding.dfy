/** Where a connection is bound, and what that lets it have signed (src/agent.rs).

    Every connection grows a chain of verified hops under OpenSSH's rules. */
module Binding {
  import opened Basics
  import opened Signing

  const MAX_SESSION_BINDINGS: nat := 16
  const MAX_SESSION_ID_BYTES: nat := 128
  const MAX_HOST_KEY_BYTES: nat := 65536

  const QUERY := "query"
  const SESSION_BIND := "session-bind@openssh.com"

  datatype SessionBinding = SessionBinding(
    fingerprint: string,
    hostName: Option<string>,
    isForwarding: bool,
    sessionId: Bytes,
    hostKey: Bytes)

  datatype Response = Success | Failure | Extensions(names: seq<string>)

  type Chain = seq<SessionBinding>

  predicate SameHop(seen: SessionBinding, b: SessionBind) {
    seen.hostKey == b.hostKey && seen.sessionId == b.sessionId
  }

  /** Some hop of the chain has this host key and this session. */
  predicate Replayed(chain: Chain, b: SessionBind) {
    exists i :: 0 <= i < |chain| && SameHop(chain[i], b)
  }

  /** The session is on the chain already, under whatever key. */
  predicate Taken(chain: Chain, b: SessionBind) {
    exists i :: 0 <= i < |chain| && chain[i].sessionId == b.sessionId
  }

  /** A binding that is well-formed, within the caps, and that the host's signature verifies. */
  predicate Acceptable(c: Crypto, b: SessionBind) {
    && |b.sessionId| <= MAX_SESSION_ID_BYTES
    && |b.hostKey| <= MAX_HOST_KEY_BYTES
    && BoundHostKey(c, b).Ok?
  }

  predicate Closed(chain: Chain) {
    chain != [] && !chain[|chain| - 1].isForwarding
  }

  function Hop(c: Crypto, b: SessionBind): SessionBinding
    requires Acceptable(c, b)
  {
    SessionBinding(c.fingerprint(BoundHostKey(c, b).value), None, b.isForwarding, b.sessionId, b.hostKey)
  }

  /** What one binding request does to the chain, and what is answered. */
  function Bind(c: Crypto, chain: Chain, details: Bytes): (Chain, Response) {
    var read := ReadBind(details);
    if read.None? || !Acceptable(c, read.value) || Closed(chain) then (chain, Failure)
    else if Replayed(chain, read.value) then (chain, Success)
    else if Taken(chain, read.value) then (chain, Failure)
    else if |chain| >= MAX_SESSION_BINDINGS then (chain, Failure)
    else (chain + [Hop(c, read.value)], Success)
  }

  /** The chain after a run of binding requests on a fresh connection. */
  function After(c: Crypto, requests: seq<Bytes>): Chain {
    if requests == [] then []
    else Bind(c, After(c, requests[..|requests| - 1]), requests[|requests| - 1]).0
  }

  /** What one of the requests so far proved: this hop, signed for by its host. */
  ghost predicate Proven(c: Crypto, requests: seq<Bytes>, hop: SessionBinding) {
    exists i: nat, b: SessionBind :: i < |requests| && IsBind(requests[i], b) && Acceptable(c, b) && hop == Hop(c, b)
  }

  /** Bounded, of distinct sessions, and forwarding everywhere but at the end. */
  predicate WellShaped(chain: Chain) {
    && |chain| <= MAX_SESSION_BINDINGS
    && (forall i | 0 <= i < |chain| ::
          |chain[i].sessionId| <= MAX_SESSION_ID_BYTES && |chain[i].hostKey| <= MAX_HOST_KEY_BYTES)
    && (forall i, j | 0 <= i < j < |chain| :: chain[i].sessionId != chain[j].sessionId)
    && (forall i | 0 <= i < |chain| - 1 :: chain[i].isForwarding)
  }

  ghost predicate WellBound(c: Crypto, requests: seq<Bytes>, chain: Chain) {
    WellShaped(chain) && forall i | 0 <= i < |chain| :: Proven(c, requests, chain[i])
  }

  lemma ShapeGrows(c: Crypto, chain: Chain, b: SessionBind)
    requires WellShaped(chain) && Acceptable(c, b) && !Closed(chain)
    requires forall i | 0 <= i < |chain| :: chain[i].sessionId != b.sessionId
    requires |chain| < MAX_SESSION_BINDINGS
    ensures WellShaped(chain + [Hop(c, b)])
  {
  }

  lemma ProofsStand(c: Crypto, requests: seq<Bytes>, last: Bytes, hop: SessionBinding)
    requires Proven(c, requests, hop)
    ensures Proven(c, requests + [last], hop)
  {
    var i: nat, b: SessionBind :| i < |requests| && IsBind(requests[i], b) && Acceptable(c, b) && hop == Hop(c, b);
    assert (requests + [last])[i] == requests[i];
  }

  lemma BindKeepsWellBound(c: Crypto, requests: seq<Bytes>, chain: Chain, last: Bytes)
    requires WellBound(c, requests, chain)
    ensures WellBound(c, requests + [last], Bind(c, chain, last).0)
  {
    forall i | 0 <= i < |chain| ensures Proven(c, requests + [last], chain[i]) {
      ProofsStand(c, requests, last, chain[i]);
    }
    if Bind(c, chain, last).0 != chain {
      var b := ReadBind(last).value;
      BindIsExact(last, b);
      assert (requests + [last])[|requests|] == last;
      assert Proven(c, requests + [last], Hop(c, b));
      ShapeGrows(c, chain, b);
    }
  }

  /** Every run of binding requests leaves a well-bound chain: bounded, of distinct sessions, every hop
      proven by one of the requests, and every hop but the last forwarding the agent. */
  lemma {:induction false} RunsAreWellBound(c: Crypto, requests: seq<Bytes>)
    ensures WellBound(c, requests, After(c, requests))
  {
    if requests != [] {
      var before, last := requests[..|requests| - 1], requests[|requests| - 1];
      RunsAreWellBound(c, before);
      BindKeepsWellBound(c, before, After(c, before), last);
      assert requests == before + [last];
    }
  }

  lemma {:induction false} ChainOnlyGrows(c: Crypto, requests: seq<Bytes>, k: nat)
    requires k <= |requests|
    ensures After(c, requests[..k]) <= After(c, requests)
    ensures Closed(After(c, requests[..k])) ==> After(c, requests) == After(c, requests[..k])
    decreases |requests|
  {
    if k < |requests| {
      ChainOnlyGrows(c, requests[..|requests| - 1], k);
      assert requests[..|requests| - 1][..k] == requests[..k];
    } else {
      assert requests[..k] == requests;
    }
  }

  /** A binding that succeeded once is on the chain for good; sending it again changes nothing, and is
      refused only once the connection is bound to its destination. */
  lemma ReplaysChangeNothing(c: Crypto, requests: seq<Bytes>, k: nat)
    requires k < |requests|
    requires Bind(c, After(c, requests[..k]), requests[k]).1 == Success
    ensures var chain := After(c, requests);
      Bind(c, chain, requests[k]) == (chain, if Closed(chain) then Failure else Success)
  {
    assert requests[..k + 1][..k] == requests[..k];
    ChainOnlyGrows(c, requests, k + 1);
    var b, chain := ReadBind(requests[k]).value, After(c, requests[..k + 1]);
    var i :| 0 <= i < |chain| && SameHop(chain[i], b);
    assert SameHop(After(c, requests)[i], b);
  }

  /** Binding succeeds exactly for a proven hop, on an open chain, that is a replay or a new session
      with room for it. */
  lemma SuccessIsExact(c: Crypto, chain: Chain, details: Bytes)
    ensures Bind(c, chain, details).1 == Success <==>
      exists b: SessionBind ::
        && IsBind(details, b) && Acceptable(c, b) && !Closed(chain)
        && (Replayed(chain, b) || (|chain| < MAX_SESSION_BINDINGS && !Taken(chain, b)))
  {
    forall b: SessionBind ensures IsBind(details, b) <==> ReadBind(details) == Some(b) {
      BindIsExact(details, b);
    }
    if ReadBind(details).Some? {
      assert IsBind(details, ReadBind(details).value);
    }
  }

  // --- What a bound connection may have signed ---

  ghost predicate MayHaveSigned(chain: Chain, publicKey: Bytes, data: Bytes) {
    chain == [] || IsRequestForSession(data, chain[|chain| - 1].sessionId, publicKey, chain[|chain| - 1].hostKey)
  }

  /** No data is good for two destinations: bound connections that may both have it signed, whatever
      the keys and the hosts, are bound to the same session. */
  lemma OneDestinationPerRequest(one: Chain, key: Bytes, other: Chain, otherKey: Bytes, data: Bytes)
    requires one != [] && other != []
    requires MayHaveSigned(one, key, data) && MayHaveSigned(other, otherKey, data)
    ensures one[|one| - 1].sessionId == other[|other| - 1].sessionId
  {
    var a, b := one[|one| - 1], other[|other| - 1];
    SessionIsExact(data, key, a.hostKey, a.sessionId);
    SessionIsExact(data, otherKey, b.hostKey, b.sessionId);
  }

  // --- A connection's requests, bindings and signatures together ---

  datatype Message = BindRequest(details: Bytes) | SignRequest(publicKey: Bytes, data: Bytes)

  function Binds(messages: seq<Message>): seq<Bytes> {
    if messages == [] then []
    else
      var before := Binds(messages[..|messages| - 1]);
      match messages[|messages| - 1]
      case BindRequest(details) => before + [details]
      case SignRequest(_, _) => before
  }

  /** The chain once these messages have been dealt with. */
  function ChainAfter(c: Crypto, messages: seq<Message>): Chain { After(c, Binds(messages)) }

  /** A signature let through, with the chain as it was then. */
  datatype Grant = Grant(chain: Chain, publicKey: Bytes, data: Bytes)

  ghost function Grants(c: Crypto, messages: seq<Message>): seq<Grant> {
    if messages == [] then []
    else
      var init := messages[..|messages| - 1];
      var before, chain := Grants(c, init), ChainAfter(c, init);
      match messages[|messages| - 1]
      case BindRequest(_) => before
      case SignRequest(publicKey, data) =>
        if MayHaveSigned(chain, publicKey, data) then before + [Grant(chain, publicKey, data)] else before
  }

  /** A grant's chain is what some of the bindings, in the order sent, have made; the rest came later. */
  lemma {:induction false} GrantsAreMadeInTurn(c: Crypto, messages: seq<Message>, k: nat)
    requires k < |Grants(c, messages)|
    ensures exists n | 0 <= n <= |Binds(messages)| ::
              && Grants(c, messages)[k].chain == After(c, Binds(messages)[..n])
              && MayHaveSigned(Grants(c, messages)[k].chain, Grants(c, messages)[k].publicKey, Grants(c, messages)[k].data)
  {
    var init := messages[..|messages| - 1];
    var binds := Binds(messages);
    if k < |Grants(c, init)| {
      GrantsAreMadeInTurn(c, init, k);
      var n :| 0 <= n <= |Binds(init)| && Grants(c, init)[k].chain == After(c, Binds(init)[..n]);
      assert binds[..n] == Binds(init)[..n];
    } else {
      assert binds[..|binds|] == binds;
    }
  }

  lemma ProofsOutlast(c: Crypto, requests: seq<Bytes>, n: nat, hop: SessionBinding)
    requires n <= |requests| && Proven(c, requests[..n], hop)
    ensures Proven(c, requests, hop)
  {
    var i: nat, b: SessionBind :| i < n && IsBind(requests[..n][i], b) && Acceptable(c, b) && hop == Hop(c, b);
    assert IsBind(requests[i], b);
  }

  /** Over every run of one connection's requests: a signature on a bound connection is over a request,
      by that key, for the session bound last at that moment, and its host proved itself to this
      connection in one of the binding requests. */
  lemma SignaturesAreForTheBoundSession(c: Crypto, messages: seq<Message>, k: nat)
    requires k < |Grants(c, messages)| && Grants(c, messages)[k].chain != []
    ensures var grant := Grants(c, messages)[k];
      var last := grant.chain[|grant.chain| - 1];
      && Proven(c, Binds(messages), last)
      && IsRequestForSession(grant.data, last.sessionId, grant.publicKey, last.hostKey)
  {
    GrantsAreMadeInTurn(c, messages, k);
    var binds, grant := Binds(messages), Grants(c, messages)[k];
    var n :| 0 <= n <= |binds| && grant.chain == After(c, binds[..n]);
    RunsAreWellBound(c, binds[..n]);
    ProofsOutlast(c, binds, n, grant.chain[|grant.chain| - 1]);
  }

  /** A grant's chain is still the front of what the connection is bound to, and all of it once closed. */
  lemma GrantedChainsStand(c: Crypto, messages: seq<Message>, k: nat)
    requires k < |Grants(c, messages)|
    ensures Grants(c, messages)[k].chain <= ChainAfter(c, messages)
    ensures Closed(Grants(c, messages)[k].chain) ==> ChainAfter(c, messages) == Grants(c, messages)[k].chain
  {
    GrantsAreMadeInTurn(c, messages, k);
    var binds := Binds(messages);
    var n :| 0 <= n <= |binds| && Grants(c, messages)[k].chain == After(c, binds[..n]);
    ChainOnlyGrows(c, binds, n);
  }

  /** Once a signature was made at a destination, every later one of the connection is for that session. */
  lemma {:induction false} ADestinationIsFinal(c: Crypto, messages: seq<Message>, j: nat, k: nat)
    requires j < k < |Grants(c, messages)| && Closed(Grants(c, messages)[j].chain)
    ensures Grants(c, messages)[k].chain == Grants(c, messages)[j].chain
    decreases |messages|
  {
    var init := messages[..|messages| - 1];
    if k < |Grants(c, init)| {
      ADestinationIsFinal(c, init, j, k);
    } else {
      GrantedChainsStand(c, init, j);
    }
  }

  // --- Names for the prompt ---

  /** The chain with the names looked up for it, as far as they reach. */
  function Named(chain: Chain, names: seq<Option<string>>): Chain {
    seq(|chain|, i requires 0 <= i < |chain| =>
      if i < |names| then chain[i].(hostName := names[i]) else chain[i])
  }

  /** One connection: its bindings, with everything it was sent and every signature it let through. */
  class Connection {
    const crypto: Crypto
    var bindings: Chain
    ghost var messages: seq<Message>
    ghost var granted: seq<Grant>

    ghost predicate Valid()
      reads this
    {
      bindings == ChainAfter(crypto, messages) && granted == Grants(crypto, messages)
    }

    constructor (crypto: Crypto)
      ensures Valid() && this.crypto == crypto && bindings == [] && messages == []
    {
      this.crypto, bindings, messages, granted := crypto, [], [], [];
    }

    method HandleExtension(name: string, details: Bytes) returns (r: Response)
      requires Valid()
      modifies this
      ensures Valid()
      ensures messages == if name == SESSION_BIND then old(messages) + [BindRequest(details)] else old(messages)
      ensures name == QUERY ==> bindings == old(bindings) && r == Extensions([SESSION_BIND])
      ensures name != QUERY && name != SESSION_BIND ==> bindings == old(bindings) && r == Failure
      ensures name == SESSION_BIND ==> (bindings, r) == Bind(crypto, old(bindings), details)
    {
      if name == QUERY {
        return Extensions([SESSION_BIND]);
      }
      if name != SESSION_BIND {
        return Failure;
      }
      ghost var binds, before := Binds(messages), messages;
      messages := messages + [BindRequest(details)];
      assert messages[..|before|] == before && (binds + [details])[..|binds|] == binds;
      var bind := ParseSessionBind(details);
      if bind.None? { return Failure; }
      var b := bind.value;
      if |b.sessionId| > MAX_SESSION_ID_BYTES { return Failure; }
      if |b.hostKey| > MAX_HOST_KEY_BYTES { return Failure; }
      var host := BoundHostKey(crypto, b);
      if host.Err? { return Failure; }
      if bindings != [] && !bindings[|bindings| - 1].isForwarding { return Failure; }
      if Replayed(bindings, b) { return Success; }
      if Taken(bindings, b) { return Failure; }
      if |bindings| >= MAX_SESSION_BINDINGS { return Failure; }
      bindings := bindings
        + [SessionBinding(crypto.fingerprint(host.value), None, b.isForwarding, b.sessionId, b.hostKey)];
      return Success;
    }

    /** Computes `Named`: names are given out in order, and hops they do not reach stay as they are. */
    method NamedBindings(names: seq<Option<string>>) returns (named: Chain)
      ensures named == Named(bindings, names)
    {
      named := bindings;
      var i := 0;
      while i < |named| && i < |names|
        invariant 0 <= i <= |named| == |bindings|
        invariant forall k | 0 <= k < |named| ::
          named[k] == if k < i && k < |names| then bindings[k].(hostName := names[k]) else bindings[k]
      {
        named := named[i := named[i].(hostName := names[i])];
        i := i + 1;
      }
    }

    /** The guard every signature passes before anything is asked or fetched. */
    method Admits(publicKey: Bytes, data: Bytes) returns (ok: bool)
      ensures ok <==> MayHaveSigned(bindings, publicKey, data)
    {
      if bindings == [] { return true; }
      var bound := bindings[|bindings| - 1];
      SessionIsExact(data, publicKey, bound.hostKey, bound.sessionId);
      var session := UserauthSessionId(data, publicKey, bound.hostKey);
      return session == Some(bound.sessionId);
    }

    /** What becomes of a signing request as far as this connection goes. */
    method Sign(publicKey: Bytes, data: Bytes) returns (ok: bool)
      requires Valid()
      modifies this
      ensures Valid() && bindings == old(bindings)
      ensures messages == old(messages) + [SignRequest(publicKey, data)]
      ensures ok <==> MayHaveSigned(bindings, publicKey, data)
    {
      ghost var before := messages;
      ok := Admits(publicKey, data);
      messages := messages + [SignRequest(publicKey, data)];
      assert messages[..|before|] == before;
      if ok {
        granted := granted + [Grant(bindings, publicKey, data)];
      }
    }
  }
}
