/** The wire formats a signature on a bound connection rests on (src/signing.rs).

    Strings are those of section 5 of RFC 4251. What a bound connection may have signed is the
    public-key request of section 7 of RFC 4252, or OpenSSH's host-bound form of it. */
module Signing {
  import opened Basics

  // --- Strings on the wire ---

  const LIMIT: nat := 0x1_0000_0000

  function Be32(n: nat): Bytes
    requires n < LIMIT
  {
    var n1 := n / 256;
    var n2 := n1 / 256;
    [n2 / 256, n2 % 256, n1 % 256, n % 256]
  }

  function FromBe32(b: Bytes): (n: nat)
    requires |b| == 4
    ensures n < LIMIT
  {
    var b0: int, b1: int, b2: int, b3: int := b[0], b[1], b[2], b[3];
    ((b0 * 256 + b1) * 256 + b2) * 256 + b3
  }

  lemma DigitsSplit(high: int, low: Byte)
    ensures (high * 256 + low) / 256 == high && (high * 256 + low) % 256 == low
  {
  }

  lemma Be32Inverts(b: Bytes)
    requires |b| == 4
    ensures Be32(FromBe32(b)) == b
  {
    var b0: int, b1: int, b2: int := b[0], b[1], b[2];
    DigitsSplit((b0 * 256 + b1) * 256 + b2, b[3]);
    DigitsSplit(b0 * 256 + b1, b[2]);
    DigitsSplit(b0, b[1]);
  }

  lemma FromBe32Inverts(n: nat)
    requires n < LIMIT
    ensures FromBe32(Be32(n)) == n
  {
  }

  /** A value as RFC 4251 writes it: its length in four bytes, then the value. */
  function Str(value: Bytes): Bytes
    requires |value| < LIMIT
  {
    Be32(|value|) + value
  }

  /** The string at the front of `data`, and what follows it. */
  function ReadString(data: Bytes): Option<(Bytes, Bytes)> {
    if |data| < 4 then None
    else
      var len := FromBe32(data[..4]);
      if 4 + len > |data| then None else Some((data[4..4 + len], data[4 + len..]))
  }

  function ReadByte(data: Bytes): Option<(Byte, Bytes)> {
    if data == [] then None else Some((data[0], data[1..]))
  }

  /** A string is read exactly when one is there, and it is the only one that could be. */
  lemma ReadStringIsExact(data: Bytes, value: Bytes, rest: Bytes)
    ensures ReadString(data) == Some((value, rest)) <==> |value| < LIMIT && data == Str(value) + rest
  {
    if |value| < LIMIT && data == Str(value) + rest {
      assert data[..4] == Be32(|value|);
      FromBe32Inverts(|value|);
      assert data[4..4 + |value|] == value && data[4 + |value|..] == rest;
    }
    if ReadString(data) == Some((value, rest)) {
      var len := FromBe32(data[..4]);
      Be32Inverts(data[..4]);
      assert data == data[..4] + data[4..4 + len] + data[4 + len..];
    }
  }

  /** A cursor over wire encoding: each read moves past what it returned, or fails in place. */
  class Wire {
    var rest: Bytes

    constructor (data: Bytes)
      ensures rest == data
    {
      rest := data;
    }

    method TakeByte() returns (b: Option<Byte>)
      modifies this
      ensures b.Some? ==> ReadByte(old(rest)) == Some((b.value, rest))
      ensures b.None? ==> ReadByte(old(rest)).None? && rest == old(rest)
    {
      if rest == [] { return None; }
      b := Some(rest[0]);
      rest := rest[1..];
    }

    method TakeString() returns (s: Option<Bytes>)
      modifies this
      ensures s.Some? ==> ReadString(old(rest)) == Some((s.value, rest))
      ensures s.None? ==> ReadString(old(rest)).None? && rest == old(rest)
    {
      if |rest| < 4 { return None; }
      var len := FromBe32(rest[..4]);
      var end := 4 + len;
      if end > |rest| { return None; }
      s := Some(rest[4..end]);
      rest := rest[end..];
    }
  }

  // --- Userauth requests ---

  /** ASCII text as bytes. */
  function Ascii(text: string): (b: Bytes)
    requires forall i | 0 <= i < |text| :: text[i] as int < 128
    ensures |b| == |text|
  {
    seq(|text|, i requires 0 <= i < |text| => text[i] as int)
  }

  const USERAUTH_REQUEST: Byte := 50
  const CONNECTION: Bytes := Ascii("ssh-connection")
  const PUBLICKEY: Bytes := Ascii("publickey")
  const HOSTBOUND: Bytes := Ascii("publickey-hostbound-v00@openssh.com")

  predicate Short(b: Bytes) { |b| < LIMIT }

  /** The fields of a request that are the client's to choose. */
  datatype Fields = Fields(sessionId: Bytes, user: Bytes, algorithm: Bytes)

  /** A request up to and including its method name. */
  function Opening(f: Fields, authMethod: Bytes, rest: Bytes): Bytes
    requires Short(f.sessionId) && Short(f.user) && Short(authMethod)
  {
    Str(f.sessionId) + ([USERAUTH_REQUEST] + (Str(f.user) + (Str(CONNECTION) + (Str(authMethod) + rest))))
  }

  /** The rest of it, up to and including the key. */
  function Signed(f: Fields, publicKey: Bytes, rest: Bytes): Bytes
    requires Short(f.algorithm) && Short(publicKey)
  {
    [1] + (Str(f.algorithm) + (Str(publicKey) + rest))
  }

  /** `data` is, whole, a userauth request for this key: plain, or bound to this host key. */
  ghost predicate IsRequest(data: Bytes, f: Fields, publicKey: Bytes, hostKey: Bytes) {
    && Short(f.sessionId) && Short(f.user) && Short(f.algorithm) && Short(publicKey)
    && (|| data == Opening(f, PUBLICKEY, Signed(f, publicKey, []))
        || (Short(hostKey) && data == Opening(f, HOSTBOUND, Signed(f, publicKey, Str(hostKey) + []))))
  }

  ghost predicate IsRequestForSession(data: Bytes, sessionId: Bytes, publicKey: Bytes, hostKey: Bytes) {
    exists f: Fields :: f.sessionId == sessionId && IsRequest(data, f, publicKey, hostKey)
  }

  /** The parts of an opening, read in order. */
  function ReadOpening(data: Bytes): Option<(Bytes, Bytes, Bytes, Bytes)> {
    var session := ReadString(data);
    if session.None? || session.value.1 == [] || session.value.1[0] != USERAUTH_REQUEST then None
    else
      var user := ReadString(session.value.1[1..]);
      if user.None? then None
      else
        var service := ReadString(user.value.1);
        if service.None? || service.value.0 != CONNECTION then None
        else
          var authMethod := ReadString(service.value.1);
          if authMethod.None? then None
          else Some((session.value.0, user.value.0, authMethod.value.0, authMethod.value.1))
  }

  /** The algorithm and what follows the key, when the key is the one expected. */
  function ReadSigned(data: Bytes, publicKey: Bytes): Option<(Bytes, Bytes)> {
    if data == [] || data[0] != 1 then None
    else
      var algorithm := ReadString(data[1..]);
      if algorithm.None? then None
      else
        var key := ReadString(algorithm.value.1);
        if key.None? || key.value.0 != publicKey then None else Some((algorithm.value.0, key.value.1))
  }

  /** What may follow the key: nothing, or in the host-bound form just the host key. */
  predicate EndsFor(authMethod: Bytes, rest: Bytes, hostKey: Bytes) {
    if authMethod == HOSTBOUND then ReadString(rest) == Some((hostKey, [])) else rest == []
  }

  function ReadRequest(data: Bytes, publicKey: Bytes, hostKey: Bytes): Option<Fields> {
    var opening := ReadOpening(data);
    if opening.None? then None
    else
      var (session, user, authMethod, rest) := opening.value;
      if authMethod != HOSTBOUND && authMethod != PUBLICKEY then None
      else
        var signed := ReadSigned(rest, publicKey);
        if signed.None? || !EndsFor(authMethod, signed.value.1, hostKey) then None
        else Some(Fields(session, user, signed.value.0))
  }

  lemma OpeningReads(f: Fields, authMethod: Bytes, rest: Bytes)
    requires Short(f.sessionId) && Short(f.user) && Short(authMethod)
    ensures ReadOpening(Opening(f, authMethod, rest)) == Some((f.sessionId, f.user, authMethod, rest))
  {
    var afterService := Str(authMethod) + rest;
    var afterUser := Str(CONNECTION) + afterService;
    var afterByte := Str(f.user) + afterUser;
    ReadStringIsExact(Opening(f, authMethod, rest), f.sessionId, [USERAUTH_REQUEST] + afterByte);
    assert ([USERAUTH_REQUEST] + afterByte)[1..] == afterByte;
    ReadStringIsExact(afterByte, f.user, afterUser);
    ReadStringIsExact(afterUser, CONNECTION, afterService);
    ReadStringIsExact(afterService, authMethod, rest);
  }

  lemma ReadMeansOpening(data: Bytes, f: Fields, authMethod: Bytes, rest: Bytes)
    requires ReadOpening(data) == Some((f.sessionId, f.user, authMethod, rest))
    ensures Short(f.sessionId) && Short(f.user) && Short(authMethod) && data == Opening(f, authMethod, rest)
  {
    var afterSession := ReadString(data).value.1;
    var afterUser := ReadString(afterSession[1..]).value.1;
    var afterService := ReadString(afterUser).value.1;
    ReadStringIsExact(data, f.sessionId, afterSession);
    assert afterSession == [USERAUTH_REQUEST] + afterSession[1..];
    ReadStringIsExact(afterSession[1..], f.user, afterUser);
    ReadStringIsExact(afterUser, CONNECTION, afterService);
    ReadStringIsExact(afterService, authMethod, rest);
  }

  lemma SignedIsExact(data: Bytes, f: Fields, publicKey: Bytes, rest: Bytes)
    ensures ReadSigned(data, publicKey) == Some((f.algorithm, rest))
       <==> Short(f.algorithm) && Short(publicKey) && data == Signed(f, publicKey, rest)
  {
    if Short(f.algorithm) && Short(publicKey) && data == Signed(f, publicKey, rest) {
      var afterAlgorithm := Str(publicKey) + rest;
      assert data[1..] == Str(f.algorithm) + afterAlgorithm;
      ReadStringIsExact(data[1..], f.algorithm, afterAlgorithm);
      ReadStringIsExact(afterAlgorithm, publicKey, rest);
    }
    if ReadSigned(data, publicKey) == Some((f.algorithm, rest)) {
      var afterAlgorithm := ReadString(data[1..]).value.1;
      assert data == [1] + data[1..];
      ReadStringIsExact(data[1..], f.algorithm, afterAlgorithm);
      ReadStringIsExact(afterAlgorithm, publicKey, rest);
    }
  }

  lemma ReadMeansRequest(data: Bytes, publicKey: Bytes, hostKey: Bytes)
    requires ReadRequest(data, publicKey, hostKey).Some?
    ensures IsRequest(data, ReadRequest(data, publicKey, hostKey).value, publicKey, hostKey)
  {
    var f := ReadRequest(data, publicKey, hostKey).value;
    var (_, _, authMethod, rest) := ReadOpening(data).value;
    var end := ReadSigned(rest, publicKey).value.1;
    ReadMeansOpening(data, f, authMethod, rest);
    SignedIsExact(rest, f, publicKey, end);
    if authMethod == HOSTBOUND {
      ReadStringIsExact(end, hostKey, []);
    }
  }

  lemma RequestMeansRead(data: Bytes, f: Fields, publicKey: Bytes, hostKey: Bytes)
    requires IsRequest(data, f, publicKey, hostKey)
    ensures ReadRequest(data, publicKey, hostKey) == Some(f)
  {
    assert |HOSTBOUND| != |PUBLICKEY|;
    if data == Opening(f, PUBLICKEY, Signed(f, publicKey, [])) {
      OpeningReads(f, PUBLICKEY, Signed(f, publicKey, []));
      SignedIsExact(Signed(f, publicKey, []), f, publicKey, []);
    } else {
      var end := Str(hostKey) + [];
      OpeningReads(f, HOSTBOUND, Signed(f, publicKey, end));
      SignedIsExact(Signed(f, publicKey, end), f, publicKey, end);
      ReadStringIsExact(end, hostKey, []);
    }
  }

  /** The session a request is for, if `data` is a request at all. */
  function SessionOf(data: Bytes, publicKey: Bytes, hostKey: Bytes): Option<Bytes> {
    var f := ReadRequest(data, publicKey, hostKey);
    if f.Some? then Some(f.value.sessionId) else None
  }

  /** A session is found in exactly the requests for it, so no data is a request for two. */
  lemma SessionIsExact(data: Bytes, publicKey: Bytes, hostKey: Bytes, sessionId: Bytes)
    ensures SessionOf(data, publicKey, hostKey) == Some(sessionId)
       <==> IsRequestForSession(data, sessionId, publicKey, hostKey)
  {
    if IsRequestForSession(data, sessionId, publicKey, hostKey) {
      var f: Fields :| f.sessionId == sessionId && IsRequest(data, f, publicKey, hostKey);
      RequestMeansRead(data, f, publicKey, hostKey);
    }
    if ReadRequest(data, publicKey, hostKey).Some? {
      ReadMeansRequest(data, publicKey, hostKey);
    }
  }

  /** Computes `SessionOf` with a cursor, field by field. */
  method UserauthSessionId(data: Bytes, publicKey: Bytes, hostKey: Bytes) returns (sessionId: Option<Bytes>)
    ensures sessionId == SessionOf(data, publicKey, hostKey)
  {
    var request := new Wire(data);
    var opening := TakeOpening(request);
    if opening.None? { return None; }
    var (session, _, authMethod, _) := opening.value;
    if authMethod != HOSTBOUND && authMethod != PUBLICKEY { return None; }
    var signed := TakeSigned(request, publicKey);
    if signed.None? { return None; }
    var ends := TakeEnd(request, authMethod, hostKey);
    if !ends { return None; }
    return Some(session);
  }

  method TakeEnd(request: Wire, authMethod: Bytes, hostKey: Bytes) returns (ends: bool)
    modifies request
    ensures ends == EndsFor(authMethod, old(request.rest), hostKey)
  {
    if authMethod == HOSTBOUND {
      var host := request.TakeString();
      if host != Some(hostKey) { return false; }
    }
    return request.rest == [];
  }

  method TakeOpening(request: Wire) returns (o: Option<(Bytes, Bytes, Bytes, Bytes)>)
    modifies request
    ensures o == ReadOpening(old(request.rest))
    ensures o.Some? ==> request.rest == o.value.3
  {
    var session := request.TakeString();
    if session.None? { return None; }
    var number := request.TakeByte();
    if number != Some(USERAUTH_REQUEST) { return None; }
    var user := request.TakeString();
    if user.None? { return None; }
    var service := request.TakeString();
    if service != Some(CONNECTION) { return None; }
    var authMethod := request.TakeString();
    if authMethod.None? { return None; }
    return Some((session.value, user.value, authMethod.value, request.rest));
  }

  method TakeSigned(request: Wire, publicKey: Bytes) returns (s: Option<(Bytes, Bytes)>)
    modifies request
    ensures s == ReadSigned(old(request.rest), publicKey)
    ensures s.Some? ==> request.rest == s.value.1
  {
    var flag := request.TakeByte();
    if flag != Some(1) { return None; }
    var algorithm := request.TakeString();
    if algorithm.None? { return None; }
    var key := request.TakeString();
    if key != Some(publicKey) { return None; }
    return Some((algorithm.value, request.rest));
  }

  // --- Session bindings ---

  datatype SessionBind = SessionBind(hostKey: Bytes, sessionId: Bytes, signature: Bytes, isForwarding: bool)

  function BindMessage(hostKey: Bytes, sessionId: Bytes, signature: Bytes, flag: Byte): Bytes
    requires Short(hostKey) && Short(sessionId) && Short(signature)
  {
    Str(hostKey) + (Str(sessionId) + (Str(signature) + [flag]))
  }

  ghost predicate IsBind(data: Bytes, b: SessionBind) {
    && Short(b.hostKey) && Short(b.sessionId) && Short(b.signature)
    && exists flag: Byte :: b.isForwarding == (flag != 0) && data == BindMessage(b.hostKey, b.sessionId, b.signature, flag)
  }

  function ReadBind(data: Bytes): Option<SessionBind> {
    var host := ReadString(data);
    if host.None? then None
    else
      var session := ReadString(host.value.1);
      if session.None? then None
      else
        var signature := ReadString(session.value.1);
        if signature.None? || |signature.value.1| != 1 then None
        else Some(SessionBind(host.value.0, session.value.0, signature.value.0, signature.value.1[0] != 0))
  }

  lemma BindReads(b: SessionBind, flag: Byte)
    requires Short(b.hostKey) && Short(b.sessionId) && Short(b.signature) && b.isForwarding == (flag != 0)
    ensures ReadBind(BindMessage(b.hostKey, b.sessionId, b.signature, flag)) == Some(b)
  {
    var afterSession := Str(b.signature) + [flag];
    var afterHost := Str(b.sessionId) + afterSession;
    ReadStringIsExact(Str(b.hostKey) + afterHost, b.hostKey, afterHost);
    ReadStringIsExact(afterHost, b.sessionId, afterSession);
    ReadStringIsExact(afterSession, b.signature, [flag]);
  }

  lemma ReadMeansBind(data: Bytes, b: SessionBind)
    requires ReadBind(data) == Some(b)
    ensures IsBind(data, b)
  {
    var afterHost := ReadString(data).value.1;
    var afterSession := ReadString(afterHost).value.1;
    var end := ReadString(afterSession).value.1;
    ReadStringIsExact(data, b.hostKey, afterHost);
    ReadStringIsExact(afterHost, b.sessionId, afterSession);
    ReadStringIsExact(afterSession, b.signature, end);
    assert end == [end[0]];
    assert data == BindMessage(b.hostKey, b.sessionId, b.signature, end[0]);
  }

  /** A binding is read from exactly the messages that carry it, with nothing after the flag. */
  lemma BindIsExact(data: Bytes, b: SessionBind)
    ensures ReadBind(data) == Some(b) <==> IsBind(data, b)
  {
    if IsBind(data, b) {
      var flag: Byte :| b.isForwarding == (flag != 0) && data == BindMessage(b.hostKey, b.sessionId, b.signature, flag);
      BindReads(b, flag);
    }
    if ReadBind(data) == Some(b) {
      ReadMeansBind(data, b);
    }
  }

  method ParseSessionBind(data: Bytes) returns (b: Option<SessionBind>)
    ensures b == ReadBind(data)
  {
    var request := new Wire(data);
    var host := request.TakeString();
    if host.None? { return None; }
    var session := request.TakeString();
    if session.None? { return None; }
    var signature := request.TakeString();
    if signature.None? { return None; }
    var flag := request.TakeByte();
    if flag.None? { return None; }
    if request.rest != [] { return None; }
    return Some(SessionBind(host.value, session.value, signature.value, flag.value != 0));
  }

  // --- What a binding proves ---

  /** A host's public key as parsed, and the cryptography this model takes as given. */
  datatype KeyData = KeyData(blob: Bytes)

  datatype Crypto = Crypto(
    parseKey: Bytes -> Option<KeyData>,
    parseCertificate: Bytes -> Option<KeyData>,
    readSignature: Bytes -> Option<(Bytes, Bytes)>,
    verifies: (KeyData, Bytes, Bytes) -> bool,
    fingerprint: KeyData -> string)

  datatype BindError = BadHostKey | BadSignature | Unverified

  const CERTIFICATE: Bytes := Ascii("-cert-v01@openssh.com")

  predicate IsCertificate(hostKey: Bytes) {
    var id := ReadString(hostKey);
    id.Some? && |id.value.0| >= |CERTIFICATE| && id.value.0[|id.value.0| - |CERTIFICATE|..] == CERTIFICATE
  }

  /** The key under which the binding's signature verifies, read from a plain host key or out of a certificate. */
  function BoundHostKey(c: Crypto, b: SessionBind): Result<KeyData, BindError> {
    var parsed := if IsCertificate(b.hostKey) then c.parseCertificate(b.hostKey) else c.parseKey(b.hostKey);
    if parsed.None? then Err(BadHostKey)
    else
      var signature := c.readSignature(b.signature);
      if signature.None? || signature.value.1 != [] then Err(BadSignature)
      else if !c.verifies(parsed.value, b.sessionId, signature.value.0) then Err(Unverified)
      else Ok(parsed.value)
  }
}
