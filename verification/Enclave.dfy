/** How a secret and its wrapped key are written down for the Secure Enclave (src/enclave.rs). */
module Enclave {
  import opened Basics
  import opened Buffers
  import opened Signing

  // --- Padding ---

  const PADDED_LEN: nat := 2 + MAX_PASSPHRASE_BYTES

  datatype Malformed = TooLongToStore | NotABlock | LengthTooLarge | WrongMagic
                     | TruncatedLength | TruncatedValue | ValueTooLarge | TrailingBytes

  function Zeros(n: nat): Bytes { seq(n, _ => 0) }

  /** `block` holds `secret` behind a two-byte length. What fills the rest is not looked at. */
  ghost predicate Holds(block: Bytes, secret: Bytes) {
    && |block| == PADDED_LEN && |secret| <= MAX_PASSPHRASE_BYTES
    && block[0] as int * 256 + block[1] as int == |secret|
    && block[2..2 + |secret|] == secret
  }

  function Pad(secret: Bytes): Result<Bytes, Malformed> {
    if |secret| > MAX_PASSPHRASE_BYTES then Err(TooLongToStore)
    else Ok([|secret| / 256, |secret| % 256] + secret + Zeros(MAX_PASSPHRASE_BYTES - |secret|))
  }

  function Unpad(block: Bytes): Result<Bytes, Malformed> {
    if |block| != PADDED_LEN then Err(NotABlock)
    else
      var b0: int, b1: int := block[0], block[1];
      var len := b0 * 256 + b1;
      if len > MAX_PASSPHRASE_BYTES then Err(LengthTooLarge) else Ok(block[2..2 + len])
  }

  lemma UnpadIsExact(block: Bytes, secret: Bytes)
    ensures Unpad(block) == Ok(secret) <==> Holds(block, secret)
  {
  }

  /** Everything that may be stored comes back, from a block whose size says nothing about it. */
  lemma PaddingIsUndone(secret: Bytes)
    ensures Pad(secret).Ok? <==> |secret| <= MAX_PASSPHRASE_BYTES
    ensures Pad(secret).Ok? ==> |Pad(secret).value| == PADDED_LEN && Unpad(Pad(secret).value) == Ok(secret)
  {
    if |secret| <= MAX_PASSPHRASE_BYTES {
      var block := Pad(secret).value;
      DigitsSplit(|secret| / 256, |secret| % 256);
      assert block[2..2 + |secret|] == secret;
    }
  }

  /** The padding itself is not checked, so unpadding has many preimages. */
  lemma UnpadIgnoresThePadding()
    ensures exists a: Bytes, b: Bytes :: a != b && Unpad(a).Ok? && Unpad(a) == Unpad(b)
  {
    var a, b := Zeros(PADDED_LEN), Zeros(PADDED_LEN)[2 := 1];
    assert a[2] != b[2];
    UnpadIsExact(a, []);
    UnpadIsExact(b, []);
  }

  /** Writes `Pad(secret)`, in a buffer that is full from the start. */
  method PadSecret(secret: Bytes) returns (r: Result<Buffer, Malformed>)
    ensures r.Err? ==> Pad(secret) == Err(r.error)
    ensures r.Ok? ==> fresh(r.value) && r.value.Valid() && Pad(secret) == Ok(r.value.Contents())
    ensures r.Ok? ==> r.value.moves == 0
  {
    if |secret| > MAX_PASSPHRASE_BYTES {
      return Err(TooLongToStore);
    }
    var block := new Buffer(PADDED_LEN);
    block.Extend([|secret| / 256, |secret| % 256]);
    block.Extend(secret);
    block.Extend(Zeros(MAX_PASSPHRASE_BYTES - |secret|));
    assert block.Contents() == Pad(secret).value;
    r := Ok(block);
  }

  /** Shorten a block to the secret in it, without the secret ever leaving its allocation. */
  method UnpadInPlace(block: Buffer) returns (failed: Option<Malformed>)
    requires block.Valid()
    modifies block, block.data
    ensures block.Valid() && block.data == old(block.data) && block.moves == old(block.moves)
    ensures failed.None? ==> Unpad(old(block.Contents())) == Ok(block.Contents())
    ensures failed.Some? ==> Unpad(old(block.Contents())) == Err(failed.value) && block.Contents() == old(block.Contents())
  {
    if block.len != PADDED_LEN {
      return Some(NotABlock);
    }
    var b0: int, b1: int := block.data[0], block.data[1];
    var len := b0 * 256 + b1;
    if len > MAX_PASSPHRASE_BYTES {
      return Some(LengthTooLarge);
    }
    block.CopyToFront(2, 2 + len);
    block.Truncate(len);
    failed := None;
  }

  // --- What a call came back with ---

  datatype Outcome = Done | Unavailable | Refused | Reseed | Failed(code: int)

  const STAGE_OK: int := 0
  const STAGE_UNAVAILABLE: int := 2
  const STAGE_RESTORE: int := 5
  const STAGE_AGREEMENT: int := 6
  const STAGE_MALFORMED: int := 8
  const STAGE_DECRYPT: int := 9
  const NOT_AUTHENTICATED: seq<int> := [-2, -3, -4, -9, -7, -8, -1004]

  function Meaning(stage: int, osError: int): Outcome {
    if stage == STAGE_OK then Done
    else if stage == STAGE_UNAVAILABLE then Unavailable
    else if stage == STAGE_RESTORE || stage == STAGE_MALFORMED || stage == STAGE_DECRYPT then Reseed
    else if stage == STAGE_AGREEMENT && osError in NOT_AUTHENTICATED then Refused
    else Failed(osError)
  }

  method IsNotAuthenticated(osError: int) returns (found: bool)
    ensures found <==> osError in NOT_AUTHENTICATED
  {
    var i := 0;
    while i < |NOT_AUTHENTICATED|
      invariant i <= |NOT_AUTHENTICATED| && osError !in NOT_AUTHENTICATED[..i]
    {
      if NOT_AUTHENTICATED[i] == osError {
        return true;
      }
      i := i + 1;
    }
    found := false;
  }

  /** What an unwrap means to the store: a secret, nothing stored (`None`), or unreadable this time. */
  function Unwrapped(result: Result<Bytes, Outcome>): Result<Option<Bytes>, Outcome> {
    match result
    case Ok(padded) => if Unpad(padded).Ok? then Ok(Some(Unpad(padded).value)) else Ok(None)
    case Err(Reseed) => Ok(None)
    case Err(other) => Err(other)
  }

  /** The answer of one call to the shim: a stage, the system's code, and what it opened if it worked. */
  function Answer(stage: int, osError: int, box: Bytes): Result<Bytes, Outcome> {
    if Meaning(stage, osError).Done? then Ok(box) else Err(Meaning(stage, osError))
  }

  /** An unwrap reads as an empty store exactly when nothing could ever be recovered from it: the key
      or its box is past saving, or what came out of the box was never put in it by this program. A
      fingerprint that was declined is never mistaken for that. */
  lemma EmptyExactlyWhenPastSaving(stage: int, osError: int, box: Bytes)
    ensures Unwrapped(Answer(stage, osError, box)) == Ok(None)
       <==> || stage in {STAGE_RESTORE, STAGE_MALFORMED, STAGE_DECRYPT}
            || (stage == STAGE_OK && forall secret: Bytes :: !Holds(box, secret))
    ensures forall secret: Bytes :: Pad(secret) == Ok(box) && stage == STAGE_OK
              ==> Unwrapped(Answer(stage, osError, box)) == Ok(Some(secret))
  {
    if Unpad(box).Ok? {
      UnpadIsExact(box, Unpad(box).value);
    }
    forall secret: Bytes
      ensures Holds(box, secret) <==> Unpad(box) == Ok(secret)
      ensures Pad(secret) == Ok(box) ==> Unpad(box) == Ok(secret)
    {
      UnpadIsExact(box, secret);
      PaddingIsUndone(secret);
    }
  }

  // --- The file ---

  const MAX_BLOB: nat := 4096
  const MAX_CIPHER: nat := 4096
  const MAGIC: Bytes := Ascii("lastpass-ssh-agent secure enclave v2\n")

  datatype Stored = Stored(blob: Bytes, cipher: Bytes)

  function Encoding(s: Stored): Result<Bytes, Malformed> {
    if |s.blob| > MAX_BLOB || |s.cipher| > MAX_CIPHER then Err(ValueTooLarge)
    else Ok(MAGIC + (Str(s.blob) + (Str(s.cipher) + [])))
  }

  /** Append one length-prefixed field, if it is no longer than it may be. */
  method AppendField(out: Buffer, part: Bytes, max: nat) returns (ok: bool)
    requires max < LIMIT
    requires out.Valid() && out.len + 4 + |part| <= out.data.Length
    modifies out, out.data
    ensures out.Valid() && out.data == old(out.data) && out.moves == old(out.moves)
    ensures ok <==> |part| <= max
    ensures ok ==> out.Contents() == old(out.Contents()) + Str(part)
  {
    if |part| > max {
      return false;
    }
    ghost var before := out.Contents();
    out.Extend(Be32(|part|));
    out.Extend(part);
    assert out.Contents() == before + Str(part);
    ok := true;
  }

  /** Writes `Encoding(s)`, into a buffer made large enough for it beforehand. */
  method Encode(s: Stored) returns (r: Result<Buffer, Malformed>)
    ensures r.Err? ==> Encoding(s) == Err(r.error)
    ensures r.Ok? ==> fresh(r.value) && r.value.Valid() && Encoding(s) == Ok(r.value.Contents())
    ensures r.Ok? ==> r.value.moves == 0
  {
    var out := new Buffer(|MAGIC| + 8 + |s.blob| + |s.cipher|);
    out.Extend(MAGIC);
    var parts := [(s.blob, MAX_BLOB), (s.cipher, MAX_CIPHER)];
    for i := 0 to 2
      invariant out.Valid() && fresh(out) && fresh(out.data) && out.moves == 0
      invariant out.data.Length == |MAGIC| + 8 + |s.blob| + |s.cipher|
      invariant i >= 1 ==> |s.blob| <= MAX_BLOB
      invariant i == 2 ==> |s.cipher| <= MAX_CIPHER
      invariant i == 0 ==> out.Contents() == MAGIC
      invariant i == 1 ==> out.Contents() == MAGIC + Str(s.blob)
      invariant i == 2 ==> out.Contents() == MAGIC + Str(s.blob) + Str(s.cipher)
    {
      var fits := AppendField(out, parts[i].0, parts[i].1);
      if !fits {
        return Err(ValueTooLarge);
      }
    }
    assert out.Contents() == Encoding(s).value;
    r := Ok(out);
  }

  /** The wire string in front, unless its length says more than `max`. */
  function Take(bytes: Bytes, max: nat): Result<(Bytes, Bytes), Malformed> {
    if |bytes| < 4 then Err(TruncatedLength)
    else
      var len := FromBe32(bytes[..4]);
      var rest := bytes[4..];
      if len > max then Err(ValueTooLarge)
      else if len > |rest| then Err(TruncatedValue)
      else Ok((rest[..len], rest[len..]))
  }

  lemma TakeIsABoundedRead(bytes: Bytes, max: nat)
    ensures match ReadString(bytes)
            case Some((value, rest)) => Take(bytes, max) == if |value| <= max then Ok((value, rest)) else Err(ValueTooLarge)
            case None => Take(bytes, max).Err?
  {
    if ReadString(bytes).Some? {
      var len := FromBe32(bytes[..4]);
      assert bytes[4..][..len] == bytes[4..4 + len] && bytes[4..][len..] == bytes[4 + len..];
    }
  }

  function Decode(bytes: Bytes): Result<Stored, Malformed> {
    if !(MAGIC <= bytes) then Err(WrongMagic)
    else
      var blob := Take(bytes[|MAGIC|..], MAX_BLOB);
      if blob.Err? then Err(blob.error)
      else
        var cipher := Take(blob.value.1, MAX_CIPHER);
        if cipher.Err? then Err(cipher.error)
        else if cipher.value.1 != [] then Err(TrailingBytes)
        else Ok(Stored(blob.value.0, cipher.value.0))
  }

  lemma TakeIsExact(bytes: Bytes, max: nat, value: Bytes, rest: Bytes)
    requires max < LIMIT
    ensures Take(bytes, max) == Ok((value, rest)) <==> |value| <= max && bytes == Str(value) + rest
  {
    TakeIsABoundedRead(bytes, max);
    ReadStringIsExact(bytes, value, rest);
  }

  /** The format holds exactly what reads back, and each file is the encoding of one value. */
  lemma DecodeIsExact(bytes: Bytes, s: Stored)
    ensures Decode(bytes) == Ok(s) <==> Encoding(s) == Ok(bytes)
  {
    if |s.blob| <= MAX_BLOB && |s.cipher| <= MAX_CIPHER && MAGIC <= bytes {
      var fields, second := bytes[|MAGIC|..], Str(s.cipher) + [];
      TakeIsExact(fields, MAX_BLOB, s.blob, second);
      TakeIsExact(second, MAX_CIPHER, s.cipher, []);
      assert bytes == MAGIC + fields;
      if Decode(bytes) == Ok(s) {
        var after := Take(fields, MAX_BLOB).value.1;
        TakeIsExact(fields, MAX_BLOB, s.blob, after);
        TakeIsExact(after, MAX_CIPHER, s.cipher, []);
      }
      if Encoding(s) == Ok(bytes) {
        assert fields == (MAGIC + (Str(s.blob) + second))[|MAGIC|..] == Str(s.blob) + second;
      }
    } else if Decode(bytes) == Ok(s) {
      TakeIsABoundedRead(bytes[|MAGIC|..], MAX_BLOB);
      TakeIsABoundedRead(Take(bytes[|MAGIC|..], MAX_BLOB).value.1, MAX_CIPHER);
      assert false;
    }
  }

  const READ_LIMIT: nat := |MAGIC| + 8 + MAX_BLOB + MAX_CIPHER + 1

  /** What the first `READ_LIMIT` bytes of a file decode to; anything that does not decode is nothing. */
  function Load(file: Bytes): Option<Stored> {
    var bytes := if |file| <= READ_LIMIT then file else file[..READ_LIMIT];
    match Decode(bytes)
    case Ok(stored) => Some(stored)
    case Err(_) => None
  }

  /** Reading only a bounded front of the file accepts nothing the whole file does not encode. */
  lemma LoadIsExact(file: Bytes, s: Stored)
    ensures Load(file) == Some(s) <==> Encoding(s) == Ok(file)
  {
    var bytes := if |file| <= READ_LIMIT then file else file[..READ_LIMIT];
    DecodeIsExact(bytes, s);
    DecodeIsExact(file, s);
    if Encoding(s).Ok? {
      assert |Encoding(s).value| < READ_LIMIT;
    }
  }
}
