/**
 Envelope encryption (internal/secretbox/secretbox.go): the associated-data encoding, and sealing,
 opening and rewrapping under changing keyrings.

 Bytes are characters below 256. The cipher is symbolic: opening gives the plaintext back exactly for
 the key, nonce and associated data it was sealed with. The payload hash is any function; results
 about other payloads assume that it has no collision.
 */
module SecretBox {
  import opened Prelude

  type Bytes = string

  const KEY_SIZE := 32
  const MAX_KEYS := 16
  const MAX_KEY_ID_BYTES := 64
  const MAX_PLAINTEXT_BYTES := 16777216
  const NONCE_SIZE := 12
  const TAG_SIZE := 16
  const PAYLOAD_VERSION := 1
  const WRAPPING_VERSION := 1
  const MAX_INT32 := 2147483647
  const MAX_INT64 := 9223372036854775807

  // ---- Fixed-width big-endian integers and length-prefixed fields ----

  function Pow256(w: nat): (r: nat)
    ensures r >= 1
  {
    if w == 0 then 1 else 256 * Pow256(w - 1)
  }

  function BigEndian(n: nat, w: nat): (s: Bytes)
    ensures |s| == w
  {
    if w == 0 then "" else BigEndian(n / 256, w - 1) + [(n % 256) as char]
  }

  function Number(s: Bytes): nat { if s == "" then 0 else 256 * Number(s[..|s| - 1]) + s[|s| - 1] as int }

  lemma {:induction false} BigEndianRoundTrip(n: nat, w: nat)
    requires n < Pow256(w)
    ensures Number(BigEndian(n, w)) == n
  {
    if w > 0 {
      BigEndianRoundTrip(n / 256, w - 1);
      var s := BigEndian(n, w);
      assert s[..|s| - 1] == BigEndian(n / 256, w - 1);
    }
  }

  lemma {:induction false} Widths()
    ensures Pow256(4) == 4294967296 && Pow256(8) == 18446744073709551616
  {
    assert Pow256(1) == 256 && Pow256(2) == 65536 && Pow256(3) == 16777216;
    assert Pow256(5) == 1099511627776 && Pow256(6) == 281474976710656 && Pow256(7) == 72057594037927936;
  }

  lemma {:induction false} SplitAt<T>(a: seq<T>, x: seq<T>, b: seq<T>, y: seq<T>)
    requires a + x == b + y && |a| == |b|
    ensures a == b && x == y
  {
    assert a == (a + x)[..|a|] && b == (b + y)[..|b|];
    assert x == (a + x)[|a|..] && y == (b + y)[|b|..];
  }

  /** A fixed-width integer is read back whatever follows it. */
  lemma {:induction false} IntegerSplit(m: nat, x: Bytes, n: nat, y: Bytes, w: nat)
    requires m < Pow256(w) && n < Pow256(w) && BigEndian(m, w) + x == BigEndian(n, w) + y
    ensures m == n && x == y
  {
    SplitAt(BigEndian(m, w), x, BigEndian(n, w), y);
    BigEndianRoundTrip(m, w);
    BigEndianRoundTrip(n, w);
  }

  /** appendField: the length in four bytes, then the field. */
  function Field(s: Bytes): Bytes { BigEndian(|s|, 4) + s }

  /** A field is read back whatever follows it. */
  lemma {:induction false} FieldSplit(a: Bytes, x: Bytes, b: Bytes, y: Bytes)
    requires |a| < Pow256(4) && |b| < Pow256(4) && Field(a) + x == Field(b) + y
    ensures a == b && x == y
  {
    assert Field(a) + x == BigEndian(|a|, 4) + (a + x);
    assert Field(b) + y == BigEndian(|b|, 4) + (b + y);
    IntegerSplit(|a|, a + x, |b|, b + y, 4);
    SplitAt(a, x, b, y);
  }

  // ---- Contexts and associated data ----

  datatype Context = Context(scopeId: Bytes, table: Bytes, objectId: Bytes, revision: nat, schemaVersion: nat)

  const TABLES: set<Bytes> := {
    "resource_revisions", "source_snapshots", "source_items", "node_bindings", "import_batches", "import_items",
    "import_candidates", "system_settings", "test_targets", "compatibility_evidence", "compile_batches",
        "compile_outputs", "jobs"
  }

  /** validContext; the identifier syntax beyond its length is not modelled. */
  predicate ValidContext(c: Context) {
    && |c.scopeId| == 36 && |c.objectId| == 36 && c.table in TABLES
    && 0 < c.revision <= MAX_INT64 && 0 < c.schemaVersion <= MAX_INT32
  }

  const AAD_PREFIX: Bytes := "proxyloom.secretbox.aad" + [0 as char]

  // The encoding, last field first; tail is what is appended after it.

  function Numbers(c: Context, tail: Bytes): Bytes { BigEndian(c.revision, 8) + (BigEndian(c.schemaVersion, 4) + tail) }

  function Fields(c: Context, tail: Bytes): Bytes {
    Field(c.scopeId) + (Field(c.table) + (Field(c.objectId) + Numbers(c, tail)))
  }

  function Tagged(c: Context, purpose: Bytes, version: nat, tail: Bytes): Bytes {
    AAD_PREFIX + (Field(purpose) + (BigEndian(version, 4) + Fields(c, tail)))
  }

  /** contextAAD. */
  function ContextAAD(c: Context, purpose: Bytes, version: nat): Bytes { Tagged(c, purpose, version, "") }

  lemma {:induction false} NumbersAppend(c: Context, tail: Bytes)
    ensures Numbers(c, "") + tail == Numbers(c, tail)
  {
    assert BigEndian(c.schemaVersion, 4) + "" == BigEndian(c.schemaVersion, 4);
  }

  lemma {:induction false} FieldsAppend(c: Context, tail: Bytes)
    ensures Fields(c, "") + tail == Fields(c, tail)
  {
    NumbersAppend(c, tail);
    var n := Numbers(c, "");
    Reassociate(Field(c.scopeId), Field(c.table), Field(c.objectId), n, tail);
  }

  lemma {:induction false} Reassociate(a: Bytes, b: Bytes, c: Bytes, d: Bytes, e: Bytes)
    ensures (a + (b + (c + d))) + e == a + (b + (c + (d + e)))
  {
  }

  /** Appending to the encoding is encoding with a tail. */
  lemma {:induction false} TaggedAppend(c: Context, purpose: Bytes, version: nat, tail: Bytes)
    ensures ContextAAD(c, purpose, version) + tail == Tagged(c, purpose, version, tail)
  {
    FieldsAppend(c, tail);
    Reassociate(AAD_PREFIX, Field(purpose), BigEndian(version, 4), Fields(c, ""), tail);
  }

  lemma {:induction false} TableLength(t: Bytes)
    requires t in TABLES
    ensures |t| < 64
  {
  }

  lemma {:induction false} NumbersInjective(c: Context, x: Bytes, d: Context, y: Bytes)
    requires ValidContext(c) && ValidContext(d) && Numbers(c, x) == Numbers(d, y)
    ensures c.revision == d.revision && c.schemaVersion == d.schemaVersion && x == y
  {
    Widths();
    IntegerSplit(c.revision, BigEndian(c.schemaVersion, 4) + x, d.revision, BigEndian(d.schemaVersion, 4) + y, 8);
    IntegerSplit(c.schemaVersion, x, d.schemaVersion, y, 4);
  }

  lemma {:induction false} FieldsInjective(c: Context, x: Bytes, d: Context, y: Bytes)
    requires ValidContext(c) && ValidContext(d) && Fields(c, x) == Fields(d, y)
    ensures c == d && x == y
  {
    Widths();
    TableLength(c.table);
    TableLength(d.table);
    FieldSplit(c.scopeId, Field(c.table) + (Field(c.objectId) + Numbers(c, x)), d.scopeId,
               Field(d.table) + (Field(d.objectId) + Numbers(d, y)));
    FieldSplit(c.table, Field(c.objectId) + Numbers(c, x), d.table, Field(d.objectId) + Numbers(d, y));
    FieldSplit(c.objectId, Numbers(c, x), d.objectId, Numbers(d, y));
    NumbersInjective(c, x, d, y);
  }

  /** The encoding is injective, and self-delimiting: it stays injective with anything appended. */
  lemma {:induction false} TaggedInjective(c: Context, p: Bytes, v: nat, x: Bytes, d: Context, q: Bytes,
                                           w: nat, y: Bytes)
    requires ValidContext(c) && ValidContext(d) && |p| < Pow256(4) && |q| < Pow256(4) && v < Pow256(4) && w < Pow256(4)
    requires Tagged(c, p, v, x) == Tagged(d, q, w, y)
    ensures c == d && p == q && v == w && x == y
  {
    SplitAt(AAD_PREFIX, Field(p) + (BigEndian(v, 4) + Fields(c, x)), AAD_PREFIX,
            Field(q) + (BigEndian(w, 4) + Fields(d, y)));
    FieldSplit(p, BigEndian(v, 4) + Fields(c, x), q, BigEndian(w, 4) + Fields(d, y));
    IntegerSplit(v, Fields(c, x), w, Fields(d, y), 4);
    FieldsInjective(c, x, d, y);
  }

  /** Different contexts, purposes or versions never share associated data. */
  lemma {:induction false} AADInjective(c: Context, p: Bytes, v: nat, d: Context, q: Bytes, w: nat)
    requires ValidContext(c) && ValidContext(d) && |p| < Pow256(4) && |q| < Pow256(4) && v < Pow256(4) && w < Pow256(4)
    ensures ContextAAD(c, p, v) == ContextAAD(d, q, w) <==> c == d && p == q && v == w
  {
    if ContextAAD(c, p, v) == ContextAAD(d, q, w) { TaggedInjective(c, p, v, "", d, q, w, ""); }
  }

  // ---- Sealed values ----

  /** A ciphertext of the symbolic cipher, or other bytes. */
  datatype Ciphertext = Sealed(key: Bytes, nonce: Bytes, plaintext: Bytes, aad: Bytes) | Junk(bytes: Bytes)

  function Size(c: Ciphertext): nat { if c.Sealed? then |c.plaintext| + TAG_SIZE else |c.bytes| }

  /** gcm.Open. */
  function GcmOpen(key: Bytes, nonce: Bytes, c: Ciphertext, aad: Bytes): Option<Bytes> {
    if c.Sealed? && c.key == key && c.nonce == nonce && c.aad == aad then Some(c.plaintext) else None
  }

  datatype Payload = Payload(version: nat, nonce: Bytes, ciphertext: Ciphertext)

  datatype Wrapping = Wrapping(version: nat, keyId: Bytes, nonce: Bytes, ciphertext: Ciphertext)

  type Hash = Payload -> Bytes

  /** wrappingAAD: the context, the key's name, and the exact payload. */
  function WrappingAAD(hash: Hash, c: Context, p: Payload, version: nat, keyId: Bytes): Bytes {
    Tagged(c, "dek", version, Field(keyId) + hash(p))
  }

  predicate ValidKeyId(id: Bytes) {
    0 < |id| <= MAX_KEY_ID_BYTES &&
    forall i :: 0 <= i < |id| ==>
        'a' <= id[i] <= 'z' || 'A' <= id[i] <= 'Z' || '0' <= id[i] <= '9' || id[i] == '_' || id[i] == '-'
  }

  datatype Box = Box(activeKeyId: Bytes, keys: map<Bytes, Bytes>)

  /** New: named, distinct keys of the right size, one of them active. */
  predicate ValidBox(b: Box) {
    && b.activeKeyId in b.keys && 0 < |b.keys| <= MAX_KEYS
    && (forall id :: id in b.keys ==> ValidKeyId(id) && |b.keys[id]| == KEY_SIZE)
    && forall i, j :: i in b.keys && j in b.keys && i != j ==> b.keys[i] != b.keys[j]
  }

  datatype Error = SealError | OpenError

  function Wrap(hash: Hash, b: Box, c: Context, p: Payload, dek: Bytes, nonce: Bytes): Wrapping
    requires b.activeKeyId in b.keys
  {
    Wrapping(WRAPPING_VERSION, b.activeKeyId, nonce,
             Sealed(b.keys[b.activeKeyId], nonce, dek, WrappingAAD(hash, c, p, WRAPPING_VERSION, b.activeKeyId)))
  }

  /** Seal, with its random data key and nonces as parameters. */
  function Seal(hash: Hash, b: Box, c: Context, plaintext: Bytes, dek: Bytes, payloadNonce: Bytes, wrapNonce: Bytes)
    : Result<(Payload, Wrapping), Error>
    requires b.activeKeyId in b.keys
  {
    if !ValidContext(c) || |plaintext| > MAX_PLAINTEXT_BYTES then Err(SealError)
    else
      var p := Payload(PAYLOAD_VERSION, payloadNonce,
                       Sealed(dek, payloadNonce, plaintext, ContextAAD(c, "payload", PAYLOAD_VERSION)));
      Ok((p, Wrap(hash, b, c, p, dek, wrapNonce)))
  }

  predicate WellShaped(c: Context, p: Payload, w: Wrapping) {
    && ValidContext(c) && p.version == PAYLOAD_VERSION && w.version == WRAPPING_VERSION && |p.nonce| == NONCE_SIZE
    && TAG_SIZE <= Size(p.ciphertext) <= MAX_PLAINTEXT_BYTES + TAG_SIZE
    && ValidKeyId(w.keyId) && |w.nonce| == NONCE_SIZE && Size(w.ciphertext) == KEY_SIZE + TAG_SIZE
  }

  function Unwrap(hash: Hash, b: Box, c: Context, p: Payload, w: Wrapping): Option<Bytes> {
    if !WellShaped(c, p, w) || w.keyId !in b.keys then None
    else GcmOpen(b.keys[w.keyId], w.nonce, w.ciphertext, WrappingAAD(hash, c, p, w.version, w.keyId))
  }

  function OpenPayload(c: Context, p: Payload, dek: Bytes): Option<Bytes> {
    GcmOpen(dek, p.nonce, p.ciphertext, ContextAAD(c, "payload", PAYLOAD_VERSION))
  }

  function Open(hash: Hash, b: Box, c: Context, p: Payload, w: Wrapping): Result<Bytes, Error> {
    var dek := Unwrap(hash, b, c, p, w);
    if dek.None? then Err(OpenError)
    else var plaintext := OpenPayload(c, p, dek.value);
      if plaintext.None? then Err(OpenError) else Ok(plaintext.value)
  }

  /** Rewrap authenticates the whole record and wraps the same data key again. */
  function Rewrap(hash: Hash, b: Box, c: Context, p: Payload, w: Wrapping, nonce: Bytes): Result<Wrapping, Error>
    requires b.activeKeyId in b.keys
  {
    var dek := Unwrap(hash, b, c, p, w);
    if dek.None? || OpenPayload(c, p, dek.value).None? then Err(OpenError)
    else Ok(Wrap(hash, b, c, p, dek.value, nonce))
  }

  // ---- Records under changing keyrings ----

  /** w wraps, under key, the data key of a record sealed in context c. */
  ghost predicate Sound(hash: Hash, c: Context, plaintext: Bytes, p: Payload, w: Wrapping, dek: Bytes, key: Bytes) {
    && WellShaped(c, p, w) && |dek| == KEY_SIZE
    && p.ciphertext == Sealed(dek, p.nonce, plaintext, ContextAAD(c, "payload", PAYLOAD_VERSION))
    && w.ciphertext == Sealed(key, w.nonce, dek, WrappingAAD(hash, c, p, w.version, w.keyId))
  }

  lemma {:induction false} SealSound(hash: Hash, b: Box, c: Context, plaintext: Bytes, dek: Bytes, n1: Bytes, n2: Bytes)
    requires ValidBox(b) && |dek| == KEY_SIZE && |n1| == NONCE_SIZE && |n2| == NONCE_SIZE
    requires Seal(hash, b, c, plaintext, dek, n1, n2).Ok?
    ensures var (p, w) := Seal(hash, b, c, plaintext, dek, n1, n2).value;
            Sound(hash, c, plaintext, p, w, dek, b.keys[b.activeKeyId]) && w.keyId == b.activeKeyId
  {
  }

  /** A sound record opens exactly with the key of its current wrapper. */
  lemma {:induction false} OpenSound(hash: Hash, b: Box, c: Context, plaintext: Bytes, p: Payload, w: Wrapping,
                                     dek: Bytes, key: Bytes)
    requires Sound(hash, c, plaintext, p, w, dek, key)
    ensures Open(hash, b, c, p, w) == if w.keyId in b.keys && b.keys[w.keyId] == key then Ok(plaintext)
            else Err(OpenError)
  {
  }

  /** Rewrapping keeps the record sound, now under the active key; it needs the old wrapper's key. */
  lemma {:induction false} RewrapSound(hash: Hash, b: Box, c: Context, plaintext: Bytes, p: Payload, w: Wrapping,
                                       dek: Bytes, key: Bytes, nonce: Bytes)
    requires ValidBox(b) && Sound(hash, c, plaintext, p, w, dek, key) && |nonce| == NONCE_SIZE
    ensures Rewrap(hash, b, c, p, w, nonce).Ok? <==> w.keyId in b.keys && b.keys[w.keyId] == key
    ensures Rewrap(hash, b, c, p, w, nonce).Ok? ==>
              var w' := Rewrap(hash, b, c, p, w, nonce).value;
              Sound(hash, c, plaintext, p, w', dek, b.keys[b.activeKeyId]) && w'.keyId == b.activeKeyId
  {
  }

  /** One rotation: a keyring and a fresh nonce. */
  datatype Rotation = Rotation(box: Box, nonce: Bytes)

  ghost predicate ValidRotation(r: Rotation) { ValidBox(r.box) && |r.nonce| == NONCE_SIZE }

  /** The wrapper after a sequence of rotations, when all of them succeed. */
  ghost function Rotated(hash: Hash, c: Context, p: Payload, w: Wrapping, rs: seq<Rotation>): Result<Wrapping, Error>
    requires forall r :: r in rs ==> ValidRotation(r)
    decreases |rs|
  {
    if rs == [] then Ok(w)
    else
      assert rs[0] in rs && ValidRotation(rs[0]);
      var next := Rewrap(hash, rs[0].box, c, p, w, rs[0].nonce);
      if next.Err? then next else Rotated(hash, c, p, next.value, rs[1..])
  }

  ghost predicate Active(b: Box, keyId: Bytes, key: Bytes) {
    keyId == b.activeKeyId && keyId in b.keys && b.keys[keyId] == key
  }

  lemma {:induction false} RotatedSound(hash: Hash, c: Context, plaintext: Bytes, p: Payload, w: Wrapping, dek: Bytes,
                                        key: Bytes, rs: seq<Rotation>)
    returns (key': Bytes)
    requires Sound(hash, c, plaintext, p, w, dek, key) && (forall r :: r in rs ==> ValidRotation(r))
    requires Rotated(hash, c, p, w, rs).Ok?
    ensures Sound(hash, c, plaintext, p, Rotated(hash, c, p, w, rs).value, dek, key')
    ensures rs != [] ==> Active(rs[|rs| - 1].box, Rotated(hash, c, p, w, rs).value.keyId, key')
    ensures rs == [] ==> key' == key
    decreases |rs|
  {
    if rs == [] {
      key' := key;
    } else {
      var b := rs[0].box;
      assert rs[0] in rs && ValidRotation(rs[0]);
      RewrapSound(hash, b, c, plaintext, p, w, dek, key, rs[0].nonce);
      var next := Rewrap(hash, b, c, p, w, rs[0].nonce).value;
      key' := RotatedSound(hash, c, plaintext, p, next, dek, b.keys[b.activeKeyId], rs[1..]);
    }
  }

  /**
   Seal, then any successful sequence of rewraps under any keyrings: the record opens to the original
   plaintext with every keyring that holds the current wrapper's key, whatever else it holds or has
   dropped, and with no other.
   */
  lemma {:induction false} OpensAfterRotations(hash: Hash, b: Box, c: Context, plaintext: Bytes, dek: Bytes,
                                               n1: Bytes, n2: Bytes,
                                               rs: seq<Rotation>, reader: Box) returns (key: Bytes)
    requires ValidBox(b) && |dek| == KEY_SIZE && |n1| == NONCE_SIZE && |n2| == NONCE_SIZE
    requires Seal(hash, b, c, plaintext, dek, n1, n2).Ok? && forall r :: r in rs ==> ValidRotation(r)
    requires Rotated(hash, c, Seal(hash, b, c, plaintext, dek, n1, n2).value.0,
                     Seal(hash, b, c, plaintext, dek, n1, n2).value.1, rs).Ok?
    ensures var last := if rs == [] then b else rs[|rs| - 1].box;
            last.activeKeyId in last.keys && key == last.keys[last.activeKeyId]
    ensures var (p, w) := Seal(hash, b, c, plaintext, dek, n1, n2).value;
            var w' := Rotated(hash, c, p, w, rs).value;
            Open(hash, reader, c, p, w') == if w'.keyId in reader.keys && reader.keys[w'.keyId] == key
                then Ok(plaintext) else Err(OpenError)
  {
    var (p, w) := Seal(hash, b, c, plaintext, dek, n1, n2).value;
    SealSound(hash, b, c, plaintext, dek, n1, n2);
    key := RotatedSound(hash, c, plaintext, p, w, dek, b.keys[b.activeKeyId], rs);
    OpenSound(hash, reader, c, plaintext, p, Rotated(hash, c, p, w, rs).value, dek, key);
  }

  /** For any digest: a wrapper opens for no other context, and for no payload of another digest than its own. */
  lemma {:induction false} BoundToDigest(hash: Hash, b: Box, c: Context, plaintext: Bytes, p: Payload,
                                         w: Wrapping, dek: Bytes,
                                         key: Bytes, c': Context, p': Payload)
    requires Sound(hash, c, plaintext, p, w, dek, key) && Open(hash, b, c', p', w).Ok?
    ensures c' == c && hash(p') == hash(p)
  {
    Widths();
    assert WrappingAAD(hash, c', p', w.version, w.keyId) == WrappingAAD(hash, c, p, w.version, w.keyId);
    TaggedInjective(c', "dek", w.version, Field(w.keyId) + hash(p'), c, "dek", w.version, Field(w.keyId) + hash(p));
    SplitAt(Field(w.keyId), hash(p'), Field(w.keyId), hash(p));
  }

  /** So where the digest tells the two payloads apart, it opens for the payload it was made for only. */
  lemma {:induction false} BoundToRecord(hash: Hash, b: Box, c: Context, plaintext: Bytes, p: Payload,
                                         w: Wrapping, dek: Bytes,
                                         key: Bytes, c': Context, p': Payload)
    requires (hash(p') == hash(p) ==> p' == p) && Sound(hash, c, plaintext, p, w, dek, key)
    requires Open(hash, b, c', p', w).Ok?
    ensures c' == c && p' == p
  {
    BoundToDigest(hash, b, c, plaintext, p, w, dek, key, c', p');
  }
}
