/** Envelope encryption: what each layer authenticates, the sealed-data blob, and sealing and opening. */
module VaultCrypto {
  import opened ByteStrings
  import opened Options

  datatype CryptoError =
    | Decrypt
    | KekMismatch(expected: Bytes, found: Bytes)
    | KekIdTooLong | WrappedDekTooLong
    | Truncated | UnknownFormat | KekIdNotUtf8
    | DekNonceLength | NonceLength | DekLength

  datatype Result<+T> = Ok(value: T) | Err(error: CryptoError)

  const KEY_LEN := 32
  const NONCE_LEN := 12
  const TAG_LEN := 16

  // ----- associated data -----

  type Uuid = b: Bytes | |b| == 16 witness BigEndian(0, 16)

  datatype Provider = OpenAi | XAi | Anthropic | Google

  function ProviderName(p: Provider): Bytes {
    match p
    case OpenAi => Ascii("openai")
    case XAi => Ascii("xai")
    case Anthropic => Ascii("anthropic")
    case Google => Ascii("google")
  }

  datatype SecretOwner = SecretOwner(tenantId: Uuid, keyId: Uuid, provider: Provider)

  datatype DataBinding = DataBinding(tenantId: Uuid, purpose: Bytes, subjectId: Bytes)

  datatype Aad = Aad(dek: Bytes, secret: Bytes)

  datatype Layer = Dek | Secret

  /** What an envelope belongs to: a stored key or a caller's data. */
  datatype Subject = OfKey(owner: SecretOwner) | OfData(binding: DataBinding)

  function Label(s: Subject, layer: Layer): Bytes {
    match (s, layer)
    case (OfKey(_), Secret) => Ascii("jarvis-vault/v1/secret")
    case (OfKey(_), Dek) => Ascii("jarvis-vault/v1/dek")
    case (OfData(_), Secret) => Ascii("jarvis-vault/v1/data")
    case (OfData(_), Dek) => Ascii("jarvis-vault/v1/data-dek")
  }

  /** `u8::try_from(n).unwrap_or(u8::MAX)` and its u16 form: lengths saturate. */
  function SaturatingLength(n: nat, width: nat): Bytes {
    BigEndian(if n < Power256(width) then n else Power256(width) - 1, width)
  }

  function Body(s: Subject): Bytes {
    match s
    case OfKey(o) => o.tenantId + o.keyId + ProviderName(o.provider)
    case OfData(b) =>
      b.tenantId + SaturatingLength(|b.purpose|, 1) + b.purpose + SaturatingLength(|b.subjectId|, 2) + b.subjectId
  }

  function AssociatedData(s: Subject, layer: Layer): Bytes {
    Label(s, layer) + [0] + Body(s)
  }

  function AadOf(s: Subject): Aad {
    Aad(AssociatedData(s, Dek), AssociatedData(s, Secret))
  }

  /** The purpose fits its length prefix; the service bounds it to 64 bytes. The subject comes last, so its prefix
      may saturate. */
  ghost predicate FitsPrefix(s: Subject) {
    s.OfData? ==> |s.binding.purpose| < 256
  }

  lemma LabelsDiffer(s: Subject, l: Layer, t: Subject, m: Layer)
    ensures 0 !in Label(s, l)
    ensures Label(s, l) == Label(t, m) ==> l == m && s.OfKey? == t.OfKey?
  {
    assert |Label(s, l)| == match (s, l) case (OfKey(_), Secret) => 22 case (OfKey(_), Dek) => 19 case (OfData(_), Secret) => 20 case (OfData(_), Dek) => 24;
    assert |Label(t, m)| == match (t, m) case (OfKey(_), Secret) => 22 case (OfKey(_), Dek) => 19 case (OfData(_), Secret) => 20 case (OfData(_), Dek) => 24;
  }

  lemma ProviderNameInjective(p: Provider, q: Provider)
    ensures ProviderName(p) == ProviderName(q) ==> p == q
  {
    assert |ProviderName(p)| > 0 && |ProviderName(q)| > 0;
    assert ProviderName(p)[0] == ProviderName(q)[0] ==> p == q;
  }

  lemma OwnerBodyDetermines(a: SecretOwner, b: SecretOwner)
    requires Body(OfKey(a)) == Body(OfKey(b))
    ensures a == b
  {
    CutEqual(a.tenantId + a.keyId, ProviderName(a.provider), b.tenantId + b.keyId, ProviderName(b.provider));
    CutEqual(a.tenantId, a.keyId, b.tenantId, b.keyId);
    ProviderNameInjective(a.provider, b.provider);
  }

  lemma BindingBodyDetermines(a: DataBinding, b: DataBinding)
    requires FitsPrefix(OfData(a)) && FitsPrefix(OfData(b)) && Body(OfData(a)) == Body(OfData(b))
    ensures a == b
  {
    var p, q := SaturatingLength(|a.purpose|, 1), SaturatingLength(|b.purpose|, 1);
    var u, v := SaturatingLength(|a.subjectId|, 2), SaturatingLength(|b.subjectId|, 2);
    assert Power256(1) == 256 && Power256(2) == 256 * Power256(1);
    assert Body(OfData(a)) == a.tenantId + (p + (a.purpose + (u + a.subjectId)));
    assert Body(OfData(b)) == b.tenantId + (q + (b.purpose + (v + b.subjectId)));
    CutEqual(a.tenantId, p + (a.purpose + (u + a.subjectId)), b.tenantId, q + (b.purpose + (v + b.subjectId)));
    CutEqual(p, a.purpose + (u + a.subjectId), q, b.purpose + (v + b.subjectId));
    BigEndianInjective(|a.purpose|, |b.purpose|, 1);
    CutEqual(a.purpose, u + a.subjectId, b.purpose, v + b.subjectId);
    CutEqual(u, a.subjectId, v, b.subjectId);
  }

  /** Associated data determines the layer, the kind of envelope and its owner or binding, across all four labels. */
  lemma AssociatedDataDetermines(s: Subject, l: Layer, t: Subject, m: Layer)
    requires FitsPrefix(s) && FitsPrefix(t) && AssociatedData(s, l) == AssociatedData(t, m)
    ensures s == t && l == m
  {
    hide Body, Label;
    LabelsDiffer(s, l, t, m);
    LabelsDiffer(t, m, s, l);
    CutAtMark(Label(s, l), Body(s), Label(t, m), Body(t), 0);
    if s.OfKey? {
      OwnerBodyDetermines(s.owner, t.owner);
    } else {
      BindingBodyDetermines(s.binding, t.binding);
    }
  }

  /** A key's associated data: the label and a zero byte, then the tenant, the key and the provider's name. */
  lemma KeyDataLayout(o: SecretOwner, l: Layer)
    ensures var b, n := AssociatedData(OfKey(o), l), |Label(OfKey(o), l)| + 1;
            && |b| >= n + 32 && b[..n] == Label(OfKey(o), l) + [0]
            && b[n..n + 16] == o.tenantId && b[n + 16..n + 32] == o.keyId && b[n + 32..] == ProviderName(o.provider)
  {
    hide Label, ProviderName;
  }

  /** A binding's: the label and a zero byte, then the tenant, a byte with the purpose's length, the purpose, two bytes with the
      subject's length, and the subject. */
  lemma BindingDataLayout(d: DataBinding, l: Layer)
    requires |d.purpose| < 256 && |d.subjectId| < 65536
    ensures var b, n, p := AssociatedData(OfData(d), l), |Label(OfData(d), l)| + 1, |d.purpose|;
            && |b| == n + 19 + p + |d.subjectId| && b[..n] == Label(OfData(d), l) + [0]
            && b[n..n + 16] == d.tenantId && b[n + 16] as int == p && b[n + 17..n + 17 + p] == d.purpose
            && b[n + 17 + p] as int * 256 + b[n + 18 + p] as int == |d.subjectId| && b[n + 19 + p..] == d.subjectId
  {
    hide Label, AssociatedData;
    var q := |d.subjectId|;
    BindingData(d, l);
    LayoutAt(Label(OfData(d), l) + [0], d.tenantId, |d.purpose| as byte, d.purpose, (q / 256) as byte, (q % 256) as byte, d.subjectId);
  }

  lemma BindingData(d: DataBinding, l: Layer)
    requires |d.purpose| < 256 && |d.subjectId| < 65536
    ensures var q := |d.subjectId|;
            AssociatedData(OfData(d), l) == Label(OfData(d), l) + [0] + d.tenantId + [|d.purpose| as byte] + d.purpose
                                            + [(q / 256) as byte, (q % 256) as byte] + d.subjectId
  {
    hide Label, SaturatingLength;
    Lengths(|d.purpose|, |d.subjectId|);
  }

  lemma Lengths(p: nat, q: nat)
    requires p < 256 && q < 65536
    ensures SaturatingLength(p, 1) == [p as byte] && SaturatingLength(q, 2) == [(q / 256) as byte, (q % 256) as byte]
  {
    assert Power256(1) == 256 && Power256(2) == 65536;
    assert BigEndian(q, 2) == BigEndian(q / 256, 1) + [(q % 256) as byte];
  }

  lemma LayoutAt(start: Bytes, tenant: Uuid, length: byte, purpose: Bytes, high: byte, low: byte, subject: Bytes)
    ensures var b, n, p := start + tenant + [length] + purpose + [high, low] + subject, |start|, |purpose|;
            && |b| == n + 19 + p + |subject| && b[..n] == start && b[n..n + 16] == tenant && b[n + 16] == length
            && b[n + 17..n + 17 + p] == purpose && b[n + 17 + p] == high && b[n + 18 + p] == low && b[n + 19 + p..] == subject
  {
  }

  /** The bound on the purpose is needed: past 255 bytes the saturated length leaves two bindings with one encoding. */
  lemma LongPurposesAreAmbiguous(tenant: Uuid, purpose: Bytes, rest: Bytes, l: Layer)
    requires |purpose| == 255 && |rest| == 256
    ensures var a, b := OfData(DataBinding(tenant, purpose, [0] + rest)), OfData(DataBinding(tenant, purpose + [1], rest));
            a != b && AssociatedData(a, l) == AssociatedData(b, l)
  {
    assert Power256(1) == 256 && Power256(2) == 65536;
    assert BigEndian(255, 1) == [255];
    assert BigEndian(257, 2) == [1, 1] && BigEndian(256, 2) == [1, 0];
    var a, b := DataBinding(tenant, purpose, [0] + rest), DataBinding(tenant, purpose + [1], rest);
    assert Body(OfData(a)) == tenant + [255] + purpose + [1, 1, 0] + rest;
    assert Body(OfData(b)) == tenant + [255] + purpose + [1, 1, 0] + rest;
    assert a.purpose != b.purpose;
  }

  /** Bindings with purposes of at most `n` bytes have different encodings, at either layer. */
  ghost predicate EncodesApart(n: nat) {
    forall a: DataBinding, b: DataBinding, l: Layer |
      |a.purpose| <= n && |b.purpose| <= n && AssociatedData(OfData(a), l) == AssociatedData(OfData(b), l) :: a == b
  }

  /** The length byte gives the exact bound. */
  lemma EncodesApartIff(n: nat)
    ensures EncodesApart(n) <==> n <= 255
  {
    hide AssociatedData;
    if n <= 255 {
      forall a: DataBinding, b: DataBinding, l: Layer |
        |a.purpose| <= n && |b.purpose| <= n && AssociatedData(OfData(a), l) == AssociatedData(OfData(b), l)
        ensures a == b
      {
        AssociatedDataDetermines(OfData(a), l, OfData(b), l);
      }
    } else {
      var tenant, purpose, rest: Bytes := BigEndian(0, 16), BigEndian(0, 255), BigEndian(0, 256);
      LongPurposesAreAmbiguous(tenant, purpose, rest, Dek);
      var a, b := DataBinding(tenant, purpose, [0] + rest), DataBinding(tenant, purpose + [1], rest);
      assert |a.purpose| <= n && |b.purpose| <= n && AssociatedData(OfData(a), Dek) == AssociatedData(OfData(b), Dek);
    }
  }

  // ----- the sealed-data blob -----

  datatype SealedSecret = SealedSecret(kekId: Bytes, wrappedDek: Bytes, dekNonce: Bytes, ciphertext: Bytes, nonce: Bytes)

  const DATA_MAGIC: Bytes := Ascii("JVD1")

  function Blob(s: SealedSecret): Bytes {
    DATA_MAGIC + BigEndian(|s.kekId|, 1) + s.kekId + s.dekNonce + BigEndian(|s.wrappedDek|, 2) + s.wrappedDek + s.nonce + s.ciphertext
  }

  /** What sealing produces; `utf8` is the check a string's bytes pass. */
  ghost predicate WellFormed(utf8: Bytes -> bool, s: SealedSecret) {
    && |s.kekId| < 256 && utf8(s.kekId) && |s.wrappedDek| < 65536
    && |s.dekNonce| == NONCE_LEN && |s.nonce| == NONCE_LEN && |s.ciphertext| >= TAG_LEN
  }

  method ToBlob(s: SealedSecret) returns (r: Result<Bytes>)
    ensures r == if |s.kekId| >= 256 then Err(KekIdTooLong)
                 else if |s.wrappedDek| >= 65536 then Err(WrappedDekTooLong) else Ok(Blob(s))
  {
    if |s.kekId| > 255 {
      return Err(KekIdTooLong);
    }
    if |s.wrappedDek| > 65535 {
      return Err(WrappedDekTooLong);
    }
    var blob := DATA_MAGIC;
    blob := blob + BigEndian(|s.kekId|, 1);
    blob := blob + s.kekId;
    blob := blob + s.dekNonce;
    blob := blob + BigEndian(|s.wrappedDek|, 2);
    blob := blob + s.wrappedDek;
    blob := blob + s.nonce;
    blob := blob + s.ciphertext;
    r := Ok(blob);
  }

  /** Where the parts of a blob stand. */
  lemma BlobParts(utf8: Bytes -> bool, s: SealedSecret)
    requires WellFormed(utf8, s)
    ensures var b, k, w := Blob(s), |s.kekId|, |s.wrappedDek|;
            && |b| >= 31 + k + w + TAG_LEN
            && b[..4] == DATA_MAGIC && b[4] == k as byte && b[5..5 + k] == s.kekId && b[5 + k..17 + k] == s.dekNonce
            && b[17 + k] as int * 256 + b[18 + k] as int == w
            && b[19 + k..19 + k + w] == s.wrappedDek && b[19 + k + w..31 + k + w] == s.nonce
            && b[31 + k + w..] == s.ciphertext
  {
    var k, w := |s.kekId|, |s.wrappedDek|;
    assert BigEndian(k, 1) == [k as byte];
    assert BigEndian(w, 2) == BigEndian(w / 256, 1) + [(w % 256) as byte] == [(w / 256) as byte, (w % 256) as byte];
    assert Blob(s) == DATA_MAGIC + [k as byte] + s.kekId + s.dekNonce + [(w / 256) as byte, (w % 256) as byte]
                   + s.wrappedDek + s.nonce + s.ciphertext;
  }

  /** The blobs of two well-formed secrets differ. */
  lemma BlobDetermines(utf8: Bytes -> bool, s: SealedSecret, t: SealedSecret)
    requires WellFormed(utf8, s) && WellFormed(utf8, t) && Blob(s) == Blob(t)
    ensures s == t
  {
    hide Blob;
    BlobParts(utf8, s);
    BlobParts(utf8, t);
  }

  /** Takes `n` bytes off the cursor. */
  method Take(rest: Bytes, n: nat) returns (head: Option<Bytes>, tail: Bytes)
    ensures |rest| < n ==> head == None && tail == rest
    ensures |rest| >= n ==> head == Some(rest[..n]) && tail == rest[n..]
  {
    if |rest| < n {
      return None, rest;
    }
    head, tail := Some(rest[..n]), rest[n..];
  }

  /** The blob is long enough wherever its length bytes point, and its KEK id is text. */
  ghost predicate CanCut(utf8: Bytes -> bool, b: Bytes) {
    && |b| >= 5 && b[..4] == DATA_MAGIC
    && var k := b[4] as int;
    && |b| >= 19 + k && utf8(b[5..5 + k])
    && var w := b[17 + k] as int * 256 + b[18 + k] as int;
    && |b| >= 31 + k + w + TAG_LEN
  }

  /** The secret a blob holds, cut at the places its length bytes say. */
  ghost function Cut(utf8: Bytes -> bool, b: Bytes): SealedSecret
    requires CanCut(utf8, b)
  {
    var k := b[4] as int;
    var w := b[17 + k] as int * 256 + b[18 + k] as int;
    SealedSecret(b[5..5 + k], b[19 + k..19 + k + w], b[5 + k..17 + k], b[31 + k + w..], b[19 + k + w..31 + k + w])
  }

  lemma CutOfBlob(utf8: Bytes -> bool, s: SealedSecret)
    requires WellFormed(utf8, s)
    ensures CanCut(utf8, Blob(s)) && Cut(utf8, Blob(s)) == s
  {
    hide Blob;
    BlobParts(utf8, s);
  }

  lemma BlobOfCut(utf8: Bytes -> bool, b: Bytes)
    requires CanCut(utf8, b)
    ensures WellFormed(utf8, Cut(utf8, b)) && Blob(Cut(utf8, b)) == b
  {
    var s := Cut(utf8, b);
    var k, w := |s.kekId|, |s.wrappedDek|;
    assert BigEndian(k, 1) == [k as byte];
    assert BigEndian(w, 2) == BigEndian(w / 256, 1) + [(w % 256) as byte] == [b[17 + k], b[18 + k]];
    assert b[..5 + k] == DATA_MAGIC + BigEndian(k, 1) + s.kekId;
    assert b[..19 + k] == b[..5 + k] + s.dekNonce + BigEndian(w, 2);
    assert b[..31 + k + w] == b[..19 + k] + s.wrappedDek + s.nonce;
    assert b == b[..31 + k + w] + s.ciphertext;
  }

  /** The magic and the KEK id, and what follows them. */
  method ReadKekId(utf8: Bytes -> bool, blob: Bytes) returns (r: Result<Bytes>, rest: Bytes)
    ensures r.Ok? <==> |blob| >= 5 && blob[..4] == DATA_MAGIC && |blob| >= 5 + blob[4] as int && utf8(blob[5..5 + blob[4] as int])
    ensures r.Ok? ==> r.value == blob[5..5 + blob[4] as int] && rest == blob[5 + blob[4] as int..]
    ensures r == Err(UnknownFormat) <==> |blob| >= 4 && blob[..4] != DATA_MAGIC
  {
    rest := blob;
    var magic, length, kekId;
    magic, rest := Take(rest, 4);
    if magic.None? { return Err(Truncated), rest; }
    if magic.value != DATA_MAGIC { return Err(UnknownFormat), rest; }
    length, rest := Take(rest, 1);
    if length.None? { return Err(Truncated), rest; }
    assert rest == blob[5..] && length.value[0] == blob[4];
    kekId, rest := Take(rest, length.value[0] as int);
    if kekId.None? { return Err(Truncated), rest; }
    assert kekId.value == blob[5..5 + blob[4] as int];
    if !utf8(kekId.value) { return Err(KekIdNotUtf8), rest; }
    r := Ok(kekId.value);
  }

  /** The nonces, the wrapped DEK and the ciphertext, after the KEK id. */
  method ReadEnvelope(kekId: Bytes, blob: Bytes) returns (r: Result<SealedSecret>)
    ensures r.Ok? <==> |blob| >= 14 && |blob| >= 26 + (blob[12] as int * 256 + blob[13] as int) + TAG_LEN
    ensures r.Ok? ==> var w := blob[12] as int * 256 + blob[13] as int;
                      r.value == SealedSecret(kekId, blob[14..14 + w], blob[..12], blob[26 + w..], blob[14 + w..26 + w])
    ensures r.Err? ==> r == Err(Truncated)
  {
    var rest := blob;
    var dekNonce, length, wrappedDek, nonce;
    dekNonce, rest := Take(rest, NONCE_LEN);
    if dekNonce.None? { return Err(Truncated); }
    length, rest := Take(rest, 2);
    if length.None? { return Err(Truncated); }
    var w := length.value[0] as int * 256 + length.value[1] as int;
    assert rest == blob[14..] && w == blob[12] as int * 256 + blob[13] as int;
    wrappedDek, rest := Take(rest, w);
    if wrappedDek.None? { return Err(Truncated); }
    assert rest == blob[14 + w..] && wrappedDek.value == blob[14..14 + w];
    nonce, rest := Take(rest, NONCE_LEN);
    if nonce.None? { return Err(Truncated); }
    assert rest == blob[26 + w..] && nonce.value == blob[14 + w..26 + w];
    if |rest| < TAG_LEN { return Err(Truncated); }
    r := Ok(SealedSecret(kekId, wrappedDek.value, dekNonce.value, rest, nonce.value));
  }

  /** Advances a cursor over a blob. */
  method ReadBlob(utf8: Bytes -> bool, blob: Bytes) returns (r: Result<SealedSecret>)
    ensures r.Ok? <==> CanCut(utf8, blob)
    ensures r.Ok? ==> r.value == Cut(utf8, blob)
    ensures r == Err(UnknownFormat) <==> |blob| >= 4 && blob[..4] != DATA_MAGIC
  {
    var kekId, rest := ReadKekId(utf8, blob);
    match kekId {
      case Err(e) => r := Err(e);
      case Ok(id) =>
        ghost var k := blob[4] as int;
        if |rest| >= 14 {
          assert rest[12] == blob[17 + k] && rest[13] == blob[18 + k] && rest[..12] == blob[5 + k..17 + k];
          ghost var w := rest[12] as int * 256 + rest[13] as int;
          assert |rest| >= 26 + w ==>
            && rest[14..14 + w] == blob[19 + k..19 + k + w] && rest[14 + w..26 + w] == blob[19 + k + w..31 + k + w]
            && rest[26 + w..] == blob[31 + k + w..];
        }
        r := ReadEnvelope(id, rest);
    }
  }

  /** Reads a blob: it succeeds exactly on the blobs of well-formed secrets, and then it returns that secret. */
  method FromBlob(utf8: Bytes -> bool, blob: Bytes) returns (r: Result<SealedSecret>)
    ensures r.Ok? ==> WellFormed(utf8, r.value) && Blob(r.value) == blob
    ensures r.Err? ==> forall s | WellFormed(utf8, s) :: Blob(s) != blob
  {
    hide Blob, WellFormed, CanCut, Cut;
    r := ReadBlob(utf8, blob);
    if r.Ok? {
      BlobOfCut(utf8, blob);
    } else {
      forall s | WellFormed(utf8, s) ensures Blob(s) != blob { CutOfBlob(utf8, s); }
    }
  }

  // ----- sealing and opening -----

  /** AES-256-GCM: key, nonce, associated data, message. Nothing is assumed of what it does
      with anything it did not encrypt. */
  datatype Cipher = Cipher(
    encrypt: (Bytes, Bytes, Bytes, Bytes) -> Bytes,
    decrypt: (Bytes, Bytes, Bytes, Bytes) -> Option<Bytes>)

  ghost predicate Correct(c: Cipher) {
    forall k, n, a, m ::
      |c.encrypt(k, n, a, m)| == |m| + TAG_LEN && c.decrypt(k, n, a, c.encrypt(k, n, a, m)) == Some(m)
  }

  datatype MasterKey = MasterKey(kek: Bytes, kekId: Bytes, fingerprintKey: Bytes)

  /** The random values of one sealing. */
  datatype Randomness = Randomness(dek: Bytes, nonce: Bytes, dekNonce: Bytes)

  ghost predicate ValidRandomness(r: Randomness) {
    |r.dek| == KEY_LEN && |r.nonce| == NONCE_LEN && |r.dekNonce| == NONCE_LEN
  }

  function SealWith(c: Cipher, mk: MasterKey, plaintext: Bytes, aad: Aad, r: Randomness): SealedSecret {
    SealedSecret(mk.kekId, c.encrypt(mk.kek, r.dekNonce, aad.dek, r.dek), r.dekNonce,
                 c.encrypt(r.dek, r.nonce, aad.secret, plaintext), r.nonce)
  }

  function OpenWith(c: Cipher, mk: MasterKey, s: SealedSecret, aad: Aad): Result<Bytes> {
    if s.kekId != mk.kekId then Err(KekMismatch(mk.kekId, s.kekId))
    else if |s.dekNonce| != NONCE_LEN then Err(DekNonceLength)
    else if |s.nonce| != NONCE_LEN then Err(NonceLength)
    else match c.decrypt(mk.kek, s.dekNonce, aad.dek, s.wrappedDek)
      case None => Err(Decrypt)
      case Some(dek) =>
        if |dek| != KEY_LEN then Err(DekLength)
        else match c.decrypt(dek, s.nonce, aad.secret, s.ciphertext)
          case None => Err(Decrypt)
          case Some(plaintext) => Ok(plaintext)
  }

  /** The cipher opens, under other associated data, what it encrypted: the failure AES-GCM is trusted not to show. */
  ghost predicate Forges(c: Cipher, key: Bytes, nonce: Bytes, sealed: Bytes, other: Bytes, message: Bytes) {
    sealed != other && c.decrypt(key, nonce, other, c.encrypt(key, nonce, sealed, message)).Some?
  }

  /** Opening gives the plaintext back for the same owner or binding; for any other it fails, or shows a forgery of the wrapped DEK. */
  lemma OpensForItsSubjectOnly(c: Cipher, mk: MasterKey, plaintext: Bytes, s: Subject, t: Subject, r: Randomness)
    requires Correct(c) && ValidRandomness(r) && FitsPrefix(s) && FitsPrefix(t)
    ensures var got := OpenWith(c, mk, SealWith(c, mk, plaintext, AadOf(s), r), AadOf(t));
            && (s == t ==> got == Ok(plaintext))
            && (s != t && got.Ok? ==>
                Forges(c, mk.kek, r.dekNonce, AssociatedData(s, Dek), AssociatedData(t, Dek), r.dek))
  {
    hide AssociatedData, FitsPrefix;
    if s != t && AssociatedData(s, Dek) == AssociatedData(t, Dek) {
      AssociatedDataDetermines(s, Dek, t, Dek);
    }
  }

  /** An envelope opens exactly when its DEK does under the KEK and then the secret under that DEK, each with its own associated
      data: nothing else in it can give a plaintext. */
  lemma OpensIffBothLayersDo(c: Cipher, mk: MasterKey, s: SealedSecret, aad: Aad, plaintext: Bytes)
    ensures OpenWith(c, mk, s, aad) == Ok(plaintext) <==>
            && s.kekId == mk.kekId && |s.dekNonce| == 12 && |s.nonce| == 12
            && exists dek | |dek| == 32 :: c.decrypt(mk.kek, s.dekNonce, aad.dek, s.wrappedDek) == Some(dek)
                                           && c.decrypt(dek, s.nonce, aad.secret, s.ciphertext) == Some(plaintext)
  {
  }

  /** Whatever is changed in an envelope, or in the data it is opened with, opening fails, or the cipher accepts what it did not
      encrypt so: another wrapped DEK under the KEK, or another ciphertext under the DEK that was sealed. */
  lemma TamperingIsDetected(c: Cipher, mk: MasterKey, plaintext: Bytes, aad: Aad, r: Randomness, s: SealedSecret, other: Aad)
    requires Correct(c) && ValidRandomness(r) && OpenWith(c, mk, s, other).Ok?
    ensures var sealed := SealWith(c, mk, plaintext, aad, r);
            || (s == sealed && other == aad)
            || ((s.dekNonce, other.dek, s.wrappedDek) != (sealed.dekNonce, aad.dek, sealed.wrappedDek)
                && c.decrypt(mk.kek, s.dekNonce, other.dek, s.wrappedDek).Some?)
            || ((s.nonce, other.secret, s.ciphertext) != (sealed.nonce, aad.secret, sealed.ciphertext)
                && c.decrypt(r.dek, s.nonce, other.secret, s.ciphertext).Some?)
  {
    var sealed := SealWith(c, mk, plaintext, aad, r);
    if (s.dekNonce, other.dek, s.wrappedDek) == (sealed.dekNonce, aad.dek, sealed.wrappedDek) {
      assert c.decrypt(mk.kek, r.dekNonce, aad.dek, c.encrypt(mk.kek, r.dekNonce, aad.dek, r.dek)) == Some(r.dek);
    }
  }

  method SealData(c: Cipher, mk: MasterKey, plaintext: Bytes, binding: DataBinding, r: Randomness) returns (blob: Result<Bytes>)
    requires Correct(c) && ValidRandomness(r)
    ensures blob == if |mk.kekId| < 256 then Ok(Blob(SealWith(c, mk, plaintext, AadOf(OfData(binding)), r))) else Err(KekIdTooLong)
  {
    hide AadOf, Blob;
    var sealed := SealWith(c, mk, plaintext, AadOf(OfData(binding)), r);
    blob := ToBlob(sealed);
  }

  method OpenData(c: Cipher, mk: MasterKey, utf8: Bytes -> bool, blob: Bytes, binding: DataBinding) returns (r: Result<Bytes>)
    ensures forall s | WellFormed(utf8, s) && Blob(s) == blob :: r == OpenWith(c, mk, s, AadOf(OfData(binding)))
    ensures (forall s | WellFormed(utf8, s) :: Blob(s) != blob) ==> r.Err?
  {
    hide AadOf, Blob, WellFormed, OpenWith;
    var parsed := FromBlob(utf8, blob);
    match parsed
    case Err(e) => r := Err(e);
    case Ok(sealed) =>
      forall s | WellFormed(utf8, s) && Blob(s) == blob ensures s == sealed { BlobDetermines(utf8, s, sealed); }
      r := OpenWith(c, mk, sealed, AadOf(OfData(binding)));
  }

  /** Sealed data opens under its own binding, and under no other without a forgery. */
  method SealThenOpen(c: Cipher, mk: MasterKey, utf8: Bytes -> bool, plaintext: Bytes, sealedFor: DataBinding, openedFor: DataBinding, r: Randomness)
    returns (got: Result<Bytes>)
    requires Correct(c) && ValidRandomness(r) && |mk.kekId| < 256 && utf8(mk.kekId)
    requires FitsPrefix(OfData(sealedFor)) && FitsPrefix(OfData(openedFor))
    ensures sealedFor == openedFor ==> got == Ok(plaintext)
    ensures sealedFor != openedFor && got.Ok? ==>
              Forges(c, mk.kek, r.dekNonce, AssociatedData(OfData(sealedFor), Dek), AssociatedData(OfData(openedFor), Dek), r.dek)
  {
    hide AadOf, Blob, AssociatedData, OpenWith;
    var blob := SealData(c, mk, plaintext, sealedFor, r);
    ghost var sealed := SealWith(c, mk, plaintext, AadOf(OfData(sealedFor)), r);
    assert WellFormed(utf8, sealed);
    OpensForItsSubjectOnly(c, mk, plaintext, OfData(sealedFor), OfData(openedFor), r);
    got := OpenData(c, mk, utf8, blob.value, openedFor);
  }

  // ----- request fingerprints -----

  /** Different field lists are different inputs to the keyed hash, however they are split. */
  lemma {:induction false} FingerprintInputDetermines(a: seq<Bytes>, b: seq<Bytes>)
    requires (forall f | f in a :: Fits64(f)) && (forall f | f in b :: Fits64(f))
    requires AllLengthPrefixed(a) == AllLengthPrefixed(b)
    ensures a == b
  {
    hide LengthPrefixed, Fits64;
    if a != [] && b != [] {
      LengthPrefixedCancel(a[0], AllLengthPrefixed(a[1..]), b[0], AllLengthPrefixed(b[1..]));
      FingerprintInputDetermines(a[1..], b[1..]);
      assert a == [a[0]] + a[1..] && b == [b[0]] + b[1..];
    } else {
      LengthPrefixedNotEmpty(a);
      LengthPrefixedNotEmpty(b);
    }
  }

  lemma LengthPrefixedNotEmpty(a: seq<Bytes>)
    ensures AllLengthPrefixed(a) == [] ==> a == []
  {
  }
}
