/**
 * The health-data codec: an encryption service built once from a master
 * secret, null-passing `encrypt`/`decrypt` wrappers and their boolean and
 * decimal helpers, and the two profile transformers that move sensitive
 * fields to `<field>_encrypted` and back.
 *
 * Fernet (AES-CBC with HMAC-SHA256) and PBKDF2-HMAC-SHA256 are foreign. A
 * key is identified by its derivation inputs, and a ciphertext is either a
 * token made by `FernetEncrypt` (recording key, nonce and plaintext) or any
 * other text; only a token made under the same key decrypts.
 */
module Encryption {
  import opened Wrappers
  import opened TextFormats

  const FIXED_SALT: string := "nuca-v1-fixed-salt"
  const KDF_ITERATIONS: nat := 390000
  const KEY_LENGTH: nat := 32

  /** A key derived by PBKDF2-HMAC-SHA256 (RFC 8018 section 5.2), named by its inputs. */
  datatype Key = Pbkdf2HmacSha256(secret: string, salt: string, iterations: nat, length: nat)

  /** Deterministic: a fixed salt, 390000 iterations, 32 bytes. */
  function DeriveKey(secret: string): Key
  {
    Pbkdf2HmacSha256(secret, FIXED_SALT, KDF_ITERATIONS, KEY_LENGTH)
  }

  /** Fernet's per-call randomness (IV and timestamp), supplied from outside. */
  type Nonce = nat

  /**
   * A text handed to the cipher for decryption: a token that Fernet produced,
   * or any other text (tampered, forged, produced elsewhere).
   */
  datatype Ciphertext = Token(key: Key, nonce: Nonce, plaintext: string) | Forged(text: string)

  /** Fernet's `InvalidToken`, and the `ValueError` of the plaintext parsers. */
  datatype CodecError = InvalidToken | ValueError

  /** `Fernet(key).encrypt` */
  function FernetEncrypt(key: Key, nonce: Nonce, plaintext: string): Ciphertext
  {
    Token(key, nonce, plaintext)
  }

  /** `Fernet(key).decrypt`: exactly the texts `FernetEncrypt` made under this key open. */
  function FernetDecrypt(key: Key, c: Ciphertext): (r: Result<string, CodecError>)
    ensures r.Success? <==> exists n: Nonce, p: string :: c == FernetEncrypt(key, n, p)
    ensures r.Success? ==> c == FernetEncrypt(key, c.nonce, r.value)
    ensures r.Failure? ==> r.error == InvalidToken
  {
    if c.Token? && c.key == key then
      assert c == FernetEncrypt(key, c.nonce, c.plaintext);
      Success(c.plaintext)
    else
      assert forall n: Nonce, p: string :: c != FernetEncrypt(key, n, p);
      Failure(InvalidToken)
  }

  /**
   * `EncryptionService`: holds the cipher for the derived key, set once at
   * construction and never changed.
   */
  datatype EncryptionService = EncryptionService(key: Key)
  {
    /** `encrypt`: None passes through without touching the cipher. */
    function Encrypt(data: Option<string>, nonce: Nonce): (r: Option<Ciphertext>)
      ensures data.None? <==> r.None?
      ensures data.Some? ==> FernetDecrypt(key, r.value) == Success(data.value)
    {
      if data.None? then None else Some(FernetEncrypt(key, nonce, data.value))
    }

    /** `decrypt`: None passes through; the cipher's error propagates unchanged. */
    function Decrypt(data: Option<Ciphertext>): (r: Result<Option<string>, CodecError>)
      ensures data.None? ==> r == Success(None)
      ensures data.Some? ==> (r.Success? <==> data.value.Token? && data.value.key == key)
      ensures data.Some? && r.Success? ==> r.value == Some(data.value.plaintext)
      ensures r.Failure? ==> r.error == InvalidToken
    {
      if data.None? then Success(None)
      else
        match FernetDecrypt(key, data.value)
        case Success(p) => Success(Some(p))
        case Failure(e) => Failure(e)
    }

    /** `decrypt_boolean`: any plaintext reads as a boolean; only the cipher can fail. */
    function DecryptBoolean(data: Option<Ciphertext>): (r: Result<Option<bool>, CodecError>)
      ensures data.None? ==> r == Success(None)
      ensures data.Some? ==> (r.Success? <==> Decrypt(data).Success?)
      ensures data.Some? && r.Success? ==> r.value == Some(ParseBool(Decrypt(data).value.value))
      ensures r.Failure? ==> r.error == InvalidToken
    {
      if data.None? then Success(None)
      else
        match Decrypt(data)
        case Failure(e) => Failure(e)
        case Success(text) => Success(Some(ParseBool(text.value)))
    }

    /** `encrypt_boolean`: stores `str(b)`. */
    function EncryptBoolean(value: Option<bool>, nonce: Nonce): (r: Option<Ciphertext>)
      ensures value.None? <==> r.None?
      ensures DecryptBoolean(r) == Success(value)
    {
      if value.None? then None
      else
        var r := Encrypt(Some(BoolText(value.value)), nonce);
        BoolTextRoundTrip(value.value);
        r
    }

    /** `decrypt_decimal`: `float` of the plaintext; a plaintext it cannot read is a `ValueError`. */
    function DecryptDecimal(data: Option<Ciphertext>): (r: Result<Option<Decimal>, CodecError>)
      ensures data.None? ==> r == Success(None)
      ensures data.Some? && r.Success? ==>
        && Decrypt(data).Success?
        && r.value.Some? && ParseDecimal(Decrypt(data).value.value) == Some(r.value.value)
        && WellFormedDecimal(r.value.value)
      ensures Decrypt(data).Failure? ==> r == Failure(InvalidToken)
      ensures data.Some? && Decrypt(data).Success? ==>
        (r.Failure? <==> ParseDecimal(Decrypt(data).value.value).None?) && (r.Failure? ==> r.error == ValueError)
    {
      if data.None? then Success(None)
      else
        match Decrypt(data)
        case Failure(e) => Failure(e)
        case Success(text) =>
          match ParseDecimal(text.value)
          case None => Failure(ValueError)
          case Some(d) => Success(Some(d))
    }

    /** `encrypt_decimal`: stores `str(x)`. */
    function EncryptDecimal(value: Option<Decimal>, nonce: Nonce): (r: Option<Ciphertext>)
      ensures value.None? <==> r.None?
      ensures value.Some? && WellFormedDecimal(value.value) ==> DecryptDecimal(r) == Success(value)
    {
      if value.None? then None
      else
        var r := Encrypt(Some(DecimalText(value.value)), nonce);
        if WellFormedDecimal(value.value) then DecimalTextRoundTrip(value.value); r else r
    }
  }

  /**
   * `EncryptionService.__init__`: the key is derived from the secret with a
   * fixed salt, 390000 iterations and 32 bytes, and the service opens
   * everything it seals (`SameSecretInterop`: so does every other service
   * built from the same secret).
   */
  function NewEncryptionService(secret: string): (svc: EncryptionService)
    ensures svc.key == Pbkdf2HmacSha256(secret, FIXED_SALT, KDF_ITERATIONS, KEY_LENGTH)
    ensures forall n: Nonce, p: string :: svc.Decrypt(svc.Encrypt(Some(p), n)) == Success(Some(p))
  {
    EncryptionService(DeriveKey(secret))
  }

  // ---------------------------------------------------------------------
  // Profile dictionaries
  // ---------------------------------------------------------------------

  /** A value of a profile dictionary or a stored profile attribute. */
  datatype Value =
    | Null
    | Bool(b: bool)
    | Number(d: Decimal)
    | Day(date: Date)
    | Text(s: string)
    | Cipher(c: Ciphertext)

  predicate IsZeroDecimal(d: Decimal)
  {
    d.whole == 0 && forall i :: 0 <= i < |d.fraction| ==> d.fraction[i] == 0
  }

  /** Python truthiness; a token is never the empty text. */
  predicate Truthy(v: Value)
  {
    match v
    case Null => false
    case Bool(b) => b
    case Number(d) => !IsZeroDecimal(d)
    case Day(_) => true
    case Text(s) => s != ""
    case Cipher(c) => c.Token? || c.text != ""
  }

  const DATE_OF_BIRTH: string := "date_of_birth"
  const HEIGHT_CM: string := "height_cm"
  const WEIGHT_KG: string := "weight_kg"
  const HEALTH_FLAGS: seq<string> :=
    ["has_hypertension", "has_diabetes", "has_heart_disease", "has_kidney_disease", "is_pregnant"]
  const SENSITIVE_KEYS: seq<string> := [DATE_OF_BIRTH, HEIGHT_CM, WEIGHT_KG] + HEALTH_FLAGS

  function SensitiveSet(): set<string>
  {
    set k | k in SENSITIVE_KEYS
  }

  /** `f"{key}_encrypted"` */
  function EncryptedKey(k: string): string
  {
    k + "_encrypted"
  }

  lemma EncryptedKeyDistinct(a: string, b: string)
    requires a != b
    ensures EncryptedKey(a) != EncryptedKey(b)
  {
    if |a| == |b| {
      assert EncryptedKey(a)[..|a|] == a && EncryptedKey(b)[..|b|] == b;
    }
  }

  /** No sensitive key is itself of the form `<key>_encrypted`: they all end in another letter. */
  lemma EncryptedKeyNotSensitive(a: string)
    ensures EncryptedKey(a) !in SENSITIVE_KEYS
  {
    var e := EncryptedKey(a);
    assert e[|e| - 1] == 'd';
  }

  /**
   * Whether `encrypt_profile_health_data` encrypts field k: the date of birth
   * when it is truthy, every other field when it is not None.
   */
  predicate Encrypts(profile: map<string, Value>, k: string)
  {
    k in profile && (if k == DATE_OF_BIRTH then Truthy(profile[k]) else profile[k] != Null)
  }

  /** The type each field needs for its encoding: a date, a float, or a bool. */
  predicate FieldTyped(k: string, v: Value)
  {
    if k == DATE_OF_BIRTH then v.Day? && ValidDate(v.date)
    else if k == HEIGHT_CM || k == WEIGHT_KG then v.Number? && WellFormedDecimal(v.d)
    else v.Bool?
  }

  /** What the request schema guarantees of the fields that get encrypted. */
  predicate WellTypedProfile(profile: map<string, Value>)
  {
    forall k :: k in SENSITIVE_KEYS && Encrypts(profile, k) ==> FieldTyped(k, profile[k])
  }

  /** The ciphertext stored for field k: isoformat, `str(float)` or `str(bool)` under the cipher. */
  function EncodeField(svc: EncryptionService, k: string, v: Value, nonce: Nonce): Ciphertext
    requires FieldTyped(k, v)
  {
    if k == DATE_OF_BIRTH then svc.Encrypt(Some(IsoFormat(v.date)), nonce).value
    else if k == HEIGHT_CM || k == WEIGHT_KG then svc.EncryptDecimal(Some(v.d), nonce).value
    else svc.EncryptBoolean(Some(v.b), nonce).value
  }

  /** Reading field k back from its ciphertext: fromisoformat, float or the boolean test. */
  function DecodeField(svc: EncryptionService, k: string, c: Ciphertext): (r: Result<Value, CodecError>)
    ensures r.Success? ==> svc.Decrypt(Some(c)).Success?
    ensures svc.Decrypt(Some(c)).Failure? ==> r == Failure(InvalidToken)
    ensures k == DATE_OF_BIRTH && svc.Decrypt(Some(c)).Success? ==>
      var p := svc.Decrypt(Some(c)).value.value;
      && (r.Success? <==> FromIsoFormat(p).Some?)
      && (r.Failure? ==> r.error == ValueError)
      && (FromIsoFormat(p).Some? ==> r == Success(Day(FromIsoFormat(p).value)))
    ensures (k == HEIGHT_CM || k == WEIGHT_KG) && svc.Decrypt(Some(c)).Success? ==>
      var p := svc.Decrypt(Some(c)).value.value;
      && (r.Success? <==> ParseDecimal(p).Some?)
      && (r.Failure? ==> r.error == ValueError)
      && (ParseDecimal(p).Some? ==> r == Success(Number(ParseDecimal(p).value)))
    ensures k != DATE_OF_BIRTH && k != HEIGHT_CM && k != WEIGHT_KG && svc.Decrypt(Some(c)).Success? ==>
      r == Success(Bool(ParseBool(svc.Decrypt(Some(c)).value.value)))
  {
    if k == DATE_OF_BIRTH then
      match svc.Decrypt(Some(c))
      case Failure(e) => Failure(e)
      case Success(text) =>
        match FromIsoFormat(text.value)
        case None => Failure(ValueError)
        case Some(d) => Success(Day(d))
    else if k == HEIGHT_CM || k == WEIGHT_KG then
      match svc.DecryptDecimal(Some(c))
      case Failure(e) => Failure(e)
      case Success(x) => Success(Number(x.value))
    else
      match svc.DecryptBoolean(Some(c))
      case Failure(e) => Failure(e)
      case Success(b) => Success(Bool(b.value))
  }

  /** Every well-typed field value survives encoding and decoding under the same service. */
  lemma FieldRoundTrip(svc: EncryptionService, k: string, v: Value, nonce: Nonce)
    requires FieldTyped(k, v)
    ensures DecodeField(svc, k, EncodeField(svc, k, v, nonce)) == Success(v)
  {
    if k == DATE_OF_BIRTH {
      IsoFormatRoundTrip(v.date);
    }
  }

  // ---------------------------------------------------------------------
  // encrypt_profile_health_data
  // ---------------------------------------------------------------------

  /** The entry stored under `<k>_encrypted`. */
  function SealedValue(svc: EncryptionService, profile: map<string, Value>, iv: string -> Nonce, k: string): Value
    requires WellTypedProfile(profile) && k in SENSITIVE_KEYS && Encrypts(profile, k)
  {
    Cipher(EncodeField(svc, k, profile[k], iv(k)))
  }

  /** The date of birth, height and weight are three distinct sensitive fields. */
  lemma OtherSensitiveFields()
    ensures DATE_OF_BIRTH in SENSITIVE_KEYS && HEIGHT_CM in SENSITIVE_KEYS && WEIGHT_KG in SENSITIVE_KEYS
    ensures DATE_OF_BIRTH != HEIGHT_CM && DATE_OF_BIRTH != WEIGHT_KG && HEIGHT_CM != WEIGHT_KG
  {
    assert HEIGHT_CM[0] != WEIGHT_KG[0];
  }

  /** Each health flag is a sensitive field other than the date of birth, height and weight. */
  lemma FlagFacts(i: nat)
    requires i < |HEALTH_FLAGS|
    ensures HEALTH_FLAGS[i] == SENSITIVE_KEYS[3 + i] && HEALTH_FLAGS[i] in SENSITIVE_KEYS
    ensures HEALTH_FLAGS[i] != DATE_OF_BIRTH && HEALTH_FLAGS[i] != HEIGHT_CM && HEALTH_FLAGS[i] != WEIGHT_KG
  {
  }

  /**
   * One statement group of `encrypt_profile_health_data`: if field k passes
   * its gate, its ciphertext goes under `<k>_encrypted` and k is deleted.
   */
  function SealIf(svc: EncryptionService, profile: map<string, Value>, iv: string -> Nonce, m: map<string, Value>, k: string)
    : map<string, Value>
    requires WellTypedProfile(profile) && k in SENSITIVE_KEYS
  {
    if Encrypts(profile, k) then m[EncryptedKey(k) := SealedValue(svc, profile, iv, k)] - {k} else m
  }

  /** `encrypt_profile_health_data` as the source runs it: the first n sensitive fields, in order. */
  function EncryptInOrder(svc: EncryptionService, profile: map<string, Value>, iv: string -> Nonce, n: nat)
    : map<string, Value>
    requires WellTypedProfile(profile) && n <= |SENSITIVE_KEYS|
  {
    if n == 0 then profile
    else SealIf(svc, profile, iv, EncryptInOrder(svc, profile, iv, n - 1), SENSITIVE_KEYS[n - 1])
  }

  /** The date of birth, height and weight come first. */
  lemma EncryptFirstThree(svc: EncryptionService, profile: map<string, Value>, iv: string -> Nonce)
    requires WellTypedProfile(profile)
    ensures DATE_OF_BIRTH in SENSITIVE_KEYS && HEIGHT_CM in SENSITIVE_KEYS && WEIGHT_KG in SENSITIVE_KEYS
    ensures EncryptInOrder(svc, profile, iv, 3) ==
      SealIf(svc, profile, iv, SealIf(svc, profile, iv, SealIf(svc, profile, iv, profile, DATE_OF_BIRTH), HEIGHT_CM), WEIGHT_KG)
  {
    assert SENSITIVE_KEYS[0] == DATE_OF_BIRTH && SENSITIVE_KEYS[1] == HEIGHT_CM && SENSITIVE_KEYS[2] == WEIGHT_KG;
    var one := SealIf(svc, profile, iv, profile, DATE_OF_BIRTH);
    assert EncryptInOrder(svc, profile, iv, 1) == one;
    assert EncryptInOrder(svc, profile, iv, 2) == SealIf(svc, profile, iv, one, HEIGHT_CM);
  }

  /** Then the five flags, in their listed order. */
  lemma EncryptNextFlag(svc: EncryptionService, profile: map<string, Value>, iv: string -> Nonce, i: nat)
    requires WellTypedProfile(profile) && i < |HEALTH_FLAGS|
    ensures HEALTH_FLAGS[i] in SENSITIVE_KEYS
    ensures EncryptInOrder(svc, profile, iv, 3 + i + 1) ==
      SealIf(svc, profile, iv, EncryptInOrder(svc, profile, iv, 3 + i), HEALTH_FLAGS[i])
  {
    assert SENSITIVE_KEYS[3 + i] == HEALTH_FLAGS[i];
  }

  /** The result of `encrypt_profile_health_data`: all eight fields handled. */
  function EncryptedProfile(svc: EncryptionService, profile: map<string, Value>, iv: string -> Nonce): map<string, Value>
    requires WellTypedProfile(profile)
  {
    EncryptInOrder(svc, profile, iv, |SENSITIVE_KEYS|)
  }

  /** Field k is among the first n and passes its gate. */
  predicate SealedBy(profile: map<string, Value>, n: nat, k: string)
    requires n <= |SENSITIVE_KEYS|
  {
    k in SENSITIVE_KEYS[..n] && Encrypts(profile, k)
  }

  /** After the first n steps, a sensitive field is gone if it has been encrypted and untouched otherwise. */
  lemma {:induction false} InOrderAtField(
    svc: EncryptionService, profile: map<string, Value>, iv: string -> Nonce, n: nat, k: string)
    requires WellTypedProfile(profile) && n <= |SENSITIVE_KEYS| && k in SENSITIVE_KEYS
    ensures SealedBy(profile, n, k) ==> k !in EncryptInOrder(svc, profile, iv, n)
    ensures !SealedBy(profile, n, k) ==>
      && (k in EncryptInOrder(svc, profile, iv, n) <==> k in profile)
      && (k in profile ==> EncryptInOrder(svc, profile, iv, n)[k] == profile[k])
  {
    if n > 0 {
      InOrderAtField(svc, profile, iv, n - 1, k);
      var j := SENSITIVE_KEYS[n - 1];
      assert SENSITIVE_KEYS[..n] == SENSITIVE_KEYS[..n - 1] + [j];
      EncryptedKeyNotSensitive(j);
    }
  }

  /**
   * After the first n steps, the `_encrypted` name of an encrypted field
   * holds its ciphertext; that of a field not yet encrypted is untouched.
   */
  lemma {:induction false} InOrderAtEncryptedName(
    svc: EncryptionService, profile: map<string, Value>, iv: string -> Nonce, n: nat, k: string)
    requires WellTypedProfile(profile) && n <= |SENSITIVE_KEYS| && k in SENSITIVE_KEYS
    ensures SealedBy(profile, n, k) ==>
      && EncryptedKey(k) in EncryptInOrder(svc, profile, iv, n)
      && EncryptInOrder(svc, profile, iv, n)[EncryptedKey(k)] == SealedValue(svc, profile, iv, k)
    ensures !SealedBy(profile, n, k) ==>
      && (EncryptedKey(k) in EncryptInOrder(svc, profile, iv, n) <==> EncryptedKey(k) in profile)
      && (EncryptedKey(k) in profile ==>
            EncryptInOrder(svc, profile, iv, n)[EncryptedKey(k)] == profile[EncryptedKey(k)])
  {
    if n > 0 {
      InOrderAtEncryptedName(svc, profile, iv, n - 1, k);
      var j := SENSITIVE_KEYS[n - 1];
      assert SENSITIVE_KEYS[..n] == SENSITIVE_KEYS[..n - 1] + [j];
      EncryptedKeyNotSensitive(k);
      if j != k {
        EncryptedKeyDistinct(j, k);
      }
    }
  }

  /** A key that is neither a sensitive field nor the `_encrypted` name of one is never touched. */
  lemma {:induction false} InOrderOther(
    svc: EncryptionService, profile: map<string, Value>, iv: string -> Nonce, n: nat, x: string)
    requires WellTypedProfile(profile) && n <= |SENSITIVE_KEYS|
    requires x !in SENSITIVE_KEYS && forall k :: k in SENSITIVE_KEYS ==> x != EncryptedKey(k)
    ensures x in EncryptInOrder(svc, profile, iv, n) <==> x in profile
    ensures x in profile ==> EncryptInOrder(svc, profile, iv, n)[x] == profile[x]
  {
    if n > 0 {
      InOrderOther(svc, profile, iv, n - 1, x);
      assert SENSITIVE_KEYS[n - 1] in SENSITIVE_KEYS;
    }
  }

  /**
   * `encrypt_profile_health_data`: copies the dictionary, then for each
   * sensitive field present (the date of birth when truthy, the others when
   * not None) stores its ciphertext under `<field>_encrypted` and deletes it.
   * The input map is a value and is not changed.
   */
  method EncryptProfileHealthData(svc: EncryptionService, profileData: map<string, Value>, iv: string -> Nonce)
    returns (encrypted: map<string, Value>)
    requires WellTypedProfile(profileData)
    ensures encrypted == EncryptInOrder(svc, profileData, iv, |SENSITIVE_KEYS|)
  {
    EncryptFirstThree(svc, profileData, iv);
    encrypted := profileData;

    ghost var before := encrypted;
    if DATE_OF_BIRTH in profileData && Truthy(profileData[DATE_OF_BIRTH]) {
      var ciphertext := svc.Encrypt(Some(IsoFormat(profileData[DATE_OF_BIRTH].date)), iv(DATE_OF_BIRTH));
      assert Cipher(ciphertext.value) == SealedValue(svc, profileData, iv, DATE_OF_BIRTH);
      encrypted := encrypted[EncryptedKey(DATE_OF_BIRTH) := Cipher(ciphertext.value)];
      encrypted := encrypted - {DATE_OF_BIRTH};
    }
    assert encrypted == SealIf(svc, profileData, iv, before, DATE_OF_BIRTH);

    before := encrypted;
    if HEIGHT_CM in profileData && profileData[HEIGHT_CM] != Null {
      var ciphertext := svc.EncryptDecimal(Some(profileData[HEIGHT_CM].d), iv(HEIGHT_CM));
      assert Cipher(ciphertext.value) == SealedValue(svc, profileData, iv, HEIGHT_CM);
      encrypted := encrypted[EncryptedKey(HEIGHT_CM) := Cipher(ciphertext.value)];
      encrypted := encrypted - {HEIGHT_CM};
    }
    assert encrypted == SealIf(svc, profileData, iv, before, HEIGHT_CM);

    before := encrypted;
    if WEIGHT_KG in profileData && profileData[WEIGHT_KG] != Null {
      var ciphertext := svc.EncryptDecimal(Some(profileData[WEIGHT_KG].d), iv(WEIGHT_KG));
      assert Cipher(ciphertext.value) == SealedValue(svc, profileData, iv, WEIGHT_KG);
      encrypted := encrypted[EncryptedKey(WEIGHT_KG) := Cipher(ciphertext.value)];
      encrypted := encrypted - {WEIGHT_KG};
    }
    assert encrypted == SealIf(svc, profileData, iv, before, WEIGHT_KG);

    for i := 0 to |HEALTH_FLAGS|
      invariant encrypted == EncryptInOrder(svc, profileData, iv, 3 + i)
    {
      var flag := HEALTH_FLAGS[i];
      FlagFacts(i);
      EncryptNextFlag(svc, profileData, iv, i);
      before := encrypted;
      if flag in profileData && profileData[flag] != Null {
        var ciphertext := svc.EncryptBoolean(Some(profileData[flag].b), iv(flag));
        assert Cipher(ciphertext.value) == SealedValue(svc, profileData, iv, flag);
        encrypted := encrypted[EncryptedKey(flag) := Cipher(ciphertext.value)];
        encrypted := encrypted - {flag};
      }
      assert encrypted == SealIf(svc, profileData, iv, before, flag);
    }
  }

  // ---------------------------------------------------------------------
  // decrypt_profile_health_data
  // ---------------------------------------------------------------------

  /** The `_encrypted` columns are text columns: empty, a string, or a token. */
  predicate StoredText(v: Value)
  {
    v.Null? || v.Text? || v.Cipher?
  }

  predicate WellStored(db: map<string, Value>)
  {
    forall k :: k in SENSITIVE_KEYS && EncryptedKey(k) in db ==> StoredText(db[EncryptedKey(k)])
  }

  /** A stored string that no Fernet call produced is just text to the cipher. */
  function StoredCiphertext(v: Value): Ciphertext
    requires v.Text? || v.Cipher?
  {
    if v.Cipher? then v.c else Forged(v.s)
  }

  /** Whether `decrypt_profile_health_data` decrypts field k: `<k>_encrypted` exists and is truthy. */
  predicate Present(db: map<string, Value>, k: string)
  {
    EncryptedKey(k) in db && Truthy(db[EncryptedKey(k)])
  }

  /** Decoding field k from the row, for a field that is present. */
  function DecodeStored(svc: EncryptionService, db: map<string, Value>, k: string): Result<Value, CodecError>
    requires WellStored(db) && k in SENSITIVE_KEYS && Present(db, k)
  {
    DecodeField(svc, k, StoredCiphertext(db[EncryptedKey(k)]))
  }

  /** One field of `decrypt_profile_health_data`: an exception ends the whole call. */
  function DecryptStep(
    svc: EncryptionService, db: map<string, Value>, prev: Result<map<string, Value>, CodecError>, k: string)
    : Result<map<string, Value>, CodecError>
    requires WellStored(db) && k in SENSITIVE_KEYS
  {
    match prev
    case Failure(e) => Failure(e)
    case Success(m) =>
      if Present(db, k) then
        match DecodeStored(svc, db, k)
        case Failure(e) => Failure(e)
        case Success(v) => Success(m[k := v])
      else Success(m)
  }

  /** The outcome of handling `keys` in order, starting from the empty dictionary. */
  function DecryptFields(svc: EncryptionService, db: map<string, Value>, keys: seq<string>)
    : Result<map<string, Value>, CodecError>
    requires WellStored(db) && forall k :: k in keys ==> k in SENSITIVE_KEYS
  {
    if keys == [] then Success(map[])
    else DecryptStep(svc, db, DecryptFields(svc, db, keys[..|keys| - 1]), keys[|keys| - 1])
  }

  /** The outcome of `decrypt_profile_health_data`; a raised exception is the `Failure`. */
  function DecryptedProfile(svc: EncryptionService, db: map<string, Value>): Result<map<string, Value>, CodecError>
    requires WellStored(db)
  {
    DecryptFields(svc, db, SENSITIVE_KEYS)
  }

  lemma DecryptFieldsPrefix(svc: EncryptionService, db: map<string, Value>, keys: seq<string>, j: nat)
    requires WellStored(db) && forall k :: k in keys ==> k in SENSITIVE_KEYS
    requires j < |keys|
    ensures DecryptFields(svc, db, keys[..j + 1]) == DecryptStep(svc, db, DecryptFields(svc, db, keys[..j]), keys[j])
  {
    assert keys[..j + 1][..j] == keys[..j];
  }

  /** The date of birth, height and weight are decrypted first. */
  lemma DecryptFirstThree(svc: EncryptionService, db: map<string, Value>)
    requires WellStored(db)
    ensures DATE_OF_BIRTH in SENSITIVE_KEYS && HEIGHT_CM in SENSITIVE_KEYS && WEIGHT_KG in SENSITIVE_KEYS
    ensures DecryptFields(svc, db, SENSITIVE_KEYS[..3]) ==
      DecryptStep(svc, db, DecryptStep(svc, db, DecryptStep(svc, db, Success(map[]), DATE_OF_BIRTH), HEIGHT_CM), WEIGHT_KG)
  {
    OtherSensitiveFields();
    assert SENSITIVE_KEYS[..3] == [DATE_OF_BIRTH, HEIGHT_CM, WEIGHT_KG];
    DecryptFieldsPrefix(svc, db, SENSITIVE_KEYS, 0);
    DecryptFieldsPrefix(svc, db, SENSITIVE_KEYS, 1);
    DecryptFieldsPrefix(svc, db, SENSITIVE_KEYS, 2);
  }

  /** Then the five flags, in their listed order. */
  lemma DecryptNextFlag(svc: EncryptionService, db: map<string, Value>, i: nat)
    requires WellStored(db) && i < |HEALTH_FLAGS|
    ensures HEALTH_FLAGS[i] in SENSITIVE_KEYS
    ensures DecryptFields(svc, db, SENSITIVE_KEYS[..3 + i + 1]) ==
      DecryptStep(svc, db, DecryptFields(svc, db, SENSITIVE_KEYS[..3 + i]), HEALTH_FLAGS[i])
  {
    DecryptFieldsPrefix(svc, db, SENSITIVE_KEYS, 3 + i);
  }

  /** Once a field has raised, the call ends with that exception. */
  lemma {:induction false} FailureIsFinal(svc: EncryptionService, db: map<string, Value>, keys: seq<string>, j: nat)
    requires WellStored(db) && forall k :: k in keys ==> k in SENSITIVE_KEYS
    requires j <= |keys| && DecryptFields(svc, db, keys[..j]).Failure?
    ensures DecryptFields(svc, db, keys) == DecryptFields(svc, db, keys[..j])
    decreases |keys| - j
  {
    if j < |keys| {
      DecryptFieldsPrefix(svc, db, keys, j);
      FailureIsFinal(svc, db, keys, j + 1);
    } else {
      assert keys[..j] == keys;
    }
  }

  /** The date-of-birth block of `decrypt_profile_health_data`. */
  method DecryptDateOfBirth(svc: EncryptionService, profileDb: map<string, Value>, decrypted: map<string, Value>)
    returns (r: Result<map<string, Value>, CodecError>)
    requires WellStored(profileDb)
    ensures r == DecryptStep(svc, profileDb, Success(decrypted), DATE_OF_BIRTH)
  {
    var attr := EncryptedKey(DATE_OF_BIRTH);
    if attr in profileDb && Truthy(profileDb[attr]) {
      var dobStr := svc.Decrypt(Some(StoredCiphertext(profileDb[attr])));
      if dobStr.Failure? {
        return Failure(dobStr.error);
      }
      var dob := FromIsoFormat(dobStr.value.value);
      if dob.None? {
        return Failure(ValueError);
      }
      return Success(decrypted[DATE_OF_BIRTH := Day(dob.value)]);
    }
    return Success(decrypted);
  }

  /** The height and weight blocks: `decrypt_decimal` on `<field>_encrypted`. */
  method DecryptMeasurement(
    svc: EncryptionService, profileDb: map<string, Value>, decrypted: map<string, Value>, field: string)
    returns (r: Result<map<string, Value>, CodecError>)
    requires WellStored(profileDb) && (field == HEIGHT_CM || field == WEIGHT_KG) && field in SENSITIVE_KEYS
    ensures r == DecryptStep(svc, profileDb, Success(decrypted), field)
  {
    var attr := EncryptedKey(field);
    if attr in profileDb && Truthy(profileDb[attr]) {
      var measurement := svc.DecryptDecimal(Some(StoredCiphertext(profileDb[attr])));
      if measurement.Failure? {
        return Failure(measurement.error);
      }
      return Success(decrypted[field := Number(measurement.value.value)]);
    }
    return Success(decrypted);
  }

  /** One turn of the health-flag loop: `decrypt_boolean` on `<flag>_encrypted`. */
  method DecryptFlag(
    svc: EncryptionService, profileDb: map<string, Value>, decrypted: map<string, Value>, flag: string)
    returns (r: Result<map<string, Value>, CodecError>)
    requires WellStored(profileDb) && flag in HEALTH_FLAGS && flag in SENSITIVE_KEYS
    ensures r == DecryptStep(svc, profileDb, Success(decrypted), flag)
  {
    var encryptedAttr := EncryptedKey(flag);
    if encryptedAttr in profileDb {
      var encryptedValue := profileDb[encryptedAttr];
      if Truthy(encryptedValue) {
        var b := svc.DecryptBoolean(Some(StoredCiphertext(encryptedValue)));
        if b.Failure? {
          return Failure(b.error);
        }
        return Success(decrypted[flag := Bool(b.value.value)]);
      }
    }
    return Success(decrypted);
  }

  /**
   * `decrypt_profile_health_data`: a fresh dictionary holding, for each
   * sensitive field whose `_encrypted` attribute exists and is truthy, the
   * decrypted and parsed value; a cipher or parse error propagates.
   */
  method DecryptProfileHealthData(svc: EncryptionService, profileDb: map<string, Value>)
    returns (r: Result<map<string, Value>, CodecError>)
    requires WellStored(profileDb)
    ensures r == DecryptedProfile(svc, profileDb)
  {
    DecryptFirstThree(svc, profileDb);
    r := DecryptDateOfBirth(svc, profileDb, map[]);
    if r.Failure? {
      FailureIsFinal(svc, profileDb, SENSITIVE_KEYS, 3);
      return;
    }
    r := DecryptMeasurement(svc, profileDb, r.value, HEIGHT_CM);
    if r.Failure? {
      FailureIsFinal(svc, profileDb, SENSITIVE_KEYS, 3);
      return;
    }
    r := DecryptMeasurement(svc, profileDb, r.value, WEIGHT_KG);
    if r.Failure? {
      FailureIsFinal(svc, profileDb, SENSITIVE_KEYS, 3);
      return;
    }

    for i := 0 to |HEALTH_FLAGS|
      invariant r.Success? && DecryptFields(svc, profileDb, SENSITIVE_KEYS[..3 + i]) == r
    {
      FlagFacts(i);
      DecryptNextFlag(svc, profileDb, i);
      r := DecryptFlag(svc, profileDb, r.value, HEALTH_FLAGS[i]);
      if r.Failure? {
        FailureIsFinal(svc, profileDb, SENSITIVE_KEYS, 3 + i + 1);
        return;
      }
    }
    assert SENSITIVE_KEYS[..3 + |HEALTH_FLAGS|] == SENSITIVE_KEYS;
  }

  // ---------------------------------------------------------------------
  // Properties
  // ---------------------------------------------------------------------

  /**
   * Decryption succeeds exactly when every present field decodes; it then
   * holds exactly the present fields, each with its decoded value. There is
   * no partially filled result.
   */
  lemma {:induction false} DecryptFieldsMeaning(svc: EncryptionService, db: map<string, Value>, keys: seq<string>)
    requires WellStored(db) && forall k :: k in keys ==> k in SENSITIVE_KEYS
    ensures DecryptFields(svc, db, keys).Success?
      <==> forall k :: k in keys && Present(db, k) ==> DecodeStored(svc, db, k).Success?
    ensures DecryptFields(svc, db, keys).Success? ==>
      && DecryptFields(svc, db, keys).value.Keys == (set k | k in keys && Present(db, k))
      && forall k :: k in DecryptFields(svc, db, keys).value ==>
           DecodeStored(svc, db, k) == Success(DecryptFields(svc, db, keys).value[k])
  {
    if keys != [] {
      var init, last := keys[..|keys| - 1], keys[|keys| - 1];
      assert keys == init + [last];
      DecryptFieldsMeaning(svc, db, init);
      var m := DecryptFields(svc, db, init);
      if m.Success? && Present(db, last) && DecodeStored(svc, db, last).Success? {
        assert DecryptFields(svc, db, keys).value.Keys == m.value.Keys + {last};
      }
    }
  }

  /** One failing field makes the whole call fail, whatever the others hold. */
  lemma OneBadFieldFailsAll(svc: EncryptionService, db: map<string, Value>, k: string)
    requires WellStored(db) && k in SENSITIVE_KEYS && Present(db, k)
    requires DecodeStored(svc, db, k).Failure?
    ensures DecryptedProfile(svc, db).Failure?
  {
    DecryptFieldsMeaning(svc, db, SENSITIVE_KEYS);
  }

  /** What happens to one sensitive field k under `encrypt_profile_health_data`. */
  lemma EncryptedProfileAt(svc: EncryptionService, profile: map<string, Value>, iv: string -> Nonce, k: string)
    requires WellTypedProfile(profile) && k in SENSITIVE_KEYS
    ensures Encrypts(profile, k) ==>
      && k !in EncryptedProfile(svc, profile, iv)
      && EncryptedKey(k) in EncryptedProfile(svc, profile, iv)
      && EncryptedProfile(svc, profile, iv)[EncryptedKey(k)] == Cipher(EncodeField(svc, k, profile[k], iv(k)))
    ensures !Encrypts(profile, k) ==>
      && (k in EncryptedProfile(svc, profile, iv) <==> k in profile)
      && (k in profile ==> EncryptedProfile(svc, profile, iv)[k] == profile[k])
      && (EncryptedKey(k) in EncryptedProfile(svc, profile, iv) <==> EncryptedKey(k) in profile)
      && (EncryptedKey(k) in profile ==>
            EncryptedProfile(svc, profile, iv)[EncryptedKey(k)] == profile[EncryptedKey(k)])
  {
    InOrderAtField(svc, profile, iv, |SENSITIVE_KEYS|, k);
    InOrderAtEncryptedName(svc, profile, iv, |SENSITIVE_KEYS|, k);
    assert SENSITIVE_KEYS[..|SENSITIVE_KEYS|] == SENSITIVE_KEYS;
  }

  /** Keys outside the sensitive fields and their `_encrypted` names pass through unchanged. */
  lemma NonSensitivePassThrough(svc: EncryptionService, profile: map<string, Value>, iv: string -> Nonce, x: string)
    requires WellTypedProfile(profile)
    requires x !in SENSITIVE_KEYS && forall k :: k in SENSITIVE_KEYS ==> x != EncryptedKey(k)
    ensures x in EncryptedProfile(svc, profile, iv) <==> x in profile
    ensures x in profile ==> EncryptedProfile(svc, profile, iv)[x] == profile[x]
  {
    InOrderOther(svc, profile, iv, |SENSITIVE_KEYS|, x);
  }

  /** No `<field>_encrypted` key for a sensitive field is already in the dictionary. */
  predicate FreshProfile(profile: map<string, Value>)
  {
    forall k :: k in SENSITIVE_KEYS ==> EncryptedKey(k) !in profile
  }

  /** The sensitive fields `encrypt_profile_health_data` encrypts, with their values. */
  function SealedFields(profile: map<string, Value>): map<string, Value>
  {
    map k | k in SensitiveSet() && Encrypts(profile, k) :: profile[k]
  }

  /** An encrypted profile is a well-formed row for the decryptor. */
  lemma EncryptedProfileWellStored(svc: EncryptionService, profile: map<string, Value>, iv: string -> Nonce)
    requires WellTypedProfile(profile) && FreshProfile(profile)
    ensures WellStored(EncryptedProfile(svc, profile, iv))
  {
    forall k | k in SENSITIVE_KEYS && EncryptedKey(k) in EncryptedProfile(svc, profile, iv)
      ensures StoredText(EncryptedProfile(svc, profile, iv)[EncryptedKey(k)])
    {
      EncryptedProfileAt(svc, profile, iv, k);
    }
  }

  /**
   * Round trip: decrypting what `encrypt_profile_health_data` produced, with
   * the same service, gives back exactly the fields it encrypted.
   */
  lemma EncryptThenDecrypt(svc: EncryptionService, profile: map<string, Value>, iv: string -> Nonce)
    requires WellTypedProfile(profile) && FreshProfile(profile)
    ensures WellStored(EncryptedProfile(svc, profile, iv))
    ensures DecryptedProfile(svc, EncryptedProfile(svc, profile, iv)) == Success(SealedFields(profile))
  {
    var db := EncryptedProfile(svc, profile, iv);
    var want := SealedFields(profile);
    EncryptedProfileWellStored(svc, profile, iv);
    forall k | k in SENSITIVE_KEYS
      ensures Present(db, k) <==> k in want
      ensures Present(db, k) ==> DecodeStored(svc, db, k) == Success(want[k])
    {
      EncryptedFieldDecodes(svc, profile, iv, k);
    }
    DecryptsTo(svc, db, want);
  }

  /** A row whose present fields are exactly those of `want`, each decoding to its value, decrypts to `want`. */
  lemma DecryptsTo(svc: EncryptionService, db: map<string, Value>, want: map<string, Value>)
    requires WellStored(db)
    requires forall k :: k in want ==> k in SENSITIVE_KEYS
    requires forall k :: k in SENSITIVE_KEYS ==> (Present(db, k) <==> k in want)
    requires forall k :: k in SENSITIVE_KEYS && Present(db, k) ==> DecodeStored(svc, db, k) == Success(want[k])
    ensures DecryptedProfile(svc, db) == Success(want)
  {
    DecryptFieldsMeaning(svc, db, SENSITIVE_KEYS);
    var m := DecryptedProfile(svc, db).value;
    assert m.Keys == want.Keys;
    assert m == want;
  }

  /** One sensitive field of an encrypted profile: present exactly when it was encrypted, and it decodes back. */
  lemma EncryptedFieldDecodes(svc: EncryptionService, profile: map<string, Value>, iv: string -> Nonce, k: string)
    requires WellTypedProfile(profile) && FreshProfile(profile) && k in SENSITIVE_KEYS
    requires WellStored(EncryptedProfile(svc, profile, iv))
    ensures Present(EncryptedProfile(svc, profile, iv), k) <==> Encrypts(profile, k)
    ensures Present(EncryptedProfile(svc, profile, iv), k) ==>
      DecodeStored(svc, EncryptedProfile(svc, profile, iv), k) == Success(profile[k])
  {
    EncryptedProfileAt(svc, profile, iv, k);
    if Encrypts(profile, k) {
      FieldRoundTrip(svc, k, profile[k], iv(k));
    }
  }

  /** Two services built from the same secret read each other's profiles. */
  lemma SameSecretInterop(secret: string, profile: map<string, Value>, iv: string -> Nonce)
    requires WellTypedProfile(profile) && FreshProfile(profile)
    ensures var db := EncryptedProfile(NewEncryptionService(secret), profile, iv);
      WellStored(db) && DecryptedProfile(NewEncryptionService(secret), db) == Success(SealedFields(profile))
  {
    EncryptThenDecrypt(NewEncryptionService(secret), profile, iv);
  }

  /** A service with another key cannot read a profile that has any encrypted field. */
  lemma ForeignKeyRejected(
    svc: EncryptionService, other: EncryptionService, profile: map<string, Value>, iv: string -> Nonce, k: string)
    requires WellTypedProfile(profile) && FreshProfile(profile)
    requires other.key != svc.key && k in SENSITIVE_KEYS && Encrypts(profile, k)
    ensures WellStored(EncryptedProfile(svc, profile, iv))
    ensures DecryptedProfile(other, EncryptedProfile(svc, profile, iv)) == Failure(InvalidToken)
  {
    var db := EncryptedProfile(svc, profile, iv);
    EncryptedProfileWellStored(svc, profile, iv);
    EncryptedProfileAt(svc, profile, iv, k);
    assert DecodeStored(other, db, k).Failure?;
    OneBadFieldFailsAll(other, db, k);
    forall j | j in SENSITIVE_KEYS && Present(db, j)
      ensures other.Decrypt(Some(StoredCiphertext(db[EncryptedKey(j)]))).Failure?
    {
      EncryptedProfileAt(svc, profile, iv, j);
    }
    DecryptErrorIsInvalidToken(other, db, SENSITIVE_KEYS);
  }

  /** Every error the decryptor can raise on a row of tokens is the cipher's. */
  lemma {:induction false} DecryptErrorIsInvalidToken(svc: EncryptionService, db: map<string, Value>, keys: seq<string>)
    requires WellStored(db) && forall k :: k in keys ==> k in SENSITIVE_KEYS
    requires forall k :: k in keys && Present(db, k) ==> svc.Decrypt(Some(StoredCiphertext(db[EncryptedKey(k)]))).Failure?
    ensures DecryptFields(svc, db, keys).Failure? ==> DecryptFields(svc, db, keys).error == InvalidToken
  {
    if keys != [] {
      DecryptErrorIsInvalidToken(svc, db, keys[..|keys| - 1]);
    }
  }

  /**
   * The gates differ: a date of birth that is present but falsy stays in
   * plain text, while a health flag that is False is still encrypted.
   */
  lemma GatingAsymmetry(
    svc: EncryptionService, profile: map<string, Value>, iv: string -> Nonce, flag: string)
    requires WellTypedProfile(profile) && flag in HEALTH_FLAGS
    ensures DATE_OF_BIRTH in profile && !Truthy(profile[DATE_OF_BIRTH]) ==>
      && DATE_OF_BIRTH in EncryptedProfile(svc, profile, iv)
      && EncryptedProfile(svc, profile, iv)[DATE_OF_BIRTH] == profile[DATE_OF_BIRTH]
    ensures flag in profile && profile[flag] == Bool(false) ==>
      flag !in EncryptedProfile(svc, profile, iv) && EncryptedKey(flag) in EncryptedProfile(svc, profile, iv)
  {
    OtherSensitiveFields();
    EncryptedProfileAt(svc, profile, iv, DATE_OF_BIRTH);
    EncryptedProfileAt(svc, profile, iv, flag);
  }

  /** Each call draws fresh randomness: the same plaintext gives different tokens, and both decrypt. */
  lemma FreshNoncesDistinctTokens(svc: EncryptionService, text: string, n1: Nonce, n2: Nonce)
    requires n1 != n2
    ensures svc.Encrypt(Some(text), n1) != svc.Encrypt(Some(text), n2)
    ensures svc.Decrypt(svc.Encrypt(Some(text), n1)) == svc.Decrypt(svc.Encrypt(Some(text), n2)) == Success(Some(text))
  {
  }
}
