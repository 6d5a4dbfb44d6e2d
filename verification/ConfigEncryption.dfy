/** Encrypting the sensitive leaves of a configuration document in place, and decrypting them again. */
module ConfigEncryption {
  import opened Wrappers
  import opened JsonValues
  import opened Text

  const PREFIX := "enc:"
  const NONCE_SIZE: nat := 12
  const SENSITIVE_PATTERNS := ["key", "token", "secret", "password"]

  type Bytes = seq<bv8>

  type Nonce = n: Bytes | |n| == NONCE_SIZE witness seq(NONCE_SIZE, _ => 0)

  datatype CryptoError = EncryptionFailed | DecryptionFailed | InvalidFormat

  /** The foreign pieces: the cipher under one key, the text encoding of bytes, and lower-casing. */
  datatype Crypto = Crypto(
    seal: (Nonce, string) -> Option<Bytes>,
    unseal: (Nonce, Bytes) -> Option<string>,
    encode: Bytes -> string,
    decode: string -> Option<Bytes>,
    lower: string -> string)

  /** What is assumed of them: opening inverts sealing and decoding inverts encoding. */
  ghost predicate Sound(c: Crypto) {
    && (forall n: Nonce, p: string :: c.seal(n, p).Some? ==> c.unseal(n, c.seal(n, p).value) == Some(p))
    && (forall b: Bytes :: c.decode(c.encode(b)) == Some(b))
  }

  predicate IsEncrypted(s: string) {
    PREFIX <= s
  }

  function Encrypt(c: Crypto, nonce: Nonce, plain: string): Result<string, CryptoError> {
    match c.seal(nonce, plain)
    case None => Err(EncryptionFailed)
    case Some(ciphertext) => Ok(PREFIX + c.encode(nonce + ciphertext))
  }

  function Decrypt(c: Crypto, s: string): Result<string, CryptoError> {
    if !IsEncrypted(s) then Err(InvalidFormat)
    else
      match c.decode(s[|PREFIX|..])
      case None => Err(InvalidFormat)
      case Some(combined) =>
        if |combined| < NONCE_SIZE then Err(InvalidFormat)
        else
          match c.unseal(combined[..NONCE_SIZE], combined[NONCE_SIZE..])
          case None => Err(DecryptionFailed)
          case Some(plain) => Ok(plain)
  }

  /** The prefix and the nonce framing are undone exactly. */
  lemma DecryptInvertsEncrypt(c: Crypto, nonce: Nonce, plain: string)
    requires Sound(c)
    ensures var e := Encrypt(c, nonce, plain);
            e.Ok? ==> IsEncrypted(e.value) && Decrypt(c, e.value) == Ok(plain)
  {
  }

  /**
   * A value decrypts to `plain` exactly when behind the prefix it encodes a nonce and a ciphertext
   * that open to it; if they do not open, decryption failed; anything else is malformed.
   */
  lemma DecryptMeans(c: Crypto, s: string, plain: string)
    ensures Decrypt(c, s) == Ok(plain)
            <==> exists text, n: Nonce, b: Bytes ::
                   s == "enc:" + text && c.decode(text) == Some(n + b) && c.unseal(n, b) == Some(plain)
    ensures Decrypt(c, s) == Err(DecryptionFailed)
            <==> exists text, n: Nonce, b: Bytes ::
                   s == "enc:" + text && c.decode(text) == Some(n + b) && c.unseal(n, b) == None
    ensures Decrypt(c, s).Err? && Decrypt(c, s).error != DecryptionFailed ==> Decrypt(c, s) == Err(InvalidFormat)
  {
    if IsEncrypted(s) {
      var text := s[4..];
      assert s[..4] == "enc:";
      assert s == s[..4] + text;
      if c.decode(text).Some? && |c.decode(text).value| >= 12 {
        var all := c.decode(text).value;
        var n: Nonce, b := all[..12], all[12..];
        assert all == n + b && c.decode(text) == Some(n + b);
      }
    }
    forall text, n: Nonce, b: Bytes | s == "enc:" + text && c.decode(text) == Some(n + b)
      ensures text == s[4..] && IsEncrypted(s) && n == c.decode(text).value[..12] && b == c.decode(text).value[12..]
    {
    }
  }

  // ── Documents ───────────────────────────────────────────────────

  /** Randomness: the nonce drawn at each position of the document. */
  type Nonces = seq<nat> -> Nonce

  /** How many members or items a value has. */
  function Arity(v: Json): nat {
    match v
    case Array(items) => |items|
    case Object(fields) => |fields|
    case _ => 0
  }

  function Child(v: Json, i: nat): (r: Json)
    requires i < Arity(v)
    ensures r < v
  {
    if v.Array? then v.items[i] else v.fields[i].1
  }

  /** The field name under which a member is visited; items of an array have none. */
  function FieldOf(v: Json, i: nat): Option<string>
    requires i < Arity(v)
  {
    if v.Object? then Some(v.fields[i].0) else None
  }

  function Kids(v: Json): seq<Json> {
    seq(Arity(v), i requires 0 <= i < Arity(v) => Child(v, i))
  }

  /** The same value with its members or items replaced. */
  function WithKids(v: Json, kids: seq<Json>): Json
    requires |kids| == Arity(v)
  {
    match v
    case Array(_) => Array(kids)
    case Object(fields) => Object(seq(|fields|, i requires 0 <= i < |fields| => (fields[i].0, kids[i])))
    case _ => v
  }

  lemma KidsOfWithKids(v: Json, kids: seq<Json>)
    requires |kids| == Arity(v)
    ensures var w := WithKids(v, kids);
            && Arity(w) == Arity(v) && Kids(w) == kids && (w.String? <==> v.String?)
            && (forall i :: 0 <= i < Arity(v) ==> Child(w, i) == kids[i] && FieldOf(w, i) == FieldOf(v, i))
            && WithKids(v, Kids(v)) == v
            && forall other :: |other| == Arity(v) ==> WithKids(w, other) == WithKids(v, other)
  {
  }

  lemma SetNext(done: seq<Json>, all: seq<Json>, i: nat, w: Json)
    requires |done| == i < |all|
    ensures (done + all[i..])[i := w] == done + [w] + all[i + 1..]
  {
  }

  predicate IsSensitive(c: Crypto, field: Option<string>) {
    field.Some? && exists i :: 0 <= i < |SENSITIVE_PATTERNS| && HasPattern(c.lower(field.value), SENSITIVE_PATTERNS[i])
  }

  predicate HasPattern(s: string, pat: string) {
    FindFrom(s, pat, 0).Some?
  }

  /** A field is sensitive iff its lower-cased name contains one of the four words. */
  lemma SensitiveIff(c: Crypto, name: string)
    ensures var l := c.lower(name);
            IsSensitive(c, Some(name))
            <==> Contains(l, "key") || Contains(l, "token") || Contains(l, "secret") || Contains(l, "password")
  {
    var l := c.lower(name);
    assert forall pat :: HasPattern(l, pat) <==> Contains(l, pat);
    assert SENSITIVE_PATTERNS[0] == "key" && SENSITIVE_PATTERNS[1] == "token";
    assert SENSITIVE_PATTERNS[2] == "secret" && SENSITIVE_PATTERNS[3] == "password";
  }

  predicate SensitivePlain(c: Crypto, name: Option<string>, s: string) {
    IsSensitive(c, name) && !IsEncrypted(s)
  }

  function EncryptJson(c: Crypto, nonces: Nonces, v: Json, field: Option<string>, path: seq<nat>): Json
    decreases v, Arity(v) + 1
  {
    if v.String? then
      var e := Encrypt(c, nonces(path), v.s);
      if SensitivePlain(c, field, v.s) && e.Ok? then String(e.value) else v
    else
      WithKids(v, EncryptKids(c, nonces, v, Arity(v), path))
  }

  /** The first `n` members or items, encrypted. */
  function EncryptKids(c: Crypto, nonces: Nonces, v: Json, n: nat, path: seq<nat>): (kids: seq<Json>)
    requires n <= Arity(v)
    ensures |kids| == n
    decreases v, n
  {
    if n == 0 then []
    else
      EncryptKids(c, nonces, v, n - 1, path)
      + [EncryptJson(c, nonces, Child(v, n - 1), FieldOf(v, n - 1), path + [n - 1])]
  }

  /** The document that decryption leaves behind, and the error that ended it, if any. */
  function DecryptJson(c: Crypto, v: Json): (Json, Option<CryptoError>)
    decreases v, Arity(v) + 1
  {
    if v.String? then
      if !IsEncrypted(v.s) then (v, None)
      else
        match Decrypt(c, v.s)
        case Ok(p) => (String(p), None)
        case Err(e) => (v, Some(e))
    else
      var (kids, error) := DecryptKids(c, v, Arity(v));
      (WithKids(v, kids), error)
  }

  /** Members are decrypted in order; after the first failure the others stay as they are. */
  function DecryptKids(c: Crypto, v: Json, n: nat): (r: (seq<Json>, Option<CryptoError>))
    requires n <= Arity(v)
    ensures |r.0| == n
    decreases v, n
  {
    if n == 0 then ([], None)
    else
      var (kids, error) := DecryptKids(c, v, n - 1);
      if error.Some? then (kids + [Child(v, n - 1)], error)
      else
        var (kid, error') := DecryptJson(c, Child(v, n - 1));
        (kids + [kid], error')
  }

  predicate HasEncryptedValues(v: Json)
    decreases v, Arity(v) + 1
  {
    if v.String? then IsEncrypted(v.s) else AnyEncrypted(v, Arity(v))
  }

  predicate AnyEncrypted(v: Json, n: nat)
    requires n <= Arity(v)
    decreases v, n
  {
    n > 0 && (AnyEncrypted(v, n - 1) || HasEncryptedValues(Child(v, n - 1)))
  }

  function CountSensitivePlain(c: Crypto, v: Json, field: Option<string>): nat
    decreases v, Arity(v) + 1
  {
    if v.String? then if SensitivePlain(c, field, v.s) then 1 else 0
    else CountKids(c, v, Arity(v))
  }

  function CountKids(c: Crypto, v: Json, n: nat): nat
    requires n <= Arity(v)
    decreases v, n
  {
    if n == 0 then 0
    else CountKids(c, v, n - 1) + CountSensitivePlain(c, Child(v, n - 1), FieldOf(v, n - 1))
  }

  // ── The walkers ─────────────────────────────────────────────────

  method WalkAndEncrypt(c: Crypto, nonces: Nonces, v: Json, field: Option<string>, path: seq<nat>) returns (r: Json)
    ensures r == EncryptJson(c, nonces, v, field, path)
    decreases v
  {
    r := v;
    if v.String? {
      if IsSensitive(c, field) && !IsEncrypted(v.s) {
        var e := Encrypt(c, nonces(path), v.s);
        if e.Ok? {
          r := String(e.value);
        }
      }
      return;
    }
    var kids := Kids(v);
    for i := 0 to |kids|
      invariant kids == EncryptKids(c, nonces, v, i, path) + Kids(v)[i..]
    {
      var w := WalkAndEncrypt(c, nonces, Child(v, i), FieldOf(v, i), path + [i]);
      SetNext(EncryptKids(c, nonces, v, i, path), Kids(v), i, w);
      kids := kids[i := w];
    }
    r := WithKids(v, kids);
  }

  /** In place: when a member cannot be decrypted those before it are, and the rest is untouched. */
  method WalkAndDecrypt(c: Crypto, v: Json) returns (r: Json, error: Option<CryptoError>)
    ensures (r, error) == DecryptJson(c, v)
    decreases v
  {
    r, error := v, None;
    if v.String? {
      if IsEncrypted(v.s) {
        var d := Decrypt(c, v.s);
        if d.Err? {
          return v, Some(d.error);
        }
        r := String(d.value);
      }
      return;
    }
    var kids := Kids(v);
    for i := 0 to |kids|
      invariant DecryptKids(c, v, i).1.None? && kids == DecryptKids(c, v, i).0 + Kids(v)[i..]
    {
      var w, e := WalkAndDecrypt(c, Child(v, i));
      SetNext(DecryptKids(c, v, i).0, Kids(v), i, w);
      kids := kids[i := w];
      if e.Some? {
        RestStaysUntouched(c, v, i + 1, Arity(v));
        assert Kids(v)[i + 1..Arity(v)] == Kids(v)[i + 1..];
        return WithKids(v, kids), e;
      }
    }
    assert kids == DecryptKids(c, v, Arity(v)).0;
    r := WithKids(v, kids);
  }

  /** Once a member has failed, its error is the outcome and the members after it are untouched. */
  lemma {:induction false} RestStaysUntouched(c: Crypto, v: Json, i: nat, n: nat)
    requires i <= n <= Arity(v) && DecryptKids(c, v, i).1.Some?
    ensures DecryptKids(c, v, n).0 == DecryptKids(c, v, i).0 + Kids(v)[i..n]
    ensures DecryptKids(c, v, n).1 == DecryptKids(c, v, i).1
    decreases n
  {
    if i < n {
      RestStaysUntouched(c, v, i, n - 1);
      assert Kids(v)[i..n] == Kids(v)[i..n - 1] + [Child(v, n - 1)];
    }
  }

  // ── Round trip ──────────────────────────────────────────────────

  /** What a walk makes of each member. */
  lemma {:induction false} EncryptedKid(c: Crypto, nonces: Nonces, v: Json, n: nat, path: seq<nat>, i: nat)
    requires i < n <= Arity(v)
    ensures EncryptKids(c, nonces, v, n, path)[i] == EncryptJson(c, nonces, Child(v, i), FieldOf(v, i), path + [i])
    decreases n
  {
    if i < n - 1 {
      EncryptedKid(c, nonces, v, n - 1, path, i);
    }
  }

  /** `w` has the shape of `v`, and its members are those of `v`, encrypted. */
  ghost predicate MembersEncrypted(c: Crypto, nonces: Nonces, v: Json, w: Json, path: seq<nat>) {
    && !v.String? && !w.String? && Arity(w) == Arity(v) && WithKids(v, Kids(w)) == w
    && forall i :: 0 <= i < Arity(v) ==>
         && Child(w, i) == EncryptJson(c, nonces, Child(v, i), FieldOf(v, i), path + [i])
         && FieldOf(w, i) == FieldOf(v, i)
  }

  lemma EncryptedMembers(c: Crypto, nonces: Nonces, v: Json, field: Option<string>, path: seq<nat>)
    requires !v.String?
    ensures MembersEncrypted(c, nonces, v, EncryptJson(c, nonces, v, field, path), path)
  {
    var kids := EncryptKids(c, nonces, v, Arity(v), path);
    KidsOfWithKids(v, kids);
    forall i | 0 <= i < Arity(v)
      ensures kids[i] == EncryptJson(c, nonces, Child(v, i), FieldOf(v, i), path + [i])
    {
      EncryptedKid(c, nonces, v, Arity(v), path, i);
    }
  }

  /** The same outcome: the same error, or the same document. */
  predicate SameOutcome<T(==)>(a: (T, Option<CryptoError>), b: (T, Option<CryptoError>)) {
    a.1 == b.1 && (a.1.None? ==> a.0 == b.0)
  }

  /**
   * For every document, encrypting first does not change what decrypting gives: the same document,
   * or the same error. Leaves whose encryption fails are left as they were and do no harm.
   */
  lemma {:induction false} EncryptThenDecrypt(
    c: Crypto, nonces: Nonces, v: Json, field: Option<string>, path: seq<nat>)
    requires Sound(c)
    ensures SameOutcome(DecryptJson(c, EncryptJson(c, nonces, v, field, path)), DecryptJson(c, v))
    decreases v, Arity(v) + 1
  {
    if v.String? {
      DecryptInvertsEncrypt(c, nonces(path), v.s);
    } else {
      var w := EncryptJson(c, nonces, v, field, path);
      EncryptedMembers(c, nonces, v, field, path);
      EncryptThenDecryptKids(c, nonces, v, w, Arity(v), path);
      KidsOfWithKids(v, Kids(w));
    }
  }

  lemma {:induction false} EncryptThenDecryptKids(
    c: Crypto, nonces: Nonces, v: Json, w: Json, n: nat, path: seq<nat>)
    requires Sound(c) && MembersEncrypted(c, nonces, v, w, path) && n <= Arity(v)
    ensures SameOutcome(DecryptKids(c, w, n), DecryptKids(c, v, n))
    decreases v, n
  {
    if n > 0 {
      EncryptThenDecryptKids(c, nonces, v, w, n - 1, path);
      EncryptThenDecrypt(c, nonces, Child(v, n - 1), FieldOf(v, n - 1), path + [n - 1]);
    }
  }

  lemma {:induction false} PlainDecryptsToItself(c: Crypto, v: Json)
    requires !HasEncryptedValues(v)
    ensures DecryptJson(c, v) == (v, None)
    decreases v, Arity(v) + 1
  {
    if !v.String? {
      PlainKidsDecrypt(c, v, Arity(v));
      KidsOfWithKids(v, Kids(v));
      assert Kids(v)[..Arity(v)] == Kids(v);
    }
  }

  lemma {:induction false} PlainKidsDecrypt(c: Crypto, v: Json, n: nat)
    requires n <= Arity(v) && !AnyEncrypted(v, n)
    ensures DecryptKids(c, v, n) == (Kids(v)[..n], None)
    decreases v, n
  {
    if n > 0 {
      PlainKidsDecrypt(c, v, n - 1);
      PlainDecryptsToItself(c, Child(v, n - 1));
      assert Kids(v)[..n] == Kids(v)[..n - 1] + [Child(v, n - 1)];
    }
  }

  /** A document without encrypted values comes back exactly. */
  lemma PlainRoundTrip(c: Crypto, nonces: Nonces, v: Json)
    requires Sound(c) && !HasEncryptedValues(v)
    ensures DecryptJson(c, EncryptJson(c, nonces, v, None, [])) == (v, None)
  {
    EncryptThenDecrypt(c, nonces, v, None, []);
    PlainDecryptsToItself(c, v);
  }

  // ── Counting ────────────────────────────────────────────────────

  /** How many leaves differ between two documents; nodes of different shape count as one. */
  function Changed(v: Json, w: Json): nat
    decreases v, Arity(v) + 1
  {
    if Arity(v) == Arity(w) && WithKids(v, Kids(w)) == w then ChangedKids(v, w, Arity(v)) else 1
  }

  function ChangedKids(v: Json, w: Json, n: nat): nat
    requires n <= Arity(v) && n <= Arity(w)
    decreases v, n
  {
    if n == 0 then 0 else ChangedKids(v, w, n - 1) + Changed(Child(v, n - 1), Child(w, n - 1))
  }

  lemma SamePrefixStep(a: seq<Json>, b: seq<Json>, n: nat)
    requires 0 < n <= |a| && n <= |b|
    ensures a[..n] == b[..n] <==> a[..n - 1] == b[..n - 1] && a[n - 1] == b[n - 1]
  {
    assert a[..n] == a[..n - 1] + [a[n - 1]] && b[..n] == b[..n - 1] + [b[n - 1]];
  }

  lemma {:induction false} UnchangedKidsAreSame(v: Json, w: Json, n: nat)
    requires n <= Arity(v) && n <= Arity(w)
    ensures ChangedKids(v, w, n) == 0 <==> Kids(v)[..n] == Kids(w)[..n]
    decreases v, n
  {
    if n > 0 {
      UnchangedKidsAreSame(v, w, n - 1);
      UnchangedIsSame(Child(v, n - 1), Child(w, n - 1));
      SamePrefixStep(Kids(v), Kids(w), n);
    }
  }

  lemma {:induction false} UnchangedIsSame(v: Json, w: Json)
    ensures Changed(v, w) == 0 <==> v == w
    decreases v, Arity(v) + 1
  {
    KidsOfWithKids(v, Kids(v));
    if Arity(v) == Arity(w) && WithKids(v, Kids(w)) == w {
      UnchangedKidsAreSame(v, w, Arity(v));
      assert Kids(v)[..Arity(v)] == Kids(v) && Kids(w)[..Arity(v)] == Kids(w);
      assert Changed(v, w) == ChangedKids(v, w, Arity(v));
    }
  }

  /**
   * Every sensitive plaintext leaf is either changed or still counted afterwards, nothing else is
   * touched, and encrypted values appear exactly where leaves were changed.
   */
  lemma {:induction false} EncryptionAccounts(
    c: Crypto, nonces: Nonces, v: Json, field: Option<string>, path: seq<nat>)
    ensures var w := EncryptJson(c, nonces, v, field, path);
            && CountSensitivePlain(c, v, field) == Changed(v, w) + CountSensitivePlain(c, w, field)
            && (HasEncryptedValues(w) <==> HasEncryptedValues(v) || Changed(v, w) > 0)
            && (Changed(v, w) == 0 <==> w == v)
    decreases v, Arity(v) + 1
  {
    if !v.String? {
      EncryptedMembers(c, nonces, v, field, path);
      EncryptionAccountsKids(c, nonces, v, EncryptJson(c, nonces, v, field, path), Arity(v), path);
    }
    UnchangedIsSame(v, EncryptJson(c, nonces, v, field, path));
  }

  lemma {:induction false} EncryptionAccountsKids(
    c: Crypto, nonces: Nonces, v: Json, w: Json, n: nat, path: seq<nat>)
    requires MembersEncrypted(c, nonces, v, w, path) && n <= Arity(v)
    ensures CountKids(c, v, n) == ChangedKids(v, w, n) + CountKids(c, w, n)
    ensures AnyEncrypted(w, n) <==> AnyEncrypted(v, n) || ChangedKids(v, w, n) > 0
    decreases v, n
  {
    if n > 0 {
      EncryptionAccountsKids(c, nonces, v, w, n - 1, path);
      EncryptionAccounts(c, nonces, Child(v, n - 1), FieldOf(v, n - 1), path + [n - 1]);
    }
  }

  /** Encryption succeeds on every sensitive plaintext leaf of this document, with the nonces it draws. */
  predicate AllSealed(c: Crypto, nonces: Nonces, v: Json, field: Option<string>, path: seq<nat>)
    decreases v, Arity(v) + 1
  {
    if v.String? then SensitivePlain(c, field, v.s) ==> c.seal(nonces(path), v.s).Some?
    else KidsSealed(c, nonces, v, Arity(v), path)
  }

  predicate KidsSealed(c: Crypto, nonces: Nonces, v: Json, n: nat, path: seq<nat>)
    requires n <= Arity(v)
    decreases v, n
  {
    n > 0 ==>
      KidsSealed(c, nonces, v, n - 1, path)
      && AllSealed(c, nonces, Child(v, n - 1), FieldOf(v, n - 1), path + [n - 1])
  }

  /** No sensitive plaintext is left exactly when encryption succeeds on every such leaf. */
  lemma {:induction false} NothingLeftIff(c: Crypto, nonces: Nonces, v: Json, field: Option<string>, path: seq<nat>)
    ensures CountSensitivePlain(c, EncryptJson(c, nonces, v, field, path), field) == 0
            <==> AllSealed(c, nonces, v, field, path)
    decreases v, Arity(v) + 1
  {
    if !v.String? {
      EncryptedMembers(c, nonces, v, field, path);
      NothingLeftKids(c, nonces, v, EncryptJson(c, nonces, v, field, path), Arity(v), path);
    }
  }

  lemma {:induction false} NothingLeftKids(c: Crypto, nonces: Nonces, v: Json, w: Json, n: nat, path: seq<nat>)
    requires MembersEncrypted(c, nonces, v, w, path) && n <= Arity(v)
    ensures CountKids(c, w, n) == 0 <==> KidsSealed(c, nonces, v, n, path)
    decreases v, n
  {
    if n > 0 {
      NothingLeftKids(c, nonces, v, w, n - 1, path);
      NothingLeftIff(c, nonces, Child(v, n - 1), FieldOf(v, n - 1), path + [n - 1]);
    }
  }

  /**
   * When encryption succeeds on the document's sensitive leaves, the count reported is the number of
   * leaves changed, none remain, the document holds encrypted values iff it did before or some leaf
   * was changed, and encrypting again, with whatever nonces, changes nothing.
   */
  lemma EncryptOnceIsEnough(c: Crypto, first: Nonces, second: Nonces, v: Json)
    requires AllSealed(c, first, v, None, [])
    ensures var w := EncryptJson(c, first, v, None, []);
            && CountSensitivePlain(c, v, None) == Changed(v, w)
            && CountSensitivePlain(c, w, None) == 0
            && (HasEncryptedValues(w) <==> HasEncryptedValues(v) || CountSensitivePlain(c, v, None) > 0)
            && EncryptJson(c, second, w, None, []) == w
  {
    var w := EncryptJson(c, first, v, None, []);
    EncryptionAccounts(c, first, v, None, []);
    NothingLeftIff(c, first, v, None, []);
    EncryptionAccounts(c, second, w, None, []);
  }

  // ── Leaf by leaf ────────────────────────────────────────────────

  /** The value a path leads to, with the name of the field it sits in, if the last step was into an object. */
  function FindAt(v: Json, field: Option<string>, path: seq<nat>): Option<(Option<string>, Json)>
    decreases |path|
  {
    if path == [] then Some((field, v))
    else
      match v
      case Array(items) => if path[0] < |items| then FindAt(items[path[0]], None, path[1..]) else None
      case Object(fields) =>
        if path[0] < |fields| then FindAt(fields[path[0]].1, Some(fields[path[0]].0), path[1..]) else None
      case _ => None
  }

  /** The string a path leads to. */
  predicate LeafAt(v: Json, field: Option<string>, path: seq<nat>, name: Option<string>, text: string) {
    FindAt(v, field, path) == Some((name, String(text)))
  }

  /** A plaintext that ought not to be one: a string without the prefix, in a field with a sensitive name. */
  ghost predicate Secret(c: Crypto, name: Option<string>, text: string) {
    && name.Some? && !("enc:" <= text)
    && var l := c.lower(name.value);
       Contains(l, "key") || Contains(l, "token") || Contains(l, "secret") || Contains(l, "password")
  }

  lemma SecretIsSensitivePlain(c: Crypto, name: Option<string>, text: string)
    ensures Secret(c, name, text) <==> SensitivePlain(c, name, text)
  {
    if name.Some? {
      SensitiveIff(c, name.value);
    }
  }

  lemma FindStep(v: Json, field: Option<string>, path: seq<nat>)
    requires path != []
    ensures FindAt(v, field, path)
            == if path[0] < Arity(v) then FindAt(Child(v, path[0]), FieldOf(v, path[0]), path[1..]) else None
  {
  }

  /** The text that encryption leaves at a leaf. */
  function Sealed(c: Crypto, nonce: Nonce, text: string): string {
    match c.seal(nonce, text)
    case Some(ciphertext) => "enc:" + c.encode(nonce + ciphertext)
    case None => text
  }

  /** What encryption makes of the value at the end of a path. */
  ghost predicate EncryptedAt(
    c: Crypto, nonces: Nonces, v: Json, w: Json, field: Option<string>, at: seq<nat>, path: seq<nat>)
  {
    match FindAt(v, field, path)
    case None => FindAt(w, field, path) == None
    case Some((name, String(text))) =>
      FindAt(w, field, path)
      == Some((name, String(if Secret(c, name, text) then Sealed(c, nonces(at + path), text) else text)))
    case Some((name, Array(items))) =>
      exists items' :: FindAt(w, field, path) == Some((name, Array(items'))) && |items'| == |items|
    case Some((name, Object(fields))) =>
      exists fields' :: FindAt(w, field, path) == Some((name, Object(fields'))) && |fields'| == |fields|
    case Some((name, x)) => FindAt(w, field, path) == Some((name, x))
  }

  /**
   * Encryption, leaf by leaf: every secret at any depth that can be sealed becomes the prefix and
   * the encoded nonce and ciphertext; every other string, and every other value, stays.
   */
  lemma {:induction false} EveryLeafEncrypted(
    c: Crypto, nonces: Nonces, v: Json, field: Option<string>, at: seq<nat>, path: seq<nat>)
    ensures EncryptedAt(c, nonces, v, EncryptJson(c, nonces, v, field, at), field, at, path)
    decreases |path|
  {
    var w := EncryptJson(c, nonces, v, field, at);
    if !v.String? {
      EncryptedMembers(c, nonces, v, field, at);
    }
    if path == [] {
      assert at + path == at;
      if v.String? {
        SecretIsSensitivePlain(c, field, v.s);
      }
    } else {
      FindStep(v, field, path);
      FindStep(w, field, path);
      if path[0] < Arity(v) {
        var i := path[0];
        EveryLeafEncrypted(c, nonces, Child(v, i), FieldOf(v, i), at + [i], path[1..]);
        assert at + [i] + path[1..] == at + path;
      }
    }
  }

  ghost predicate SecretAt(c: Crypto, v: Json, field: Option<string>, path: seq<nat>) {
    match FindAt(v, field, path)
    case Some((name, String(text))) => Secret(c, name, text)
    case _ => false
  }

  /** The paths of a member, seen from the whole. */
  ghost function Under(i: nat, paths: set<seq<nat>>): set<seq<nat>> {
    set path | path in paths :: [i] + path
  }

  lemma {:induction false} UnderCount(i: nat, paths: set<seq<nat>>)
    ensures |Under(i, paths)| == |paths|
  {
    if paths != {} {
      var path :| path in paths;
      UnderCount(i, paths - {path});
      assert Under(i, paths) == Under(i, paths - {path}) + {[i] + path};
      assert [i] + path !in Under(i, paths - {path}) by {
        forall q | q in paths - {path} ensures [i] + q != [i] + path {
          assert ([i] + q)[1..] == q && ([i] + path)[1..] == path;
        }
      }
    }
  }

  ghost predicate AllSecrets(c: Crypto, v: Json, field: Option<string>, paths: set<seq<nat>>) {
    forall path :: path in paths <==> SecretAt(c, v, field, path)
  }

  /** The secrets among the first `n` members. */
  ghost predicate SecretsBelow(c: Crypto, v: Json, field: Option<string>, n: nat, paths: set<seq<nat>>) {
    forall path :: path in paths <==> path != [] && path[0] < n && SecretAt(c, v, field, path)
  }

  /** The number reported is the number of places that hold a secret. */
  lemma {:induction false} CountIsSecrets(c: Crypto, v: Json, field: Option<string>) returns (paths: set<seq<nat>>)
    ensures AllSecrets(c, v, field, paths) && |paths| == CountSensitivePlain(c, v, field)
    decreases v, Arity(v) + 1
  {
    if v.String? {
      SecretIsSensitivePlain(c, field, v.s);
      paths := if SensitivePlain(c, field, v.s) then {[]} else {};
    } else {
      paths := CountKidsSecrets(c, v, field, Arity(v));
      forall path | SecretAt(c, v, field, path) ensures path in paths {
        assert path != [];
        FindStep(v, field, path);
      }
    }
  }

  lemma {:induction false} CountKidsSecrets(c: Crypto, v: Json, field: Option<string>, n: nat)
    returns (paths: set<seq<nat>>)
    requires n <= Arity(v)
    ensures SecretsBelow(c, v, field, n, paths) && |paths| == CountKids(c, v, n)
    decreases v, n
  {
    paths := {};
    if n > 0 {
      var m := n - 1;
      paths := CountKidsSecrets(c, v, field, m);
      var own := CountIsSecrets(c, Child(v, m), FieldOf(v, m));
      UnderCount(m, own);
      MoreSecrets(c, v, field, m, paths, own);
      assert paths !! Under(m, own);
      paths := paths + Under(m, own);
    }
  }

  lemma MoreSecrets(c: Crypto, v: Json, field: Option<string>, m: nat, paths: set<seq<nat>>, own: set<seq<nat>>)
    requires m < Arity(v) && SecretsBelow(c, v, field, m, paths)
    requires AllSecrets(c, Child(v, m), FieldOf(v, m), own)
    ensures SecretsBelow(c, v, field, m + 1, paths + Under(m, own))
  {
    forall path
      ensures path in paths + Under(m, own) <==> path != [] && path[0] < m + 1 && SecretAt(c, v, field, path)
    {
      if path != [] && path[0] == m {
        FindStep(v, field, path);
        assert path == [m] + path[1..];
        assert path in Under(m, own) <==> path[1..] in own by {
          forall q | q in own && path == [m] + q ensures q == path[1..] {
            assert ([m] + q)[1..] == q;
          }
        }
      }
    }
  }

  /** Encrypted values are found iff some string in the document has the prefix. */
  lemma {:induction false} HasEncryptedMeans(v: Json, field: Option<string>)
    ensures HasEncryptedValues(v) <==> exists path, name, text :: LeafAt(v, field, path, name, text) && "enc:" <= text
    decreases v, Arity(v) + 1
  {
    if v.String? {
      assert LeafAt(v, field, [], field, v.s);
      forall path, name, text | LeafAt(v, field, path, name, text) ensures path == [] && text == v.s {
      }
    } else {
      AnyEncryptedMeans(v, field, Arity(v));
      forall path, name, text | LeafAt(v, field, path, name, text) ensures path != [] && path[0] < Arity(v) {
      }
    }
  }

  lemma {:induction false} AnyEncryptedMeans(v: Json, field: Option<string>, n: nat)
    requires n <= Arity(v)
    ensures AnyEncrypted(v, n)
            <==> exists path, name, text ::
                   LeafAt(v, field, path, name, text) && path != [] && path[0] < n && "enc:" <= text
    decreases v, n
  {
    if n > 0 {
      var m := n - 1;
      AnyEncryptedMeans(v, field, m);
      HasEncryptedMeans(Child(v, m), FieldOf(v, m));
      forall path, name, text | LeafAt(v, field, path, name, text) && path != [] && path[0] == m
        ensures LeafAt(Child(v, m), FieldOf(v, m), path[1..], name, text)
      {
      }
      forall path, name, text | LeafAt(Child(v, m), FieldOf(v, m), path, name, text)
        ensures LeafAt(v, field, [m] + path, name, text)
      {
        assert ([m] + path)[1..] == path;
      }
    }
  }

  /** Document order: one path leaves the other to an earlier member. */
  predicate Precedes(p: seq<nat>, q: seq<nat>)
    decreases |p|
  {
    p != [] && q != [] && (p[0] < q[0] || (p[0] == q[0] && Precedes(p[1..], q[1..])))
  }

  /** The first leaf that cannot be decrypted. */
  function Stop(c: Crypto, v: Json): Option<seq<nat>>
    decreases v, Arity(v) + 1
  {
    if v.String? then if IsEncrypted(v.s) && Decrypt(c, v.s).Err? then Some([]) else None
    else StopKids(c, v, Arity(v))
  }

  function StopKids(c: Crypto, v: Json, n: nat): Option<seq<nat>>
    requires n <= Arity(v)
    decreases v, n
  {
    if n == 0 then None
    else if StopKids(c, v, n - 1).Some? then StopKids(c, v, n - 1)
    else match Stop(c, Child(v, n - 1))
      case None => None
      case Some(path) => Some([n - 1] + path)
  }

  lemma {:induction false} StopIsError(c: Crypto, v: Json, field: Option<string>)
    ensures Stop(c, v).Some? <==> DecryptJson(c, v).1.Some?
    ensures Stop(c, v).Some? ==>
              exists name, text :: LeafAt(v, field, Stop(c, v).value, name, text)
                                   && "enc:" <= text && Decrypt(c, text) == Err(DecryptJson(c, v).1.value)
    decreases v, Arity(v) + 1
  {
    if v.String? {
      assert LeafAt(v, field, [], field, v.s);
    } else {
      StopKidsIsError(c, v, field, Arity(v));
    }
  }

  lemma {:induction false} StopKidsIsError(c: Crypto, v: Json, field: Option<string>, n: nat)
    requires n <= Arity(v)
    ensures StopKids(c, v, n).Some? <==> DecryptKids(c, v, n).1.Some?
    ensures StopKids(c, v, n).Some? ==>
              && StopKids(c, v, n).value != [] && StopKids(c, v, n).value[0] < n
              && exists name, text :: LeafAt(v, field, StopKids(c, v, n).value, name, text)
                                      && "enc:" <= text && Decrypt(c, text) == Err(DecryptKids(c, v, n).1.value)
    decreases v, n
  {
    if n > 0 {
      var m := n - 1;
      StopKidsIsError(c, v, field, m);
      StopIsError(c, Child(v, m), FieldOf(v, m));
      if StopKids(c, v, m).None? && Stop(c, Child(v, m)).Some? {
        var path := Stop(c, Child(v, m)).value;
        var name, text :| LeafAt(Child(v, m), FieldOf(v, m), path, name, text)
                          && "enc:" <= text && Decrypt(c, text) == Err(DecryptJson(c, Child(v, m)).1.value);
        assert ([m] + path)[1..] == path;
        assert LeafAt(v, field, [m] + path, name, text);
      }
    }
  }

  /** What decrypting the members makes of member `i`: its own decryption up to the failing one, itself after it. */
  lemma {:induction false} DecryptedKid(c: Crypto, v: Json, n: nat, i: nat)
    requires i < n <= Arity(v)
    ensures var stop := StopKids(c, v, n);
            && (stop.None? || (stop.value != [] && stop.value[0] < n))
            && (if stop.None? || i < stop.value[0] then
                  DecryptKids(c, v, n).0[i] == DecryptJson(c, Child(v, i)).0 && Stop(c, Child(v, i)).None?
                else if i == stop.value[0] then
                  DecryptKids(c, v, n).0[i] == DecryptJson(c, Child(v, i)).0
                  && Stop(c, Child(v, i)) == Some(stop.value[1..])
                else DecryptKids(c, v, n).0[i] == Child(v, i))
    decreases v, n
  {
    var m := n - 1;
    StopKidsIsError(c, v, None, m);
    StopIsError(c, Child(v, m), None);
    if Stop(c, Child(v, m)).Some? {
      assert ([m] + Stop(c, Child(v, m)).value)[1..] == Stop(c, Child(v, m)).value;
    }
    if i < m {
      DecryptedKid(c, v, m, i);
    }
  }

  /** What decryption makes of the value at the end of a path. */
  ghost predicate DecryptedAt(
    c: Crypto, v: Json, w: Json, field: Option<string>, stop: Option<seq<nat>>, path: seq<nat>)
  {
    match FindAt(v, field, path)
    case None => FindAt(w, field, path) == None
    case Some((name, String(text))) =>
      if "enc:" <= text && (stop.None? || Precedes(path, stop.value)) then
        Decrypt(c, text).Ok? && FindAt(w, field, path) == Some((name, String(Decrypt(c, text).value)))
      else FindAt(w, field, path) == Some((name, String(text)))
    case Some((name, Array(items))) =>
      exists items' :: FindAt(w, field, path) == Some((name, Array(items'))) && |items'| == |items|
    case Some((name, Object(fields))) =>
      exists fields' :: FindAt(w, field, path) == Some((name, Object(fields'))) && |fields'| == |fields|
    case Some((name, x)) => FindAt(w, field, path) == Some((name, x))
  }

  lemma SameAt(c: Crypto, v: Json, field: Option<string>, path: seq<nat>, stop: seq<nat>)
    requires !Precedes(path, stop)
    ensures DecryptedAt(c, v, v, field, Some(stop), path)
  {
  }

  /** From a member to the whole. */
  lemma LiftDecrypted(
    c: Crypto, v: Json, w: Json, field: Option<string>, stop: Option<seq<nat>>, path: seq<nat>,
    kid: Json, kid': Json, name: Option<string>, stop': Option<seq<nat>>)
    requires path != [] && DecryptedAt(c, kid, kid', name, stop', path[1..])
    requires FindAt(v, field, path) == FindAt(kid, name, path[1..])
    requires FindAt(w, field, path) == FindAt(kid', name, path[1..])
    requires (stop.None? || Precedes(path, stop.value)) <==> (stop'.None? || Precedes(path[1..], stop'.value))
    ensures DecryptedAt(c, v, w, field, stop, path)
  {
  }

  lemma {:induction false} LeafDecrypted(c: Crypto, v: Json, field: Option<string>, path: seq<nat>)
    ensures DecryptedAt(c, v, DecryptJson(c, v).0, field, Stop(c, v), path)
    decreases |path|
  {
    if path == [] || v.String? || path[0] >= Arity(v) {
      LeafDecryptedHere(c, v, field, path);
    } else {
      var i, stop, w := path[0], Stop(c, v), DecryptJson(c, v).0;
      var kid, name := Child(v, i), FieldOf(v, i);
      KidsOfWithKids(v, DecryptKids(c, v, Arity(v)).0);
      DecryptedKid(c, v, Arity(v), i);
      FindStep(v, field, path);
      FindStep(w, field, path);
      if stop.None? || i <= stop.value[0] {
        LeafDecrypted(c, kid, name, path[1..]);
        LiftDecrypted(c, v, w, field, stop, path, kid, DecryptJson(c, kid).0, name, Stop(c, kid));
      } else {
        SameAt(c, kid, name, path[1..], []);
        LiftDecrypted(c, v, w, field, stop, path, kid, kid, name, Some([]));
      }
    }
  }

  lemma LeafDecryptedHere(c: Crypto, v: Json, field: Option<string>, path: seq<nat>)
    requires path == [] || v.String? || path[0] >= Arity(v)
    ensures DecryptedAt(c, v, DecryptJson(c, v).0, field, Stop(c, v), path)
  {
    if !v.String? {
      KidsOfWithKids(v, DecryptKids(c, v, Arity(v)).0);
    }
    if path != [] {
      FindStep(v, field, path);
      FindStep(DecryptJson(c, v).0, field, path);
    }
  }

  /**
   * Decryption, leaf by leaf: every prefixed string is decrypted, unless one fails. Then that error
   * is reported, the prefixed strings before it in document order are decrypted, and all else stays.
   */
  lemma EveryLeafDecrypted(c: Crypto, v: Json) returns (stop: Option<seq<nat>>)
    ensures var (w, error) := DecryptJson(c, v);
            && (stop.Some? <==> error.Some?)
            && (stop.Some? ==>
                  exists name, text :: LeafAt(v, None, stop.value, name, text)
                                       && "enc:" <= text && Decrypt(c, text) == Err(error.value))
            && forall path :: DecryptedAt(c, v, w, None, stop, path)
  {
    stop := Stop(c, v);
    StopIsError(c, v, None);
    forall path ensures DecryptedAt(c, v, DecryptJson(c, v).0, None, stop, path) {
      LeafDecrypted(c, v, None, path);
    }
  }
}
