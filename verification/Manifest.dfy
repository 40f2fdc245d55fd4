/** The `sign` and `verify` commands of `sign-plugin-manifest.py`. */
module Manifest {
  import opened Wrappers
  import opened Json
  import opened JsonRoundTrip
  import opened Canonical
  import opened Bytes

  type PrivateKey = seq<Byte>

  /** Ed25519 and base64, which the scripts take from libraries. */
  datatype Crypto = Crypto(
    publicKey: PrivateKey -> seq<Byte>,
    sign: (PrivateKey, seq<Byte>) -> seq<Byte>,
    isPublicKey: seq<Byte> -> bool,
    verify: (seq<Byte>, seq<Byte>, seq<Byte>) -> bool,
    b64: seq<Byte> -> string,
    unb64: string -> Option<seq<Byte>>)

  /** The laws the libraries promise: a correct signature is accepted, a public
      key is accepted as one, and decoding undoes base64. Keys and signatures
      are not empty (32 and 64 bytes). */
  ghost predicate Lawful(c: Crypto) {
    && (forall k :: c.isPublicKey(c.publicKey(k)) && c.publicKey(k) != [])
    && (forall k, m :: c.verify(c.publicKey(k), c.sign(k, m), m) && c.sign(k, m) != [])
    && (forall b :: c.unb64(c.b64(b)) == Some(b) && (b != [] ==> c.b64(b) != ""))
  }

  /** How a command ends: with an exit code, or with an uncaught exception. */
  datatype Exit = Returned(code: int) | Raised

  /** The dictionary under `k`; `{}` when absent, nothing when it is no dictionary. */
  function SubDict(es: seq<Entry>, k: string): Option<seq<Entry>> {
    match Get(es, k)
    case None => Some([])
    case Some(v) => if v.Obj? then Some(v.entries) else None
  }

  /** `manifest["Ajazz"]["Signing"] = signing`. */
  function WithSigning(manifest: seq<Entry>, ajazz: seq<Entry>, signing: seq<Entry>): Json {
    Obj(Put(manifest, "Ajazz", Obj(Put(ajazz, "Signing", Obj(signing)))))
  }

  /** The `Signing` dictionary without and with its signature, for signer `c` and key `k`. */
  function KeyedSigning(c: Crypto, k: PrivateKey, signing: seq<Entry>): seq<Entry> {
    Remove(Put(signing, "Ed25519PublicKey", Str(c.b64(c.publicKey(k)))), "Ed25519Signature")
  }

  function SignedSigning(c: Crypto, k: PrivateKey, signing: seq<Entry>, message: seq<Byte>): seq<Entry> {
    Put(KeyedSigning(c, k, signing), "Ed25519Signature", Str(c.b64(c.sign(k, message))))
  }

  /** Whether `sign` can navigate the manifest: dictionaries all the way, where present. */
  predicate Signable(m: Json) {
    m.Obj? && SubDict(m.entries, "Ajazz").Some?
    && SubDict(SubDict(m.entries, "Ajazz").value, "Signing").Some?
  }

  /** What `sign` leaves in the file and how it ends. */
  function Sign(text: string, c: Crypto, key: Option<PrivateKey>): (Exit, string) {
    match Loads(text)
    case None => (Raised, text)
    case Some(m) =>
      if key.None? then (Returned(2), text)
      else if !Signable(m) then (Raised, text)
      else
        var ajazz := SubDict(m.entries, "Ajazz").value;
        var signing := SubDict(ajazz, "Signing").value;
        match CanonicalBytes(WithSigning(m.entries, ajazz, KeyedSigning(c, key.value, signing)))
        case Crash => (Raised, text)
        case Ok(message) =>
          var signed := WithSigning(m.entries, ajazz, SignedSigning(c, key.value, signing, message));
          (Returned(0), PrintTo(signed, Indented(0), "\n"))
  }

  /** Python's truth value of a JSON value. */
  predicate Truthy(v: Json) {
    match v
    case Null => false
    case Bool(b) => b
    case Num(n) => n != 0
    case Str(s) => s != ""
    case Arr(items) => items != []
    case Obj(es) => es != []
  }

  /** The `Signing` dictionary of a manifest that can be navigated. */
  function SigningOf(m: Json): seq<Entry>
    requires Signable(m)
  {
    SubDict(SubDict(m.entries, "Ajazz").value, "Signing").value
  }

  /** `verify` on a manifest already parsed. */
  function VerifyManifest(m: Json, c: Crypto): Exit {
    if !Signable(m) then Raised
    else
      Verdict(Get(SigningOf(m), "Ed25519Signature"), Get(SigningOf(m), "Ed25519PublicKey"),
              CanonicalBytes(m), c)
  }

  /** The verdict on the two fields of `Signing` and the canonical bytes. */
  function Verdict(sig64: Option<Json>, pub64: Option<Json>, message: Result<seq<Byte>>, c: Crypto): Exit {
    if sig64.None? || pub64.None? || !Truthy(sig64.value) || !Truthy(pub64.value) then Returned(1)
    else if !sig64.value.Str? then Raised
    else if c.unb64(sig64.value.s).None? then Returned(1)
    else if !pub64.value.Str? then Raised
    else if c.unb64(pub64.value.s).None? then Returned(1)
    else if !c.isPublicKey(c.unb64(pub64.value.s).value) then Raised
    else
      match message
      case Crash => Raised
      case Ok(bytes) =>
        Returned(if c.verify(c.unb64(pub64.value.s).value, c.unb64(sig64.value.s).value, bytes) then 0 else 1)
  }

  function Verify(text: string, c: Crypto): Exit {
    match Loads(text)
    case None => Raised
    case Some(m) => VerifyManifest(m, c)
  }

  // ---- The commands, on the file they rewrite ---------------------------------

  class ManifestFile {
    var text: string

    constructor (text: string)
      ensures this.text == text
    {
      this.text := text;
    }

    method CmdSign(c: Crypto, key: Option<PrivateKey>) returns (exit: Exit)
      modifies this
      ensures (exit, text) == Sign(old(text), c, key)
    {
      var parsed := Loads(text);
      if parsed.None? {
        return Raised;
      }
      if key.None? {
        return Returned(2);
      }
      if !parsed.value.Obj? {
        return Raised;
      }
      var manifest := parsed.value.entries;
      var ajazz := SubDict(manifest, "Ajazz");
      if ajazz.None? {
        return Raised;
      }
      var signing := SubDict(ajazz.value, "Signing");
      if signing.None? {
        return Raised;
      }
      var entries := Put(signing.value, "Ed25519PublicKey", Str(c.b64(c.publicKey(key.value))));
      entries := Remove(entries, "Ed25519Signature");
      var message := CanonicalBytes(WithSigning(manifest, ajazz.value, entries));
      if message.Crash? {
        return Raised;
      }
      entries := Put(entries, "Ed25519Signature", Str(c.b64(c.sign(key.value, message.value))));
      text := PrintTo(WithSigning(manifest, ajazz.value, entries), Indented(0), "\n");
      return Returned(0);
    }

    method CmdVerify(c: Crypto) returns (exit: Exit)
      ensures exit == Verify(text, c)
    {
      var parsed := Loads(text);
      if parsed.None? || !parsed.value.Obj? {
        return Raised;
      }
      var manifest := parsed.value;
      var ajazz := SubDict(manifest.entries, "Ajazz");
      if ajazz.None? {
        return Raised;
      }
      var signing := SubDict(ajazz.value, "Signing");
      if signing.None? {
        return Raised;
      }
      var sig64 := Get(signing.value, "Ed25519Signature");
      var pub64 := Get(signing.value, "Ed25519PublicKey");
      if sig64.None? || !Truthy(sig64.value) || pub64.None? || !Truthy(pub64.value) {
        return Returned(1);
      }
      if !sig64.value.Str? {
        return Raised;
      }
      var sig := c.unb64(sig64.value.s);
      if sig.None? {
        return Returned(1);
      }
      if !pub64.value.Str? {
        return Raised;
      }
      var publicKey := c.unb64(pub64.value.s);
      if publicKey.None? {
        return Returned(1);
      }
      if !c.isPublicKey(publicKey.value) {
        return Raised;
      }
      var message := CanonicalBytes(manifest);
      if message.Crash? {
        return Raised;
      }
      if !c.verify(publicKey.value, sig.value, message.value) {
        return Returned(1);
      }
      return Returned(0);
    }
  }

  // ---- Signed manifests verify -------------------------------------------------

  lemma {:induction false} GetAfterPut(es: seq<Entry>, k: string, v: Json, k': string)
    ensures Get(Put(es, k, v), k') == if k' == k then Some(v) else Get(es, k')
  {
    if es != [] && es[0].key != k {
      GetAfterPut(es[1..], k, v, k');
    }
  }

  lemma {:induction false} GetAfterRemove(es: seq<Entry>, k: string, k': string)
    requires DistinctKeys(es)
    ensures Get(Remove(es, k), k') == if k' == k then None else Get(es, k')
  {
    if es != [] && es[0].key != k {
      GetAfterRemove(es[1..], k, k');
    }
  }

  /** Popping a key just added gives the dictionary back, order and all. */
  lemma {:induction false} RemoveUndoesPut(es: seq<Entry>, k: string, v: Json)
    requires Get(es, k).None?
    ensures Remove(Put(es, k, v), k) == es
  {
    if es != [] {
      RemoveUndoesPut(es[1..], k, v);
    }
  }

  lemma {:induction false} RemoveAbsent(es: seq<Entry>, k: string)
    requires Get(es, k).None?
    ensures Remove(es, k) == es
  {
    if es != [] {
      RemoveAbsent(es[1..], k);
    }
  }

  lemma {:induction false} PutTwice(es: seq<Entry>, k: string, v: Json, w: Json)
    ensures Put(Put(es, k, v), k, w) == Put(es, k, w)
  {
    if es != [] && es[0].key != k {
      PutTwice(es[1..], k, v, w);
    }
  }

  lemma SubDictWellFormed(es: seq<Entry>, k: string)
    requires WellFormed(Obj(es)) && SubDict(es, k).Some?
    ensures WellFormed(Obj(SubDict(es, k).value))
  {
  }

  lemma WithSigningLookup(manifest: seq<Entry>, ajazz: seq<Entry>, signing: seq<Entry>)
    ensures Signable(WithSigning(manifest, ajazz, signing))
    ensures SigningOf(WithSigning(manifest, ajazz, signing)) == signing
  {
    GetAfterPut(ajazz, "Signing", Obj(signing), "Signing");
    GetAfterPut(manifest, "Ajazz", Obj(Put(ajazz, "Signing", Obj(signing))), "Ajazz");
  }

  /** Stripping looks only at `Signing` without its signature. */
  lemma StripWithSigning(manifest: seq<Entry>, ajazz: seq<Entry>, signing: seq<Entry>)
    ensures Strip(WithSigning(manifest, ajazz, signing))
            == Ok(WithSigning(manifest, ajazz, Remove(signing, "Ed25519Signature")))
  {
    var signing' := Remove(signing, "Ed25519Signature");
    var inner := Put(ajazz, "Signing", Obj(signing));
    GetAfterPut(ajazz, "Signing", Obj(signing), "Signing");
    GetAfterPut(manifest, "Ajazz", Obj(inner), "Ajazz");
    PutTwice(ajazz, "Signing", Obj(signing), Obj(signing'));
    PutTwice(manifest, "Ajazz", Obj(inner), Obj(Put(ajazz, "Signing", Obj(signing'))));
  }

  /** Adding the signature does not change the signed bytes. */
  lemma SigningKeepsCanonicalBytes(manifest: seq<Entry>, ajazz: seq<Entry>, signing: seq<Entry>, sig: Json)
    requires Get(signing, "Ed25519Signature").None?
    ensures CanonicalBytes(WithSigning(manifest, ajazz, Put(signing, "Ed25519Signature", sig)))
            == CanonicalBytes(WithSigning(manifest, ajazz, signing))
    ensures CanonicalBytes(WithSigning(manifest, ajazz, signing)).Ok?
  {
    StripWithSigning(manifest, ajazz, Put(signing, "Ed25519Signature", sig));
    StripWithSigning(manifest, ajazz, signing);
    RemoveUndoesPut(signing, "Ed25519Signature", sig);
    RemoveAbsent(signing, "Ed25519Signature");
  }

  lemma KeyedSigningFields(c: Crypto, k: PrivateKey, signing: seq<Entry>)
    requires WellFormed(Obj(signing))
    ensures WellFormed(Obj(KeyedSigning(c, k, signing)))
    ensures Get(KeyedSigning(c, k, signing), "Ed25519Signature").None?
    ensures Get(KeyedSigning(c, k, signing), "Ed25519PublicKey") == Some(Str(c.b64(c.publicKey(k))))
  {
    var pub := Str(c.b64(c.publicKey(k)));
    PutWellFormed(signing, "Ed25519PublicKey", pub);
    RemoveWellFormed(Put(signing, "Ed25519PublicKey", pub), "Ed25519Signature");
    GetAfterPut(signing, "Ed25519PublicKey", pub, "Ed25519PublicKey");
    GetAfterRemove(Put(signing, "Ed25519PublicKey", pub), "Ed25519Signature", "Ed25519Signature");
    GetAfterRemove(Put(signing, "Ed25519PublicKey", pub), "Ed25519Signature", "Ed25519PublicKey");
  }

  lemma WithSigningWellFormed(manifest: seq<Entry>, ajazz: seq<Entry>, signing: seq<Entry>)
    requires WellFormed(Obj(manifest)) && WellFormed(Obj(ajazz)) && WellFormed(Obj(signing))
    ensures WellFormed(WithSigning(manifest, ajazz, signing))
  {
    PutWellFormed(ajazz, "Signing", Obj(signing));
    PutWellFormed(manifest, "Ajazz", Obj(Put(ajazz, "Signing", Obj(signing))));
  }

  /** `sign` succeeds exactly on an Ed25519 key and a manifest it can navigate. Another key is
      refused with its own exit code, if the manifest parses; everything else raises. */
  lemma SignSucceedsWhen(text: string, c: Crypto, key: Option<PrivateKey>)
    ensures Sign(text, c, key).0 == Returned(0)
            <==> key.Some? && Loads(text).Some? && Signable(Loads(text).value)
    ensures Sign(text, c, key).0 != Returned(0) ==> Sign(text, c, key).1 == text
    ensures Sign(text, c, key).0 == Returned(2) <==> Loads(text).Some? && key.None?
  {
    LoadsGivesWellFormed(text);
    if key.Some? && Loads(text).Some? && Signable(Loads(text).value) {
      var m := Loads(text).value;
      var ajazz := SubDict(m.entries, "Ajazz").value;
      var signing := SubDict(ajazz, "Signing").value;
      KeyedSigningFields(c, key.value, signing);
      SigningKeepsCanonicalBytes(m.entries, ajazz, KeyedSigning(c, key.value, signing), Null);
    }
  }

  /** The manifest `sign` writes. */
  function Signed(m: seq<Entry>, c: Crypto, key: PrivateKey): Json
    requires Signable(Obj(m))
  {
    var ajazz := SubDict(m, "Ajazz").value;
    var keyed := KeyedSigning(c, key, SubDict(ajazz, "Signing").value);
    var bytes := CanonicalBytes(WithSigning(m, ajazz, keyed));
    var message := if bytes.Ok? then bytes.value else [];
    WithSigning(m, ajazz, Put(keyed, "Ed25519Signature", Str(c.b64(c.sign(key, message)))))
  }

  lemma SignPrintsSigned(text: string, c: Crypto, key: PrivateKey)
    requires Sign(text, c, Some(key)).0 == Returned(0)
    ensures Loads(text).Some? && Signable(Loads(text).value)
    ensures Sign(text, c, Some(key)).1 == PrintTo(Signed(Loads(text).value.entries, c, key), Indented(0), "\n")
  {
  }

  lemma SignedIsWellFormed(m: seq<Entry>, c: Crypto, key: PrivateKey)
    requires WellFormed(Obj(m)) && Signable(Obj(m))
    ensures WellFormed(Signed(m, c, key))
  {
    SubDictWellFormed(m, "Ajazz");
    var ajazz := SubDict(m, "Ajazz").value;
    SubDictWellFormed(ajazz, "Signing");
    var keyed := KeyedSigning(c, key, SubDict(ajazz, "Signing").value);
    KeyedSigningFields(c, key, SubDict(ajazz, "Signing").value);
    var bytes := CanonicalBytes(WithSigning(m, ajazz, keyed));
    var sig := Str(c.b64(c.sign(key, if bytes.Ok? then bytes.value else [])));
    PutWellFormed(keyed, "Ed25519Signature", sig);
    WithSigningWellFormed(m, ajazz, Put(keyed, "Ed25519Signature", sig));
  }

  /** What a signed file parses to: the same manifest, with the new key and signature. */
  lemma SignedFileReads(text: string, c: Crypto, key: PrivateKey)
    requires Sign(text, c, Some(key)).0 == Returned(0)
    ensures var m := Loads(text).value.entries;
            var ajazz := SubDict(m, "Ajazz").value;
            var keyed := KeyedSigning(c, key, SubDict(ajazz, "Signing").value);
            var message := CanonicalBytes(WithSigning(m, ajazz, keyed)).value;
            Loads(Sign(text, c, Some(key)).1)
            == Some(WithSigning(m, ajazz, Put(keyed, "Ed25519Signature", Str(c.b64(c.sign(key, message))))))
  {
    SignPrintsSigned(text, c, key);
    LoadsGivesWellFormed(text);
    var m := Loads(text).value.entries;
    SignedIsWellFormed(m, c, key);
    LoadsUndoesDumps(Signed(m, c, key), Indented(0), "\n");
  }

  /** Removing a key from dictionaries that can be navigated never raises. */
  lemma SignableStrips(m: Json)
    requires Signable(m)
    ensures Strip(m).Ok? && CanonicalBytes(m).Ok?
  {
  }

  /** Both fields are there, and decode to this signature and public key. */
  predicate Carries(m: Json, c: Crypto, sig: seq<Byte>, publicKey: seq<Byte>)
    requires Signable(m)
  {
    var sig64, pub64 := Get(SigningOf(m), "Ed25519Signature"), Get(SigningOf(m), "Ed25519PublicKey");
    && sig64.Some? && sig64.value.Str? && sig64.value.s != "" && c.unb64(sig64.value.s) == Some(sig)
    && pub64.Some? && pub64.value.Str? && pub64.value.s != "" && c.unb64(pub64.value.s) == Some(publicKey)
  }

  lemma AcceptedCarries(text: string, c: Crypto) returns (sig: seq<Byte>, publicKey: seq<Byte>)
    requires Verify(text, c) == Returned(0)
    ensures Loads(text).Some? && Signable(Loads(text).value) && CanonicalBytes(Loads(text).value).Ok?
    ensures Carries(Loads(text).value, c, sig, publicKey) && c.isPublicKey(publicKey)
    ensures c.verify(publicKey, sig, CanonicalBytes(Loads(text).value).value)
  {
    var m := Loads(text).value;
    sig := c.unb64(Get(SigningOf(m), "Ed25519Signature").value.s).value;
    publicKey := c.unb64(Get(SigningOf(m), "Ed25519PublicKey").value.s).value;
  }

  lemma SignedIsAccepted(m: Json, c: Crypto, sig: seq<Byte>, publicKey: seq<Byte>)
    requires Signable(m) && Carries(m, c, sig, publicKey) && c.isPublicKey(publicKey)
    requires CanonicalBytes(m).Ok? && c.verify(publicKey, sig, CanonicalBytes(m).value)
    ensures VerifyManifest(m, c) == Returned(0)
  {
  }

  /** A file is accepted if and only if it parses to a manifest that carries a signature
      and a public key such that the signature is one of the manifest's canonical bytes
      by that key. */
  lemma AcceptsExactlySignedManifests(text: string, c: Crypto)
    ensures Verify(text, c) == Returned(0) <==>
            exists sig, publicKey ::
              && Loads(text).Some? && Signable(Loads(text).value)
              && Carries(Loads(text).value, c, sig, publicKey) && c.isPublicKey(publicKey)
              && c.verify(publicKey, sig, CanonicalBytes(Loads(text).value).value)
  {
    if Verify(text, c) == Returned(0) {
      var sig, publicKey := AcceptedCarries(text, c);
    } else if Loads(text).Some? && Signable(Loads(text).value) {
      var m := Loads(text).value;
      SignableStrips(m);
      if sig, publicKey :| Carries(m, c, sig, publicKey) && c.isPublicKey(publicKey)
                           && c.verify(publicKey, sig, CanonicalBytes(m).value) {
        SignedIsAccepted(m, c, sig, publicKey);
      }
    }
  }

  lemma GoodSignatureAccepted(c: Crypto, key: PrivateKey, message: seq<Byte>)
    requires Lawful(c)
    ensures Verdict(Some(Str(c.b64(c.sign(key, message)))), Some(Str(c.b64(c.publicKey(key)))),
                    Ok(message), c) == Returned(0)
  {
  }

  lemma SignedFieldsVerify(m: seq<Entry>, ajazz: seq<Entry>, keyed: seq<Entry>, c: Crypto, key: PrivateKey)
    requires Lawful(c)
    requires Get(keyed, "Ed25519Signature").None?
    requires Get(keyed, "Ed25519PublicKey") == Some(Str(c.b64(c.publicKey(key))))
    ensures CanonicalBytes(WithSigning(m, ajazz, keyed)).Ok?
    ensures var message := CanonicalBytes(WithSigning(m, ajazz, keyed)).value;
            var signing := Put(keyed, "Ed25519Signature", Str(c.b64(c.sign(key, message))));
            VerifyManifest(WithSigning(m, ajazz, signing), c) == Returned(0)
  {
    SigningKeepsCanonicalBytes(m, ajazz, keyed, Null);
    var message := CanonicalBytes(WithSigning(m, ajazz, keyed)).value;
    var sig := Str(c.b64(c.sign(key, message)));
    SigningKeepsCanonicalBytes(m, ajazz, keyed, sig);
    WithSigningLookup(m, ajazz, Put(keyed, "Ed25519Signature", sig));
    GetAfterPut(keyed, "Ed25519Signature", sig, "Ed25519Signature");
    GetAfterPut(keyed, "Ed25519Signature", sig, "Ed25519PublicKey");
    GoodSignatureAccepted(c, key, message);
  }

  /** Main result: `verify` accepts every file `sign` wrote, whatever the order of
      the keys and whatever signature the file carried before. */
  lemma SignedManifestVerifies(text: string, c: Crypto, key: PrivateKey)
    requires Lawful(c)
    requires Sign(text, c, Some(key)).0 == Returned(0)
    ensures Verify(Sign(text, c, Some(key)).1, c) == Returned(0)
  {
    LoadsGivesWellFormed(text);
    SignSucceedsWhen(text, c, Some(key));
    SignedFileReads(text, c, key);
    var m := Loads(text).value.entries;
    SubDictWellFormed(m, "Ajazz");
    var ajazz := SubDict(m, "Ajazz").value;
    SubDictWellFormed(ajazz, "Signing");
    var signing := SubDict(ajazz, "Signing").value;
    KeyedSigningFields(c, key, signing);
    SignedFieldsVerify(m, ajazz, KeyedSigning(c, key, signing), c, key);
  }

  // ---- Verification depends on the meaning alone --------------------------------

  lemma SubDictMeaning(a: seq<Entry>, b: seq<Entry>, k: string)
    requires MeaningOfEntries(a) == MeaningOfEntries(b)
    ensures SubDict(a, k).Some? <==> SubDict(b, k).Some?
    ensures SubDict(a, k).Some? ==> MeaningOfEntries(SubDict(a, k).value) == MeaningOfEntries(SubDict(b, k).value)
  {
    GetMeaning(a, k);
    GetMeaning(b, k);
  }

  lemma TruthyMeaning(a: Json, b: Json)
    requires Meaning(a) == Meaning(b)
    ensures Truthy(a) == Truthy(b)
  {
    match a
    case Obj(es) =>
      EmptyMeaning(es);
      EmptyMeaning(b.entries);
    case _ =>
  }

  lemma StripSucceedsWhen(m: Json)
    ensures Strip(m).Ok? <==> Signable(m)
  {
  }

  lemma CanonicalBytesMeaning(a: Json, b: Json)
    requires WellFormed(a) && WellFormed(b) && Meaning(a) == Meaning(b)
    ensures CanonicalBytes(a) == CanonicalBytes(b)
  {
    StripSucceedsWhen(a);
    StripSucceedsWhen(b);
    NavigationMeaning(a, b);
    if Strip(a).Ok? {
      CanonicalBytesInjective(a, b);
    }
  }

  lemma NavigationMeaning(a: Json, b: Json)
    requires Meaning(a) == Meaning(b)
    ensures Signable(a) <==> Signable(b)
    ensures Signable(a) ==> MeaningOfEntries(SigningOf(a)) == MeaningOfEntries(SigningOf(b))
  {
    if a.Obj? {
      SubDictMeaning(a.entries, b.entries, "Ajazz");
      if SubDict(a.entries, "Ajazz").Some? {
        SubDictMeaning(SubDict(a.entries, "Ajazz").value, SubDict(b.entries, "Ajazz").value, "Signing");
      }
    }
  }

  predicate SameMeaning(x: Option<Json>, y: Option<Json>) {
    (x.Some? <==> y.Some?) && (x.Some? ==> Meaning(x.value) == Meaning(y.value))
  }

  lemma VerdictMeaning(s: Option<Json>, s': Option<Json>, p: Option<Json>, p': Option<Json>,
                       message: Result<seq<Byte>>, c: Crypto)
    requires SameMeaning(s, s') && SameMeaning(p, p')
    ensures Verdict(s, p, message, c) == Verdict(s', p', message, c)
  {
    if s.Some? && p.Some? {
      TruthyMeaning(s.value, s'.value);
      TruthyMeaning(p.value, p'.value);
    }
  }

  /** Reordering the keys of a manifest, at any depth, or laying its text out
      differently never changes the verdict. */
  lemma VerdictIgnoresKeyOrder(text: string, text': string, c: Crypto)
    requires Loads(text).Some? && Loads(text').Some?
    requires Meaning(Loads(text).value) == Meaning(Loads(text').value)
    ensures Verify(text, c) == Verify(text', c)
  {
    LoadsGivesWellFormed(text);
    LoadsGivesWellFormed(text');
    var a, b := Loads(text).value, Loads(text').value;
    NavigationMeaning(a, b);
    if Signable(a) {
      CanonicalBytesMeaning(a, b);
      var s, t := SigningOf(a), SigningOf(b);
      GetMeaning(s, "Ed25519Signature");
      GetMeaning(t, "Ed25519Signature");
      GetMeaning(s, "Ed25519PublicKey");
      GetMeaning(t, "Ed25519PublicKey");
      VerdictMeaning(Get(s, "Ed25519Signature"), Get(t, "Ed25519Signature"),
                     Get(s, "Ed25519PublicKey"), Get(t, "Ed25519PublicKey"), CanonicalBytes(a), c);
    }
  }

  /** The values Python takes for false. */
  predicate IsFalsy(v: Json) {
    v == Null || v == Bool(false) || v == Num(0) || v == Str("") || v == Arr([]) || v == Obj([])
  }

  predicate FieldsRaise(sig64: Option<Json>, pub64: Option<Json>, c: Crypto) {
    && sig64.Some? && !IsFalsy(sig64.value) && pub64.Some? && !IsFalsy(pub64.value)
    && (sig64.value.Str? ==>
          && c.unb64(sig64.value.s).Some?
          && (pub64.value.Str? ==>
                c.unb64(pub64.value.s).Some? && !c.isPublicKey(c.unb64(pub64.value.s).value)))
  }

  lemma VerdictRaisesWhen(sig64: Option<Json>, pub64: Option<Json>, message: seq<Byte>, c: Crypto)
    ensures var verdict := Verdict(sig64, pub64, Ok(message), c);
            (verdict == Raised <==> FieldsRaise(sig64, pub64, c)) && (verdict.Returned? ==> 0 <= verdict.code <= 1)
  {
  }

  /** `verify` raises if and only if the file does not parse, the manifest cannot be navigated, or both
      fields are there and the first that is no text, or is no key where it decodes, comes before one
      that does not decode; in every other case that is not an acceptance it exits with 1. */
  lemma VerifyRaisesWhen(text: string, c: Crypto)
    ensures Verify(text, c) == Raised <==>
            || Loads(text).None? || !Signable(Loads(text).value)
            || FieldsRaise(Get(SigningOf(Loads(text).value), "Ed25519Signature"),
                           Get(SigningOf(Loads(text).value), "Ed25519PublicKey"), c)
    ensures Verify(text, c).Returned? ==> 0 <= Verify(text, c).code <= 1
  {
    if Loads(text).Some? && Signable(Loads(text).value) {
      var m := Loads(text).value;
      SignableStrips(m);
      VerdictRaisesWhen(Get(SigningOf(m), "Ed25519Signature"), Get(SigningOf(m), "Ed25519PublicKey"),
                        CanonicalBytes(m).value, c);
    }
  }
}
