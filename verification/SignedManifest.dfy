/** What `sign` sets in a manifest and what it leaves alone, said of the file as parsed
    before and after, in terms of lookups, key order and meaning. */
module SignedManifest {
  import opened Wrappers
  import opened Json
  import opened JsonRoundTrip
  import opened Canonical
  import opened Manifest
  import opened Seqs

  function Keys(es: seq<Entry>): seq<string> {
    if es == [] then [] else [es[0].key] + Keys(es[1..])
  }

  function With(keys: seq<string>, k: string): seq<string> {
    if k in keys then keys else keys + [k]
  }

  function Without(keys: seq<string>, k: string): seq<string> {
    if keys == [] then [] else (if keys[0] == k then [] else [keys[0]]) + Without(keys[1..], k)
  }

  /** The dictionary under `k`, if there is one. */
  function Dict(es: seq<Entry>, k: string): seq<Entry> {
    match Get(es, k)
    case Some(Obj(entries)) => entries
    case _ => []
  }

  /** One key has this value now; every other has the value it had, and all keys kept are in
      their old order, before a new one. */
  ghost predicate OnlySets(before: seq<Entry>, after: seq<Entry>, k: string, v: Json) {
    && (forall k' :: Get(after, k') == if k' == k then Some(v) else Get(before, k'))
    && Keys(after) == With(Keys(before), k)
  }

  /** The same of the two fields of `Signing`: the public key stays where it was, if it was
      there, and the signature goes last. */
  ghost predicate OnlySetsFields(before: seq<Entry>, after: seq<Entry>, publicKey: Json, signature: Json) {
    && (forall k :: Get(after, k) == if k == "Ed25519PublicKey" then Some(publicKey)
                                     else if k == "Ed25519Signature" then Some(signature)
                                     else Get(before, k))
    && Keys(after) == Without(With(Keys(before), "Ed25519PublicKey"), "Ed25519Signature") + ["Ed25519Signature"]
  }

  lemma {:induction false} GetIsKey(es: seq<Entry>, k: string)
    ensures k in Keys(es) <==> Get(es, k).Some?
  {
    if es != [] {
      GetIsKey(es[1..], k);
    }
  }

  lemma {:induction false} PutOnlySets(es: seq<Entry>, k: string, v: Json)
    ensures OnlySets(es, Put(es, k, v), k, v)
  {
    forall k'
      ensures Get(Put(es, k, v), k') == if k' == k then Some(v) else Get(es, k')
    {
      GetAfterPut(es, k, v, k');
    }
    KeysAfterPut(es, k, v);
  }

  lemma {:induction false} KeysAfterPut(es: seq<Entry>, k: string, v: Json)
    ensures Keys(Put(es, k, v)) == With(Keys(es), k)
  {
    if es != [] && es[0].key != k {
      KeysAfterPut(es[1..], k, v);
      assert k in Keys(es) <==> k in Keys(es[1..]);
      Associates([es[0].key], Keys(es[1..]), [k]);
    }
  }

  lemma {:induction false} WithoutAbsent(keys: seq<string>, k: string)
    requires k !in keys
    ensures Without(keys, k) == keys
  {
    if keys != [] {
      WithoutAbsent(keys[1..], k);
      ConsOfTail(keys);
    }
  }

  lemma {:induction false} KeysAfterRemove(es: seq<Entry>, k: string)
    requires DistinctKeys(es)
    ensures Keys(Remove(es, k)) == Without(Keys(es), k)
  {
    if es != [] {
      assert Keys(es)[1..] == Keys(es[1..]);
      if es[0].key == k {
        GetIsKey(es[1..], k);
        WithoutAbsent(Keys(es[1..]), k);
      } else {
        KeysAfterRemove(es[1..], k);
      }
    }
  }

  lemma SubDictIsDict(es: seq<Entry>, k: string)
    requires SubDict(es, k).Some?
    ensures SubDict(es, k).value == Dict(es, k)
  {
  }

  /** The two fields of `Signing` as the steps of `sign` set them. */
  lemma FieldsSet(c: Crypto, key: PrivateKey, signing: seq<Entry>, signature: Json)
    requires WellFormed(Obj(signing))
    ensures OnlySetsFields(signing, Put(KeyedSigning(c, key, signing), "Ed25519Signature", signature),
                           Str(c.b64(c.publicKey(key))), signature)
  {
    var publicKey := Str(c.b64(c.publicKey(key)));
    var put := Put(signing, "Ed25519PublicKey", publicKey);
    var keyed := Remove(put, "Ed25519Signature");
    PutWellFormed(signing, "Ed25519PublicKey", publicKey);
    PutOnlySets(signing, "Ed25519PublicKey", publicKey);
    PutOnlySets(keyed, "Ed25519Signature", signature);
    KeysAfterRemove(put, "Ed25519Signature");
    GetAfterRemove(put, "Ed25519Signature", "Ed25519Signature");
    GetIsKey(keyed, "Ed25519Signature");
    forall k
      ensures Get(keyed, k) == if k == "Ed25519Signature" then None else Get(put, k)
    {
      GetAfterRemove(put, "Ed25519Signature", k);
    }
  }

  /** The signature is one of the canonical bytes of the manifest it ends up in. */
  lemma SignedCoversItself(m: seq<Entry>, c: Crypto, key: PrivateKey)
    requires WellFormed(Obj(m)) && Signable(Obj(m))
    ensures CanonicalBytes(Signed(m, c, key)).Ok?
    ensures var ajazz := SubDict(m, "Ajazz").value;
            var keyed := KeyedSigning(c, key, SubDict(ajazz, "Signing").value);
            Signed(m, c, key) ==
            WithSigning(m, ajazz, Put(keyed, "Ed25519Signature",
                                      Str(c.b64(c.sign(key, CanonicalBytes(Signed(m, c, key)).value)))))
  {
    SubDictWellFormed(m, "Ajazz");
    var ajazz := SubDict(m, "Ajazz").value;
    SubDictWellFormed(ajazz, "Signing");
    var signing := SubDict(ajazz, "Signing").value;
    var keyed := KeyedSigning(c, key, signing);
    KeyedSigningFields(c, key, signing);
    var bytes := CanonicalBytes(WithSigning(m, ajazz, keyed));
    SigningKeepsCanonicalBytes(m, ajazz, keyed, Str(c.b64(c.sign(key, if bytes.Ok? then bytes.value else []))));
  }

  /** `after` differs from `before` in the members `Ajazz.Signing.Ed25519PublicKey` and
      `Ajazz.Signing.Ed25519Signature` alone. */
  ghost predicate SetsTheTwoFields(before: Json, after: Json, publicKey: Json, signature: Json)
    requires before.Obj? && after.Obj?
  {
    var ajazz, ajazz' := Dict(before.entries, "Ajazz"), Dict(after.entries, "Ajazz");
    var signing, signing' := Dict(ajazz, "Signing"), Dict(ajazz', "Signing");
    && OnlySets(before.entries, after.entries, "Ajazz", Obj(ajazz'))
    && OnlySets(ajazz, ajazz', "Signing", Obj(signing'))
    && OnlySetsFields(signing, signing', publicKey, signature)
  }

  /** Main result: after a signing that succeeds the file is the indented text of a manifest, and a
      newline: of the manifest before with the public key and a signature of the file's own canonical
      bytes set. Every other member, of the manifest, of `Ajazz` and of `Signing`, keeps its value
      and its place. */
  lemma SignSetsTheTwoFields(text: string, c: Crypto, key: PrivateKey)
    requires Sign(text, c, Some(key)).0 == Returned(0)
    ensures var before, after := Loads(text), Loads(Sign(text, c, Some(key)).1);
            && before.Some? && before.value.Obj? && after.Some? && after.value.Obj?
            && CanonicalBytes(after.value).Ok?
            && Sign(text, c, Some(key)).1 == Dumps(after.value, Indented(0)) + "\n"
            && SetsTheTwoFields(before.value, after.value, Str(c.b64(c.publicKey(key))),
                                Str(c.b64(c.sign(key, CanonicalBytes(after.value).value))))
  {
    SignPrintsSigned(text, c, key);
    LoadsGivesWellFormed(text);
    var m := Loads(text).value.entries;
    SignedIsWellFormed(m, c, key);
    LoadsUndoesDumps(Signed(m, c, key), Indented(0), "\n");
    PrintsInFront(Signed(m, c, key), Indented(0), "", "\n");
    EmptyIsUnit("\n");
    SignedCoversItself(m, c, key);
    WithSigningSets(m, c, key, Str(c.b64(c.sign(key, CanonicalBytes(Signed(m, c, key)).value))));
  }

  lemma PutDict(es: seq<Entry>, k: string, entries: seq<Entry>)
    ensures Dict(Put(es, k, Obj(entries)), k) == entries
    ensures OnlySets(es, Put(es, k, Obj(entries)), k, Obj(entries))
  {
    PutOnlySets(es, k, Obj(entries));
    assert Get(Put(es, k, Obj(entries)), k) == Some(Obj(entries));
  }

  lemma WithSigningSets(m: seq<Entry>, c: Crypto, key: PrivateKey, signature: Json)
    requires WellFormed(Obj(m)) && Signable(Obj(m))
    ensures var ajazz := SubDict(m, "Ajazz").value;
            var keyed := KeyedSigning(c, key, SubDict(ajazz, "Signing").value);
            SetsTheTwoFields(Obj(m), WithSigning(m, ajazz, Put(keyed, "Ed25519Signature", signature)),
                             Str(c.b64(c.publicKey(key))), signature)
  {
    SubDictWellFormed(m, "Ajazz");
    SubDictIsDict(m, "Ajazz");
    var ajazz := Dict(m, "Ajazz");
    SubDictWellFormed(ajazz, "Signing");
    SubDictIsDict(ajazz, "Signing");
    var signing := Dict(ajazz, "Signing");
    var signing' := Put(KeyedSigning(c, key, signing), "Ed25519Signature", signature);
    FieldsSet(c, key, signing, signature);
    PutDict(ajazz, "Signing", signing');
    PutDict(m, "Ajazz", Put(ajazz, "Signing", Obj(signing')));
  }

  // ---- The same, of what the manifest means ------------------------------------------------------

  /** The members of the dictionary under `k`, if there is one. */
  function MembersAt(members: map<string, Value>, k: string): map<string, Value> {
    if k in members && members[k].ObjValue? then members[k].members else map[]
  }

  lemma DictMeaning(es: seq<Entry>, k: string)
    ensures MeaningOfEntries(Dict(es, k)) == MembersAt(MeaningOfEntries(es), k)
  {
    GetMeaning(es, k);
  }

  lemma LookupsDecideMeaning(before: seq<Entry>, after: seq<Entry>, k: string, v: Json)
    requires OnlySets(before, after, k, v)
    ensures MeaningOfEntries(after) == MeaningOfEntries(before)[k := Meaning(v)]
  {
    forall k'
      ensures k' in MeaningOfEntries(after) <==> k' == k || k' in MeaningOfEntries(before)
      ensures k' in MeaningOfEntries(after) ==>
                MeaningOfEntries(after)[k'] == if k' == k then Meaning(v) else MeaningOfEntries(before)[k']
    {
      GetMeaning(after, k');
      GetMeaning(before, k');
      assert Get(after, k') == if k' == k then Some(v) else Get(before, k');
    }
  }

  lemma FieldsDecideMeaning(before: seq<Entry>, after: seq<Entry>, publicKey: Json, signature: Json)
    requires OnlySetsFields(before, after, publicKey, signature)
    ensures MeaningOfEntries(after) == MeaningOfEntries(before)["Ed25519PublicKey" := Meaning(publicKey)]
                                                               ["Ed25519Signature" := Meaning(signature)]
  {
    TwoLookupsDecideMeaning(before, after, "Ed25519PublicKey", publicKey, "Ed25519Signature", signature);
  }

  function ValueAt(members: map<string, Value>, k: string): Option<Value> {
    if k in members then Some(members[k]) else None
  }

  lemma LookupMeaning(es: seq<Entry>, k: string)
    ensures ValueAt(MeaningOfEntries(es), k) ==
            if Get(es, k).Some? then Some(Meaning(Get(es, k).value)) else None
  {
    GetMeaning(es, k);
  }

  lemma SetTwo(a: map<string, Value>, b: map<string, Value>, p: string, u: Value, q: string, v: Value)
    requires p != q
    requires forall k :: ValueAt(b, k) == if k == p then Some(u) else if k == q then Some(v) else ValueAt(a, k)
    ensures b == a[p := u][q := v]
  {
    assert forall k :: k in b <==> ValueAt(b, k).Some?;
  }

  lemma TwoLookupsDecideMeaning(before: seq<Entry>, after: seq<Entry>, p: string, u: Json, q: string, v: Json)
    requires p != q
    requires forall k :: Get(after, k) == if k == p then Some(u) else if k == q then Some(v) else Get(before, k)
    ensures MeaningOfEntries(after) == MeaningOfEntries(before)[p := Meaning(u)][q := Meaning(v)]
  {
    var a, b := MeaningOfEntries(before), MeaningOfEntries(after);
    forall k
      ensures ValueAt(b, k) ==
              if k == p then Some(Meaning(u)) else if k == q then Some(Meaning(v)) else ValueAt(a, k)
    {
      LookupMeaning(after, k);
      LookupMeaning(before, k);
    }
    SetTwo(a, b, p, Meaning(u), q, Meaning(v));
  }

  /** A dictionary's members with two of `Ajazz.Signing` updated. */
  function WithFields(m: map<string, Value>, publicKey: string, signature: string): map<string, Value> {
    var ajazz := MembersAt(m, "Ajazz");
    var signing := MembersAt(ajazz, "Signing")["Ed25519PublicKey" := StrValue(publicKey)]
                                              ["Ed25519Signature" := StrValue(signature)];
    m["Ajazz" := ObjValue(ajazz["Signing" := ObjValue(signing)])]
  }

  /** So the signed manifest means the one signed, with two members of `Ajazz.Signing` set. */
  lemma SignedMeaning(text: string, c: Crypto, key: PrivateKey)
    requires Sign(text, c, Some(key)).0 == Returned(0)
    ensures var before, after := Loads(text), Loads(Sign(text, c, Some(key)).1);
            && before.Some? && Meaning(before.value).ObjValue? && after.Some? && CanonicalBytes(after.value).Ok?
            && Meaning(after.value) ==
               ObjValue(WithFields(Meaning(before.value).members, c.b64(c.publicKey(key)),
                                   c.b64(c.sign(key, CanonicalBytes(after.value).value))))
  {
    SignSetsTheTwoFields(text, c, key);
    var before, after := Loads(text).value, Loads(Sign(text, c, Some(key)).1).value;
    TwoFieldsMeaning(before, after, c.b64(c.publicKey(key)), c.b64(c.sign(key, CanonicalBytes(after).value)));
  }

  lemma TwoFieldsMeaning(before: Json, after: Json, publicKey: string, signature: string)
    requires before.Obj? && after.Obj? && SetsTheTwoFields(before, after, Str(publicKey), Str(signature))
    ensures MeaningOfEntries(after.entries) == WithFields(MeaningOfEntries(before.entries), publicKey, signature)
  {
    var ajazz, ajazz' := Dict(before.entries, "Ajazz"), Dict(after.entries, "Ajazz");
    var signing, signing' := Dict(ajazz, "Signing"), Dict(ajazz', "Signing");
    DictMeaning(before.entries, "Ajazz");
    DictMeaning(ajazz, "Signing");
    LookupsDecideMeaning(before.entries, after.entries, "Ajazz", Obj(ajazz'));
    LookupsDecideMeaning(ajazz, ajazz', "Signing", Obj(signing'));
    FieldsDecideMeaning(signing, signing', Str(publicKey), Str(signature));
  }
}
