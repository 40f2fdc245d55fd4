/** The canonical form a manifest is signed in: dictionaries sorted by key,
    compact layout, UTF-8, without `Ajazz.Signing.Ed25519Signature`. */
module Canonical {
  import opened Wrappers
  import opened Lex
  import opened Json
  import opened JsonRoundTrip
  import opened Bytes
  import Utf8

  // ---- What a JSON value means -----------------------------------------------

  /** A JSON value whose dictionaries have forgotten the order of their keys. Unlike
      Python's `==`, equality of meanings tells `true` from 1 and `false` from 0. */
  datatype Value =
    | NullValue
    | BoolValue(b: bool)
    | NumValue(n: int)
    | StrValue(s: string)
    | ArrValue(items: seq<Value>)
    | ObjValue(members: map<string, Value>)

  function Meaning(j: Json): Value
    decreases j, 1
  {
    match j
    case Null => NullValue
    case Bool(b) => BoolValue(b)
    case Num(n) => NumValue(n)
    case Str(s) => StrValue(s)
    case Arr(items) => ArrValue(MeaningOfItems(items))
    case Obj(es) => ObjValue(MeaningOfEntries(es))
  }

  function MeaningOfItems(items: seq<Json>): seq<Value>
    decreases items, 0
  {
    if items == [] then [] else [Meaning(items[0])] + MeaningOfItems(items[1..])
  }

  function MeaningOfEntries(es: seq<Entry>): map<string, Value>
    decreases es, 0
  {
    if es == [] then map[] else MeaningOfEntries(es[1..])[es[0].key := Meaning(es[0].value)]
  }

  /** Looking a key up in a dictionary looks it up in its meaning. */
  lemma {:induction false} GetMeaning(es: seq<Entry>, k: string)
    ensures Get(es, k).Some? <==> k in MeaningOfEntries(es)
    ensures Get(es, k).Some? ==> MeaningOfEntries(es)[k] == Meaning(Get(es, k).value)
  {
    if es != [] {
      GetMeaning(es[1..], k);
    }
  }

  // ---- Sorting ---------------------------------------------------------------

  function Insert(e: Entry, es: seq<Entry>): (r: seq<Entry>)
    ensures forall x :: x in r <==> x == e || x in es
  {
    if es == [] then [e]
    else if Before(e.key, es[0].key) then [e] + es
    else
      assert es == [es[0]] + es[1..];
      [es[0]] + Insert(e, es[1..])
  }

  /** `j` with every dictionary sorted by key, as `sort_keys=True` prints it. */
  function Normal(j: Json): Json
    decreases j, 1
  {
    match j
    case Arr(items) => Arr(NormalItems(items))
    case Obj(es) => Obj(NormalEntries(es))
    case _ => j
  }

  function NormalItems(items: seq<Json>): seq<Json>
    decreases items, 0
  {
    if items == [] then [] else [Normal(items[0])] + NormalItems(items[1..])
  }

  function NormalEntries(es: seq<Entry>): seq<Entry>
    decreases es, 0
  {
    if es == [] then []
    else Insert(Entry(es[0].key, Normal(es[0].value)), NormalEntries(es[1..]))
  }

  /** Keys strictly increase. */
  predicate Sorted(es: seq<Entry>) {
    es == [] || ((forall e | e in es[1..] :: Before(es[0].key, e.key)) && Sorted(es[1..]))
  }

  predicate IsNormal(j: Json)
    decreases j, 1
  {
    match j
    case Arr(items) => AllNormal(items)
    case Obj(es) => Sorted(es) && EntriesNormal(es)
    case _ => true
  }

  predicate AllNormal(items: seq<Json>)
    decreases items, 0
  {
    items == [] || (IsNormal(items[0]) && AllNormal(items[1..]))
  }

  predicate EntriesNormal(es: seq<Entry>)
    decreases es, 0
  {
    es == [] || (IsNormal(es[0].value) && EntriesNormal(es[1..]))
  }

  lemma {:induction false} SortedKeysAreDistinct(es: seq<Entry>)
    requires Sorted(es)
    ensures DistinctKeys(es)
  {
    if es != [] {
      SortedKeysAreDistinct(es[1..]);
      forall e | e in es[1..]
        ensures e.key != es[0].key
      {
        BeforeIsStrictTotalOrder(es[0].key, e.key, e.key);
      }
    }
  }

  lemma {:induction false} InsertKeepsSorted(e: Entry, es: seq<Entry>)
    requires Sorted(es) && forall x | x in es :: x.key != e.key
    ensures Sorted(Insert(e, es))
  {
    if es != [] {
      var r := Insert(e, es);
      BeforeIsStrictTotalOrder(e.key, es[0].key, e.key);
      if Before(e.key, es[0].key) {
        assert r[1..] == es;
        forall x | x in es
          ensures Before(e.key, x.key)
        {
          assert x == es[0] || x in es[1..];
          BeforeIsStrictTotalOrder(e.key, es[0].key, x.key);
        }
      } else {
        InsertKeepsSorted(e, es[1..]);
        assert r[1..] == Insert(e, es[1..]);
      }
    }
  }

  lemma {:induction false} InsertKeepsNormal(e: Entry, es: seq<Entry>)
    requires EntriesNormal(es) && IsNormal(e.value)
    ensures EntriesNormal(Insert(e, es))
  {
    if es != [] {
      if Before(e.key, es[0].key) {
        assert Insert(e, es)[1..] == es;
      } else {
        InsertKeepsNormal(e, es[1..]);
        assert Insert(e, es)[1..] == Insert(e, es[1..]);
      }
    }
  }

  lemma MeaningPush(e: Entry, es: seq<Entry>)
    ensures MeaningOfEntries([e] + es) == MeaningOfEntries(es)[e.key := Meaning(e.value)]
  {
    assert ([e] + es)[1..] == es;
  }

  lemma UpdatesCommute<K, V>(m: map<K, V>, k: K, v: V, k': K, v': V)
    requires k != k'
    ensures m[k := v][k' := v'] == m[k' := v'][k := v]
  {
  }

  lemma {:induction false} InsertMeaning(e: Entry, es: seq<Entry>)
    requires forall x | x in es :: x.key != e.key
    ensures MeaningOfEntries(Insert(e, es)) == MeaningOfEntries(es)[e.key := Meaning(e.value)]
  {
    MeaningPush(e, es);
    if es != [] && !Before(e.key, es[0].key) {
      var first, rest := es[0], es[1..];
      InsertMeaning(e, rest);
      MeaningPush(first, Insert(e, rest));
      UpdatesCommute(MeaningOfEntries(rest), first.key, Meaning(first.value), e.key, Meaning(e.value));
    }
  }

  lemma {:induction false} NormalKeepsMeaning(j: Json)
    requires WellFormed(j)
    ensures IsNormal(Normal(j)) && Meaning(Normal(j)) == Meaning(j)
    decreases j, 1
  {
    match j
    case Arr(items) => NormalItemsKeepMeaning(items);
    case Obj(es) => NormalEntriesKeepMeaning(es);
    case _ =>
  }

  lemma {:induction false} NormalItemsKeepMeaning(items: seq<Json>)
    requires forall x | x in items :: WellFormed(x)
    ensures AllNormal(NormalItems(items)) && MeaningOfItems(NormalItems(items)) == MeaningOfItems(items)
    decreases items, 0
  {
    if items != [] {
      NormalKeepsMeaning(items[0]);
      NormalItemsKeepMeaning(items[1..]);
      assert NormalItems(items)[1..] == NormalItems(items[1..]);
    }
  }

  lemma {:induction false} NormalEntriesKeepMeaning(es: seq<Entry>)
    requires DistinctKeys(es) && forall e | e in es :: WellFormed(e.value)
    ensures Sorted(NormalEntries(es)) && EntriesNormal(NormalEntries(es))
    ensures MeaningOfEntries(NormalEntries(es)) == MeaningOfEntries(es)
    decreases es, 0
  {
    if es != [] {
      NormalKeepsMeaning(es[0].value);
      NormalEntriesKeepMeaning(es[1..]);
      var tail := NormalEntries(es[1..]);
      forall x | x in tail
        ensures x.key != es[0].key
      {
        GetMeaning(tail, x.key);
        GetMeaning(es[1..], x.key);
      }
      InsertKeepsSorted(Entry(es[0].key, Normal(es[0].value)), tail);
      InsertKeepsNormal(Entry(es[0].key, Normal(es[0].value)), tail);
      InsertMeaning(Entry(es[0].key, Normal(es[0].value)), tail);
    }
  }

  // ---- Sorted dictionaries are canonical -------------------------------------

  lemma {:induction false} NormalFormIsUnique(a: Json, b: Json)
    requires IsNormal(a) && IsNormal(b) && Meaning(a) == Meaning(b)
    ensures a == b
    decreases a, 1
  {
    match a
    case Arr(items) => NormalItemsAreUnique(items, b.items);
    case Obj(es) => NormalEntriesAreUnique(es, b.entries);
    case _ =>
  }

  lemma {:induction false} NormalItemsAreUnique(a: seq<Json>, b: seq<Json>)
    requires AllNormal(a) && AllNormal(b) && MeaningOfItems(a) == MeaningOfItems(b)
    ensures a == b
    decreases a, 0
  {
    if a != [] {
      assert b != [];
      var x, y := MeaningOfItems(a), MeaningOfItems(b);
      assert x[0] == Meaning(a[0]) && y[0] == Meaning(b[0]);
      assert x[1..] == MeaningOfItems(a[1..]) && y[1..] == MeaningOfItems(b[1..]);
      NormalFormIsUnique(a[0], b[0]);
      NormalItemsAreUnique(a[1..], b[1..]);
      assert a == [a[0]] + a[1..] && b == [b[0]] + b[1..];
    }
  }

  lemma EmptyMeaning(es: seq<Entry>)
    ensures MeaningOfEntries(es) == map[] ==> es == []
  {
    if es != [] {
      assert es[0].key in MeaningOfEntries(es);
    }
  }

  /** The first entry of a sorted dictionary has its least key. */
  lemma FirstKeyIsLeast(es: seq<Entry>, k: string)
    requires Sorted(es) && es != [] && k in MeaningOfEntries(es)
    ensures k == es[0].key || Before(es[0].key, k)
  {
    GetMeaning(es, k);
    var e := Entry(k, Get(es, k).value);
    assert e == es[0] || e in es[1..];
  }

  lemma TailMeaning(es: seq<Entry>)
    requires Sorted(es) && es != []
    ensures MeaningOfEntries(es[1..]) == MeaningOfEntries(es) - {es[0].key}
  {
    forall e | e in es[1..]
      ensures e.key != es[0].key
    {
      BeforeIsStrictTotalOrder(es[0].key, e.key, e.key);
    }
    GetMeaning(es[1..], es[0].key);
  }

  lemma {:induction false} NormalEntriesAreUnique(a: seq<Entry>, b: seq<Entry>)
    requires Sorted(a) && EntriesNormal(a) && Sorted(b) && EntriesNormal(b)
    requires MeaningOfEntries(a) == MeaningOfEntries(b)
    ensures a == b
    decreases a, 0
  {
    var m := MeaningOfEntries(a);
    if a == [] {
      EmptyMeaning(b);
    } else {
      assert a[0].key in m;
      assert b != [];
      assert b[0].key in MeaningOfEntries(b);
      FirstKeyIsLeast(a, b[0].key);
      FirstKeyIsLeast(b, a[0].key);
      BeforeIsStrictTotalOrder(a[0].key, b[0].key, a[0].key);
      assert a[0].key == b[0].key;
      assert Meaning(a[0].value) == m[a[0].key] == Meaning(b[0].value);
      NormalFormIsUnique(a[0].value, b[0].value);
      TailMeaning(a);
      TailMeaning(b);
      NormalEntriesAreUnique(a[1..], b[1..]);
      assert a == [a[0]] + a[1..] && b == [b[0]] + b[1..];
    }
  }

  lemma {:induction false} NormalIsWellFormed(j: Json)
    requires IsNormal(j)
    ensures WellFormed(j)
    decreases j, 1
  {
    match j
    case Arr(items) => NormalItemsAreWellFormed(items);
    case Obj(es) =>
      SortedKeysAreDistinct(es);
      NormalEntriesAreWellFormed(es);
    case _ =>
  }

  lemma {:induction false} NormalItemsAreWellFormed(items: seq<Json>)
    requires AllNormal(items)
    ensures forall x | x in items :: WellFormed(x)
    decreases items, 0
  {
    if items != [] {
      NormalIsWellFormed(items[0]);
      NormalItemsAreWellFormed(items[1..]);
      assert items == [items[0]] + items[1..];
    }
  }

  lemma {:induction false} NormalEntriesAreWellFormed(es: seq<Entry>)
    requires EntriesNormal(es)
    ensures forall e | e in es :: WellFormed(e.value)
    decreases es, 0
  {
    if es != [] {
      NormalIsWellFormed(es[0].value);
      NormalEntriesAreWellFormed(es[1..]);
      assert es == [es[0]] + es[1..];
    }
  }

  /** Sorted-key compact text is equal exactly for values that mean the same. */
  lemma CanonicalTextIsMeaning(a: Json, b: Json)
    requires WellFormed(a) && WellFormed(b)
    ensures Dumps(Normal(a), Compact) == Dumps(Normal(b), Compact) <==> Meaning(a) == Meaning(b)
  {
    NormalKeepsMeaning(a);
    NormalKeepsMeaning(b);
    if Meaning(a) == Meaning(b) {
      NormalFormIsUnique(Normal(a), Normal(b));
    }
    if Dumps(Normal(a), Compact) == Dumps(Normal(b), Compact) {
      NormalIsWellFormed(Normal(a));
      NormalIsWellFormed(Normal(b));
      LoadsUndoesDumps(Normal(a), Compact, "");
      LoadsUndoesDumps(Normal(b), Compact, "");
    }
  }

  // ---- Removing the signature ------------------------------------------------

  /** `stripped.get("Ajazz", {}).get("Signing", {}).pop("Ed25519Signature", None)`;
      anything but a dictionary on the way raises. */
  function Strip(m: Json): Result<Json> {
    if !m.Obj? then Crash
    else
      match Get(m.entries, "Ajazz")
      case None => Ok(m)
      case Some(ajazz) =>
        if !ajazz.Obj? then Crash
        else
          match Get(ajazz.entries, "Signing")
          case None => Ok(m)
          case Some(signing) =>
            if !signing.Obj? then Crash
            else
              var signing' := Obj(Remove(signing.entries, "Ed25519Signature"));
              Ok(Obj(Put(m.entries, "Ajazz", Obj(Put(ajazz.entries, "Signing", signing')))))
  }

  /** The bytes the signature covers. */
  function CanonicalBytes(m: Json): Result<seq<Byte>> {
    match Strip(m)
    case Crash => Crash
    case Ok(stripped) => Ok(Utf8.Encode(Dumps(Normal(stripped), Compact)))
  }

  /** `v` without its `Ajazz.Signing.Ed25519Signature`, if it has one. */
  function EraseSignature(v: Value): Value {
    if v.ObjValue? && "Ajazz" in v.members && v.members["Ajazz"].ObjValue? then
      var ajazz := v.members["Ajazz"].members;
      if "Signing" in ajazz && ajazz["Signing"].ObjValue? then
        var signing := ObjValue(ajazz["Signing"].members - {"Ed25519Signature"});
        ObjValue(v.members["Ajazz" := ObjValue(ajazz["Signing" := signing])])
      else v
    else v
  }

  // ---- Dictionary operations and meaning -------------------------------------

  lemma {:induction false} PutMeaning(es: seq<Entry>, k: string, v: Json)
    ensures MeaningOfEntries(Put(es, k, v)) == MeaningOfEntries(es)[k := Meaning(v)]
  {
    if es != [] {
      var r := Put(es, k, v);
      if es[0].key == k {
        assert r[1..] == es[1..];
      } else {
        PutMeaning(es[1..], k, v);
        assert r[1..] == Put(es[1..], k, v);
      }
    }
  }

  lemma {:induction false} RemoveMeaning(es: seq<Entry>, k: string)
    requires DistinctKeys(es)
    ensures MeaningOfEntries(Remove(es, k)) == MeaningOfEntries(es) - {k}
  {
    if es != [] {
      if es[0].key == k {
        GetMeaning(es[1..], k);
      } else {
        RemoveMeaning(es[1..], k);
        assert Remove(es, k)[1..] == Remove(es[1..], k);
      }
    }
  }

  /** Putting a well-formed value under a key keeps the dictionary well formed. */
  lemma PutWellFormed(es: seq<Entry>, k: string, v: Json)
    requires WellFormed(Obj(es)) && WellFormed(v)
    ensures WellFormed(Obj(Put(es, k, v)))
    ensures Meaning(Obj(Put(es, k, v))) == ObjValue(MeaningOfEntries(es)[k := Meaning(v)])
  {
    PutMembers(es, k, v);
    PutMeaning(es, k, v);
  }

  lemma RemoveWellFormed(es: seq<Entry>, k: string)
    requires WellFormed(Obj(es))
    ensures WellFormed(Obj(Remove(es, k)))
    ensures Meaning(Obj(Remove(es, k))) == ObjValue(MeaningOfEntries(es) - {k})
  {
    RemoveMembers(es, k);
    RemoveMeaning(es, k);
  }

  lemma StripMeaning(m: Json)
    requires WellFormed(m) && Strip(m).Ok?
    ensures WellFormed(Strip(m).value)
    ensures Meaning(Strip(m).value) == EraseSignature(Meaning(m))
  {
    GetMeaning(m.entries, "Ajazz");
    if Get(m.entries, "Ajazz").Some? {
      var ajazz := Get(m.entries, "Ajazz").value;
      GetMeaning(ajazz.entries, "Signing");
      if Get(ajazz.entries, "Signing").Some? {
        var signing := Get(ajazz.entries, "Signing").value;
        var signing' := Obj(Remove(signing.entries, "Ed25519Signature"));
        RemoveWellFormed(signing.entries, "Ed25519Signature");
        PutWellFormed(ajazz.entries, "Signing", signing');
        PutWellFormed(m.entries, "Ajazz", Obj(Put(ajazz.entries, "Signing", signing')));
      }
    }
  }

  /** Main result: two manifests have the same signed bytes exactly when they are
      equal, up to the order of keys, except for the signature field. */
  lemma CanonicalBytesInjective(a: Json, b: Json)
    requires WellFormed(a) && WellFormed(b)
    requires CanonicalBytes(a).Ok? && CanonicalBytes(b).Ok?
    ensures CanonicalBytes(a) == CanonicalBytes(b)
            <==> EraseSignature(Meaning(a)) == EraseSignature(Meaning(b))
  {
    StripMeaning(a);
    StripMeaning(b);
    var x, y := Strip(a).value, Strip(b).value;
    CanonicalTextIsMeaning(x, y);
    if CanonicalBytes(a) == CanonicalBytes(b) {
      Utf8.EncodeInjective(Dumps(Normal(x), Compact), Dumps(Normal(y), Compact));
    }
  }
}
