/** Putting the stored binaries back, and for exactly which values that gives the input. */
module BlobRoundTrip {
  import opened Base64
  import opened Blobs
  import opened BlobProperties

  predicate HasText(fields: map<string, Value>, key: string) {
    key in fields && fields[key].Str?
  }

  /** A ref to something the store holds. */
  predicate RefIn(v: Value, blobs: map<string, Binary>) {
    && v.Obj? && v.fields.Keys == {BLOB} && v.fields[BLOB].Obj?
    && HasText(v.fields[BLOB].fields, "uri") && HasText(v.fields[BLOB].fields, "mimeType")
    && v.fields[BLOB].fields["uri"].text in blobs
  }

  function InlineOf(data: string, mimeType: string): Value {
    Plainly(map[BLOB := Plainly(map["data" := Str(data), "mimeType" := Str(mimeType)])])
  }

  /** The value with every ref to a stored blob replaced by the blob's bytes, inline. */
  function Restored(v: Value, blobs: map<string, Binary>): Value
    decreases v
  {
    match v
    case Arr(items) => Arr(seq(|items|, i requires 0 <= i < |items| => Restored(items[i], blobs)))
    case Obj(fields, _) =>
      if RefIn(v, blobs) then
        InlineOf(Encode(blobs[fields[BLOB].fields["uri"].text]), fields[BLOB].fields["mimeType"].text)
      else Plainly(map k | k in fields :: Restored(fields[k], blobs))
    case _ => v
  }

  /** What is kept of a value: the rewrite as serialising shows it. */
  function Serialised(v: Value, hash: Hash): Value {
    Shown(Stored(v, hash))
  }

  /** A value as parsing makes it that carries nothing but canonical base64 and a MIME type inline. */
  predicate PlainInline(v: Value, data: string) {
    && v.Obj? && v.proto.Plain? && v.fields.Keys == {BLOB}
    && v.fields[BLOB].Obj? && v.fields[BLOB].proto.Plain? && v.fields[BLOB].fields.Keys == {"data", "mimeType"}
    && Canonical(data)
  }

  /** What one value must be like to come back: an object without a prototype of its own that is such an inline blob, or has no entry
      `__proto__` and is not itself a ref to a stored blob. */
  predicate Reversible(v: Value, blobs: map<string, Binary>) {
    v.Obj? ==>
      match InlineBlob(v)
      case Some(inline) => PlainInline(v, inline.data)
      case None => v.proto.Plain? && PROTO !in v.fields && !RefIn(v, blobs)
  }

  predicate AllReversible(v: Value, blobs: map<string, Binary>) {
    forall w :: w in Reached(v, {PROTO}) ==> Reversible(w, blobs)
  }

  predicate HoldsAll(v: Value, blobs: map<string, Binary>, hash: Hash) {
    forall c :: c in Binaries(v) ==> Holds(blobs, hash, c)
  }

  predicate ComesBack(v: Value, blobs: map<string, Binary>, hash: Hash) {
    Restored(Serialised(v, hash), blobs) == v
  }

  // ---------- Inline blobs ----------

  lemma RestoredRef(hash: Hash, content: Binary, mimeType: string, blobs: map<string, Binary>)
    requires Holds(blobs, hash, content)
    ensures Restored(Ref(hash, content, mimeType), blobs) == InlineOf(Encode(content), mimeType)
  {
    var ref := Ref(hash, content, mimeType);
    assert ref.fields.Keys == {BLOB};
    assert "uri" in ref.fields[BLOB].fields.Keys && "mimeType" in ref.fields[BLOB].fields.Keys;
    assert ref.fields[BLOB].fields["uri"] == Str(Uri(hash, content));
    assert ref.fields[BLOB].fields["mimeType"] == Str(mimeType);
  }

  /** An inline blob is the plain one of its own text and MIME type exactly if it is plain and carries nothing else. */
  lemma InlineShape(v: Value, data: string)
    requires InlineBlob(v).Some?
    ensures v == InlineOf(data, InlineBlob(v).value.mimeType) <==>
      && v.proto.Plain? && v.fields.Keys == {BLOB} && v.fields[BLOB].Obj? && v.fields[BLOB].proto.Plain?
      && v.fields[BLOB].fields.Keys == {"data", "mimeType"} && InlineBlob(v).value.data == data
  {
    var inline := InlineBlob(v).value;
    if v.proto.Plain? && v.fields.Keys == {BLOB} && v.fields[BLOB].Obj? && v.fields[BLOB].proto.Plain? {
      var inner := v.fields[BLOB];
      assert v.fields == map[BLOB := inner];
      if inner.fields.Keys == {"data", "mimeType"} {
        assert inner.fields == map["data" := Str(inline.data), "mimeType" := Str(inline.mimeType)];
      }
    }
  }

  lemma InlineComesBack(v: Value, blobs: map<string, Binary>, hash: Hash)
    requires InlineBlob(v).Some? && Decodable(v) && HoldsAll(v, blobs, hash)
    ensures ComesBack(v, blobs, hash) <==> AllReversible(v, blobs)
  {
    var inline := InlineBlob(v).value;
    InlineParts(v);
    assert Reached(v, {PROTO}) == {v};
    ShownRef(hash, Content(inline.data), inline.mimeType);
    RestoredRef(hash, Content(inline.data), inline.mimeType, blobs);
    InlineShape(v, Encode(Content(inline.data)));
  }

  // ---------- Lists and objects ----------

  lemma ListComesBack(items: seq<Value>, blobs: map<string, Binary>, hash: Hash)
    requires forall i :: 0 <= i < |items| ==> (ComesBack(items[i], blobs, hash) <==> AllReversible(items[i], blobs))
    ensures ComesBack(Arr(items), blobs, hash) <==> AllReversible(Arr(items), blobs)
  {
    ReversibleList(items, blobs);
    var back := Restored(Serialised(Arr(items), hash), blobs).items;
    assert |back| == |items|;
    assert forall i :: 0 <= i < |items| ==> back[i] == Restored(Serialised(items[i], hash), blobs);
    if forall i :: 0 <= i < |items| ==> ComesBack(items[i], blobs, hash) {
      assert back == items;
    } else {
      var i :| 0 <= i < |items| && !ComesBack(items[i], blobs, hash);
      assert back[i] != items[i];
    }
  }

  lemma ReversibleList(items: seq<Value>, blobs: map<string, Binary>)
    ensures AllReversible(Arr(items), blobs) <==> forall i :: 0 <= i < |items| ==> AllReversible(items[i], blobs)
  {
    if AllReversible(Arr(items), blobs) {
      forall i, w | 0 <= i < |items| && w in Reached(items[i], {PROTO}) ensures Reversible(w, blobs) { ReachedInList(items, i, {PROTO}, w); }
    }
  }

  lemma ReversibleObject(v: Value, blobs: map<string, Binary>)
    requires v.Obj? && InlineBlob(v).None?
    ensures AllReversible(v, blobs) <==> Reversible(v, blobs) && forall k :: k in v.fields && k != PROTO ==> AllReversible(v.fields[k], blobs)
  {
    assert v in Reached(v, {PROTO});
    if AllReversible(v, blobs) {
      forall k, w | k in v.fields && k != PROTO && w in Reached(v.fields[k], {PROTO}) ensures Reversible(w, blobs) {
        ReachedInObject(v, k, {PROTO}, w);
      }
    }
  }

  lemma SerialisedField(v: Value, hash: Hash, k: string)
    requires v.Obj? && InlineBlob(v).None? && k in v.fields && k != PROTO
    ensures var s := Serialised(v, hash);
      s.Obj? && s.fields.Keys == v.fields.Keys - {PROTO} && s.fields[k] == Serialised(v.fields[k], hash)
  {
    StoredObject(v, hash);
    ShownKind(Stored(v, hash));
  }

  /** Texts stay texts, and refs hold none of their own under the keys of an inline blob's wrapper. */
  lemma SerialisedText(v: Value, hash: Hash, key: string)
    requires key == "mimeType" || key == "uri"
    ensures Serialised(v, hash).Obj? <==> v.Obj?
    ensures v.Obj? && InlineBlob(v).None? ==> (HasText(Serialised(v, hash).fields, key) <==> HasText(v.fields, key))
    ensures v.Obj? && InlineBlob(v).None? && HasText(v.fields, key) ==> Serialised(v, hash).fields[key] == v.fields[key]
    ensures v.Obj? && InlineBlob(v).Some? ==> !HasText(Serialised(v, hash).fields, key)
  {
    KeysDiffer();
    StoredKind(v, hash);
    ShownKind(Stored(v, hash));
    if v.Obj? && InlineBlob(v).None? {
      StoredObject(v, hash);
      if key in v.fields {
        SerialisedField(v, hash, key);
        StoredKind(v.fields[key], hash);
        ShownKind(Stored(v.fields[key], hash));
      }
    } else if v.Obj? {
      assert Stored(v, hash).fields.Keys == {BLOB};
    }
  }

  /** Without `__proto__` an object is a ref after the rewrite exactly if it was one before. */
  lemma RefsStayRefs(v: Value, blobs: map<string, Binary>, hash: Hash)
    requires v.Obj? && InlineBlob(v).None? && PROTO !in v.fields
    ensures RefIn(Serialised(v, hash), blobs) <==> RefIn(v, blobs)
  {
    KeysDiffer();
    StoredObject(v, hash);
    ShownKind(Stored(v, hash));
    assert v.fields.Keys - {PROTO} == v.fields.Keys;
    if v.fields.Keys == {BLOB} {
      var inner := v.fields[BLOB];
      SerialisedField(v, hash, BLOB);
      SerialisedText(inner, hash, "uri");
      SerialisedText(inner, hash, "mimeType");
      if inner.Obj? && InlineBlob(inner).Some? && HasText(inner.fields, "uri") && HasText(inner.fields, "mimeType") {
        OneKey(inner.fields.Keys, "uri");
      }
    }
  }

  lemma InlineOfIsInline(data: string, mimeType: string)
    ensures InlineBlob(InlineOf(data, mimeType)).Some?
  {
    KeysDiffer();
    assert InlineOf(data, mimeType).fields.Keys == {BLOB};
  }

  lemma BackIsPlain(v: Value, blobs: map<string, Binary>)
    requires v.Obj? && PROTO !in v.fields
    ensures Restored(v, blobs).Obj? && Restored(v, blobs).proto.Plain? && PROTO !in Restored(v, blobs).fields
  {
    KeysDiffer();
  }

  lemma ProtoIsLost(v: Value, blobs: map<string, Binary>, hash: Hash)
    requires v.Obj? && InlineBlob(v).None? && (PROTO in v.fields || !v.proto.Plain?)
    ensures !ComesBack(v, blobs, hash)
  {
    StoredObject(v, hash);
    ShownKind(Stored(v, hash));
    assert PROTO !in Serialised(v, hash).fields.Keys;
    BackIsPlain(Serialised(v, hash), blobs);
  }

  lemma BackField(v: Value, blobs: map<string, Binary>, hash: Hash, k: string)
    requires v.Obj? && InlineBlob(v).None? && PROTO !in v.fields && !RefIn(Serialised(v, hash), blobs) && k in v.fields
    ensures var back := Restored(Serialised(v, hash), blobs);
      back.Obj? && back.proto.Plain? && back.fields.Keys == v.fields.Keys && back.fields[k] == Restored(Serialised(v.fields[k], hash), blobs)
  {
    SerialisedField(v, hash, k);
    assert v.fields.Keys - {PROTO} == v.fields.Keys;
  }

  lemma FieldsComeBack(v: Value, blobs: map<string, Binary>, hash: Hash)
    requires v.Obj? && InlineBlob(v).None? && v.proto.Plain? && PROTO !in v.fields && !RefIn(Serialised(v, hash), blobs)
    ensures ComesBack(v, blobs, hash) <==> forall k :: k in v.fields ==> ComesBack(v.fields[k], blobs, hash)
  {
    var back := Restored(Serialised(v, hash), blobs);
    if v.fields.Keys == {} {
      StoredObject(v, hash);
      ShownKind(Stored(v, hash));
      assert back.fields == v.fields;
    } else {
      var some :| some in v.fields;
      BackField(v, blobs, hash, some);
      forall k | k in v.fields ensures (ComesBack(v.fields[k], blobs, hash) <==> back.fields[k] == v.fields[k]) { BackField(v, blobs, hash, k); }
      SameFields(back, v);
    }
  }

  lemma ObjectComesBack(v: Value, blobs: map<string, Binary>, hash: Hash)
    requires v.Obj? && InlineBlob(v).None? && v.proto.Plain? && PROTO !in v.fields
    requires forall k :: k in v.fields ==> (ComesBack(v.fields[k], blobs, hash) <==> AllReversible(v.fields[k], blobs))
    ensures ComesBack(v, blobs, hash) <==> AllReversible(v, blobs)
  {
    var s := Serialised(v, hash);
    RefsStayRefs(v, blobs, hash);
    ReversibleObject(v, blobs);
    if RefIn(v, blobs) {
      var inner := s.fields[BLOB].fields;
      InlineOfIsInline(Encode(blobs[inner["uri"].text]), inner["mimeType"].text);
    } else {
      FieldsComeBack(v, blobs, hash);
    }
  }

  lemma HeldBelow(v: Value, blobs: map<string, Binary>, hash: Hash)
    requires Decodable(v) && HoldsAll(v, blobs, hash)
    ensures v.Arr? ==> forall i :: 0 <= i < |v.items| ==> Decodable(v.items[i]) && HoldsAll(v.items[i], blobs, hash)
    ensures v.Obj? && InlineBlob(v).None? ==> forall k :: k in v.fields ==> Decodable(v.fields[k]) && HoldsAll(v.fields[k], blobs, hash)
  {
    if v.Arr? {
      ListParts(v.items);
    } else if v.Obj? && InlineBlob(v).None? {
      ObjectParts(v);
    }
  }

  /** Putting back what a store holds for the refs gives the input exactly when every value in it is reversible. */
  lemma {:induction false} ComesBackIffReversible(v: Value, blobs: map<string, Binary>, hash: Hash)
    requires Decodable(v) && HoldsAll(v, blobs, hash)
    ensures ComesBack(v, blobs, hash) <==> AllReversible(v, blobs)
    decreases v
  {
    HeldBelow(v, blobs, hash);
    match v
    case Arr(items) =>
      forall i | 0 <= i < |items| ensures ComesBack(items[i], blobs, hash) <==> AllReversible(items[i], blobs) {
        ComesBackIffReversible(items[i], blobs, hash);
      }
      ListComesBack(items, blobs, hash);
    case Obj(fields, proto) =>
      if InlineBlob(v).Some? {
        InlineComesBack(v, blobs, hash);
      } else if PROTO in fields || !proto.Plain? {
        ProtoIsLost(v, blobs, hash);
        assert v in Reached(v, {PROTO});
      } else {
        forall k | k in fields ensures ComesBack(fields[k], blobs, hash) <==> AllReversible(fields[k], blobs) {
          ComesBackIffReversible(fields[k], blobs, hash);
        }
        ObjectComesBack(v, blobs, hash);
      }
    case _ =>
      assert Reached(v, {PROTO}) == {v};
  }
}
