/** For which values the rewrite keeps its promises: nothing left inline, nothing changed the second time, and the way back. */
module BlobProperties {
  import opened Base64
  import opened Blobs
  import opened Wrappers

  // ---------- What the rewrite makes of a value ----------

  /** The fixed keys are different texts. */
  lemma KeysDiffer()
    ensures BLOB != PROTO && "data" != PROTO && "mimeType" != PROTO && "uri" != PROTO
    ensures "data" != BLOB && "mimeType" != BLOB && "uri" != BLOB && "data" != "mimeType" && "uri" != "mimeType"
    ensures "data" != "uri" && "data" != "bytes" && "data" != "sha256"
    ensures "bytes" != PROTO && "sha256" != PROTO
  {
    assert PROTO[0] == '_' && BLOB[0] == '$';
    assert "data"[0] == 'd' && "mimeType"[0] == 'm' && "uri"[0] == 'u' && "bytes"[0] == 'b' && "sha256"[0] == 's';
  }

  lemma StoredObject(v: Value, hash: Hash)
    requires v.Obj? && InlineBlob(v).None?
    ensures Stored(v, hash).Obj? && Stored(v, hash).fields.Keys == v.fields.Keys - {PROTO}
    ensures forall k :: k in v.fields && k != PROTO ==> Stored(v, hash).fields[k] == Stored(v.fields[k], hash)
    ensures Stored(v, hash).proto == if PROTO in v.fields then ProtoFrom(Stored(v.fields[PROTO], hash)) else Plain
  {
  }

  lemma StoredKind(v: Value, hash: Hash)
    ensures Stored(v, hash).Str? <==> v.Str?
    ensures Stored(v, hash).Obj? <==> v.Obj?
    ensures !v.Obj? && !v.Arr? ==> Stored(v, hash) == v
  {
  }

  lemma RefLookups(hash: Hash, content: Binary, mimeType: string)
    ensures var ref := Ref(hash, content, mimeType);
      && Lookup(ref, BLOB) == Some(Obj(RefBody(hash, content, mimeType), Plain))
      && Lookup(ref, "data") == None && Lookup(ref, "mimeType") == None
      && InlineBlob(ref).None?
    ensures InlineBlob(Obj(RefBody(hash, content, mimeType), Plain)).None?
  {
    KeysDiffer();
    var body := RefBody(hash, content, mimeType);
    assert body.Keys == {"uri", "mimeType", "bytes", "sha256"};
    assert BLOB !in body.Keys by { assert BLOB[0] != "bytes"[0] && BLOB[0] != "sha256"[0]; }
    assert Ref(hash, content, mimeType).fields.Keys == {BLOB};
  }

  /** A text of the ref that stands in the place of a blob. */
  function RefText(ref: Value, key: string): Option<string> {
    if Lookup(ref, BLOB).Some? then TextOf(Lookup(Lookup(ref, BLOB).value, key)) else None
  }

  function RefCount(ref: Value): Option<int> {
    if Lookup(ref, BLOB).None? || Lookup(Lookup(ref, BLOB).value, "bytes").None? then None
    else
      var count := Lookup(Lookup(ref, BLOB).value, "bytes").value;
      if count.Num? then Some(Text.NumberOf(count.numeral)) else None
  }

  /** A ref tells what lies in the store: under the address it gives stands the content, as many bytes as it says, and their hash is the one
      it names; the MIME type is the blob's. */
  lemma RefDescribesBlob(blobs: map<string, Binary>, hash: Hash, content: Binary, mimeType: string)
    requires Holds(blobs, hash, content)
    ensures var ref := Ref(hash, content, mimeType);
      && RefText(ref, "uri").Some? && RefText(ref, "uri").value in blobs && blobs[RefText(ref, "uri").value] == content
      && RefCount(ref) == Some(|content|) && RefText(ref, "sha256") == Some(hash(content))
      && RefText(ref, "mimeType") == Some(mimeType)
  {
    KeysDiffer();
    RefLookups(hash, content, mimeType);
    Text.DecimalReads(|content|);
  }

  /** What reading `key` of the rewritten value will find, read off the value itself: entries `__proto__` are where objects
      inherit from, and nothing is read through an inline blob, which becomes a ref. */
  function Read(v: Value, key: string): Option<Value>
    decreases v
  {
    if !v.Obj? || InlineBlob(v).Some? then None
    else if key in v.fields && key != PROTO then Some(v.fields[key])
    else if PROTO in v.fields then Read(v.fields[PROTO], key)
    else None
  }

  lemma LookupOver(fields: map<string, Value>, proto: Value, key: string)
    requires key !in fields
    ensures Lookup(Obj(fields, ProtoFrom(proto)), key) == Lookup(proto, key)
  {
  }

  /** Reading the rewritten value finds what `Read` says, or through a ref what a ref holds. */
  lemma {:induction false} LookupStored(v: Value, hash: Hash, key: string)
    requires key == BLOB || key == "data" || key == "mimeType"
    ensures Read(v, key).Some? ==> Lookup(Stored(v, hash), key) == Some(Stored(Read(v, key).value, hash))
    ensures Read(v, key).None? && key != BLOB ==> Lookup(Stored(v, hash), key) == None
    ensures Read(v, key).None? && key == BLOB ==> InlineIn(Lookup(Stored(v, hash), key)).None?
    decreases v
  {
    KeysDiffer();
    if v.Obj? {
      if InlineBlob(v).Some? {
        var inline := InlineBlob(v).value;
        RefLookups(hash, Content(inline.data), inline.mimeType);
        assert "data" !in RefBody(hash, Content(inline.data), inline.mimeType).Keys;
      } else {
        StoredObject(v, hash);
        if key !in v.fields && PROTO in v.fields {
          LookupStored(v.fields[PROTO], hash, key);
          LookupOver(Stored(v, hash).fields, Stored(v.fields[PROTO], hash), key);
        }
      }
    }
  }

  lemma TextsRead(v: Value, hash: Hash, key: string)
    requires key == "data" || key == "mimeType"
    ensures TextOf(Lookup(Stored(v, hash), key)) == TextOf(Read(v, key))
  {
    KeysDiffer();
    LookupStored(v, hash, key);
    if Read(v, key).Some? { StoredKind(Read(v, key).value, hash); }
  }

  function InlineRead(inner: Option<Value>): Option<Inline> {
    if inner.Some? && inner.value.Obj? then
      var data, mimeType := TextOf(Read(inner.value, "data")), TextOf(Read(inner.value, "mimeType"));
      if data.Some? && mimeType.Some? then Some(Inline(data.value, mimeType.value)) else None
    else None
  }

  /** The inline blob that the rewrite turns `v` into: `v` is none itself, has one key besides `__proto__`, and with the entries
      `__proto__` as prototypes reads as one. */
  function Unmasked(v: Value): Option<Inline> {
    if v.Obj? && InlineBlob(v).None? && |v.fields.Keys - {PROTO}| == 1 then InlineRead(Read(v, BLOB)) else None
  }

  lemma InlineOfStored(v: Value, hash: Hash)
    ensures InlineBlob(Stored(v, hash)) == Unmasked(v)
  {
    StoredKind(v, hash);
    if v.Obj? {
      if InlineBlob(v).Some? {
        RefLookups(hash, Content(InlineBlob(v).value.data), InlineBlob(v).value.mimeType);
      } else {
        StoredObject(v, hash);
        LookupStored(v, hash, BLOB);
        if Read(v, BLOB).Some? {
          var inner := Read(v, BLOB).value;
          StoredKind(inner, hash);
          TextsRead(inner, hash, "data");
          TextsRead(inner, hash, "mimeType");
        }
      }
    }
  }

  /** Only the key `__proto__` can do that. */
  lemma WithoutProtoNothingIsUnmasked(v: Value)
    requires v.Obj? && v.proto.Plain? && PROTO !in v.fields
    requires BLOB in v.fields && v.fields[BLOB].Obj? ==> v.fields[BLOB].proto.Plain? && PROTO !in v.fields[BLOB].fields
    ensures Unmasked(v).None?
  {
    assert v.fields.Keys - {PROTO} == v.fields.Keys;
  }

  // ---------- What is reached, before and after ----------

  lemma ReachedInList(items: seq<Value>, i: nat, skip: set<string>, w: Value)
    requires i < |items| && w in Reached(items[i], skip)
    ensures w in Reached(Arr(items), skip)
  {
  }

  lemma ReachedInObject(v: Value, k: string, skip: set<string>, w: Value)
    requires v.Obj? && InlineBlob(v).None? && k in v.fields && k !in skip && w in Reached(v.fields[k], skip)
    ensures w in Reached(v, skip)
  {
  }

  /** A value reached before the rewrite is reached after it, unless one above it was unmasked. */
  lemma {:induction false} StillReached(v: Value, hash: Hash, w: Value) returns (m: Value)
    requires w in Reached(v, {PROTO})
    ensures m in Reached(v, {PROTO}) && Stored(m, hash) in Reached(Stored(v, hash), {})
    ensures m == w || (Unmasked(m).Some? && w in Reached(m, {PROTO}))
    decreases v
  {
    if w == v || Unmasked(v).Some? {
      m := v;
    } else if v.Arr? {
      var i :| 0 <= i < |v.items| && w in Reached(v.items[i], {PROTO});
      m := StillReached(v.items[i], hash, w);
      assert Stored(v, hash).items[i] == Stored(v.items[i], hash);
      ReachedInList(Stored(v, hash).items, i, {}, Stored(m, hash));
    } else {
      var k :| k in v.fields && k != PROTO && w in Reached(v.fields[k], {PROTO});
      m := StillReached(v.fields[k], hash, w);
      StoredObject(v, hash);
      InlineOfStored(v, hash);
      ReachedInObject(Stored(v, hash), k, {}, Stored(m, hash));
    }
  }

  /** A part of a ref. */
  predicate InRef(u: Value) {
    u.Str? || u.Num? || (u.Obj? && u.proto.Plain? && InlineBlob(u).None? && PROTO !in u.fields)
  }

  lemma ScalarIsReached(x: Value, u: Value)
    requires (x.Str? || x.Num?) && u in Reached(x, {})
    ensures u == x
  {
  }

  lemma ScalarsReach(body: map<string, Value>, u: Value)
    requires InlineBlob(Obj(body, Plain)).None? && PROTO !in body && forall k :: k in body ==> body[k].Str? || body[k].Num?
    requires u in Reached(Obj(body, Plain), {})
    ensures InRef(u)
  {
    if u != Obj(body, Plain) {
      var k :| k in body && u in Reached(body[k], {});
      ScalarIsReached(body[k], u);
    }
  }

  lemma BodyHasNoProto(hash: Hash, content: Binary, mimeType: string)
    ensures PROTO !in RefBody(hash, content, mimeType)
  {
    KeysDiffer();
  }

  lemma BodyReaches(hash: Hash, content: Binary, mimeType: string, u: Value)
    requires u in Reached(Obj(RefBody(hash, content, mimeType), Plain), {})
    ensures InRef(u)
  {
    RefLookups(hash, content, mimeType);
    BodyHasNoProto(hash, content, mimeType);
    forall k | k in RefBody(hash, content, mimeType) { BodyIsScalar(hash, content, mimeType, k); }
    ScalarsReach(RefBody(hash, content, mimeType), u);
  }

  lemma RefReaches(hash: Hash, content: Binary, mimeType: string, u: Value)
    requires u in Reached(Ref(hash, content, mimeType), {})
    ensures InRef(u)
  {
    KeysDiffer();
    RefLookups(hash, content, mimeType);
    var ref := Ref(hash, content, mimeType);
    assert ref.fields.Keys == {BLOB};
    if u != ref { BodyReaches(hash, content, mimeType, u); }
  }

  lemma BodyIsScalar(hash: Hash, content: Binary, mimeType: string, k: string)
    requires k in RefBody(hash, content, mimeType)
    ensures RefBody(hash, content, mimeType)[k].Str? || RefBody(hash, content, mimeType)[k].Num?
  {
  }

  /** What is reached after the rewrite is the rewrite of something reached before, or part of a ref. */
  lemma {:induction false} ReachedFrom(v: Value, hash: Hash, u: Value) returns (w: Value)
    requires u in Reached(Stored(v, hash), {})
    ensures w in Reached(v, {PROTO}) && (u == Stored(w, hash) || InRef(u))
    decreases v
  {
    if u == Stored(v, hash) {
      w := v;
    } else if v.Arr? {
      var s := Stored(v, hash).items;
      var i :| 0 <= i < |s| && u in Reached(s[i], {});
      w := ReachedFrom(v.items[i], hash, u);
      ReachedInList(v.items, i, {PROTO}, w);
    } else if InlineBlob(v).Some? {
      w := v;
      RefReaches(hash, Content(InlineBlob(v).value.data), InlineBlob(v).value.mimeType, u);
    } else {
      StoredObject(v, hash);
      var s := Stored(v, hash);
      var k :| k in s.fields && u in Reached(s.fields[k], {});
      w := ReachedFrom(v.fields[k], hash, u);
      ReachedInObject(v, k, {PROTO}, w);
    }
  }

  // ---------- What is left inline ----------

  predicate Clean(v: Value) {
    forall w :: w in Reached(v, {}) ==> InlineBlob(w).None?
  }

  predicate NothingUnmasked(v: Value) {
    forall w :: w in Reached(v, {PROTO}) ==> Unmasked(w).None?
  }

  /** The code's own test finds no inline blob in what the rewrite gives, exactly if no object becomes one when its entries `__proto__` become prototypes. */
  lemma NoneLeftIffNothingUnmasked(v: Value, hash: Hash)
    ensures Clean(Stored(v, hash)) <==> NothingUnmasked(v)
  {
    if NothingUnmasked(v) {
      forall u | u in Reached(Stored(v, hash), {}) ensures InlineBlob(u).None? {
        var w := ReachedFrom(v, hash, u);
        InlineOfStored(w, hash);
      }
    } else {
      var w :| w in Reached(v, {PROTO}) && Unmasked(w).Some?;
      var m := StillReached(v, hash, w);
      InlineOfStored(m, hash);
    }
  }

  // ---------- Rewriting twice ----------

  /** The entry `__proto__` becomes something to inherit from, or nothing to. */
  predicate SetsProto(v: Value) {
    v.Obj? && InlineBlob(v).None? && PROTO in v.fields && (v.fields[PROTO].Obj? || v.fields[PROTO].Arr? || v.fields[PROTO].Null?)
  }

  lemma ProtoOfStored(v: Value, hash: Hash)
    requires v.Obj?
    ensures Stored(v, hash).proto.Plain? <==> !SetsProto(v)
  {
    if PROTO in v.fields { StoredKind(v.fields[PROTO], hash); }
  }

  predicate Settled(u: Value) {
    InlineBlob(u).None? && (u.Obj? ==> u.proto.Plain? && PROTO !in u.fields)
  }

  /** A value is unchanged by the rewrite exactly if nothing in it is inline, has a prototype or an entry `__proto__`. */
  lemma {:induction false} UnchangedIffSettled(v: Value, hash: Hash)
    ensures Stored(v, hash) == v <==> forall u :: u in Reached(v, {}) ==> Settled(u)
    decreases v
  {
    match v
    case Arr(items) =>
      forall i | 0 <= i < |items| ensures Stored(items[i], hash) == items[i] <==> forall u :: u in Reached(items[i], {}) ==> Settled(u) {
        UnchangedIffSettled(items[i], hash);
      }
      ListUnchanged(items, hash);
    case Obj(fields, _) =>
      if InlineBlob(v).Some? {
        var inline := InlineBlob(v).value;
        assert v in Reached(v, {});
        RefLookups(hash, Content(inline.data), inline.mimeType);
      } else {
        forall k | k in fields ensures Stored(fields[k], hash) == fields[k] <==> forall u :: u in Reached(fields[k], {}) ==> Settled(u) {
          UnchangedIffSettled(fields[k], hash);
        }
        ObjectUnchanged(v, hash);
      }
    case _ =>
      assert Reached(v, {}) == {v};
  }

  lemma ListUnchanged(items: seq<Value>, hash: Hash)
    requires forall i :: 0 <= i < |items| ==> (Stored(items[i], hash) == items[i] <==> forall u :: u in Reached(items[i], {}) ==> Settled(u))
    ensures Stored(Arr(items), hash) == Arr(items) <==> forall u :: u in Reached(Arr(items), {}) ==> Settled(u)
  {
    var s := Stored(Arr(items), hash).items;
    assert forall i :: 0 <= i < |items| ==> s[i] == Stored(items[i], hash);
    if forall u :: u in Reached(Arr(items), {}) ==> Settled(u) {
      forall i | 0 <= i < |items| ensures s[i] == items[i] {
        forall u | u in Reached(items[i], {}) ensures Settled(u) { ReachedInList(items, i, {}, u); }
      }
      assert s == items;
    } else {
      var u :| u in Reached(Arr(items), {}) && !Settled(u);
      var i :| 0 <= i < |items| && u in Reached(items[i], {});
      assert s[i] != items[i];
    }
  }

  lemma ObjectUnchanged(v: Value, hash: Hash)
    requires v.Obj? && InlineBlob(v).None?
    requires forall k :: k in v.fields ==> (Stored(v.fields[k], hash) == v.fields[k] <==> forall u :: u in Reached(v.fields[k], {}) ==> Settled(u))
    ensures Stored(v, hash) == v <==> forall u :: u in Reached(v, {}) ==> Settled(u)
  {
    var s := Stored(v, hash);
    StoredObject(v, hash);
    assert v in Reached(v, {});
    if forall u :: u in Reached(v, {}) ==> Settled(u) {
      forall k | k in v.fields ensures s.fields[k] == v.fields[k] {
        forall u | u in Reached(v.fields[k], {}) ensures Settled(u) { ReachedInObject(v, k, {}, u); }
      }
      assert s.fields == v.fields;
    } else {
      var u :| u in Reached(v, {}) && !Settled(u);
      if u != v {
        var k :| k in v.fields && u in Reached(v.fields[k], {});
        assert k in s.fields ==> s.fields[k] != v.fields[k];
      }
    }
  }

  /** Nothing becomes an inline blob, and nothing gets a prototype. */
  predicate Tame(v: Value) {
    forall w :: w in Reached(v, {PROTO}) ==> Unmasked(w).None? && !SetsProto(w)
  }

  /** The rewrite gives back its own output, prototypes included, exactly on tame values. */
  lemma TwiceIsOnceIffTame(v: Value, hash: Hash)
    ensures Stored(Stored(v, hash), hash) == Stored(v, hash) <==> Tame(v)
  {
    var s := Stored(v, hash);
    UnchangedIffSettled(s, hash);
    if Tame(v) {
      forall u | u in Reached(s, {}) ensures Settled(u) {
        var w := ReachedFrom(v, hash, u);
        SettledIffTame(w, hash);
      }
    } else {
      var w :| w in Reached(v, {PROTO}) && !(Unmasked(w).None? && !SetsProto(w));
      var m := StillReached(v, hash, w);
      SettledIffTame(m, hash);
    }
  }

  lemma SettledIffTame(w: Value, hash: Hash)
    ensures Settled(Stored(w, hash)) <==> Unmasked(w).None? && !SetsProto(w)
  {
    InlineOfStored(w, hash);
    StoredKind(w, hash);
    if w.Obj? {
      ProtoOfStored(w, hash);
      if InlineBlob(w).None? {
        StoredObject(w, hash);
      } else {
        var inline := InlineBlob(w).value;
        var ref := Ref(hash, Content(inline.data), inline.mimeType);
        assert ref in Reached(ref, {});
        RefReaches(hash, Content(inline.data), inline.mimeType, ref);
      }
    }
  }

  // ---------- Rewriting twice, as serialising shows it ----------

  /** The value as its own properties: what serialising it and parsing the text again gives. */
  function Shown(v: Value): Value
    decreases v
  {
    match v
    case Arr(items) => Arr(seq(|items|, i requires 0 <= i < |items| => Shown(items[i])))
    case Obj(fields, _) => Obj(map k | k in fields :: Shown(fields[k]), Plain)
    case _ => v
  }

  lemma ShownKind(v: Value)
    ensures Shown(v).Obj? <==> v.Obj?
    ensures !v.Obj? && !v.Arr? ==> Shown(v) == v
    ensures v.Obj? ==> Shown(v).fields.Keys == v.fields.Keys && Shown(v).proto.Plain?
    ensures v.Obj? ==> forall k :: k in v.fields ==> Shown(v).fields[k] == Shown(v.fields[k])
  {
  }

  lemma ShownRef(hash: Hash, content: Binary, mimeType: string)
    ensures Shown(Ref(hash, content, mimeType)) == Ref(hash, content, mimeType)
  {
    var ref, body := Ref(hash, content, mimeType), RefBody(hash, content, mimeType);
    assert Shown(Obj(body, Plain)).fields == body;
    assert Shown(ref).fields == ref.fields;
  }

  function RefOf(inline: Inline, hash: Hash): Value {
    Ref(hash, Content(inline.data), inline.mimeType)
  }

  /** An inline blob that shows as the very ref it is replaced by. */
  predicate ShowsAsItsRef(u: Value, hash: Hash) {
    InlineBlob(u).Some? ==> Shown(u) == RefOf(InlineBlob(u).value, hash)
  }

  ghost predicate Protoless(v: Value) {
    forall u :: u in Reached(v, {}) ==> u.Obj? ==> PROTO !in u.fields
  }

  ghost predicate AllShowAsRefs(v: Value, hash: Hash) {
    forall u :: u in Reached(v, {}) ==> ShowsAsItsRef(u, hash)
  }

  ghost predicate ShowsOnce(v: Value, hash: Hash) {
    Shown(Stored(v, hash)) == Shown(v)
  }

  lemma {:induction false} ShowsOnceIffRefs(v: Value, hash: Hash)
    requires Protoless(v)
    ensures ShowsOnce(v, hash) <==> AllShowAsRefs(v, hash)
    decreases v
  {
    if v.Arr? {
      forall i | 0 <= i < |v.items| ensures ShowsOnce(v.items[i], hash) <==> AllShowAsRefs(v.items[i], hash) {
        forall u | u in Reached(v.items[i], {}) ensures u in Reached(v, {}) { ReachedInList(v.items, i, {}, u); }
        ShowsOnceIffRefs(v.items[i], hash);
      }
      ListShowsOnce(v.items, hash);
    } else if v.Obj? && InlineBlob(v).None? {
      forall k | k in v.fields ensures ShowsOnce(v.fields[k], hash) <==> AllShowAsRefs(v.fields[k], hash) {
        forall u | u in Reached(v.fields[k], {}) ensures u in Reached(v, {}) { ReachedInObject(v, k, {}, u); }
        ShowsOnceIffRefs(v.fields[k], hash);
      }
      ObjectShowsOnce(v, hash);
    } else {
      assert Reached(v, {}) == {v};
      if v.Obj? { ShownRef(hash, Content(InlineBlob(v).value.data), InlineBlob(v).value.mimeType); }
    }
  }

  lemma ListShowsOnce(items: seq<Value>, hash: Hash)
    requires forall i :: 0 <= i < |items| ==> (ShowsOnce(items[i], hash) <==> AllShowAsRefs(items[i], hash))
    ensures ShowsOnce(Arr(items), hash) <==> AllShowAsRefs(Arr(items), hash)
  {
    ItemsShowAsRefs(items, hash);
    ItemsShowOnce(items, hash);
  }

  lemma ItemsShowAsRefs(items: seq<Value>, hash: Hash)
    ensures AllShowAsRefs(Arr(items), hash) <==> forall i :: 0 <= i < |items| ==> AllShowAsRefs(items[i], hash)
  {
    if AllShowAsRefs(Arr(items), hash) {
      forall i | 0 <= i < |items| ensures AllShowAsRefs(items[i], hash) {
        forall u | u in Reached(items[i], {}) ensures ShowsAsItsRef(u, hash) { ReachedInList(items, i, {}, u); }
      }
    } else {
      var u :| u in Reached(Arr(items), {}) && !ShowsAsItsRef(u, hash);
      var i :| 0 <= i < |items| && u in Reached(items[i], {});
      assert !AllShowAsRefs(items[i], hash);
    }
  }

  lemma ItemsShowOnce(items: seq<Value>, hash: Hash)
    ensures ShowsOnce(Arr(items), hash) <==> forall i :: 0 <= i < |items| ==> ShowsOnce(items[i], hash)
  {
    var s, t := Shown(Stored(Arr(items), hash)).items, Shown(Arr(items)).items;
    assert |s| == |t| == |items|;
    assert forall i :: 0 <= i < |items| ==> (s[i] == t[i] <==> ShowsOnce(items[i], hash));
    if forall i :: 0 <= i < |items| ==> ShowsOnce(items[i], hash) { assert s == t; }
  }

  lemma ShownFields(v: Value, hash: Hash, k: string)
    requires v.Obj? && InlineBlob(v).None? && PROTO !in v.fields && k in v.fields
    ensures var s, t := Shown(Stored(v, hash)), Shown(v);
      && s.Obj? && t.Obj? && s.proto == t.proto && s.fields.Keys == t.fields.Keys == v.fields.Keys
      && s.fields[k] == Shown(Stored(v.fields[k], hash)) && t.fields[k] == Shown(v.fields[k])
  {
    StoredObject(v, hash);
    ShownKind(v);
    ShownKind(Stored(v, hash));
    assert v.fields.Keys - {PROTO} == v.fields.Keys;
  }

  lemma SameFields(a: Value, b: Value)
    requires a.Obj? && b.Obj? && a.proto == b.proto && a.fields.Keys == b.fields.Keys
    ensures a == b <==> forall k :: k in b.fields ==> a.fields[k] == b.fields[k]
  {
    if forall k :: k in b.fields ==> a.fields[k] == b.fields[k] { assert a.fields == b.fields; }
  }

  lemma PartsShowAsRefs(v: Value, hash: Hash)
    requires v.Obj? && InlineBlob(v).None?
    ensures AllShowAsRefs(v, hash) <==> forall k :: k in v.fields ==> AllShowAsRefs(v.fields[k], hash)
  {
    if AllShowAsRefs(v, hash) {
      forall k | k in v.fields ensures AllShowAsRefs(v.fields[k], hash) {
        forall u | u in Reached(v.fields[k], {}) ensures ShowsAsItsRef(u, hash) { ReachedInObject(v, k, {}, u); }
      }
    } else {
      var u :| u in Reached(v, {}) && !ShowsAsItsRef(u, hash);
      var k :| k in v.fields && u in Reached(v.fields[k], {});
      assert !AllShowAsRefs(v.fields[k], hash);
    }
  }

  lemma ObjectShowsOnce(v: Value, hash: Hash)
    requires v.Obj? && InlineBlob(v).None? && PROTO !in v.fields
    requires forall k :: k in v.fields ==> (ShowsOnce(v.fields[k], hash) <==> AllShowAsRefs(v.fields[k], hash))
    ensures ShowsOnce(v, hash) <==> AllShowAsRefs(v, hash)
  {
    PartsShowAsRefs(v, hash);
    FieldsShowOnce(v, hash);
  }

  lemma FieldsShowOnce(v: Value, hash: Hash)
    requires v.Obj? && InlineBlob(v).None? && PROTO !in v.fields
    ensures ShowsOnce(v, hash) <==> forall k :: k in v.fields ==> ShowsOnce(v.fields[k], hash)
  {
    var s, t := Shown(Stored(v, hash)), Shown(v);
    if v.fields.Keys == {} {
      StoredObject(v, hash);
      assert s.fields == t.fields;
    } else {
      var some :| some in v.fields;
      ShownFields(v, hash, some);
      forall k | k in v.fields ensures (s.fields[k] == t.fields[k] <==> ShowsOnce(v.fields[k], hash)) { ShownFields(v, hash, k); }
      SameFields(s, t);
    }
  }

  function WithoutProto(fields: map<string, Value>): map<string, Value> {
    map k | k in fields && k != PROTO :: fields[k]
  }

  /** What becomes an inline blob already carries, beside `__proto__`, exactly the ref it would be replaced by. */
  predicate AlreadyRef(w: Value, hash: Hash) {
    var inline := Unmasked(w);
    && inline.Some? && Decode(inline.value.data).Some?
    && BLOB in w.fields && w.fields[BLOB].Obj?
    && WithoutProto(w.fields[BLOB].fields) == RefBody(hash, Content(inline.value.data), inline.value.mimeType)
  }

  lemma ScalarShows(x: Value, hash: Hash, y: Value)
    requires y.Str? || y.Num?
    ensures Shown(Stored(x, hash)) == y <==> x == y
  {
    StoredKind(x, hash);
    ShownKind(Stored(x, hash));
  }

  lemma SameMaps(a: map<string, Value>, b: map<string, Value>)
    requires a.Keys == b.Keys
    ensures a == b <==> forall k :: k in b ==> a[k] == b[k]
  {
  }

  lemma FieldShows(w: Value, hash: Hash, k: string, y: Value)
    requires w.Obj? && InlineBlob(w).None? && k in w.fields && k != PROTO && (y.Str? || y.Num?)
    ensures k in Shown(Stored(w, hash)).fields && (Shown(Stored(w, hash)).fields[k] == y <==> w.fields[k] == y)
  {
    StoredObject(w, hash);
    ShownKind(Stored(w, hash));
    ScalarShows(w.fields[k], hash, y);
  }

  lemma ScalarsShow(w: Value, hash: Hash, body: map<string, Value>)
    requires w.Obj? && InlineBlob(w).None? && forall k :: k in body ==> body[k].Str? || body[k].Num?
    ensures Shown(Stored(w, hash)) == Obj(body, Plain) <==> WithoutProto(w.fields) == body
  {
    var shown, rest := Shown(Stored(w, hash)), WithoutProto(w.fields);
    StoredObject(w, hash);
    ShownKind(Stored(w, hash));
    assert rest.Keys == shown.fields.Keys;
    if rest.Keys == body.Keys {
      forall k | k in body ensures shown.fields[k] == body[k] <==> rest[k] == body[k] {
        assert k in rest;
        FieldShows(w, hash, k, body[k]);
      }
      SameMaps(shown.fields, body);
      SameMaps(rest, body);
    }
  }

  lemma BodyShows(w: Value, hash: Hash, content: Binary, mimeType: string)
    requires w.Obj? && InlineBlob(w).None?
    ensures Shown(Stored(w, hash)) == Obj(RefBody(hash, content, mimeType), Plain) <==> WithoutProto(w.fields) == RefBody(hash, content, mimeType)
  {
    forall k | k in RefBody(hash, content, mimeType) { BodyIsScalar(hash, content, mimeType, k); }
    ScalarsShow(w, hash, RefBody(hash, content, mimeType));
  }

  lemma OneKey(a: set<string>, k: string)
    requires |a| == 1 && k in a
    ensures a == {k}
  {
    assert |a - {k}| == 0;
  }

  lemma OneField(a: Value, k: string, x: Value)
    requires a.Obj? && a.proto.Plain? && a.fields.Keys == {k}
    ensures a == Obj(map[k := x], Plain) <==> a.fields[k] == x
  {
    if a.fields[k] == x { assert a.fields == map[k := x]; }
  }

  /** An object whose one key besides `__proto__` is `$blob` shows as the ref around `body` exactly if what it holds shows as `body`. */
  lemma ShowsAround(w: Value, hash: Hash, body: Value)
    requires w.Obj? && InlineBlob(w).None? && BLOB in w.fields && |w.fields.Keys - {PROTO}| == 1
    ensures Shown(Stored(w, hash)) == Obj(map[BLOB := body], Plain) <==> Shown(Stored(w.fields[BLOB], hash)) == body
  {
    KeysDiffer();
    OneKey(w.fields.Keys - {PROTO}, BLOB);
    StoredObject(w, hash);
    ShownKind(Stored(w, hash));
    OneField(Shown(Stored(w, hash)), BLOB, body);
  }

  lemma ShowsIffAlreadyRef(w: Value, hash: Hash)
    requires Unmasked(w).Some?
    ensures Decode(Unmasked(w).value.data).Some? && ShowsAsItsRef(Stored(w, hash), hash) <==> AlreadyRef(w, hash)
  {
    var inline := Unmasked(w).value;
    InlineOfStored(w, hash);
    if BLOB in w.fields {
      KeysDiffer();
      var inner := w.fields[BLOB];
      assert Read(w, BLOB) == Some(inner) && inner.Obj? && InlineBlob(inner).None?;
      BodyShows(inner, hash, Content(inline.data), inline.mimeType);
      ShowsAround(w, hash, Obj(RefBody(hash, Content(inline.data), inline.mimeType), Plain));
    } else {
      StoredObject(w, hash);
      ShownKind(Stored(w, hash));
      assert BLOB !in Shown(Stored(w, hash)).fields.Keys && BLOB in RefOf(inline, hash).fields.Keys;
    }
  }

  lemma BodyHasMoreKeys(hash: Hash, content: Binary, mimeType: string)
    ensures |RefBody(hash, content, mimeType).Keys| != 1
  {
    KeysDiffer();
    var keys := RefBody(hash, content, mimeType).Keys;
    assert "uri" in keys && "mimeType" in keys;
    if |keys| == 1 { OneKey(keys, "uri"); }
  }

  /** In an object that is a ref but for `__proto__` nothing becomes an inline blob. */
  lemma NothingInBody(inner: Value, hash: Hash, content: Binary, mimeType: string, w: Value)
    requires inner.Obj? && WithoutProto(inner.fields) == RefBody(hash, content, mimeType) && w in Reached(inner, {PROTO})
    ensures Unmasked(w).None?
  {
    var body := RefBody(hash, content, mimeType);
    if w == inner {
      BodyHasMoreKeys(hash, content, mimeType);
      assert WithoutProto(inner.fields).Keys == inner.fields.Keys - {PROTO};
    } else {
      var k :| k in inner.fields && k != PROTO && w in Reached(inner.fields[k], {PROTO});
      assert k in WithoutProto(inner.fields);
      BodyIsScalar(hash, content, mimeType, k);
      assert inner.fields[k] == body[k];
      ScalarReaches(body[k], w);
    }
  }

  lemma ScalarReaches(x: Value, w: Value)
    requires (x.Str? || x.Num?) && w in Reached(x, {PROTO})
    ensures w == x
  {
  }

  /** Below a value that already is its ref nothing becomes an inline blob. */
  lemma NothingBelowRef(m: Value, hash: Hash, w: Value)
    requires AlreadyRef(m, hash) && w in Reached(m, {PROTO}) && w != m
    ensures Unmasked(w).None?
  {
    KeysDiffer();
    OneKey(m.fields.Keys - {PROTO}, BLOB);
    var inline := Unmasked(m).value;
    var k :| k in m.fields && k != PROTO && w in Reached(m.fields[k], {PROTO});
    assert k in m.fields.Keys - {PROTO};
    NothingInBody(m.fields[BLOB], hash, Content(inline.data), inline.mimeType, w);
  }

  predicate TameAsShown(v: Value, hash: Hash) {
    forall w :: w in Reached(v, {PROTO}) ==> Unmasked(w).Some? ==> AlreadyRef(w, hash)
  }

  lemma StoredIsProtoless(v: Value, hash: Hash)
    ensures Protoless(Stored(v, hash))
  {
    forall u | u in Reached(Stored(v, hash), {}) && u.Obj? ensures PROTO !in u.fields {
      var w := ReachedFrom(v, hash, u);
      StoredKind(w, hash);
      if !InRef(u) && InlineBlob(w).Some? {
        var inline := InlineBlob(w).value;
        assert u in Reached(u, {});
        RefReaches(hash, Content(inline.data), inline.mimeType, u);
      }
    }
  }

  lemma TameOne(w: Value, hash: Hash)
    requires Unmasked(w).Some? ==> AlreadyRef(w, hash)
    ensures ShowsAsItsRef(Stored(w, hash), hash) && Decodes(Stored(w, hash))
  {
    InlineOfStored(w, hash);
    if Unmasked(w).Some? { ShowsIffAlreadyRef(w, hash); }
  }

  lemma TameShowsAsRefs(v: Value, hash: Hash)
    requires TameAsShown(v, hash)
    ensures AllShowAsRefs(Stored(v, hash), hash) && Decodable(Stored(v, hash))
  {
    forall u | u in Reached(Stored(v, hash), {}) ensures ShowsAsItsRef(u, hash) && Decodes(u) {
      var w := ReachedFrom(v, hash, u);
      assert Unmasked(w).Some? ==> AlreadyRef(w, hash);
      if u == Stored(w, hash) { TameOne(w, hash); }
    }
  }

  lemma UntameShowsOtherwise(v: Value, hash: Hash)
    requires !TameAsShown(v, hash)
    ensures !AllShowAsRefs(Stored(v, hash), hash) || !Decodable(Stored(v, hash))
  {
    var w :| w in Reached(v, {PROTO}) && Unmasked(w).Some? && !AlreadyRef(w, hash);
    var m := StillReached(v, hash, w);
    if AlreadyRef(m, hash) { NothingBelowRef(m, hash, w); }
    InlineOfStored(m, hash);
    ShowsIffAlreadyRef(m, hash);
  }

  /** Seen as serialising shows it, the rewrite gives back its own output, without throwing, exactly if what becomes an inline blob
      already is the ref it would be replaced by. */
  lemma TwiceShowsOnceIffTame(v: Value, hash: Hash)
    ensures Decodable(Stored(v, hash)) && Shown(Stored(Stored(v, hash), hash)) == Shown(Stored(v, hash)) <==> TameAsShown(v, hash)
  {
    StoredIsProtoless(v, hash);
    ShowsOnceIffRefs(Stored(v, hash), hash);
    assert ShowsOnce(Stored(v, hash), hash) <==> Shown(Stored(Stored(v, hash), hash)) == Shown(Stored(v, hash));
    if TameAsShown(v, hash) { TameShowsAsRefs(v, hash); } else { UntameShowsOtherwise(v, hash); }
  }

  // ---------- Inputs on which the promises fail ----------

  /** `{ data, mimeType }`. */
  function Plainly(fields: map<string, Value>): Value {
    Obj(fields, Plain)
  }

  const INNER := Plainly(map["data" := Str("AAAA"), "mimeType" := Str("image/png")])

  lemma InnerReads()
    ensures InlineIn(Some(INNER)) == Some(Inline("AAAA", "image/png")) && InlineBlob(INNER).None?
    ensures InlineRead(Some(INNER)) == Some(Inline("AAAA", "image/png"))
  {
    KeysDiffer();
    assert INNER.fields.Keys == {"data", "mimeType"};
    if |INNER.fields.Keys| == 1 { OneKey(INNER.fields.Keys, "data"); }
  }

  /** `{ $blob: …, __proto__: null }`: the key hides the blob from the rewrite, is dropped by it, and leaves the blob inline. */
  lemma MaskedBlobIsLeft(hash: Hash)
    ensures !Clean(Stored(Plainly(map[BLOB := INNER, PROTO := Null]), hash))
  {
    KeysDiffer();
    InnerReads();
    var v := Plainly(map[BLOB := INNER, PROTO := Null]);
    assert v.fields.Keys == {BLOB, PROTO} && v.fields.Keys - {PROTO} == {BLOB};
    assert |v.fields.Keys| == 2;
    assert Read(v, BLOB) == Some(INNER);
    InlineOfStored(v, hash);
    assert Stored(v, hash) in Reached(Stored(v, hash), {});
  }

  /** `{ $blob: { __proto__: { data, mimeType } } }`: after the rewrite the blob is read through the prototype. */
  lemma InheritedBlobIsLeft(hash: Hash)
    ensures var v := Plainly(map[BLOB := Plainly(map[PROTO := INNER])]);
      InlineBlob(v).None? && !Clean(Stored(v, hash)) && !TameAsShown(v, hash)
  {
    KeysDiffer();
    InnerReads();
    var inner := Plainly(map[PROTO := INNER]);
    var v := Plainly(map[BLOB := inner]);
    assert v.fields.Keys - {PROTO} == {BLOB};
    assert Lookup(inner, "data") == None && InlineBlob(v).None?;
    assert Lookup(inner, BLOB) == None && InlineBlob(inner).None?;
    assert Read(inner, "data") == Read(INNER, "data") && Read(inner, "mimeType") == Read(INNER, "mimeType");
    assert Read(v, BLOB) == Some(inner) && Unmasked(v) == Some(Inline("AAAA", "image/png"));
    InlineOfStored(v, hash);
    assert Stored(v, hash) in Reached(Stored(v, hash), {}) && v in Reached(v, {PROTO});
    var rest := WithoutProto(inner.fields);
    assert rest.Keys == {} && "uri" in RefBody(hash, Content("AAAA"), "image/png").Keys;
  }

  /** `{ x, __proto__: { $blob: …, y } }`: the second rewrite takes the object for the blob it inherits, and `x` is lost. */
  lemma InheritedBlobLosesKeys(hash: Hash)
    ensures var v := Plainly(map["x" := Null, PROTO := Plainly(map[BLOB := INNER, "y" := Null])]);
      "x" in Stored(v, hash).fields && Stored(Stored(v, hash), hash).Obj? && "x" !in Stored(Stored(v, hash), hash).fields
  {
    KeysDiffer();
    InnerReads();
    assert "x"[0] != BLOB[0] && "y"[0] != BLOB[0] && "x"[0] != PROTO[0] && "y"[0] != PROTO[0];
    var parent := Plainly(map[BLOB := INNER, "y" := Null]);
    var v := Plainly(map["x" := Null, PROTO := parent]);
    assert parent.fields.Keys == {BLOB, "y"} && |parent.fields.Keys| == 2 && InlineBlob(parent).None?;
    assert v.fields.Keys == {"x", PROTO} && |v.fields.Keys| == 2 && v.fields.Keys - {PROTO} == {"x"};
    assert Read(v, BLOB) == Read(parent, BLOB) == Some(INNER);
    InlineOfStored(v, hash);
    StoredObject(v, hash);
    assert Stored(Stored(v, hash), hash).fields.Keys == {BLOB};
  }
}
