/** Moving binaries that stand inline in a JSON value into an artifact store, and what putting them back gives. */
module Blobs {
  import opened Base64
  import Text
  import opened Wrappers

  /** A JavaScript value as parsing JSON text makes it, or as the rewrite does. */
  datatype Value =
    | Null
    | Bool(flag: bool)
    | Num(numeral: string)
    | Str(text: string)
    | Arr(items: seq<Value>)
    | Obj(fields: map<string, Value>, proto: Proto)

  /** What an object inherits from: nothing but the built-in properties, nothing at all, or a value it was given. */
  datatype Proto = Plain | Bare | Over(parent: Value)

  type Binary = seq<Byte>

  type Hash = Binary -> string

  datatype Inline = Inline(data: string, mimeType: string)

  const BLOB := "$blob"
  const PROTO := "__proto__"

  /** Reading a property: the object's own, or else the one it inherits. None of the names read here is built in. */
  function Lookup(v: Value, key: string): Option<Value>
    decreases v
  {
    if !v.Obj? then None
    else if key in v.fields then Some(v.fields[key])
    else if v.proto.Over? then Lookup(v.proto.parent, key)
    else None
  }

  function TextOf(v: Option<Value>): Option<string> {
    if v.Some? && v.value.Str? then Some(v.value.text) else None
  }

  function InlineIn(inner: Option<Value>): Option<Inline> {
    if inner.Some? && inner.value.Obj? then
      var data, mimeType := TextOf(Lookup(inner.value, "data")), TextOf(Lookup(inner.value, "mimeType"));
      if data.Some? && mimeType.Some? then Some(Inline(data.value, mimeType.value)) else None
    else None
  }

  /** Own keys are counted, but `$blob` and what it holds are read as properties are. */
  function InlineBlob(v: Value): Option<Inline> {
    if v.Obj? && |v.fields.Keys| == 1 then InlineIn(Lookup(v, BLOB)) else None
  }

  function Uri(hash: Hash, content: Binary): string {
    "artifact://sha256/" + hash(content)
  }

  function RefBody(hash: Hash, content: Binary, mimeType: string): map<string, Value> {
    map["uri" := Str(Uri(hash, content)), "mimeType" := Str(mimeType), "bytes" := Num(Text.Decimal(|content|)), "sha256" := Str(hash(content))]
  }

  function Ref(hash: Hash, content: Binary, mimeType: string): Value {
    Obj(map[BLOB := Obj(RefBody(hash, content, mimeType), Plain)], Plain)
  }

  /** The bytes of an inline blob; none when its text is not base64 and the conversion throws. */
  function Content(data: string): Binary {
    if Decode(data).Some? then Decode(data).value else []
  }

  /** What a plain object inherits from once `v` was assigned to its key `__proto__`. */
  function ProtoFrom(v: Value): Proto {
    if v.Obj? || v.Arr? then Over(v) else if v.Null? then Bare else Plain
  }

  /** The value with every inline blob replaced by a ref. The rewrite fills a plain object by assignment, so an entry `__proto__`
      becomes no property of it but what it inherits from, if it can be inherited from, and nothing otherwise. */
  function Stored(v: Value, hash: Hash): Value
    decreases v
  {
    match v
    case Arr(items) => Arr(seq(|items|, i requires 0 <= i < |items| => Stored(items[i], hash)))
    case Obj(fields, _) =>
      var inline := InlineBlob(v);
      if inline.Some? then Ref(hash, Content(inline.value.data), inline.value.mimeType)
      else
        Obj(map k | k in fields && k != PROTO :: Stored(fields[k], hash), if PROTO in fields then ProtoFrom(Stored(fields[PROTO], hash)) else Plain)
    case _ => v
  }

  /** The values the rewrite comes to, except below the keys it skips. */
  function Reached(v: Value, skip: set<string>): set<Value>
    decreases v
  {
    {v} +
    match v
    case Arr(items) => set i, w | 0 <= i < |items| && w in Reached(items[i], skip) :: w
    case Obj(fields, _) =>
      if InlineBlob(v).Some? then {} else set k, w | k in fields && k !in skip && w in Reached(fields[k], skip) :: w
    case _ => {}
  }

  predicate Decodes(v: Value) {
    InlineBlob(v).Some? ==> Decode(InlineBlob(v).value.data).Some?
  }

  /** No inline blob throws. */
  predicate Decodable(v: Value) {
    forall w :: w in Reached(v, {}) ==> Decodes(w)
  }

  /** What the rewrite stores. */
  function Binaries(v: Value): set<Binary> {
    set w | w in Reached(v, {}) && InlineBlob(w).Some? :: Content(InlineBlob(w).value.data)
  }

  // ---------- The store ----------

  ghost predicate Injective(hash: Hash) {
    forall a: Binary, b: Binary :: hash(a) == hash(b) ==> a == b
  }

  /** Every blob lies under its own address. */
  predicate Addressed(blobs: map<string, Binary>, hash: Hash) {
    forall u :: u in blobs ==> u == Uri(hash, blobs[u])
  }

  predicate Holds(blobs: map<string, Binary>, hash: Hash, content: Binary) {
    Uri(hash, content) in blobs && blobs[Uri(hash, content)] == content
  }

  predicate Keeps(before: map<string, Binary>, after: map<string, Binary>) {
    forall u :: u in before ==> u in after && after[u] == before[u]
  }

  /** `after` is `before` with exactly `added` put in. */
  ghost predicate Grown(before: map<string, Binary>, after: map<string, Binary>, added: set<Binary>, hash: Hash) {
    && Keeps(before, after)
    && (forall c :: c in added ==> Holds(after, hash, c))
    && (forall u :: u in after ==> u in before || after[u] in added)
  }

  lemma GrownTwice(a: map<string, Binary>, b: map<string, Binary>, c: map<string, Binary>, first: set<Binary>, second: set<Binary>, hash: Hash)
    requires Grown(a, b, first, hash) && Grown(b, c, second, hash)
    ensures Grown(a, c, first + second, hash)
  {
  }

  /** The entries outside `keys` are rewritten. */
  ghost predicate Rewritten(fields: map<string, Value>, keys: set<string>, out: map<string, Value>, proto: Proto, hash: Hash) {
    && (forall k :: k in fields && k !in keys ==> Decodable(fields[k]))
    && (forall k :: k in out <==> k in fields && k !in keys && k != PROTO)
    && (forall k :: k in out ==> out[k] == Stored(fields[k], hash))
    && proto == if PROTO in fields && PROTO !in keys then ProtoFrom(Stored(fields[PROTO], hash)) else Plain
  }

  lemma RewrittenMore(fields: map<string, Value>, keys: set<string>, key: string, out: map<string, Value>, proto: Proto, hash: Hash)
    requires key in keys && keys <= fields.Keys && Rewritten(fields, keys, out, proto, hash) && Decodable(fields[key])
    ensures var item := Stored(fields[key], hash);
      Rewritten(fields, keys - {key}, if key == PROTO then out else out[key := item], if key == PROTO then ProtoFrom(item) else proto, hash)
    ensures key == PROTO ==> proto == Plain
  {
  }

  /** `added` is what the entries outside `keys` have stored. */
  ghost predicate Gathered(fields: map<string, Value>, keys: set<string>, added: set<Binary>) {
    forall c :: c in added <==> exists k :: k in fields && k !in keys && c in Binaries(fields[k])
  }

  lemma GatheredMore(fields: map<string, Value>, keys: set<string>, key: string, added: set<Binary>)
    requires key in keys && keys <= fields.Keys && Gathered(fields, keys, added)
    ensures Gathered(fields, keys - {key}, added + Binaries(fields[key]))
  {
    forall c ensures c in added + Binaries(fields[key]) <==> exists k :: k in fields && k !in keys - {key} && c in Binaries(fields[k]) {
      if c in added {
        var k :| k in fields && k !in keys && c in Binaries(fields[k]);
        assert k !in keys - {key};
      }
    }
  }

  lemma SameAddress(hash: Hash, a: Binary, b: Binary)
    requires Injective(hash) && Uri(hash, a) == Uri(hash, b)
    ensures a == b
  {
    assert Uri(hash, a)[18..] == hash(a) && Uri(hash, b)[18..] == hash(b);
  }

  class ArtifactStore {
    const hash: Hash
    var blobs: map<string, Binary>

    ghost predicate Valid()
      reads this
    {
      Injective(hash) && Addressed(blobs, hash)
    }

    constructor (hash: Hash)
      requires Injective(hash)
      ensures Valid() && blobs == map[] && this.hash == hash
    {
      this.hash := hash;
      blobs := map[];
    }

    method Put(content: Binary, mimeType: string) returns (ref: Value)
      requires Valid()
      modifies this
      ensures Valid() && Grown(old(blobs), blobs, {content}, hash)
      ensures ref == Ref(hash, content, mimeType)
    {
      var uri := Uri(hash, content);
      if uri !in blobs {
        blobs := blobs[uri := content];
      } else {
        SameAddress(hash, content, blobs[uri]);
      }
      ref := Ref(hash, content, mimeType);
    }

    method StoreInlineBlobs(value: Value) returns (outcome: Attempt<Value>)
      requires Valid()
      modifies this
      ensures Valid() && Keeps(old(blobs), blobs)
      ensures outcome == if Decodable(value) then Made(Stored(value, hash)) else Threw
      ensures outcome.Made? ==> Grown(old(blobs), blobs, Binaries(value), hash)
      decreases value, 1
    {
      if value.Arr? {
        outcome := StoreItems(value.items, value);
      } else if !value.Obj? {
        assert Reached(value, {}) == {value};
        outcome := Made(value);
      } else {
        var inline := InlineBlob(value);
        if inline.Some? {
          InlineParts(value);
          if Decode(inline.value.data).None? {
            return Threw;
          }
          var ref := Put(Decode(inline.value.data).value, inline.value.mimeType);
          outcome := Made(ref);
        } else {
          outcome := StoreFields(value);
        }
      }
    }

    /** Every item is rewritten, whatever becomes of the others. */
    method StoreItems(items: seq<Value>, ghost value: Value) returns (outcome: Attempt<Value>)
      requires Valid() && value == Arr(items)
      modifies this
      ensures Valid() && Keeps(old(blobs), blobs)
      ensures outcome == if Decodable(value) then Made(Stored(value, hash)) else Threw
      ensures outcome.Made? ==> Grown(old(blobs), blobs, Binaries(value), hash)
      decreases value, 0
    {
      var out := [];
      var threw := false;
      for i := 0 to |items|
        invariant Valid() && Keeps(old(blobs), blobs)
        invariant threw <==> !Decodable(Arr(items[..i]))
        invariant !threw ==> Arr(out) == Stored(Arr(items[..i]), hash)
        invariant !threw ==> Grown(old(blobs), blobs, Binaries(Arr(items[..i])), hash)
      {
        ghost var before := blobs;
        var item := StoreInlineBlobs(items[i]);
        ListSnoc(items, i, hash);
        if item.Threw? {
          threw := true;
        } else {
          if !threw { GrownTwice(old(blobs), before, blobs, Binaries(Arr(items[..i])), Binaries(items[i]), hash); }
          out := out + [item.value];
        }
      }
      assert items[..|items|] == items;
      outcome := if threw then Threw else Made(Arr(out));
    }

    /** One entry after the other, until one throws. */
    method StoreFields(value: Value) returns (outcome: Attempt<Value>)
      requires Valid() && value.Obj? && InlineBlob(value).None?
      modifies this
      ensures Valid() && Keeps(old(blobs), blobs)
      ensures outcome == if Decodable(value) then Made(Stored(value, hash)) else Threw
      ensures outcome.Made? ==> Grown(old(blobs), blobs, Binaries(value), hash)
      decreases value, 0
    {
      var fields := value.fields;
      var out: map<string, Value>, proto := map[], Plain;
      var keys := fields.Keys;
      ghost var added: set<Binary> := {};
      while keys != {}
        invariant keys <= fields.Keys
        invariant Valid() && Keeps(old(blobs), blobs)
        invariant Rewritten(fields, keys, out, proto, hash)
        invariant Grown(old(blobs), blobs, added, hash)
        invariant Gathered(fields, keys, added)
        decreases |keys|
      {
        ghost var before := blobs;
        var key :| key in keys;
        var item := StoreInlineBlobs(fields[key]);
        if item.Threw? {
          ObjectParts(value);
          return Threw;
        }
        GrownTwice(old(blobs), before, blobs, added, Binaries(fields[key]), hash);
        RewrittenMore(fields, keys, key, out, proto, hash);
        GatheredMore(fields, keys, key, added);
        if key != PROTO {
          out := out[key := item.value];
        } else if item.value.Obj? || item.value.Arr? {
          proto := Over(item.value);
        } else if item.value.Null? {
          proto := Bare;
        }
        keys := keys - {key};
        added := added + Binaries(fields[key]);
      }
      AllFields(value, out, proto, added, hash);
      outcome := Made(Obj(out, proto));
    }
  }

  /** All entries rewritten, all but `__proto__` kept. */
  lemma AllFields(v: Value, out: map<string, Value>, proto: Proto, added: set<Binary>, hash: Hash)
    requires v.Obj? && InlineBlob(v).None?
    requires Rewritten(v.fields, {}, out, proto, hash) && Gathered(v.fields, {}, added)
    ensures Decodable(v) && Stored(v, hash) == Obj(out, proto) && Binaries(v) == added
  {
    ObjectParts(v);
    assert out == Stored(v, hash).fields;
  }

  lemma ListParts(items: seq<Value>)
    ensures Decodable(Arr(items)) <==> forall i :: 0 <= i < |items| ==> Decodable(items[i])
    ensures forall c :: c in Binaries(Arr(items)) <==> exists i :: 0 <= i < |items| && c in Binaries(items[i])
  {
    var v := Arr(items);
    assert InlineBlob(v).None?;
    forall w ensures w in Reached(v, {}) <==> w == v || exists i :: 0 <= i < |items| && w in Reached(items[i], {}) {}
    forall c | c in Binaries(v) ensures exists i :: 0 <= i < |items| && c in Binaries(items[i]) {
      var w :| w in Reached(v, {}) && InlineBlob(w).Some? && Content(InlineBlob(w).value.data) == c;
      var i :| 0 <= i < |items| && w in Reached(items[i], {});
    }
  }

  lemma ListSnoc(items: seq<Value>, n: nat, hash: Hash)
    requires n < |items|
    ensures Decodable(Arr(items[..n + 1])) <==> Decodable(Arr(items[..n])) && Decodable(items[n])
    ensures Binaries(Arr(items[..n + 1])) == Binaries(Arr(items[..n])) + Binaries(items[n])
    ensures Stored(Arr(items[..n + 1]), hash).items == Stored(Arr(items[..n]), hash).items + [Stored(items[n], hash)]
  {
    assert items[..n + 1] == items[..n] + [items[n]];
    DecodableSnoc(items[..n], items[n]);
    BinariesSnoc(items[..n], items[n]);
    StoredSnoc(items[..n], items[n], hash);
  }

  lemma DecodableSnoc(items: seq<Value>, last: Value)
    ensures Decodable(Arr(items + [last])) <==> Decodable(Arr(items)) && Decodable(last)
  {
    ListParts(items);
    ListParts(items + [last]);
    assert forall i :: 0 <= i < |items| ==> (items + [last])[i] == items[i];
    assert (items + [last])[|items|] == last;
  }

  lemma BinariesSnoc(items: seq<Value>, last: Value)
    ensures Binaries(Arr(items + [last])) == Binaries(Arr(items)) + Binaries(last)
  {
    var more := items + [last];
    ListParts(items);
    ListParts(more);
    forall c ensures c in Binaries(Arr(more)) <==> c in Binaries(Arr(items)) || c in Binaries(last) {
      if i :| 0 <= i < |items| && c in Binaries(items[i]) { assert c in Binaries(more[i]); }
      if c in Binaries(last) { assert c in Binaries(more[|items|]); }
      if i :| 0 <= i < |more| && c in Binaries(more[i]) { assert i < |items| ==> c in Binaries(items[i]); }
    }
  }

  lemma StoredSnoc(items: seq<Value>, last: Value, hash: Hash)
    ensures Stored(Arr(items + [last]), hash).items == Stored(Arr(items), hash).items + [Stored(last, hash)]
  {
  }

  lemma ObjectParts(v: Value)
    requires v.Obj? && InlineBlob(v).None?
    ensures Decodable(v) <==> forall k :: k in v.fields ==> Decodable(v.fields[k])
    ensures forall c :: c in Binaries(v) <==> exists k :: k in v.fields && c in Binaries(v.fields[k])
  {
    forall w ensures w in Reached(v, {}) <==> w == v || exists k :: k in v.fields && w in Reached(v.fields[k], {}) {}
    forall c | c in Binaries(v) ensures exists k :: k in v.fields && c in Binaries(v.fields[k]) {
      var w :| w in Reached(v, {}) && InlineBlob(w).Some? && Content(InlineBlob(w).value.data) == c;
      var k :| k in v.fields && w in Reached(v.fields[k], {});
    }
  }

  lemma InlineParts(v: Value)
    requires InlineBlob(v).Some?
    ensures Decodable(v) <==> Decode(InlineBlob(v).value.data).Some?
    ensures Binaries(v) == {Content(InlineBlob(v).value.data)}
  {
    assert Reached(v, {}) == {v};
    assert v in Reached(v, {});
  }
}
