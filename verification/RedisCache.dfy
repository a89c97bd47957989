// The Redis cache of documents, etags and element values. A cache key holds bytes; texts
// are stored and read back as UTF-8.
module Cache {
  import opened Wrappers
  import opened Ids
  import opened CacheKeys

  type Store = map<string, seq<Byte>>

  datatype CacheError = NotUtf8

  type Pair = (seq<Byte>, string)

  function PairAt(store: Store, keyBytes: string, keyEtag: string): Result<Option<Pair>, CacheError> {
    if keyBytes !in store || keyEtag !in store then Ok(None)
    else
      match Utf8Decode(store[keyEtag])
      case None => Err(NotUtf8)
      case Some(etag) => Ok(Some((store[keyBytes], etag)))
  }

  function WithPair(store: Store, keyBytes: string, keyEtag: string, doc: seq<Byte>, etag: string): Store {
    store[keyBytes := doc][keyEtag := Utf8Encode(etag)]
  }

  // The keys of a store that a glob matches.
  function Matching(store: Store, pattern: string): set<string> {
    set key | key in store && GlobMatch(pattern, key)
  }

  // RedisCache: set and delete on shared Redis state.
  class RedisCache {
    var store: Store

    constructor ()
      ensures store == map[]
    {
      store := map[];
    }

    method GetPair(keyBytes: string, keyEtag: string) returns (r: Result<Option<Pair>, CacheError>)
      ensures r == PairAt(store, keyBytes, keyEtag)
    {
      if keyBytes !in store || keyEtag !in store {
        return Ok(None);
      }
      var etag := Utf8Decode(store[keyEtag]);
      if etag.None? {
        return Err(NotUtf8);
      }
      r := Ok(Some((store[keyBytes], etag.value)));
    }

    method SetPair(keyBytes: string, keyEtag: string, doc: seq<Byte>, etag: string)
      modifies this
      ensures store == WithPair(old(store), keyBytes, keyEtag, doc, etag)
    {
      store := store[keyBytes := doc];
      store := store[keyEtag := Utf8Encode(etag)];
    }

    method Delete(keys: set<string>)
      modifies this
      ensures store == old(store) - keys
    {
      store := store - keys;
    }

    method GetAas(id: string) returns (r: Result<Option<Pair>, CacheError>)
      ensures r == PairAt(store, Render(AasBytes(id)), Render(AasEtag(id)))
    {
      r := GetPair(Render(AasBytes(id)), Render(AasEtag(id)));
    }

    method SetAas(id: string, doc: seq<Byte>, etag: string)
      modifies this
      ensures store == WithPair(old(store), Render(AasBytes(id)), Render(AasEtag(id)), doc, etag)
    {
      SetPair(Render(AasBytes(id)), Render(AasEtag(id)), doc, etag);
    }

    method DeleteAas(id: string)
      modifies this
      ensures store == old(store) - {Render(AasBytes(id)), Render(AasEtag(id))}
    {
      Delete({Render(AasBytes(id)), Render(AasEtag(id))});
    }

    method GetSubmodel(id: string) returns (r: Result<Option<Pair>, CacheError>)
      ensures r == PairAt(store, Render(SubmodelBytes(id)), Render(SubmodelEtag(id)))
    {
      r := GetPair(Render(SubmodelBytes(id)), Render(SubmodelEtag(id)));
    }

    method SetSubmodel(id: string, doc: seq<Byte>, etag: string)
      modifies this
      ensures store == WithPair(old(store), Render(SubmodelBytes(id)), Render(SubmodelEtag(id)), doc, etag)
    {
      SetPair(Render(SubmodelBytes(id)), Render(SubmodelEtag(id)), doc, etag);
    }

    method DeleteSubmodel(id: string)
      modifies this
      ensures store == old(store) - {Render(SubmodelBytes(id)), Render(SubmodelEtag(id))}
    {
      Delete({Render(SubmodelBytes(id)), Render(SubmodelEtag(id))});
    }

    method GetElementValue(submodel: string, path: string) returns (r: Option<seq<Byte>>)
      ensures r == ElementAt(store, submodel, path)
    {
      var key := Render(ElementValue(submodel, path));
      r := if key in store then Some(store[key]) else None;
    }

    method SetElementValue(submodel: string, path: string, value: seq<Byte>)
      modifies this
      ensures store == old(store)[Render(ElementValue(submodel, path)) := value]
    {
      store := store[Render(ElementValue(submodel, path)) := value];
    }

    method DeleteElementValue(submodel: string, path: string)
      modifies this
      ensures store == old(store) - {Render(ElementValue(submodel, path))}
    {
      Delete({Render(ElementValue(submodel, path))});
    }

    // Scans all keys, deletes those that match and counts them.
    method InvalidateSubmodelElements(submodel: string) returns (deleted: nat)
      modifies this
      ensures store == old(store) - Matching(old(store), ElementPattern(submodel))
      ensures deleted == |Matching(old(store), ElementPattern(submodel))|
    {
      var pattern := ElementPattern(submodel);
      ghost var all := store;
      var unscanned := store.Keys;
      deleted := 0;
      while unscanned != {}
        invariant unscanned <= all.Keys
        invariant store == all - (Matching(all, pattern) - unscanned)
        invariant deleted == |Matching(all, pattern) - unscanned|
        decreases |unscanned|
      {
        var key :| key in unscanned;
        ScanStep(all, pattern, unscanned, key);
        unscanned := unscanned - {key};
        if GlobMatch(pattern, key) {
          store := store - {key};
          deleted := deleted + 1;
        }
      }
      assert Matching(all, pattern) - {} == Matching(all, pattern);
    }
  }

  // One key of a scan.
  lemma ScanStep(all: Store, pattern: string, unscanned: set<string>, key: string)
    requires key in unscanned && unscanned <= all.Keys
    ensures var before := Matching(all, pattern) - unscanned;
            var after := Matching(all, pattern) - (unscanned - {key});
            if GlobMatch(pattern, key) then
              after == before + {key} && |after| == |before| + 1 && all - after == all - before - {key}
            else after == before
  {
    var before := Matching(all, pattern) - unscanned;
    var after := Matching(all, pattern) - (unscanned - {key});
    assert if GlobMatch(pattern, key) then after == before + {key} else after == before;
  }

  function ElementAt(store: Store, submodel: string, path: string): Option<seq<Byte>> {
    var key := Render(ElementValue(submodel, path));
    if key in store then Some(store[key]) else None
  }

  // What was set is what is read back, byte for byte and character for character, and
  // reads of every other entity are as before.
  lemma ReadBackPair(store: Store, id: string, doc: seq<Byte>, etag: string, other: Key)
    requires Encoded(id) && Encoded(other.id) && other != AasBytes(id) && other != AasEtag(id)
    ensures var after := WithPair(store, Render(AasBytes(id)), Render(AasEtag(id)), doc, etag);
            && PairAt(after, Render(AasBytes(id)), Render(AasEtag(id))) == Ok(Some((doc, etag)))
            && Lookup(after, other) == Lookup(store, other)
  {
    RenderApart(AasBytes(id), AasEtag(id));
    RenderApart(AasBytes(id), other);
    RenderApart(AasEtag(id), other);
    Utf8RoundTrip(etag);
  }

  function Lookup(store: Store, key: Key): Option<seq<Byte>> {
    if Render(key) in store then Some(store[Render(key)]) else None
  }

  lemma RenderApart(k: Key, l: Key)
    requires Encoded(k.id) && Encoded(l.id)
    ensures Render(k) == Render(l) <==> k == l
  {
    if Render(k) == Render(l) {
      KeysDistinct(k, l);
    }
  }

  // Invalidation removes the element values of one submodel and nothing else of the schema.
  lemma InvalidationIsExact(store: Store, submodel: string, key: Key)
    requires Encoded(submodel) && Encoded(key.id)
    ensures Lookup(store - Matching(store, ElementPattern(submodel)), key)
            == if key.ElementValue? && key.id == submodel then None else Lookup(store, key)
  {
    PatternIsExact(submodel, key);
  }
}
