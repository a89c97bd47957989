// The two event writers that keep the cache up to date, and what a cache read means after
// any history of events in which entries may also expire at any time.
module EventWriters {
  import opened Wrappers
  import opened Ids
  import opened CacheKeys
  import opened Cache

  datatype Kind = Created | Updated | Deleted

  datatype Event =
    | AasEvent(kind: Kind, id: string, doc: Option<seq<Byte>>, etag: Option<string>)
    | SubmodelEvent(kind: Kind, id: string, doc: Option<seq<Byte>>, etag: Option<string>)
    | ElementEvent(kind: Kind, id: string, path: string, value: Option<seq<Byte>>)
    | OtherEvent

  // Identifiers arrive base64url encoded.
  predicate EncodedEvent(e: Event) {
    e.OtherEvent? || Encoded(e.id)
  }

  // None and the empty sequence both count as absent.
  predicate Present<T(==)>(o: Option<seq<T>>) {
    o.Some? && o.value != []
  }

  // A document event that carries bytes and an etag.
  predicate Complete(e: Event)
    requires e.AasEvent? || e.SubmodelEvent?
  {
    Present(e.doc) && Present(e.etag)
  }

  // ---------------------------------------------------------------- what the writers do

  datatype Writer = Single | Micro

  // Whether a submodel event drops the cached element values.
  predicate Invalidates(w: Writer, e: Event)
    requires e.SubmodelEvent?
  {
    e.kind == Deleted || (e.kind == Updated && (w == Single || Complete(e)))
  }

  // Whether an element event stores its value.
  predicate StoresValue(w: Writer, e: Event)
    requires e.ElementEvent?
  {
    Present(e.value) && (e.kind == Updated || (w == Micro && e.kind == Created))
  }

  function Invalidate(store: Store, submodel: string): Store {
    store - Matching(store, ElementPattern(submodel))
  }

  function ApplyDocument(store: Store, e: Event, keyBytes: string, keyEtag: string): Store
    requires e.AasEvent? || e.SubmodelEvent?
  {
    if e.kind == Deleted then store - {keyBytes, keyEtag}
    else if Complete(e) then WithPair(store, keyBytes, keyEtag, e.doc.value, e.etag.value)
    else store
  }

  function Apply(w: Writer, store: Store, e: Event): Store {
    match e
    case AasEvent(_, id, _, _) => ApplyDocument(store, e, Render(AasBytes(id)), Render(AasEtag(id)))
    case SubmodelEvent(_, id, _, _) =>
      var next := ApplyDocument(store, e, Render(SubmodelBytes(id)), Render(SubmodelEtag(id)));
      if Invalidates(w, e) then Invalidate(next, id) else next
    case ElementEvent(kind, id, path, value) =>
      if kind == Deleted then store - {Render(ElementValue(id, path))}
      else if StoresValue(w, e) then store[Render(ElementValue(id, path)) := value.value]
      else store
    case OtherEvent => store
  }

  // Empty bytes, an empty etag and an empty value count as missing: such an event does what it
  // does without them, and anything else is there.
  lemma EmptyIsMissing(w: Writer, store: Store, kind: Kind, id: string, path: string, doc: Option<seq<Byte>>,
                       etag: Option<string>)
    ensures Apply(w, store, AasEvent(kind, id, Some([]), etag)) == Apply(w, store, AasEvent(kind, id, None, etag))
    ensures Apply(w, store, AasEvent(kind, id, doc, Some(""))) == Apply(w, store, AasEvent(kind, id, doc, None))
    ensures Apply(w, store, SubmodelEvent(kind, id, Some([]), etag))
            == Apply(w, store, SubmodelEvent(kind, id, None, etag))
    ensures Apply(w, store, SubmodelEvent(kind, id, doc, Some("")))
            == Apply(w, store, SubmodelEvent(kind, id, doc, None))
    ensures Apply(w, store, ElementEvent(kind, id, path, Some([]))) == Apply(w, store, ElementEvent(kind, id, path, None))
  {
  }

  class SingleWriter {
    const cache: RedisCache
    var broadcast: seq<Event>

    constructor (cache: RedisCache)
      ensures this.cache == cache && broadcast == []
    {
      this.cache := cache;
      broadcast := [];
    }

    method HandleEvent(e: Event)
      modifies this, cache
      ensures cache.store == Apply(Single, old(cache.store), e)
      ensures broadcast == if e.OtherEvent? then old(broadcast) else old(broadcast) + [e]
    {
      match e {
        case AasEvent(_, _, _, _) => HandleAasEvent(e);
        case SubmodelEvent(_, _, _, _) => HandleSubmodelEvent(e);
        case ElementEvent(_, _, _, _) => HandleElementEvent(e);
        case OtherEvent => return;
      }
      broadcast := broadcast + [e];
    }

    method HandleAasEvent(e: Event)
      requires e.AasEvent?
      modifies cache
      ensures cache.store == Apply(Single, old(cache.store), e)
    {
      if e.kind == Created {
        if Present(e.doc) && Present(e.etag) {
          cache.SetAas(e.id, e.doc.value, e.etag.value);
        }
      } else if e.kind == Updated {
        if Present(e.doc) && Present(e.etag) {
          cache.SetAas(e.id, e.doc.value, e.etag.value);
        }
      } else if e.kind == Deleted {
        cache.DeleteAas(e.id);
      }
    }

    method HandleSubmodelEvent(e: Event)
      requires e.SubmodelEvent?
      modifies cache
      ensures cache.store == Apply(Single, old(cache.store), e)
    {
      if e.kind == Created {
        if Present(e.doc) && Present(e.etag) {
          cache.SetSubmodel(e.id, e.doc.value, e.etag.value);
        }
      } else if e.kind == Updated {
        if Present(e.doc) && Present(e.etag) {
          cache.SetSubmodel(e.id, e.doc.value, e.etag.value);
        }
        var _ := cache.InvalidateSubmodelElements(e.id);
      } else if e.kind == Deleted {
        cache.DeleteSubmodel(e.id);
        var _ := cache.InvalidateSubmodelElements(e.id);
      }
    }

    method HandleElementEvent(e: Event)
      requires e.ElementEvent?
      modifies cache
      ensures cache.store == Apply(Single, old(cache.store), e)
    {
      if e.kind == Updated {
        if Present(e.value) {
          cache.SetElementValue(e.id, e.path, e.value.value);
        }
      } else if e.kind == Deleted {
        cache.DeleteElementValue(e.id, e.path);
      }
    }
  }

  // MicroBatchWriter._update_cache
  method UpdateCache(cache: RedisCache, e: Event)
    modifies cache
    ensures cache.store == Apply(Micro, old(cache.store), e)
  {
    match e {
      case AasEvent(kind, id, doc, etag) =>
        if kind == Deleted {
          cache.DeleteAas(id);
        } else if Present(doc) && Present(etag) {
          cache.SetAas(id, doc.value, etag.value);
        }
      case SubmodelEvent(kind, id, doc, etag) =>
        if kind == Deleted {
          cache.DeleteSubmodel(id);
          var _ := cache.InvalidateSubmodelElements(id);
        } else if Present(doc) && Present(etag) {
          cache.SetSubmodel(id, doc.value, etag.value);
          if kind == Updated {
            var _ := cache.InvalidateSubmodelElements(id);
          }
        }
      case ElementEvent(kind, id, path, value) =>
        if kind == Deleted {
          cache.DeleteElementValue(id, path);
        } else if Present(value) {
          cache.SetElementValue(id, path, value.value);
        }
      case OtherEvent =>
    }
  }

  // ---------------------------------------------------------------- one event seen from one key

  datatype Effect = Keep | Drop | Put(bytes: seq<Byte>)

  function DocumentEffect(e: Event, bytes: Option<seq<Byte>>): Effect
    requires e.AasEvent? || e.SubmodelEvent?
    requires Complete(e) ==> bytes.Some?
  {
    if e.kind == Deleted then Drop else if Complete(e) then Put(bytes.value) else Keep
  }

  function EtagBytes(e: Event): Option<seq<Byte>>
    requires e.AasEvent? || e.SubmodelEvent?
  {
    if e.etag.Some? then Some(Utf8Encode(e.etag.value)) else None
  }

  function EffectOn(w: Writer, e: Event, key: Key): Effect {
    match e
    case AasEvent(_, id, doc, _) =>
      if key == AasBytes(id) then DocumentEffect(e, doc)
      else if key == AasEtag(id) then DocumentEffect(e, EtagBytes(e))
      else Keep
    case SubmodelEvent(_, id, doc, _) =>
      if key == SubmodelBytes(id) then DocumentEffect(e, doc)
      else if key == SubmodelEtag(id) then DocumentEffect(e, EtagBytes(e))
      else if key.ElementValue? && key.id == id && Invalidates(w, e) then Drop
      else Keep
    case ElementEvent(kind, id, path, value) =>
      if key != ElementValue(id, path) then Keep
      else if kind == Deleted then Drop
      else if StoresValue(w, e) then Put(value.value)
      else Keep
    case OtherEvent => Keep
  }

  function After(effect: Effect, before: Option<seq<Byte>>): Option<seq<Byte>> {
    match effect
    case Keep => before
    case Drop => None
    case Put(bytes) => Some(bytes)
  }

  lemma ApplyDocumentAt(store: Store, e: Event, keyBytes: Key, keyEtag: Key, key: Key)
    requires e.AasEvent? || e.SubmodelEvent?
    requires Encoded(key.id) && Encoded(keyBytes.id) && Encoded(keyEtag.id) && keyBytes != keyEtag
    ensures Lookup(ApplyDocument(store, e, Render(keyBytes), Render(keyEtag)), key)
            == After(if key == keyBytes then DocumentEffect(e, e.doc)
                     else if key == keyEtag then DocumentEffect(e, EtagBytes(e))
                     else Keep, Lookup(store, key))
  {
    RenderApart(key, keyBytes);
    RenderApart(key, keyEtag);
    RenderApart(keyBytes, keyEtag);
  }

  lemma ApplySubmodelAt(w: Writer, store: Store, e: Event, key: Key)
    requires e.SubmodelEvent? && Encoded(e.id) && Encoded(key.id)
    ensures Lookup(Apply(w, store, e), key) == After(EffectOn(w, e, key), Lookup(store, key))
  {
    ApplyDocumentAt(store, e, SubmodelBytes(e.id), SubmodelEtag(e.id), key);
    var next := ApplyDocument(store, e, Render(SubmodelBytes(e.id)), Render(SubmodelEtag(e.id)));
    InvalidationIsExact(next, e.id, key);
    assert Lookup(Invalidate(next, e.id), key)
        == if key.ElementValue? && key.id == e.id then None else Lookup(next, key);
  }

  lemma ApplyElementAt(w: Writer, store: Store, e: Event, key: Key)
    requires e.ElementEvent? && Encoded(e.id) && Encoded(key.id)
    ensures Lookup(Apply(w, store, e), key) == After(EffectOn(w, e, key), Lookup(store, key))
  {
    RenderApart(key, ElementValue(e.id, e.path));
  }

  // What one event does to the store is what it does to each key of the schema.
  lemma ApplyAt(w: Writer, store: Store, e: Event, key: Key)
    requires EncodedEvent(e) && Encoded(key.id)
    ensures Lookup(Apply(w, store, e), key) == After(EffectOn(w, e, key), Lookup(store, key))
  {
    if e.AasEvent? {
      ApplyDocumentAt(store, e, AasBytes(e.id), AasEtag(e.id), key);
    } else if e.SubmodelEvent? {
      ApplySubmodelAt(w, store, e, key);
    } else if e.ElementEvent? {
      ApplyElementAt(w, store, e, key);
    }
  }

  // ---------------------------------------------------------------- histories

  // Events in the order they are processed, and entries that run out of their TTL.
  datatype Happening = Processed(event: Event) | Expired(key: string)

  predicate EncodedHistory(history: seq<Happening>) {
    forall i :: 0 <= i < |history| ==> history[i].Processed? ==> EncodedEvent(history[i].event)
  }

  function Run(w: Writer, history: seq<Happening>): Store {
    if history == [] then map[]
    else
      var store := Run(w, history[..|history| - 1]);
      match history[|history| - 1]
      case Processed(e) => Apply(w, store, e)
      case Expired(key) => store - {key}
  }

  predicate NeverExpires(history: seq<Happening>, key: Key) {
    Expired(Render(key)) !in history
  }

  // The value a key holds if nothing expires.
  function Ideal(w: Writer, history: seq<Happening>, key: Key): Option<seq<Byte>> {
    if history == [] then None
    else
      var before := Ideal(w, history[..|history| - 1], key);
      match history[|history| - 1]
      case Processed(e) => After(EffectOn(w, e, key), before)
      case Expired(_) => before
  }

  lemma {:induction false} RunAt(w: Writer, history: seq<Happening>, key: Key)
    requires EncodedHistory(history) && Encoded(key.id)
    ensures Lookup(Run(w, history), key) == None || Lookup(Run(w, history), key) == Ideal(w, history, key)
    ensures NeverExpires(history, key) ==> Lookup(Run(w, history), key) == Ideal(w, history, key)
  {
    if history != [] {
      var front := history[..|history| - 1];
      RunAt(w, front, key);
      assert NeverExpires(history, key) ==> NeverExpires(front, key);
      match history[|history| - 1]
      case Processed(e) => ApplyAt(w, Run(w, front), e, key);
      case Expired(k) => assert Expired(k) in history;
    }
  }

  // ---------------------------------------------------------------- documents

  // Both kinds of documents behave alike; `aas` picks one.
  predicate About(aas: bool, h: Happening, id: string) {
    h.Processed? && (if aas then h.event.AasEvent? else h.event.SubmodelEvent?) && h.event.id == id
  }

  function BytesKey(aas: bool, id: string): Key {
    if aas then AasBytes(id) else SubmodelBytes(id)
  }

  function EtagKey(aas: bool, id: string): Key {
    if aas then AasEtag(id) else SubmodelEtag(id)
  }

  function Read(w: Writer, history: seq<Happening>, aas: bool, id: string): Result<Option<Pair>, CacheError> {
    PairAt(Run(w, history), Render(BytesKey(aas, id)), Render(EtagKey(aas, id)))
  }

  function LastEvent(history: seq<Happening>, aas: bool, id: string): (r: Option<Event>)
    ensures r.Some? ==> (r.value.AasEvent? || r.value.SubmodelEvent?)
  {
    if history == [] then None
    else if About(aas, history[|history| - 1], id) then Some(history[|history| - 1].event)
    else LastEvent(history[..|history| - 1], aas, id)
  }

  // Created and updated documents arrive with bytes and etag.
  predicate AllComplete(history: seq<Happening>, aas: bool, id: string) {
    forall i :: 0 <= i < |history| ==> About(aas, history[i], id) ==>
      history[i].event.kind == Deleted || Complete(history[i].event)
  }

  // The pair the last event of an entity calls for.
  function Called(last: Option<Event>): Option<Pair>
    requires last.Some? ==> (last.value.AasEvent? || last.value.SubmodelEvent?)
  {
    if last.Some? && last.value.kind != Deleted && Complete(last.value)
    then Some((last.value.doc.value, last.value.etag.value))
    else None
  }

  function PairBytes(pair: Option<Pair>): Option<seq<Byte>> {
    match pair
    case None => None
    case Some((doc, _)) => Some(doc)
  }

  function PairEtag(pair: Option<Pair>): Option<seq<Byte>> {
    match pair
    case None => None
    case Some((_, etag)) => Some(Utf8Encode(etag))
  }

  // The effect of one happening on both keys of a document.
  lemma EffectOnDocument(w: Writer, h: Happening, aas: bool, id: string)
    requires h.Processed?
    ensures !About(aas, h, id) ==> EffectOn(w, h.event, BytesKey(aas, id)) == EffectOn(w, h.event, EtagKey(aas, id)) == Keep
    ensures About(aas, h, id) ==>
              && EffectOn(w, h.event, BytesKey(aas, id)) == DocumentEffect(h.event, h.event.doc)
              && EffectOn(w, h.event, EtagKey(aas, id)) == DocumentEffect(h.event, EtagBytes(h.event))
  {
  }

  // An event that leaves a mark on the cache: a delete, or a document with bytes and etag.
  predicate Effective(aas: bool, h: Happening, id: string) {
    About(aas, h, id) && (h.event.kind == Deleted || Complete(h.event))
  }

  function LastEffective(history: seq<Happening>, aas: bool, id: string): (r: Option<Event>)
    ensures r.Some? ==> (r.value.AasEvent? || r.value.SubmodelEvent?)
  {
    if history == [] then None
    else if Effective(aas, history[|history| - 1], id) then Some(history[|history| - 1].event)
    else LastEffective(history[..|history| - 1], aas, id)
  }

  lemma {:induction false} IdealDocument(w: Writer, history: seq<Happening>, aas: bool, id: string)
    ensures Ideal(w, history, BytesKey(aas, id)) == PairBytes(Called(LastEffective(history, aas, id)))
    ensures Ideal(w, history, EtagKey(aas, id)) == PairEtag(Called(LastEffective(history, aas, id)))
  {
    if history != [] {
      IdealDocument(w, history[..|history| - 1], aas, id);
      if history[|history| - 1].Processed? {
        EffectOnDocument(w, history[|history| - 1], aas, id);
      }
    }
  }

  // A read returns nothing or the pair of the entity's last effective event, and exactly
  // that as long as neither entry expired.
  lemma DocumentReadIs(w: Writer, history: seq<Happening>, aas: bool, id: string)
    requires EncodedHistory(history) && Encoded(id)
    ensures var read, called := Read(w, history, aas, id), Called(LastEffective(history, aas, id));
            && (read == Ok(None) || read == Ok(called))
            && (NeverExpires(history, BytesKey(aas, id)) && NeverExpires(history, EtagKey(aas, id)) ==>
                  read == Ok(called))
  {
    RunAt(w, history, BytesKey(aas, id));
    RunAt(w, history, EtagKey(aas, id));
    IdealDocument(w, history, aas, id);
    var called := Called(LastEffective(history, aas, id));
    if called.Some? {
      Utf8RoundTrip(called.value.1);
    }
  }

  // As long as nothing expired, a read is what the entity's last event calls for if and
  // only if that event left a mark or nothing is cached for the entity anyway.
  lemma DocumentReadIsCurrent(w: Writer, history: seq<Happening>, aas: bool, id: string)
    requires EncodedHistory(history) && Encoded(id)
    requires NeverExpires(history, BytesKey(aas, id)) && NeverExpires(history, EtagKey(aas, id))
    ensures Read(w, history, aas, id) == Ok(Called(LastEvent(history, aas, id))) <==>
              || LastEvent(history, aas, id) == LastEffective(history, aas, id)
              || Called(LastEffective(history, aas, id)) == None
  {
    DocumentReadIs(w, history, aas, id);
    LastMarks(history, aas, id);
  }

  // The last event is the last effective one, or it is an update or creation without
  // bytes or etag, which calls for nothing.
  lemma {:induction false} LastMarks(history: seq<Happening>, aas: bool, id: string)
    ensures LastEvent(history, aas, id) == LastEffective(history, aas, id) || Called(LastEvent(history, aas, id)) == None
  {
    if history != [] && !About(aas, history[|history| - 1], id) {
      LastMarks(history[..|history| - 1], aas, id);
    }
  }

  // With complete events the read is always current: nothing or the bytes and etag of the
  // entity's last event, and a deleted entity is never read back.
  lemma {:induction false} CompleteIsEffective(history: seq<Happening>, aas: bool, id: string)
    requires AllComplete(history, aas, id)
    ensures LastEvent(history, aas, id) == LastEffective(history, aas, id)
  {
    if history != [] {
      var front := history[..|history| - 1];
      assert forall i :: 0 <= i < |front| ==> front[i] == history[i];
      CompleteIsEffective(front, aas, id);
    }
  }

  lemma CompleteReadIsCurrent(w: Writer, history: seq<Happening>, aas: bool, id: string)
    requires EncodedHistory(history) && Encoded(id) && AllComplete(history, aas, id)
    ensures Read(w, history, aas, id) == Ok(None) || Read(w, history, aas, id) == Ok(Called(LastEvent(history, aas, id)))
  {
    DocumentReadIs(w, history, aas, id);
    CompleteIsEffective(history, aas, id);
  }

  // Without bytes or etag an update is ignored and the cache keeps the old document.
  lemma IncompleteUpdateIsStale(w: Writer, doc: seq<Byte>, etag: string, id: string)
    requires doc != [] && etag != "" && Encoded(id)
    ensures var history := [Processed(AasEvent(Created, id, Some(doc), Some(etag))),
                            Processed(AasEvent(Updated, id, None, Some(etag)))];
            Read(w, history, true, id) == Ok(Some((doc, etag)))
  {
    var first := AasEvent(Created, id, Some(doc), Some(etag));
    var second := AasEvent(Updated, id, None, Some(etag));
    var history := [Processed(first), Processed(second)];
    var short := [Processed(first)];
    assert history[..1] == short && short[..0] == [];
    assert Run(w, short) == Apply(w, map[], first);
    assert Run(w, history) == Apply(w, Run(w, short), second) == Run(w, short);
    RenderApart(AasBytes(id), AasEtag(id));
    Utf8RoundTrip(etag);
  }

  // ---------------------------------------------------------------- element values

  // A processed update or delete of the submodel.
  predicate ChangesSubmodel(h: Happening, submodel: string) {
    About(false, h, submodel) && h.event.kind != Created
  }

  predicate WritesElement(h: Happening, submodel: string, path: string, value: seq<Byte>) {
    h.Processed? && h.event.ElementEvent? && h.event.id == submodel && h.event.path == path
    && h.event.kind != Deleted && h.event.value == Some(value)
  }

  predicate DeletesElement(h: Happening, submodel: string, path: string) {
    h.Processed? && h.event.ElementEvent? && h.event.id == submodel && h.event.path == path && h.event.kind == Deleted
  }

  // The micro-batching writer needs complete submodel updates to invalidate at all.
  predicate InvalidationReliable(w: Writer, history: seq<Happening>, submodel: string) {
    w == Single || AllComplete(history, false, submodel)
  }

  // Nothing from position i on changed the submodel or deleted the element.
  predicate UntouchedSince(history: seq<Happening>, i: nat, submodel: string, path: string) {
    forall j :: i <= j < |history| ==>
      !ChangesSubmodel(history[j], submodel) && !DeletesElement(history[j], submodel, path)
  }

  lemma {:induction false} IdealElementIsFresh(w: Writer, history: seq<Happening>, submodel: string, path: string)
      returns (i: nat)
    requires InvalidationReliable(w, history, submodel)
    requires Ideal(w, history, ElementValue(submodel, path)).Some?
    ensures i < |history| && WritesElement(history[i], submodel, path, Ideal(w, history, ElementValue(submodel, path)).value)
    ensures UntouchedSince(history, i, submodel, path)
  {
    var front := history[..|history| - 1];
    var last := history[|history| - 1];
    var key := ElementValue(submodel, path);
    assert forall k :: 0 <= k < |front| ==> front[k] == history[k];
    if last.Processed? && EffectOn(w, last.event, key).Put? {
      i := |history| - 1;
    } else {
      assert Ideal(w, front, key) == Ideal(w, history, key);
      i := IdealElementIsFresh(w, front, submodel, path);
      assert !ChangesSubmodel(last, submodel) && !DeletesElement(last, submodel, path);
    }
  }

  // Every cached element value was written after the last update or delete of its submodel
  // and after the last delete of the element.
  lemma ElementReadIsFresh(w: Writer, history: seq<Happening>, submodel: string, path: string)
    requires EncodedHistory(history) && Encoded(submodel) && InvalidationReliable(w, history, submodel)
    ensures var read := ElementAt(Run(w, history), submodel, path);
            read.Some? ==>
              exists i :: 0 <= i < |history| && WritesElement(history[i], submodel, path, read.value)
                       && UntouchedSince(history, i, submodel, path)
  {
    RunAt(w, history, ElementValue(submodel, path));
    if Ideal(w, history, ElementValue(submodel, path)).Some? {
      var i := IdealElementIsFresh(w, history, submodel, path);
    }
  }

  // A cached value that some update or delete of the submodel should have dropped.
  ghost predicate StaleElement(w: Writer, history: seq<Happening>, submodel: string, path: string) {
    var read := ElementAt(Run(w, history), submodel, path);
    read.Some? && !exists i :: 0 <= i < |history| && WritesElement(history[i], submodel, path, read.value)
                            && UntouchedSince(history, i, submodel, path)
  }

  // The value that position i wrote is still there at the end.
  predicate KeptSince(w: Writer, history: seq<Happening>, i: nat, key: Key) {
    && i < |history| && history[i].Processed? && EffectOn(w, history[i].event, key).Put?
    && forall k :: i < k < |history| && history[k].Processed? ==> EffectOn(w, history[k].event, key) == Keep
  }

  // A submodel update without bytes or etag.
  predicate IncompleteUpdate(h: Happening, submodel: string) {
    About(false, h, submodel) && h.event.kind == Updated && !Complete(h.event)
  }

  lemma KeptLonger(w: Writer, history: seq<Happening>, i: nat, key: Key)
    requires history != [] && KeptSince(w, history[..|history| - 1], i, key)
    requires var last := history[|history| - 1]; last.Processed? ==> EffectOn(w, last.event, key) == Keep
    ensures KeptSince(w, history, i, key)
  {
    var front := history[..|history| - 1];
    forall k | i < k < |history| && history[k].Processed? ensures EffectOn(w, history[k].event, key) == Keep {
      assert k < |front| ==> front[k] == history[k];
    }
  }

  lemma {:induction false} LastPut(w: Writer, history: seq<Happening>, key: Key) returns (i: nat)
    requires Ideal(w, history, key).Some?
    ensures KeptSince(w, history, i, key) && Ideal(w, history, key) == Some(EffectOn(w, history[i].event, key).bytes)
  {
    var front, last := history[..|history| - 1], history[|history| - 1];
    if last.Processed? && EffectOn(w, last.event, key).Put? {
      i := |history| - 1;
    } else {
      i := LastPut(w, front, key);
      KeptLonger(w, history, i, key);
    }
  }

  lemma {:induction false} KeptIsIdeal(w: Writer, history: seq<Happening>, i: nat, key: Key)
    requires KeptSince(w, history, i, key)
    ensures Ideal(w, history, key) == Some(EffectOn(w, history[i].event, key).bytes)
    decreases |history|
  {
    var front := history[..|history| - 1];
    if i < |front| {
      KeptIsIdeal(w, front, i, key);
    }
  }

  // Only one write is still there, and every later change of the submodel was incomplete.
  lemma KeptWrite(w: Writer, history: seq<Happening>, i: nat, submodel: string, path: string)
    requires KeptSince(w, history, i, ElementValue(submodel, path))
    ensures var value := EffectOn(w, history[i].event, ElementValue(submodel, path)).bytes;
            && WritesElement(history[i], submodel, path, value)
            && (forall j :: i < j < |history| ==> !DeletesElement(history[j], submodel, path))
            && (forall j :: i < j < |history| && ChangesSubmodel(history[j], submodel) ==>
                  w == Micro && IncompleteUpdate(history[j], submodel))
  {
  }

  // A cached element value is stale if and only if an update of its submodel without
  // bytes or etag followed its write and nothing later dropped or rewrote the value.
  lemma StaleElementExactly(w: Writer, history: seq<Happening>, submodel: string, path: string)
    requires EncodedHistory(history) && Encoded(submodel) && NeverExpires(history, ElementValue(submodel, path))
    ensures StaleElement(w, history, submodel, path) <==>
              exists i, j :: 0 <= i < j < |history| && KeptSince(w, history, i, ElementValue(submodel, path))
                          && IncompleteUpdate(history[j], submodel)
  {
    var key := ElementValue(submodel, path);
    RunAt(w, history, key);
    if StaleElement(w, history, submodel, path) {
      var i := LastPut(w, history, key);
      KeptWrite(w, history, i, submodel, path);
      assert !UntouchedSince(history, i, submodel, path);
    }
    if i, j :| 0 <= i < j < |history| && KeptSince(w, history, i, key) && IncompleteUpdate(history[j], submodel) {
      KeptIsIdeal(w, history, i, key);
      NoLaterWrite(w, history, i, j, submodel, path);
    }
  }

  // The micro-batching writer stores every value it is given.
  lemma WriteStores(h: Happening, submodel: string, path: string, value: seq<Byte>)
    requires WritesElement(h, submodel, path, value) && value != []
    ensures EffectOn(Micro, h.event, ElementValue(submodel, path)) == Put(value)
  {
  }

  lemma NoLaterWrite(w: Writer, history: seq<Happening>, i: nat, j: nat, submodel: string, path: string)
    requires i < j < |history| && KeptSince(w, history, i, ElementValue(submodel, path))
    requires IncompleteUpdate(history[j], submodel)
    ensures var value := EffectOn(w, history[i].event, ElementValue(submodel, path)).bytes;
            forall k :: 0 <= k < |history| && WritesElement(history[k], submodel, path, value) ==>
              !UntouchedSince(history, k, submodel, path)
  {
    KeptWrite(w, history, i, submodel, path);
    var value := EffectOn(w, history[i].event, ElementValue(submodel, path)).bytes;
    forall k | 0 <= k < |history| && WritesElement(history[k], submodel, path, value)
      ensures !UntouchedSince(history, k, submodel, path)
    {
      assert ChangesSubmodel(history[j], submodel);
      WriteStores(history[k], submodel, path, value);
    }
  }

  // The micro-batching writer keeps stale element values past an update without bytes.
  lemma MicroKeepsStaleElement(submodel: string, path: string, value: seq<Byte>)
    requires Encoded(submodel) && value != []
    ensures var history := [Processed(ElementEvent(Updated, submodel, path, Some(value))),
                            Processed(SubmodelEvent(Updated, submodel, None, None))];
            && ElementAt(Run(Micro, history), submodel, path) == Some(value)
            && ElementAt(Run(Single, history), submodel, path) == None
  {
    var first := ElementEvent(Updated, submodel, path, Some(value));
    var second := SubmodelEvent(Updated, submodel, None, None);
    var history := [Processed(first), Processed(second)];
    assert history[..1] == [Processed(first)] && [Processed(first)][..0] == [];
    forall w: Writer
      ensures Ideal(w, [Processed(first)], ElementValue(submodel, path)) == Some(value)
    {
    }
    RunAt(Micro, history, ElementValue(submodel, path));
    RunAt(Single, history, ElementValue(submodel, path));
  }

  // ---------------------------------------------------------------- agreement

  // The events both writers treat alike.
  predicate TreatedAlike(e: Event) {
    match e
    case SubmodelEvent(kind, _, _, _) => kind == Updated ==> Complete(e)
    case ElementEvent(kind, _, _, value) => kind == Created ==> !Present(value)
    case _ => true
  }

  ghost predicate AgreeOn(e: Event) {
    forall store: Store :: Apply(Single, store, e) == Apply(Micro, store, e)
  }

  // The writers agree on an event in every cache if and only if it is treated alike.
  lemma AgreeExactly(e: Event)
    requires EncodedEvent(e)
    ensures AgreeOn(e) <==> TreatedAlike(e)
  {
    if !TreatedAlike(e) {
      if e.ElementEvent? {
        var key := ElementValue(e.id, e.path);
        ApplyAt(Single, map[], e, key);
        ApplyAt(Micro, map[], e, key);
        assert Lookup(Apply(Single, map[], e), key) == None != Lookup(Apply(Micro, map[], e), key);
      } else {
        var key := ElementValue(e.id, "");
        var store: Store := map[Render(key) := []];
        ApplyAt(Single, store, e, key);
        ApplyAt(Micro, store, e, key);
        assert Apply(Single, store, e) != Apply(Micro, store, e);
      }
    }
  }

  // Both writers leave identical caches after every history of events treated alike.
  lemma {:induction false} WritersAgree(history: seq<Happening>)
    requires EncodedHistory(history)
    requires forall i :: 0 <= i < |history| ==> history[i].Processed? ==> TreatedAlike(history[i].event)
    ensures Run(Single, history) == Run(Micro, history)
  {
    if history != [] {
      var front := history[..|history| - 1];
      assert forall i :: 0 <= i < |front| ==> front[i] == history[i];
      WritersAgree(front);
      if history[|history| - 1].Processed? {
        AgreeExactly(history[|history| - 1].event);
      }
    }
  }
}
