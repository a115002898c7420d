/** The module-progress store of `src/lib/progress.js`.

    Every operation takes the current persisted document (`Option<StoreDoc>`)
    and returns what it reads together with the document left in storage, so
    the write-back of the old-layout migration is visible. The default table
    is immutable here; the source's sharing of that table between reads is
    modelled separately at the end of this module. */
module ProgressStore {
  import opened Common
  import opened Records

  type Store = Option<StoreDoc>

  /** mod-1 .. mod-5 start at `{ index: 0, completed: false }`; mod-6 also has `wordIdx: 0`. */
  const Mod6Default: Record := Record(Some(0), Some(false), Some(0), None, None, None)

  const DefaultIds: set<string> := {"mod-1", "mod-2", "mod-3", "mod-4", "mod-5", "mod-6"}

  function DefaultModules(): (m: map<string, Record>)
    ensures m.Keys == DefaultIds
    ensures forall id :: id in m ==> m[id].index == Some(0) && m[id].completed == Some(false)
    ensures m["mod-6"].wordIdx == Some(0)
  {
    map["mod-1" := Base, "mod-2" := Base, "mod-3" := Base, "mod-4" := Base,
        "mod-5" := Base, "mod-6" := Mod6Default]
  }

  function DefaultDb(): Db {
    Db(DefaultModules(), map[])
  }

  /** `{ ...DEFAULT_PROGRESS.modules[key] }`, which is `{}` for an id without a default. */
  function DefaultOrEmpty(id: string): Record {
    if id in DefaultModules() then DefaultModules()[id] else Empty
  }

  /** Old layout: each top-level `mod-` member is spread over its default. */
  function Migrate(top: map<string, Entry>): (m: map<string, Record>)
    ensures m.Keys == DefaultIds + (set k | k in top && StartsWith(k, "mod-"))
    ensures forall k :: k in top && StartsWith(k, "mod-") ==> m[k] == Overlay(DefaultOrEmpty(k), Spread(top[k]))
    ensures forall k :: k in m && !(k in top && StartsWith(k, "mod-")) ==> m[k] == DefaultModules()[k]
  {
    DefaultModules() + map k | k in top && StartsWith(k, "mod-") :: Overlay(DefaultOrEmpty(k), Spread(top[k]))
  }

  /** What `read()` returns and what it leaves in storage. */
  datatype ReadResult = ReadResult(db: Db, store: Store)

  function Read(s: Store): (r: ReadResult)
    // the defaults are always present
    ensures DefaultIds <= r.db.modules.Keys
    // only the old layout is written back, and it is written back in the new layout
    ensures s.None? ==> r == ReadResult(DefaultDb(), s)
    ensures s.Some? && s.value.modules.Some? ==> r.store == s
    ensures s.Some? && s.value.modules.None? ==> r.store == Some(DocOf(r.db)) && r.db.extra == map[]
    // the old layout is migrated over the defaults
    ensures s.Some? && s.value.modules.None? ==> r.db.modules == Migrate(s.value.top)
    // a stored module record replaces its default whole
    ensures s.Some? && s.value.modules.Some? ==>
      forall id :: id in s.value.modules.value ==> id in r.db.modules && r.db.modules[id] == s.value.modules.value[id]
    ensures s.Some? && s.value.modules.Some? ==>
      forall id :: id in r.db.modules && id !in s.value.modules.value ==>
        id in DefaultIds && r.db.modules[id] == DefaultModules()[id]
  {
    match s
    case None => ReadResult(DefaultDb(), s)
    case Some(doc) =>
      if doc.modules.Some? then
        ReadResult(Db(DefaultModules() + doc.modules.value, Extras(doc)), s)
      else
        var converted := Db(Migrate(doc.top), map[]);
        ReadResult(converted, Some(DocOf(converted)))
  }

  /** `db.modules[id] || DEFAULT_PROGRESS.modules[id] || { index: 0, completed: false }` */
  function Lookup(modules: map<string, Record>, id: string): Record {
    if id in modules then modules[id]
    else if id in DefaultModules() then DefaultModules()[id]
    else Base
  }

  datatype Got = Got(rec: Record, store: Store)

  function GetModuleProgress(s: Store, id: string): (g: Got)
    ensures g.store == Read(s).store
    ensures id !in DefaultIds && (s.None? || id !in Read(s).db.modules) ==> g.rec == Base
    ensures s.Some? && s.value.modules.Some? && id in s.value.modules.value ==> g.rec == s.value.modules.value[id]
  {
    var r := Read(s);
    Got(Lookup(r.db.modules, id), r.store)
  }

  /** The `updatedAt` stamp added by every patch. */
  function Stamp(now: int): Record {
    Record(None, None, None, None, None, Some(now))
  }

  /** `setModuleProgress(id, patch)` at clock reading `now`: the document left in storage. */
  function SetModuleProgress(s: Store, id: string, patch: Record, now: int): (s': Store)
    ensures s'.Some? && s'.value.modules.Some?
    // the module's stored record is what it read as, with the patch and the stamp spread over it
    ensures id in s'.value.modules.value
    ensures s'.value.modules.value[id] == Overlay(Overlay(GetModuleProgress(s, id).rec, patch), Stamp(now))
    // the defaults are written out along with it
    ensures DefaultIds <= s'.value.modules.value.Keys
  {
    ReadTwice(s);
    var db := Read(s).db;
    var current := GetModuleProgress(Read(s).store, id).rec;
    var db' := Db(db.modules[id := Overlay(Overlay(current, patch), Stamp(now))], db.extra);
    Some(DocOf(db'))
  }

  /** `resetModuleProgress(id)`: the document left in storage. */
  function ResetModuleProgress(s: Store, id: string): (s': Store)
    ensures s'.Some? && s'.value.modules.Some?
    ensures id in s'.value.modules.value && s'.value.modules.value[id] == DefaultOrEmpty(id)
    ensures forall k :: k in Read(s).db.modules && k != id ==>
      k in s'.value.modules.value && s'.value.modules.value[k] == Read(s).db.modules[k]
  {
    var db := Read(s).db;
    Some(DocOf(Db(db.modules[id := DefaultOrEmpty(id)], db.extra)))
  }

  datatype Ensured = Ensured(words: seq<string>, store: Store)

  /** `{ words, wordIdx: 0, letterIdx: 0, completed: false }`: the patch has
      no `index`, so a stored index survives. */
  function WordsPatch(words: seq<string>): Record {
    Record(None, Some(false), Some(0), Some(0), Some(words), None)
  }

  /** `ensureWordsForModule(id, generator)`, where `generated` is what the
      generator would return if it were called. A generated list is stored
      with both word positions at 0 and `completed` false; the module's
      `index` is kept and `updatedAt` is stamped. */
  function EnsureWordsForModule(s: Store, id: string, generated: seq<string>, now: int): (e: Ensured)
    ensures var cur := GetModuleProgress(s, id);
      if cur.rec.words.Some? && |cur.rec.words.value| > 0
      then e == Ensured(cur.rec.words.value, cur.store)
      else
        var rec := GetModuleProgress(e.store, id).rec;
        && e.words == generated
        && rec.words == Some(generated)
        && rec.wordIdx == Some(0) && rec.letterIdx == Some(0) && rec.completed == Some(false)
        && rec.index == cur.rec.index
        && rec.updatedAt == Some(now)
  {
    var cur := GetModuleProgress(s, id);
    if cur.rec.words.Some? && |cur.rec.words.value| > 0 then
      Ensured(cur.rec.words.value, cur.store)
    else
      ReadTwice(s);
      SetThenGet(cur.store, id, WordsPatch(generated), now, id + "'");
      Ensured(generated, SetModuleProgress(cur.store, id, WordsPatch(generated), now))
  }

  // ---------------------------------------------------------------------
  // Properties

  /** Nothing stored (or garbage): six default records, all at index 0 and not completed. */
  lemma ReadMissing()
    ensures Read(None).db.modules.Keys == DefaultIds
    ensures forall id :: id in DefaultIds ==>
      Read(None).db.modules[id].index == Some(0) && Read(None).db.modules[id].completed == Some(false)
    ensures Read(None).db.modules["mod-6"].wordIdx == Some(0)
    ensures Read(None).store == None
  {
  }

  /** Old layout: exactly the `mod-` members are migrated, field-merged over their
      defaults; every other top-level member is dropped. */
  lemma ReadOldLayout(doc: StoreDoc)
    requires doc.modules.None?
    ensures var r := Read(Some(doc));
      && r.db.extra == map[]
      && r.db.modules.Keys == DefaultIds + (set k | k in doc.top && StartsWith(k, "mod-"))
      && (forall k :: k in doc.top && StartsWith(k, "mod-") ==>
            r.db.modules[k] == Overlay(DefaultOrEmpty(k), Spread(doc.top[k])))
  {
  }

  /** Rereading what `Read` left in storage takes the new-layout branch and
      finds the same modules; nothing more is written. */
  lemma ReadTwice(s: Store)
    ensures var r := Read(s);
      r.store.Some? ==> Read(r.store).db.modules == r.db.modules && Read(r.store).store == r.store
  {
    var r := Read(s);
    if r.store.Some? {
      var m := r.db.modules;
      assert DefaultIds <= m.Keys;
      var doc := r.store.value;
      if s.Some? && s.value.modules.None? {
        assert doc == DocOf(r.db);
        ReadNested(m, doc);
      } else {
        assert r.store == s;
        assert doc.modules.Some?;
        assert m == DefaultModules() + doc.modules.value;
      }
    }
  }

  /** A nested document that already holds every default id reads back unchanged. */
  lemma ReadNested(m: map<string, Record>, doc: StoreDoc)
    requires doc.modules == Some(m)
    requires DefaultIds <= m.Keys
    ensures Read(Some(doc)).db.modules == m
  {
    var got := Read(Some(doc)).db.modules;
    assert got == DefaultModules() + m;
    assert got.Keys == m.Keys;
  }

  /** After `setModuleProgress(id, patch)` the module holds old ⊕ patch ⊕ updatedAt,
      and every other module reads as before. */
  lemma SetThenGet(s: Store, id: string, patch: Record, now: int, other: string)
    requires other != id
    ensures var s' := SetModuleProgress(s, id, patch, now);
      && GetModuleProgress(s', id).rec == Overlay(Overlay(GetModuleProgress(s, id).rec, patch), Stamp(now))
      && GetModuleProgress(s', other).rec == GetModuleProgress(s, other).rec
      && GetModuleProgress(s', id).store == s'
  {
    var r := Read(s);
    ReadTwice(s);
    var rec := Overlay(Overlay(GetModuleProgress(s, id).rec, patch), Stamp(now));
    var m' := r.db.modules[id := rec];
    var s' := SetModuleProgress(s, id, patch, now);
    assert s' == Some(DocOf(Db(m', r.db.extra)));
    ReadNested(m', s'.value);
  }

  /** Fields a patch does not mention keep their values. */
  lemma SetKeepsUnpatchedFields(s: Store, id: string, patch: Record, now: int)
    requires patch.words.None? && patch.letterIdx.None?
    ensures var s' := SetModuleProgress(s, id, patch, now);
      && GetModuleProgress(s', id).rec.words == GetModuleProgress(s, id).rec.words
      && GetModuleProgress(s', id).rec.letterIdx == GetModuleProgress(s, id).rec.letterIdx
      && GetModuleProgress(s', id).rec.updatedAt == Some(now)
  {
    SetThenGet(s, id, patch, now, id + "'");
  }

  /** `resetModuleProgress(id)` restores that module's default and touches nothing else. */
  lemma ResetThenGet(s: Store, id: string, other: string)
    requires other != id
    ensures var s' := ResetModuleProgress(s, id);
      && GetModuleProgress(s', id).rec == DefaultOrEmpty(id)
      && GetModuleProgress(s', other).rec == GetModuleProgress(s, other).rec
  {
    var r := Read(s);
    var m' := r.db.modules[id := DefaultOrEmpty(id)];
    var s' := ResetModuleProgress(s, id);
    assert s' == Some(DocOf(Db(m', r.db.extra)));
    ReadNested(m', s'.value);
  }

  /** A known module resets to index 0, not completed. */
  lemma ResetKnownModule(s: Store, id: string)
    requires id in DefaultIds
    ensures GetModuleProgress(ResetModuleProgress(s, id), id).rec.index == Some(0)
    ensures GetModuleProgress(ResetModuleProgress(s, id), id).rec.completed == Some(false)
  {
    ResetThenGet(s, id, id + "'");
  }

  /** A stored non-empty word list is returned as is: no generator call, no write
      beyond the migration write-back. */
  lemma EnsureWordsKeepsStored(s: Store, id: string, generated: seq<string>, now: int)
    requires s.Some? && s.value.modules.Some? && id in s.value.modules.value
    requires s.value.modules.value[id].words.Some? && |s.value.modules.value[id].words.value| > 0
    ensures EnsureWordsForModule(s, id, generated, now) == Ensured(s.value.modules.value[id].words.value, s)
  {
  }

  /** Generating stores the list with both word positions at 0 and completed
      false, keeps the module's index, and leaves every other module as it was. */
  lemma EnsureWordsStoresGenerated(s: Store, id: string, generated: seq<string>, now: int)
    requires var cur := GetModuleProgress(s, id).rec; !(cur.words.Some? && |cur.words.value| > 0)
    ensures var e := EnsureWordsForModule(s, id, generated, now);
      var rec := GetModuleProgress(e.store, id).rec;
      && e.words == generated
      && rec.words == Some(generated)
      && rec.wordIdx == Some(0) && rec.letterIdx == Some(0) && rec.completed == Some(false)
      && rec.index == GetModuleProgress(s, id).rec.index
      && rec.updatedAt == Some(now)
      && forall o :: o != id ==> GetModuleProgress(e.store, o).rec == GetModuleProgress(s, o).rec
  {
    var cur := GetModuleProgress(s, id);
    var e := EnsureWordsForModule(s, id, generated, now);
    ReadTwice(s);
    forall o | o != id
      ensures GetModuleProgress(e.store, o).rec == GetModuleProgress(s, o).rec
    {
      SetThenGet(cur.store, id, WordsPatch(generated), now, o);
    }
  }

  /** Two calls in a row return the same list when the generator produced a
      non-empty one; an empty list is generated afresh on the next call. */
  lemma EnsureWordsTwice(s: Store, id: string, g1: seq<string>, g2: seq<string>, t1: int, t2: int)
    ensures var e1 := EnsureWordsForModule(s, id, g1, t1);
      var e2 := EnsureWordsForModule(e1.store, id, g2, t2);
      && (|e1.words| > 0 ==> e2 == e1)
      && (|e1.words| == 0 ==> e2.words == g2)
  {
    var e1 := EnsureWordsForModule(s, id, g1, t1);
    var cur := GetModuleProgress(s, id);
    ReadTwice(s);
    if cur.rec.words.Some? && |cur.rec.words.value| > 0 {
      assert e1 == Ensured(cur.rec.words.value, cur.store);
      assert GetModuleProgress(e1.store, id) == Got(cur.rec, cur.store);
    } else {
      EnsureWordsStoresGenerated(s, id, g1, t1);
      var rec := GetModuleProgress(e1.store, id).rec;
      assert rec.words == Some(g1);
      assert e1.store.Some? && e1.store.value.modules.Some?;
      assert Read(e1.store).store == e1.store;
    }
  }

  // ---------------------------------------------------------------------
  // The source as written: `read()` hands out the shared DEFAULT_PROGRESS
  // object itself when nothing usable is stored, and `setModuleProgress`
  // then assigns into its `modules` table. Within one page session the
  // defaults therefore drift, and `resetModuleProgress` copies the drifted
  // record. `Heap` pairs the store with the in-memory default table.

  datatype Heap = Heap(store: Store, defaults: map<string, Record>)

  function FreshHeap(s: Store): Heap {
    Heap(s, DefaultModules())
  }

  /** `read()` against a possibly drifted default table: with nothing stored
      it hands out the table itself. */
  function AliasedRead(h: Heap): (r: ReadResult)
    ensures h.store.None? ==> r.db.modules == h.defaults && r.store == h.store
    ensures h.store.Some? && h.store.value.modules.Some? ==>
      r.store == h.store && h.defaults.Keys <= r.db.modules.Keys
    ensures h.store.Some? && h.store.value.modules.None? ==> r.store == Some(DocOf(r.db))
    ensures h.store.Some? && h.store.value.modules.None? ==>
      forall k :: k in h.defaults && !(k in h.store.value.top && StartsWith(k, "mod-")) ==>
        k in r.db.modules && r.db.modules[k] == h.defaults[k]
  {
    match h.store
    case None => ReadResult(Db(h.defaults, map[]), h.store)
    case Some(doc) =>
      if doc.modules.Some? then
        ReadResult(Db(h.defaults + doc.modules.value, Extras(doc)), h.store)
      else
        var converted := Db(h.defaults + map k | k in doc.top && StartsWith(k, "mod-") ::
          Overlay(if k in h.defaults then h.defaults[k] else Empty, Spread(doc.top[k])), map[]);
        ReadResult(converted, Some(DocOf(converted)))
  }

  function AliasedLookup(h: Heap, modules: map<string, Record>, id: string): Record {
    if id in modules then modules[id] else if id in h.defaults then h.defaults[id] else Base
  }

  /** `setModuleProgress` as written: when the read fell back to the defaults,
      the assignment lands in the shared default table too. */
  function AliasedSetModuleProgress(h: Heap, id: string, patch: Record, now: int): (h': Heap)
    ensures h'.store.Some?
    ensures h.store.Some? ==> h'.defaults == h.defaults
    ensures h.store.None? ==> h'.defaults.Keys == h.defaults.Keys + {id}
    ensures h'.store.value.modules.Some? && id in h'.store.value.modules.value
    ensures h'.store.value.modules.value[id] == Overlay(Overlay(AliasedGet(h, id), patch), Stamp(now))
    ensures h.store.None? ==> h'.defaults == h.defaults[id := h'.store.value.modules.value[id]]
  {
    var r := AliasedRead(h);
    var h1 := Heap(r.store, h.defaults);
    var current := AliasedLookup(h1, AliasedRead(h1).db.modules, id);
    var rec := Overlay(Overlay(current, patch), Stamp(now));
    var defaults' := if h.store.None? then h.defaults[id := rec] else h.defaults;
    Heap(Some(DocOf(Db(r.db.modules[id := rec], r.db.extra))), defaults')
  }

  /** `resetModuleProgress` as written: copies the (possibly drifted) default record. */
  function AliasedResetModuleProgress(h: Heap, id: string): (h': Heap)
    ensures h'.store.Some?
    ensures h.store.Some? ==> h'.defaults == h.defaults
    ensures forall k :: k in h.defaults ==> k in h'.defaults && h'.defaults[k] == h.defaults[k]
    ensures h'.store.value.modules.Some? && id in h'.store.value.modules.value
    ensures h'.store.value.modules.value[id] == (if id in h.defaults then h.defaults[id] else Empty)
  {
    var r := AliasedRead(h);
    var rec := if id in h.defaults then h.defaults[id] else Empty;
    var defaults' := if h.store.None? then h.defaults[id := rec] else h.defaults;
    Heap(Some(DocOf(Db(r.db.modules[id := rec], r.db.extra))), defaults')
  }

  function AliasedGet(h: Heap, id: string): Record {
    AliasedLookup(h, AliasedRead(h).db.modules, id)
  }

  /** On a fresh page with nothing stored, record progress on mod-1 and then
      reset it: the reset brings back index 3, not 0. */
  lemma AliasedResetKeepsProgress()
    ensures var patch := Record(Some(3), Some(false), None, None, None, None);
      var h := AliasedResetModuleProgress(AliasedSetModuleProgress(FreshHeap(None), "mod-1", patch, 1000), "mod-1");
      AliasedGet(h, "mod-1").index == Some(3)
  {
    var patch := Record(Some(3), Some(false), None, None, None, None);
    var h1 := AliasedSetModuleProgress(FreshHeap(None), "mod-1", patch, 1000);
    assert h1.defaults["mod-1"].index == Some(3);
    var h2 := AliasedResetModuleProgress(h1, "mod-1");
    assert h2.store.value.modules.value["mod-1"].index == Some(3);
  }

  /** With the immutable table the same sequence resets to index 0. */
  lemma ResetAfterSetRestoresDefault(s: Store, id: string, patch: Record, now: int)
    requires id in DefaultIds
    ensures GetModuleProgress(ResetModuleProgress(SetModuleProgress(s, id, patch, now), id), id).rec
      == DefaultModules()[id]
  {
    ResetThenGet(SetModuleProgress(s, id, patch, now), id, id + "'");
  }

  /** The as-written operations agree with the immutable model as long as the
      table has not drifted and storage already holds a document. */
  lemma AliasedAgreesWhenStored(s: Store, id: string, patch: Record, now: int)
    requires s.Some?
    ensures AliasedSetModuleProgress(FreshHeap(s), id, patch, now) == FreshHeap(SetModuleProgress(s, id, patch, now))
  {
    AliasedReadFresh(s);
    var r := Read(s);
    AliasedReadFresh(r.store);
  }

  lemma AliasedReadFresh(s: Store)
    ensures AliasedRead(FreshHeap(s)) == Read(s)
  {
    if s.Some? && s.value.modules.None? {
      var top := s.value.top;
      var a := DefaultModules() + map k | k in top && StartsWith(k, "mod-") ::
          Overlay(if k in DefaultModules() then DefaultModules()[k] else Empty, Spread(top[k]));
      assert a == Migrate(top);
    }
  }
}
