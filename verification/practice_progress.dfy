/** The second progress reader, `src/lib/practiceProgress.js`: same storage
    key as `ProgressStore`, a flatter merge (no migration, every top-level
    member kept) and the percentage shown on the module cards. */
module PracticeProgress {
  import opened Common
  import opened Records
  import ProgressStore

  type Store = Option<StoreDoc>

  /** `MODULE_ITEMS`: the item list per module id, used only for its length. */
  function ModuleItems(): (m: map<string, seq<string>>)
    ensures m.Keys == ProgressStore.DefaultIds
  {
    map[
      "mod-1" := ["A", "B", "C", "D", "E"],
      "mod-2" := ["F", "G", "H", "I", "J"],
      "mod-3" := ["K", "L", "M", "N", "O"],
      "mod-4" := ["P", "Q", "R", "S", "T"],
      "mod-5" := ["U", "V", "W", "X", "Y", "Z"],
      "mod-6" := ["membangun", "memikirkan", "membaca", "menulis", "berlari"]]
  }

  /** One `{ index: 0, completed: false }` per `MODULE_ITEMS` key. */
  function DefaultModules(): (m: map<string, Record>)
    ensures m.Keys == ModuleItems().Keys
    ensures forall id :: id in m ==> m[id] == Base
  {
    map id | id in ModuleItems() :: Base
  }

  function DefaultDb(): Db {
    Db(DefaultModules(), map[])
  }

  /** `readProgress()`: defaults for a missing or unparseable value, otherwise
      `{ ...DEFAULT, ...obj, modules: { ...DEFAULT.modules, ...(obj.modules || {}) } }`. */
  function ReadProgress(s: Store): (db: Db)
    ensures s.None? ==> db == DefaultDb()
    ensures ModuleItems().Keys <= db.modules.Keys
    ensures s.Some? ==> db.extra == Extras(s.value)
    ensures s.Some? && s.value.modules.Some? ==>
      forall id :: id in s.value.modules.value ==> id in db.modules && db.modules[id] == s.value.modules.value[id]
    ensures s.Some? ==> forall id :: id in db.modules && (s.value.modules.None? || id !in s.value.modules.value) ==>
      id in ModuleItems() && db.modules[id] == Base
  {
    match s
    case None => DefaultDb()
    case Some(doc) =>
      Db(DefaultModules() + doc.modules.GetOr(map[]), Extras(doc))
  }

  /** `writeProgress(next)`. */
  function WriteProgress(next: Db): (s: Store)
    ensures s.Some? && s.value.modules == Some(next.modules)
    ensures forall k :: k in s.value.top <==> k in next.extra && k != "modules"
  {
    Some(DocOf(next))
  }

  /** `resetProgress()` removes the key. */
  function ResetProgress(): (s: Store)
    ensures s.None?
  {
    None
  }

  /** `MODULE_ITEMS[id]?.length || 1` */
  function Total(id: string): (t: nat)
    ensures t >= 1
    ensures id in ModuleItems() ==> t == |ModuleItems()[id]|
    ensures id !in ModuleItems() ==> t == 1
  {
    if id in ModuleItems() && |ModuleItems()[id]| != 0 then |ModuleItems()[id]| else 1
  }

  /** `progressObj.modules[id]?.index ?? 0` */
  function StoredIndex(db: Db, id: string): int {
    if id in db.modules then db.modules[id].index.GetOr(0) else 0
  }

  /** `Math.round(x)` of the exact quotient `100 * idx / total`: the largest
      integer not above it plus one half. */
  function RoundPercent(idx: int, total: nat): (p: int)
    requires total >= 1
    ensures 2 * total * p <= 200 * idx + total < 2 * total * (p + 1)
  {
    (200 * idx + total) / (2 * total)
  }

  /** `getPercentFor(id, progressObj)`. */
  function GetPercentFor(id: string, db: Db): (pct: int)
    ensures 0 <= pct <= 100
    ensures StoredIndex(db, id) <= 0 ==> pct == 0
    ensures StoredIndex(db, id) >= Total(id) ==> pct == 100
    // in between it is the rounded share of items done
    ensures 0 <= StoredIndex(db, id) <= Total(id) ==> pct == RoundPercent(StoredIndex(db, id), Total(id))
  {
    var total := Total(id);
    var idx := StoredIndex(db, id);
    var p := RoundPercent(idx, total);
    if p > 100 then 100 else if p < 0 then 0 else p
  }

  // ---------------------------------------------------------------------
  // Properties

  /** Missing or unparseable storage yields exactly the six `{ index: 0, completed: false }` records. */
  lemma ReadMissing()
    ensures ReadProgress(None).modules.Keys == ProgressStore.DefaultIds
    ensures forall id :: id in ProgressStore.DefaultIds ==> ReadProgress(None).modules[id] == Base
  {
  }

  /** After `resetProgress()` the reader returns the defaults again. */
  lemma ResetThenRead()
    ensures ReadProgress(ResetProgress()).modules == DefaultModules()
    ensures ReadProgress(ResetProgress()).extra == map[]
  {
  }

  /** Writing then reading gives back what was written, once the defaults are in it. */
  lemma WriteThenRead(db: Db)
    requires ModuleItems().Keys <= db.modules.Keys
    requires "modules" !in db.extra
    ensures ReadProgress(WriteProgress(db)) == db
  {
    var got := ReadProgress(WriteProgress(db));
    assert got.modules == DefaultModules() + db.modules;
    assert got.modules.Keys == db.modules.Keys;
    assert got.extra == db.extra;
  }

  /** The percentage never decreases as the stored index grows. */
  lemma PercentMonotone(id: string, db: Db, i: int, j: int)
    requires id in db.modules && i <= j
    ensures var lo := Db(db.modules[id := db.modules[id].(index := Some(i))], db.extra);
      var hi := Db(db.modules[id := db.modules[id].(index := Some(j))], db.extra);
      GetPercentFor(id, lo) <= GetPercentFor(id, hi)
  {
  }

  /** A module that is not in `MODULE_ITEMS` counts as one item: any positive index is 100%. */
  lemma UnknownModuleIsAllOrNothing(id: string, db: Db)
    requires id !in ModuleItems()
    ensures StoredIndex(db, id) >= 1 ==> GetPercentFor(id, db) == 100
    ensures StoredIndex(db, id) <= 0 ==> GetPercentFor(id, db) == 0
  {
  }

  /** The two readers see the same module records in a new-layout document,
      except that progress.js gives a missing mod-6 its `wordIdx: 0`. */
  lemma ReadersAgreeOnNestedDocs(doc: StoreDoc, id: string)
    requires doc.modules.Some?
    requires id in doc.modules.value || (id in ModuleItems() && id != "mod-6")
    ensures id in ReadProgress(Some(doc)).modules && id in ProgressStore.Read(Some(doc)).db.modules
    ensures ReadProgress(Some(doc)).modules[id] == ProgressStore.Read(Some(doc)).db.modules[id]
  {
  }

  /** In an old-layout document the readers disagree: progress.js migrates the
      flat record, practiceProgress.js ignores it and reports the default. */
  lemma ReadersDisagreeOnFlatDocs()
    ensures var doc := StoreDoc(None, map["mod-1" := RecordEntry(Record(Some(4), Some(false), None, None, None, None))]);
      && ReadProgress(Some(doc)).modules["mod-1"].index == Some(0)
      && ProgressStore.Read(Some(doc)).db.modules["mod-1"].index == Some(4)
  {
    var doc := StoreDoc(None, map["mod-1" := RecordEntry(Record(Some(4), Some(false), None, None, None, None))]);
    assert StartsWith("mod-1", "mod-");
  }
}
