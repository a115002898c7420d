/** The persisted progress document shared by both progress readers.

    The browser keeps one string under the key "silang.practice.v1". Parsed,
    it is an object whose `modules` member maps module ids to sparse progress
    records; an older layout put those records directly at the top level.
    JSON text and `JSON.parse` are abstracted away: the store holds the parsed
    document. `None` stands for a key that is absent or empty, whose text does
    not parse, or that parses to `null`; both readers then fall back to their
    defaults. Any other parsed value has no `modules` member: a number or a
    boolean is `StoreDoc(None, map[])`, and a string or an array is a
    `StoreDoc(None, top)` whose `top` holds its index keys. */
module Records {
  import opened Common

  /** A sparse per-module progress record: every field may be missing. */
  datatype Record = Record(
    index: Option<int>,
    completed: Option<bool>,
    wordIdx: Option<int>,
    letterIdx: Option<int>,
    words: Option<seq<string>>,
    updatedAt: Option<int>)

  /** `{}` */
  const Empty: Record := Record(None, None, None, None, None, None)

  /** `{ index: 0, completed: false }` */
  const Base: Record := Record(Some(0), Some(false), None, None, None, None)

  function Pick<T>(under: Option<T>, over: Option<T>): Option<T> {
    if over.Some? then over else under
  }

  /** `{ ...a, ...b }`: a field present in `b` wins, otherwise `a`'s is kept. */
  function Overlay(a: Record, b: Record): (r: Record)
    ensures b.index.Some? ==> r.index == b.index
    ensures b.index.None? ==> r.index == a.index
    ensures b.completed.Some? ==> r.completed == b.completed
    ensures b.completed.None? ==> r.completed == a.completed
    ensures b.wordIdx.Some? ==> r.wordIdx == b.wordIdx
    ensures b.wordIdx.None? ==> r.wordIdx == a.wordIdx
    ensures b.letterIdx.Some? ==> r.letterIdx == b.letterIdx
    ensures b.letterIdx.None? ==> r.letterIdx == a.letterIdx
    ensures b.words.Some? ==> r.words == b.words
    ensures b.words.None? ==> r.words == a.words
    ensures b.updatedAt.Some? ==> r.updatedAt == b.updatedAt
    ensures b.updatedAt.None? ==> r.updatedAt == a.updatedAt
  {
    Record(
      Pick(a.index, b.index),
      Pick(a.completed, b.completed),
      Pick(a.wordIdx, b.wordIdx),
      Pick(a.letterIdx, b.letterIdx),
      Pick(a.words, b.words),
      Pick(a.updatedAt, b.updatedAt))
  }

  /** A top-level member of the document other than `modules`: either an
      object read as a progress record, or a number, boolean or `null`
      (spreading those adds no fields). */
  datatype Entry = RecordEntry(rec: Record) | ScalarEntry

  function Spread(e: Entry): Record {
    match e
    case RecordEntry(r) => r
    case ScalarEntry => Empty
  }

  /** The parsed document: a truthy `modules` object (new layout) or none,
      plus every other top-level member. */
  datatype StoreDoc = StoreDoc(modules: Option<map<string, Record>>, top: map<string, Entry>)

  /** The in-memory result of reading the store. */
  datatype Db = Db(modules: map<string, Record>, extra: map<string, Entry>)

  /** `JSON.stringify(db)` as stored, then parsed back. */
  function DocOf(db: Db): (d: StoreDoc)
    ensures d.modules == Some(db.modules)
    ensures d.top.Keys == db.extra.Keys - {"modules"}
  {
    StoreDoc(Some(db.modules), db.extra - {"modules"})
  }

  /** The top-level members kept by `{ ...obj, modules: ... }`. */
  function Extras(doc: StoreDoc): (m: map<string, Entry>)
    ensures "modules" !in m
    ensures forall k :: k in m <==> k in doc.top && k != "modules"
  {
    doc.top - {"modules"}
  }
}
