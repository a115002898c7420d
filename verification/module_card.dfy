/** The module card of src/components/practice/PracticeModuleCard.jsx: badge
    style, call-to-action label, progress bar width and the reset button.
    `progress` is the card's 0..100 number, taken as an exact real. */
module ModuleCard {
  import opened Common
  import opened Records
  import ProgressStore
  import PracticeData
  import Session

  type Store = Option<StoreDoc>

  datatype Style = Style(bg: string, ring: string, text: string)

  function StatusStyles(): map<string, Style> {
    map[
      "Selesai" := Style("bg-emerald-500/18", "ring-emerald-300/30", "text-emerald-200"),
      "Berjalan" := Style("bg-sky-500/18", "ring-sky-300/30", "text-sky-200"),
      "Tersedia" := Style("bg-white/10", "ring-white/20", "text-white/85")]
  }

  /** `STATUS_STYLE[status] ?? STATUS_STYLE.Tersedia` */
  function StyleFor(status: string): (st: Style)
    ensures st in StatusStyles().Values
    ensures status in StatusStyles() ==> st == StatusStyles()[status]
    ensures status !in StatusStyles() ==> st == StatusStyles()["Tersedia"]
  {
    if status in StatusStyles() then StatusStyles()[status] else StatusStyles()["Tersedia"]
  }

  predicate IsCompleted(progress: real) {
    progress >= 100.0
  }

  /** The label under the play button. */
  function Cta(progress: real): (cta: string)
    ensures cta == "Ulangi" <==> IsCompleted(progress)
    ensures cta == "Mulai" <==> progress <= 0.0
    ensures cta == "Lanjutkan" <==> 0.0 < progress < 100.0
  {
    if progress >= 100.0 then "Ulangi" else if progress > 0.0 then "Lanjutkan" else "Mulai"
  }

  /** The reset button is rendered only for a completed module. */
  predicate ShowsReset(progress: real) {
    IsCompleted(progress)
  }

  /** `Math.max(0, Math.min(100, progress))`: the bar width in percent. */
  function BarWidth(progress: real): (w: real)
    ensures 0.0 <= w <= 100.0
    ensures 0.0 <= progress <= 100.0 ==> w == progress
    ensures progress < 0.0 ==> w == 0.0
    ensures progress > 100.0 ==> w == 100.0
  {
    Clamp(0.0, 100.0, progress)
  }

  /** `Math.round(progress)` in the "Progress n%" text: the nearest integer,
      halves rounded up. */
  function RoundedProgress(progress: real): (n: int)
    ensures n as real - 0.5 <= progress < n as real + 0.5
  {
    (progress + 0.5).Floor
  }

  /** The patch `handleReset` writes: mod-6 also rewinds its word index. */
  function ResetPatch(id: string): (p: Record)
    ensures p.index == Some(0) && p.completed == Some(false)
    ensures p.words.None? && p.letterIdx.None? && p.updatedAt.None?
    ensures p.wordIdx == (if id == Session.WORD_MODULE then Some(0) else None)
  {
    if id == Session.WORD_MODULE then Record(Some(0), Some(false), Some(0), None, None, None)
    else Record(Some(0), Some(false), None, None, None, None)
  }

  /** `handleReset` at clock reading `now`: the document left in storage (the
      page reload that follows is not modelled). */
  function HandleReset(s: Store, id: string, now: int): (s': Store)
    ensures var after := ProgressStore.GetModuleProgress(s', id).rec;
      && after.index == Some(0) && after.completed == Some(false) && after.updatedAt == Some(now)
      && after.words == ProgressStore.GetModuleProgress(s, id).rec.words
  {
    ProgressStore.SetThenGet(s, id, ResetPatch(id), now, id + "'");
    ProgressStore.SetModuleProgress(s, id, ResetPatch(id), now)
  }

  // ---------------------------------------------------------------------
  // Properties

  /** The three statuses have three different badges, so the badge tells the
      status apart; an unknown status looks like "Tersedia". */
  lemma BadgeShowsStatus(a: string, b: string)
    requires a in StatusStyles() && b in StatusStyles()
    ensures StyleFor(a) == StyleFor(b) <==> a == b
    ensures StyleFor("Tersedia") == StyleFor("Belum dimulai")
  {
  }

  /** The reset button, the "Ulangi" label and completion go together. */
  lemma ResetButtonMeansRepeat(progress: real)
    ensures ShowsReset(progress) <==> Cta(progress) == "Ulangi"
    ensures ShowsReset(progress) ==> BarWidth(progress) == 100.0
  {
  }

  /** The card's reset rewinds the module but keeps what it does not name:
      the word list and letter index of mod-6, the `wordIdx` of a letter
      module, and every other module. */
  lemma ResetRewindsOnlyPosition(s: Store, id: string, now: int, other: string)
    requires other != id
    ensures var before := ProgressStore.GetModuleProgress(s, id).rec;
      var after := ProgressStore.GetModuleProgress(HandleReset(s, id, now), id).rec;
      && after.index == Some(0)
      && after.completed == Some(false)
      && after.words == before.words
      && after.letterIdx == before.letterIdx
      && after.wordIdx == (if id == Session.WORD_MODULE then Some(0) else before.wordIdx)
      && after.updatedAt == Some(now)
      && ProgressStore.GetModuleProgress(HandleReset(s, id, now), other).rec
         == ProgressStore.GetModuleProgress(s, other).rec
  {
    ProgressStore.SetThenGet(s, id, ResetPatch(id), now, other);
  }

  /** Unlike `resetModuleProgress`, the card's reset keeps mod-6's words: a
      stored list survives the card's reset and is dropped by the store's. */
  lemma CardResetKeepsWords(words: seq<string>, now: int)
    ensures var s := Some(StoreDoc(Some(map[Session.WORD_MODULE :=
                 Record(Some(2), Some(true), Some(2), Some(0), Some(words), None)]), map[]));
      && ProgressStore.GetModuleProgress(HandleReset(s, Session.WORD_MODULE, now), Session.WORD_MODULE).rec.words
         == Some(words)
      && ProgressStore.GetModuleProgress(ProgressStore.ResetModuleProgress(s, Session.WORD_MODULE),
                                         Session.WORD_MODULE).rec.words.None?
  {
    var s := Some(StoreDoc(Some(map[Session.WORD_MODULE :=
                 Record(Some(2), Some(true), Some(2), Some(0), Some(words), None)]), map[]));
    ResetRewindsOnlyPosition(s, Session.WORD_MODULE, now, "mod-1");
    ProgressStore.ResetThenGet(s, Session.WORD_MODULE, "mod-1");
  }

  /** After the card's reset, reopening a letter module starts at its first target. */
  lemma ResetThenLoadStartsOver(m: PracticeData.LessonModule, s: Store, now: int, later: int)
    requires m.id != Session.WORD_MODULE
    ensures var l := Session.LoadWith(m, HandleReset(s, m.id, now), [], later);
      l.idx == 0 && l.targets == m.range.GetOr([])
  {
    ResetRewindsOnlyPosition(s, m.id, now, m.id + "'");
  }

  /** After the card's reset, reopening the word module starts at word 0 of
      the list it already had. */
  lemma ResetThenLoadKeepsWordList(m: PracticeData.LessonModule, s: Store, g: seq<string>, t0: int, now: int, later: int)
    requires m.id == Session.WORD_MODULE
    requires |Session.LoadWith(m, s, g, t0).targets| > 0
    ensures var before := Session.LoadWith(m, s, g, t0);
      var l := Session.LoadWith(m, HandleReset(before.store, m.id, now), g, later);
      l.idx == 0 && l.targets == before.targets
  {
    var before := Session.LoadWith(m, s, g, t0);
    var e := ProgressStore.EnsureWordsForModule(s, m.id, g, t0);
    ProgressStore.EnsureWordsTwice(s, m.id, g, g, t0, t0);
    var r := HandleReset(before.store, m.id, now);
    ResetRewindsOnlyPosition(before.store, m.id, now, m.id + "'");
    var e2 := ProgressStore.EnsureWordsForModule(r, m.id, g, later);
    ProgressStore.EnsureWordsTwice(r, m.id, g, g, later, later);
    ProgressStore.ReadTwice(e.store);
  }
}
