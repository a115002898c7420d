/** The lesson runtime of src/components/practice/PracticeSession.jsx: the
    effect that loads a module's targets and resume index, and
    `handlePrediction` as a pure step over explicit state (targets, current
    index, persisted store). */
module Session {
  import opened Common
  import opened Records
  import ProgressStore
  import PracticeData
  import opened Camera

  type Store = Option<StoreDoc>

  const WORD_MODULE: string := "mod-6"

  /** The component state after the load effect, and the store it leaves. */
  datatype Loaded = Loaded(targets: seq<string>, idx: int, store: Store)

  /** The load effect as written. The word module's generator is
      `() => module.range || []`, and mod-6 has no range. */
  function Load(moduleId: string, s: Store, now: int): (l: Loaded)
    ensures PracticeData.GetModuleById(moduleId).None? ==> l == Loaded([], 0, s)
    ensures PracticeData.GetModuleById(moduleId).Some? ==>
      var m := PracticeData.GetModuleById(moduleId).value;
      l == LoadWith(m, s, m.range.GetOr([]), now)
  {
    match PracticeData.GetModuleById(moduleId)
    case None => Loaded([], 0, s)
    case Some(m) => LoadWith(m, s, m.range.GetOr([]), now)
  }

  /** Loading a found module, with `generated` as the word generator's output. */
  function LoadWith(m: PracticeData.LessonModule, s: Store, generated: seq<string>, now: int): (l: Loaded)
    ensures m.id != WORD_MODULE ==>
      l == Loaded(m.range.GetOr([]), ProgressStore.GetModuleProgress(s, m.id).rec.index.GetOr(0),
                  ProgressStore.GetModuleProgress(s, m.id).store)
    ensures m.id == WORD_MODULE ==> l.targets == ProgressStore.EnsureWordsForModule(s, m.id, generated, now).words
    // the word module resumes at the stored `wordIdx` of a kept list, at 0 with a new one
    ensures m.id == WORD_MODULE ==>
      var cur := ProgressStore.GetModuleProgress(s, m.id).rec;
      if cur.words.Some? && |cur.words.value| > 0
      then l.targets == cur.words.value && l.idx == cur.wordIdx.GetOr(0)
      else l.targets == generated && l.idx == 0
  {
    if m.id == WORD_MODULE then
      var e := ProgressStore.EnsureWordsForModule(s, m.id, generated, now);
      ProgressStore.ReadTwice(s);
      var g := ProgressStore.GetModuleProgress(e.store, m.id);
      Loaded(e.words, g.rec.wordIdx.GetOr(0), g.store)
    else
      var g := ProgressStore.GetModuleProgress(s, m.id);
      Loaded(m.range.GetOr([]), g.rec.index.GetOr(0), g.store)
  }

  /** The load effect with `pickRandomVerbs(6)` as the word generator. */
  function LoadWithVerbs(moduleId: string, s: Store, now: int, rand: seq<real>): (l: Loaded)
    requires PracticeData.ValidDraws(rand) && |rand| >= 6
    ensures PracticeData.GetModuleById(moduleId).None? ==> l == Loaded([], 0, s)
    ensures PracticeData.GetModuleById(moduleId).Some? ==>
      var m := PracticeData.GetModuleById(moduleId).value;
      l == LoadWith(m, s, if m.id == WORD_MODULE then PracticeData.Draw(PracticeData.VERBS, 6, rand) else [], now)
  {
    match PracticeData.GetModuleById(moduleId)
    case None => Loaded([], 0, s)
    case Some(m) =>
      var words := if m.id == WORD_MODULE then PracticeData.Draw(PracticeData.VERBS, 6, rand) else [];
      LoadWith(m, s, words, now)
  }

  /** `target === letter` for the letter a frame reports. */
  predicate Says(letter: Label, text: string) {
    match letter
    case Letter(c) => text == [c]
    case Dash => text == "-"
    case Undefined => false
  }

  /** `targets[currentIdx]` when it is a non-empty string (`if (!target) return`). */
  predicate HasTarget(targets: seq<string>, idx: int) {
    0 <= idx < |targets| && |targets[idx]| > 0
  }

  /** The word module compares with the first letter of the upper-cased word,
      the letter modules with the whole upper-cased target. */
  function Matches(moduleId: string, target: string, letter: Label): (m: bool)
    requires |target| > 0
    ensures m ==> letter != Undefined
    ensures moduleId == WORD_MODULE ==> (m <==> Says(letter, [UpperChar(target[0])]))
    // a letter module never matches a target longer than one character
    ensures moduleId != WORD_MODULE && |target| > 1 ==> !m
  {
    var up := Upper(target);
    if moduleId == WORD_MODULE then Says(letter, [up[0]]) else Says(letter, up)
  }

  /** What a confirmed target writes: `wordIdx` for the word module, `index` otherwise. */
  function AdvancePatch(moduleId: string, next: int, total: nat): (p: Record)
    ensures p.completed == Some(next >= total)
    ensures p.words.None? && p.letterIdx.None? && p.updatedAt.None?
    ensures moduleId == WORD_MODULE ==> p.wordIdx == Some(next) && p.index.None?
    ensures moduleId != WORD_MODULE ==> p.index == Some(next) && p.wordIdx.None?
  {
    if moduleId == WORD_MODULE then Record(None, Some(next >= total), Some(next), None, None, None)
    else Record(Some(next), Some(next >= total), None, None, None, None)
  }

  datatype Stepped = Stepped(idx: int, store: Store)

  /** `handlePrediction({ letter, isHolding })` at clock reading `now`. */
  function HandlePrediction(moduleId: string, targets: seq<string>, idx: int, report: Report, s: Store, now: int)
    : (r: Stepped)
    ensures !report.isHolding ==> r == Stepped(idx, s)
    ensures !HasTarget(targets, idx) ==> r == Stepped(idx, s)
    ensures report.isHolding && HasTarget(targets, idx) && !Matches(moduleId, targets[idx], report.letter) ==>
      r == Stepped(idx, s)
    ensures report.isHolding && HasTarget(targets, idx) && Matches(moduleId, targets[idx], report.letter) ==>
      r == Stepped(idx + 1, ProgressStore.SetModuleProgress(s, moduleId, AdvancePatch(moduleId, idx + 1, |targets|), now))
  {
    if !report.isHolding || !HasTarget(targets, idx) then Stepped(idx, s)
    else if Matches(moduleId, targets[idx], report.letter) then
      var next := idx + 1;
      Stepped(next, ProgressStore.SetModuleProgress(s, moduleId, AdvancePatch(moduleId, next, |targets|), now))
    else Stepped(idx, s)
  }

  /** The progress tiles: target `i` is shown as done exactly when it lies before the current index. */
  function DoneMarks(targets: seq<string>, currentIdx: int): (done: seq<bool>)
    ensures |done| == |targets|
    ensures forall i :: 0 <= i < |targets| ==> done[i] == (i < currentIdx)
  {
    seq(|targets|, i => i < currentIdx)
  }

  // ---------------------------------------------------------------------
  // Properties

  /** The index never leaves [0, |targets|] once it starts there. */
  lemma StepKeepsIndexInRange(moduleId: string, targets: seq<string>, idx: int, report: Report, s: Store, now: int)
    requires 0 <= idx <= |targets|
    ensures var r := HandlePrediction(moduleId, targets, idx, report, s, now);
      0 <= r.idx <= |targets| && (r.idx == idx || r.idx == idx + 1)
  {
  }

  /** In a letter module a one-letter target is matched by its upper-case
      letter and by nothing else (the dash only matches a "-" target). */
  lemma LetterModuleMatch(moduleId: string, target: string, letter: Label)
    requires moduleId != WORD_MODULE && |target| == 1
    ensures Matches(moduleId, target, letter) <==>
      letter == Letter(UpperChar(target[0])) || (letter == Dash && target[0] == '-')
  {
    assert Upper(target) == [UpperChar(target[0])];
  }

  /** In the word module one confirmed first letter consumes the whole word. */
  lemma WordConsumedByFirstLetter(targets: seq<string>, idx: int, s: Store, now: int)
    requires HasTarget(targets, idx)
    requires 'a' <= targets[idx][0] <= 'z'
    ensures var c := UpperChar(targets[idx][0]);
      HandlePrediction(WORD_MODULE, targets, idx, Report(Letter(c), true), s, now).idx == idx + 1
  {
    var up := Upper(targets[idx]);
    assert up[0] == UpperChar(targets[idx][0]);
  }

  /** Because a hold keeps reporting on every frame, the next word is consumed
      by the same continuous hold whenever it has the same initial. */
  lemma OneHoldConsumesSharedInitials(targets: seq<string>, idx: int, s: Store, t1: int, t2: int)
    requires HasTarget(targets, idx) && HasTarget(targets, idx + 1)
    requires UpperChar(targets[idx][0]) == UpperChar(targets[idx + 1][0])
    ensures var hold := Report(Letter(UpperChar(targets[idx][0])), true);
      var r1 := HandlePrediction(WORD_MODULE, targets, idx, hold, s, t1);
      var r2 := HandlePrediction(WORD_MODULE, targets, r1.idx, hold, r1.store, t2);
      r1.idx == idx + 1 && r2.idx == idx + 2
  {
  }

  /** A match is persisted: the module's record then holds the new index (as
      `wordIdx` in the word module) and `completed` says whether it ran out. */
  lemma MatchIsPersisted(moduleId: string, targets: seq<string>, idx: int, report: Report, s: Store, now: int)
    requires report.isHolding && HasTarget(targets, idx) && Matches(moduleId, targets[idx], report.letter)
    ensures var r := HandlePrediction(moduleId, targets, idx, report, s, now);
      var rec := ProgressStore.GetModuleProgress(r.store, moduleId).rec;
      && r.idx == idx + 1
      && rec.completed == Some(idx + 1 >= |targets|)
      && (moduleId == WORD_MODULE ==> rec.wordIdx == Some(idx + 1))
      && (moduleId != WORD_MODULE ==> rec.index == Some(idx + 1))
  {
    ProgressStore.SetThenGet(s, moduleId, AdvancePatch(moduleId, idx + 1, |targets|), now, moduleId + "'");
  }

  /** Reloading a letter module after a prediction resumes at the index the
      step left, with the same targets. */
  lemma ResumeAfterStep(m: PracticeData.LessonModule, s: Store, report: Report, now: int, later: int)
    requires m.id != WORD_MODULE
    ensures var l := LoadWith(m, s, [], now);
      var r := HandlePrediction(m.id, l.targets, l.idx, report, l.store, now);
      var l' := LoadWith(m, r.store, [], later);
      l'.targets == l.targets && l'.idx == r.idx
  {
    var l := LoadWith(m, s, [], now);
    var r := HandlePrediction(m.id, l.targets, l.idx, report, l.store, now);
    if report.isHolding && HasTarget(l.targets, l.idx) && Matches(m.id, l.targets[l.idx], report.letter) {
      MatchIsPersisted(m.id, l.targets, l.idx, report, l.store, now);
    } else {
      assert r.store == l.store;
      ProgressStore.ReadTwice(s);
    }
  }

  /** Reloading the word module after a prediction gives the same word list,
      resuming at the word the step left. */
  lemma WordResumeAfterStep(m: PracticeData.LessonModule, s: Store, g: seq<string>, report: Report, now: int, later: int)
    requires m.id == WORD_MODULE
    ensures var l := LoadWith(m, s, g, now);
      var r := HandlePrediction(m.id, l.targets, l.idx, report, l.store, now);
      var l' := LoadWith(m, r.store, g, later);
      l'.targets == l.targets && l'.idx == r.idx
  {
    var l := LoadWith(m, s, g, now);
    var r := HandlePrediction(m.id, l.targets, l.idx, report, l.store, now);
    WordLoadStored(m, s, g, now);
    if report.isHolding && HasTarget(l.targets, l.idx) && Matches(m.id, l.targets[l.idx], report.letter) {
      ProgressStore.SetThenGet(l.store, m.id, AdvancePatch(m.id, l.idx + 1, |l.targets|), now, m.id + "'");
    }
  }

  /** What the word module's load leaves in storage: its record holds the
      loaded position, and a non-empty loaded list. */
  lemma WordLoadStored(m: PracticeData.LessonModule, s: Store, g: seq<string>, now: int)
    requires m.id == WORD_MODULE
    ensures var l := LoadWith(m, s, g, now);
      var rec := ProgressStore.GetModuleProgress(l.store, m.id).rec;
      && rec.wordIdx.GetOr(0) == l.idx
      && (|l.targets| > 0 ==> rec.words == Some(l.targets))
      && (|l.targets| == 0 ==> l.targets == g && l.idx == 0)
  {
    var e := ProgressStore.EnsureWordsForModule(s, m.id, g, now);
    ProgressStore.ReadTwice(s);
    ProgressStore.ReadTwice(e.store);
  }

  /** A confirmed target marks exactly one more tile as done. */
  lemma MatchMarksOneMoreDone(moduleId: string, targets: seq<string>, idx: int, report: Report, s: Store, now: int)
    requires report.isHolding && HasTarget(targets, idx) && Matches(moduleId, targets[idx], report.letter)
    ensures var r := HandlePrediction(moduleId, targets, idx, report, s, now);
      var before := DoneMarks(targets, idx);
      var after := DoneMarks(targets, r.idx);
      !before[idx] && after[idx] && forall j :: 0 <= j < |targets| && j != idx ==> before[j] == after[j]
  {
  }

  /** As written, the word module never gets words: its generator returns the
      missing range as an empty list, so on a fresh store there are no targets
      and no prediction can move the index. */
  lemma WordModuleHasNoTargets(now: int, report: Report, later: int)
    ensures var l := Load(WORD_MODULE, None, now);
      && l.targets == []
      && l.idx == 0
      && HandlePrediction(WORD_MODULE, l.targets, l.idx, report, l.store, later).idx == 0
  {
    PracticeData.LookupTable(5);
    var m := PracticeData.Modules()[5];
    ProgressStore.EnsureWordsStoresGenerated(None, WORD_MODULE, [], now);
    var e := ProgressStore.EnsureWordsForModule(None, WORD_MODULE, [], now);
  }

  /** With `pickRandomVerbs(6)` as the generator a fresh word module gets six
      different verbs and starts at word 0. */
  lemma WordModuleWithVerbs(now: int, rand: seq<real>)
    requires PracticeData.ValidDraws(rand) && |rand| >= 6
    ensures var l := LoadWithVerbs(WORD_MODULE, None, now, rand);
      && |l.targets| == 6
      && Distinct(l.targets)
      && (forall w :: w in l.targets ==> w in PracticeData.VERBS)
      && l.idx == 0
  {
    PracticeData.LookupTable(5);
    PracticeData.VerbsDistinct();
    var words := PracticeData.Draw(PracticeData.VERBS, 6, rand);
    PracticeData.DrawFromPool(PracticeData.VERBS, 6, rand);
    ProgressStore.EnsureWordsStoresGenerated(None, WORD_MODULE, words, now);
    var e := ProgressStore.EnsureWordsForModule(None, WORD_MODULE, words, now);
    ProgressStore.ReadTwice(e.store);
  }
}
