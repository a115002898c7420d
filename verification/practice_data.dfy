/** The static lesson table of `src/lib/practiceData.js` and its random
    word picker. `Math.random()` is an oracle: a sequence of draws in [0, 1). */
module PracticeData {
  import opened Common

  const LETTERS: seq<string> := ["A", "B", "C", "D", "E", "F", "G", "H", "I", "J", "K", "L", "M",
                                 "N", "O", "P", "Q", "R", "S", "T", "U", "V", "W", "X", "Y", "Z"]

  /** A lesson: letter modules carry their letters in `range`; the word module has none. */
  datatype LessonModule = LessonModule(id: string, title: string, slug: string, range: Option<seq<string>>)

  function Modules(): seq<LessonModule> {
    [ LessonModule("mod-1", "Modul 1: A - E", "a-e", Some(["A", "B", "C", "D", "E"])),
      LessonModule("mod-2", "Modul 2: F - J", "f-j", Some(["F", "G", "H", "I", "J"])),
      LessonModule("mod-3", "Modul 3: K - O", "k-o", Some(["K", "L", "M", "N", "O"])),
      LessonModule("mod-4", "Modul 4: P - T", "p-t", Some(["P", "Q", "R", "S", "T"])),
      LessonModule("mod-5", "Modul 5: U - Z", "u-z", Some(["U", "V", "W", "X", "Y", "Z"])),
      LessonModule("mod-6", "Modul 6: Kata Kerja", "verbs", None) ]
  }

  /** `ms.find(m => m.id === id)`: the first module with that id. */
  function Find(ms: seq<LessonModule>, id: string): (r: Option<LessonModule>)
    ensures r.None? <==> forall i :: 0 <= i < |ms| ==> ms[i].id != id
    ensures r.Some? ==> exists i :: 0 <= i < |ms| && ms[i] == r.value && r.value.id == id &&
                                    forall j :: 0 <= j < i ==> ms[j].id != id
  {
    if |ms| == 0 then None
    else if ms[0].id == id then Some(ms[0])
    else
      var r := Find(ms[1..], id);
      if r.Some? then
        var i :| 0 <= i < |ms[1..]| && ms[1..][i] == r.value && r.value.id == id &&
                 forall j :: 0 <= j < i ==> ms[1..][j].id != id;
        assert ms[i + 1] == r.value;
        r
      else r
  }

  function GetModuleById(id: string): (r: Option<LessonModule>)
    ensures r.Some? ==> r.value.id == id && r.value in Modules()
    ensures r.None? <==> forall m :: m in Modules() ==> m.id != id
  {
    var r := Find(Modules(), id);
    if r.None? then
      assert forall m :: m in Modules() ==> m.id != id by {
        forall m | m in Modules() ensures m.id != id {
          var i :| 0 <= i < |Modules()| && Modules()[i] == m;
        }
      }
      r
    else r
  }

  const VERBS: seq<string> := [
    "membangun", "membaca", "menulis", "membantu", "memikirkan", "menjawab", "mengajar",
    "belajar", "berjalan", "berlari", "mendengar", "melihat", "mengetik", "menggambar",
    "memasak", "membersihkan", "menghitung", "memulai", "mengakhiri", "mencari", "menemukan",
    "mengirim", "menerima", "menyusun", "memilih", "menyapa", "menyanyi", "menari",
    "bermain", "berlatih"]

  predicate ValidDraws(rand: seq<real>) {
    forall k :: 0 <= k < |rand| ==> 0.0 <= rand[k] < 1.0
  }

  /** `Math.floor(r * n)` for a draw `r` in [0, 1). */
  function Index(r: real, n: nat): (i: nat)
    requires 0.0 <= r < 1.0 && n > 0
    ensures i < n
  {
    var x := r * n as real;
    assert 0.0 <= x < n as real by {
      assert r * n as real <= 1.0 * n as real;
      assert r * n as real < 1.0 * n as real;
    }
    x.Floor
  }

  /** How many words the loop takes: `min(count, pool.length)`, never negative. */
  function Wanted(count: int, available: nat): nat {
    Min(Max(count, 0), available)
  }

  /** The loop of `pickRandomVerbs`, unrolled: while words are still wanted and
      the pool is not empty, move the drawn word from the pool to the output. */
  function Draw(pool: seq<string>, need: int, rand: seq<real>): (out: seq<string>)
    requires ValidDraws(rand) && |rand| >= Wanted(need, |pool|)
    ensures |out| == Wanted(need, |pool|)
    decreases |pool|
  {
    if need <= 0 || |pool| == 0 then []
    else
      var i := Index(rand[0], |pool|);
      [pool[i]] + Draw(pool[..i] + pool[i + 1..], need - 1, rand[1..])
  }

  /** Every drawn word comes from the pool, and none is drawn twice from a pool without repeats. */
  lemma {:induction false} DrawFromPool(pool: seq<string>, need: int, rand: seq<real>)
    requires ValidDraws(rand) && |rand| >= Wanted(need, |pool|)
    ensures forall w :: w in Draw(pool, need, rand) ==> w in pool
    ensures Distinct(pool) ==> Distinct(Draw(pool, need, rand))
    decreases |pool|
  {
    if need > 0 && |pool| > 0 {
      var i := Index(rand[0], |pool|);
      var rest := pool[..i] + pool[i + 1..];
      DrawFromPool(rest, need - 1, rand[1..]);
      RemoveAt(pool, i);
      var tail := Draw(rest, need - 1, rand[1..]);
      assert Draw(pool, need, rand) == [pool[i]] + tail;
    }
  }

  /** Removing the word at `i` leaves words of the pool, and in a pool without
      repeats neither a repeat nor the removed word. */
  lemma RemoveAt(pool: seq<string>, i: nat)
    requires i < |pool|
    ensures var rest := pool[..i] + pool[i + 1..];
      && (forall w :: w in rest ==> w in pool)
      && (Distinct(pool) ==> Distinct(rest) && pool[i] !in rest)
  {
    var rest := pool[..i] + pool[i + 1..];
    assert forall a :: 0 <= a < |rest| ==> rest[a] == pool[if a < i then a else a + 1];
    if Distinct(pool) {
      forall a, b | 0 <= a < b < |rest| ensures rest[a] != rest[b] {
        var pa := if a < i then a else a + 1;
        var pb := if b < i then b else b + 1;
        assert rest[a] == pool[pa] && rest[b] == pool[pb];
      }
    }
  }

  /** `pickRandomVerbs(count)` with the oracle's draws. */
  method PickRandomVerbs(count: int, rand: seq<real>) returns (out: seq<string>)
    requires ValidDraws(rand) && |rand| >= Wanted(count, |VERBS|)
    ensures out == Draw(VERBS, count, rand)
    ensures |out| == Min(Max(count, 0), 30)
    ensures forall w :: w in out ==> w in VERBS
    ensures Distinct(out)
  {
    VerbsDistinct();
    out := PickFrom(VERBS, count, rand);
    DrawFromPool(VERBS, count, rand);
  }

  /** The loop of `pickRandomVerbs` over a copy of `source`; `rs` holds the
      draws `Math.random()` has still to give. */
  method PickFrom(source: seq<string>, count: int, rand: seq<real>) returns (out: seq<string>)
    requires ValidDraws(rand) && |rand| >= Wanted(count, |source|)
    ensures out == Draw(source, count, rand)
  {
    var pool, rs := source, rand;
    out := [];
    while |out| < count && |pool| > 0
      invariant |out| + |pool| == |source|
      invariant ValidDraws(rs) && |rs| >= Wanted(count - |out|, |pool|)
      invariant out + Draw(pool, count - |out|, rs) == Draw(source, count, rand)
      decreases |pool|
    {
      var i := Index(rs[0], |pool|);
      PickStep(count - |out|, rs, out, pool, Draw(source, count, rand));
      out := out + [pool[i]];
      pool := pool[..i] + pool[i + 1..];
      rs := rs[1..];
    }
  }

  /** The loop invariant of `PickFrom` survives one turn: moving the drawn
      word from the pool to the output keeps what the loop will end with. */
  lemma PickStep(need: int, rs: seq<real>, out: seq<string>, pool: seq<string>, goal: seq<string>)
    requires ValidDraws(rs) && need > 0 && |pool| > 0 && |rs| >= Wanted(need, |pool|)
    requires out + Draw(pool, need, rs) == goal
    ensures var i := Index(rs[0], |pool|);
      var pool' := pool[..i] + pool[i + 1..];
      && ValidDraws(rs[1..]) && |rs[1..]| >= Wanted(need - 1, |pool'|)
      && (out + [pool[i]]) + Draw(pool', need - 1, rs[1..]) == goal
  {
    var i := Index(rs[0], |pool|);
    var rest := pool[..i] + pool[i + 1..];
    assert ValidDraws(rs[1..]) by {
      assert forall j :: 0 <= j < |rs| - 1 ==> rs[1..][j] == rs[j + 1];
    }
    DrawStep(pool, need, rs);
    var tail := Draw(rest, need - 1, rs[1..]);
    assert (out + [pool[i]]) + tail == out + ([pool[i]] + tail);
  }

  /** One turn of the loop: the drawn word leads, the rest is drawn from what is left. */
  lemma DrawStep(pool: seq<string>, need: int, rand: seq<real>)
    requires ValidDraws(rand) && |rand| >= Wanted(need, |pool|)
    requires need > 0 && |pool| > 0
    ensures var i := Index(rand[0], |pool|);
      Draw(pool, need, rand) == [pool[i]] + Draw(pool[..i] + pool[i + 1..], need - 1, rand[1..])
  {
  }

  lemma VerbsDistinct()
    ensures |VERBS| == 30
    ensures Distinct(VERBS)
  {
  }

  // ---------------------------------------------------------------------
  // Properties of the table

  /** The five letter ranges, in order, spell the alphabet. */
  lemma RangesSpellLetters()
    ensures Modules()[0].range.value + Modules()[1].range.value + Modules()[2].range.value
          + Modules()[3].range.value + Modules()[4].range.value == LETTERS
  {
  }

  /** No letter belongs to two modules. */
  lemma RangesDisjoint(i: nat, j: nat, x: string)
    requires i < j < 5
    requires x in Modules()[i].range.value
    ensures x !in Modules()[j].range.value
  {
  }

  /** Module ids are distinct, so lookup finds exactly the module with that id. */
  lemma IdsDistinct()
    ensures forall i, j :: 0 <= i < j < |Modules()| ==> Modules()[i].id != Modules()[j].id
  {
  }

  /** Every module in the table is found by its own id; mod-6 is the one without a range. */
  lemma LookupTable(i: nat)
    requires i < |Modules()|
    ensures GetModuleById(Modules()[i].id) == Some(Modules()[i])
    ensures (Modules()[i].range.None?) <==> Modules()[i].id == "mod-6"
  {
    IdsDistinct();
  }
}
