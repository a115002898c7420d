/** The completion dialog of src/components/practice/ModuleCompletionModal.jsx:
    its title, whether it offers "Next", and the routes its two buttons push.
    A route is `None` when the button does nothing. */
module CompletionModal {
  import opened Common
  import PracticeData

  const EXIT_ROUTE: string := "/dashboard/practice"
  const LAST_MODULE: string := "mod-6"

  function Titles(): map<string, string> {
    map[
      "mod-1" := "Modul 1: A - E",
      "mod-2" := "Modul 2: F - J",
      "mod-3" := "Modul 3: K - O",
      "mod-4" := "Modul 4: P - T",
      "mod-5" := "Modul 5: U - Z",
      "mod-6" := "Modul 6: Kata Kerja"]
  }

  /** `MODULE_TITLES[moduleId] || "Modul"` */
  function Title(id: string): (t: string)
    ensures id in Titles() ==> t == Titles()[id]
    ensures id !in Titles() ==> t == "Modul"
  {
    if id in Titles() then Titles()[id] else "Modul"
  }

  /** The text before the first dash of `s` (all of `s` when it has none). */
  function UpToDash(s: string): (r: string)
    ensures '-' !in r
    ensures r <= s
    ensures |r| < |s| ==> s[|r|] == '-'
  {
    if |s| == 0 || s[0] == '-' then "" else [s[0]] + UpToDash(s[1..])
  }

  /** The text after the first dash of `s`; `None` when it has none. */
  function AfterDash(s: string): (r: Option<string>)
    ensures r.None? <==> '-' !in s
  {
    if |s| == 0 then None
    else if s[0] == '-' then Some(s[1..])
    else AfterDash(s[1..])
  }

  /** `moduleId.split('-')[1]`: the text between the first and the second
      dash (or the end); `None` is `undefined`, when there is no dash. */
  function SecondField(id: string): (f: Option<string>)
    ensures f.None? <==> '-' !in id
    ensures f.Some? ==> '-' !in f.value
  {
    match AfterDash(id)
    case None => None
    case Some(rest) => Some(UpToDash(rest))
  }

  /** A JavaScript number as far as the dialog uses it. */
  datatype Num = Int(n: nat) | NaN

  /** `parseInt` of a dash-free field: the value of its leading decimal
      digits, NaN when it has none (`parseInt(undefined)` included). */
  function ParseInt(f: Option<string>): (r: Num)
    ensures f.None? ==> r == NaN
    ensures f.Some? && (|f.value| == 0 || !IsDigit(f.value[0])) ==> r == NaN
  {
    match f
    case None => NaN
    case Some(t) =>
      var k := DigitPrefixLength(t);
      if k == 0 then NaN else Int(DigitsValue(t[..k]))
  }

  /** `n + 1` and its template-literal text. */
  function NextText(n: Num): string {
    match n
    case Int(v) => NatToString(v + 1)
    case NaN => "NaN"
  }

  /** Where "Next" navigates: nowhere for the last module (it is not even
      shown), otherwise `/dashboard/practice/mod-<n+1>`. */
  function NextRoute(id: string): (route: Option<string>)
    ensures route.None? <==> id == LAST_MODULE
    ensures route.Some? ==> StartsWith(route.value, "/dashboard/practice/")
  {
    if id == LAST_MODULE then None
    else Some("/dashboard/practice/" + ("mod-" + NextText(ParseInt(SecondField(id)))))
  }

  /** The dialog's two buttons. */
  datatype Button = ExitButton | NextButton

  /** Where pressing a button navigates (`handleExit`, `handleNext`). */
  function Press(id: string, b: Button): (route: Option<string>)
    ensures b == ExitButton ==> route == Some(EXIT_ROUTE)
    ensures b == NextButton ==> route == NextRoute(id)
  {
    match b
    case ExitButton => Some(EXIT_ROUTE)
    case NextButton => NextRoute(id)
  }

  // ---------------------------------------------------------------------
  // Properties

  /** Every navigation the dialog makes stays in the practice area, and only
      the last module's "Next" goes nowhere. */
  lemma RoutesStayInPractice(id: string, b: Button)
    ensures Press(id, b).None? <==> b == NextButton && id == LAST_MODULE
    ensures Press(id, b).Some? ==> StartsWith(Press(id, b).value, EXIT_ROUTE)
  {
    if Press(id, b).Some? {
      var r := Press(id, b).value;
      if b == NextButton {
        assert r[..|EXIT_ROUTE|] == r[..|"/dashboard/practice/"|][..|EXIT_ROUTE|];
      } else {
        assert r[..|EXIT_ROUTE|] == EXIT_ROUTE;
      }
    }
  }

  lemma {:induction false} AfterDashPrefix(name: string, tail: string)
    requires '-' !in name
    ensures AfterDash(name + "-" + tail) == Some(tail)
  {
    if |name| > 0 {
      assert (name + "-" + tail)[1..] == name[1..] + "-" + tail;
      AfterDashPrefix(name[1..], tail);
    } else {
      assert name + "-" + tail == "-" + tail;
    }
  }

  lemma {:induction false} UpToDashConcat(a: string, b: string)
    requires '-' !in a
    ensures UpToDash(a + b) == a + UpToDash(b)
  {
    if |a| > 0 {
      assert (a + b)[1..] == a[1..] + b;
      UpToDashConcat(a[1..], b);
      assert a == [a[0]] + a[1..];
    } else {
      assert a + b == b;
    }
  }

  lemma SecondFieldOfNumbered(name: string, digits: string, rest: string)
    requires '-' !in name && '-' !in digits
    ensures SecondField(name + "-" + digits + rest) == Some(digits + UpToDash(rest))
  {
    assert name + "-" + digits + rest == name + "-" + (digits + rest);
    AfterDashPrefix(name, digits + rest);
    UpToDashConcat(digits, rest);
  }

  lemma ParseIntOfDigits(digits: string, tail: string)
    requires |digits| > 0 && forall i :: 0 <= i < |digits| ==> IsDigit(digits[i])
    requires |tail| == 0 || !IsDigit(tail[0])
    ensures ParseInt(Some(digits + tail)) == Int(DigitsValue(digits))
  {
    DigitPrefixAll(digits, tail);
    assert (digits + tail)[..|digits|] == digits;
  }

  /** An id of the form `<name>-<k><rest>`, where `rest` does not continue the
      number, leads to module k + 1. */
  lemma NextOfNumbered(name: string, k: nat, rest: string)
    requires '-' !in name
    requires |rest| == 0 || !IsDigit(rest[0])
    requires name + "-" + NatToString(k) + rest != LAST_MODULE
    ensures NextRoute(name + "-" + NatToString(k) + rest) == Some("/dashboard/practice/" + ("mod-" + NatToString(k + 1)))
  {
    var digits := NatToString(k);
    assert '-' !in digits by {
      forall i | 0 <= i < |digits| ensures digits[i] != '-' {
        assert IsDigit(digits[i]);
      }
    }
    SecondFieldOfNumbered(name, digits, rest);
    var tail := UpToDash(rest);
    assert |tail| == 0 || !IsDigit(tail[0]) by {
      if |tail| > 0 { assert tail[0] == rest[0]; }
    }
    ParseIntOfDigits(digits, tail);
    DigitsValueOfNatToString(k);
  }

  /** "Next" walks the lesson table in order: module i + 1 follows module i,
      and the last module has no "Next". */
  lemma NextFollowsTable(i: nat)
    requires i < |PracticeData.Modules()|
    ensures i + 1 < |PracticeData.Modules()| ==>
      && NextRoute(PracticeData.Modules()[i].id) == Some("/dashboard/practice/" + PracticeData.Modules()[i + 1].id)
      && PracticeData.Modules()[i + 1].id in Titles()
    ensures i + 1 == |PracticeData.Modules()| ==> NextRoute(PracticeData.Modules()[i].id).None?
  {
    var ms := PracticeData.Modules();
    if i + 1 < |ms| {
      var k := i + 1;
      assert NatToString(k) == [DigitChar(k)];
      assert NatToString(k + 1) == [DigitChar(k + 1)];
      assert ms[i].id == "mod" + "-" + NatToString(k) + "" by {
        if i == 0 {} else if i == 1 {} else if i == 2 {} else if i == 3 {} else {}
      }
      assert ms[i + 1].id == "mod-" + NatToString(k + 1) by {
        if i == 0 {} else if i == 1 {} else if i == 2 {} else if i == 3 {} else {}
      }
      NextOfNumbered("mod", k, "");
    }
  }

  /** An id with no number after its first dash sends "Next" to `mod-NaN`. */
  lemma NoNumberGivesNaN(id: string)
    requires id != LAST_MODULE
    requires '-' !in id || (var f := SecondField(id).value; |f| == 0 || !IsDigit(f[0]))
    ensures NextRoute(id) == Some("/dashboard/practice/" + ("mod-" + "NaN"))
  {
    assert ParseInt(SecondField(id)) == NaN;
  }

  /** The dialog's titles are the lesson table's titles. */
  lemma TitlesMatchTable(i: nat)
    requires i < |PracticeData.Modules()|
    ensures Title(PracticeData.Modules()[i].id) == PracticeData.Modules()[i].title
  {
    var ms := PracticeData.Modules();
    if i == 0 {} else if i == 1 {} else if i == 2 {} else if i == 3 {} else if i == 4 {} else {}
  }
}
