/**
  The script editor's derived values and input handling: the current
  scene and its number, the total duration, the `parseInt(value) || 5`
  duration field, and the per-field edits of the current scene.
*/
module ScriptEditor {
  import opened PageTypes
  import opened SceneList

  /** `scenes.find(s => s.id === selectedScene)` */
  function CurrentScene(s: seq<Scene>, selected: string): (r: Option<Scene>)
    ensures r.None? <==> selected !in Ids(s)
    ensures r.Some? ==> r.value in s && r.value.id == selected
  {
    if s == [] then None
    else if s[0].id == selected then Some(s[0])
    else
      var r := CurrentScene(s[1..], selected);
      assert Ids(s) == {s[0].id} + Ids(s[1..]) by {
        assert s == [s[0]] + s[1..];
      }
      r
  }

  /** `scenes.findIndex(s => s.id === selectedScene)`: the first match, or -1. */
  function FindIndex(s: seq<Scene>, selected: string): (r: int)
    ensures -1 <= r < |s|
    ensures r == -1 <==> selected !in Ids(s)
    ensures r >= 0 ==> s[r].id == selected && forall j :: 0 <= j < r ==> s[j].id != selected
  {
    if s == [] then -1
    else if s[0].id == selected then 0
    else
      var k := FindIndex(s[1..], selected);
      assert Ids(s) == {s[0].id} + Ids(s[1..]) by {
        assert s == [s[0]] + s[1..];
      }
      if k < 0 then -1 else k + 1
  }

  /**
    The current scene is the one at the first matching index; the label
    "Scene n" shows that index plus one.
  */
  lemma {:induction false} CurrentSceneAtIndex(s: seq<Scene>, selected: string)
    ensures CurrentScene(s, selected) ==
      if FindIndex(s, selected) < 0 then None else Some(s[FindIndex(s, selected)])
    ensures CurrentScene(s, selected).Some? ==> 1 <= FindIndex(s, selected) + 1 <= |s|
  {
    if s != [] && s[0].id != selected {
      CurrentSceneAtIndex(s[1..], selected);
    }
  }

  predicate IsDigit(c: char) {
    '0' <= c <= '9'
  }

  /** The leading run of decimal digits. */
  function DigitPrefix(s: string): (r: string)
    ensures |r| <= |s| && r == s[..|r|]
    ensures forall i :: 0 <= i < |r| ==> IsDigit(r[i])
    ensures |r| < |s| ==> !IsDigit(s[|r|])
  {
    if s == [] || !IsDigit(s[0]) then [] else [s[0]] + DigitPrefix(s[1..])
  }

  /** The value of a string of decimal digits, read left to right. */
  function DigitsValue(ds: string): nat
    requires forall i :: 0 <= i < |ds| ==> IsDigit(ds[i])
  {
    if ds == [] then 0
    else
      assert IsDigit(ds[|ds| - 1]);
      DigitsValue(ds[..|ds| - 1]) * 10 + (ds[|ds| - 1] as int - '0' as int)
  }

  /** The leading digits of `rest`, read as a number; `None` when there are none. */
  function ParseDigits(rest: string): Option<nat> {
    var ds := DigitPrefix(rest);
    if ds == [] then None else Some(DigitsValue(ds))
  }

  /**
    `parseInt(value)` on what a number field can hold: an optional sign,
    then the leading digits; `None` stands for `NaN`, when there are none.
  */
  function ParseInt(s: string): (r: Option<int>)
    ensures r.None? <==> ParseDigits(if |s| > 0 && (s[0] == '-' || s[0] == '+') then s[1..] else s).None?
    ensures r.Some? && |s| > 0 && s[0] == '-' ==> r.value <= 0
    ensures r.Some? && !(|s| > 0 && s[0] == '-') ==> r.value >= 0
  {
    if |s| > 0 && s[0] == '-' then
      match ParseDigits(s[1..])
      case None => None
      case Some(v) => Some(0 - v)
    else if |s| > 0 && s[0] == '+' then
      match ParseDigits(s[1..])
      case None => None
      case Some(v) => Some(v)
    else
      match ParseDigits(s)
      case None => None
      case Some(v) => Some(v)
  }

  /** `parseInt(e.target.value) || 5`: both `NaN` and 0 are falsy. */
  function DurationInput(value: string): (d: int)
    ensures d != 0
    ensures ParseInt(value).None? ==> d == 5
    ensures ParseInt(value) == Some(0) ==> d == 5
    ensures ParseInt(value).Some? && ParseInt(value).value != 0 ==> d == ParseInt(value).value
  {
    match ParseInt(value)
    case None => 5
    case Some(n) => if n == 0 then 5 else n
  }

  /** The decimal digits of `n`, most significant first. */
  function Decimal(n: nat): (r: string)
    ensures |r| >= 1
    ensures forall i :: 0 <= i < |r| ==> IsDigit(r[i])
  {
    var last := ('0' as int + n % 10) as char;
    if n < 10 then [last] else Decimal(n / 10) + [last]
  }

  /** Reading the digits of `n` gives back `n`. */
  lemma {:induction false} DecimalValue(n: nat)
    ensures DigitsValue(Decimal(n)) == n
  {
    var d := Decimal(n);
    if n >= 10 {
      DecimalValue(n / 10);
      assert d[..|d| - 1] == Decimal(n / 10);
    }
  }

  /** The digit run stops exactly where the digits end. */
  lemma {:induction false} DigitPrefixOfDigits(ds: string, tail: string)
    requires forall i :: 0 <= i < |ds| ==> IsDigit(ds[i])
    requires tail == [] || !IsDigit(tail[0])
    ensures DigitPrefix(ds + tail) == ds
  {
    if ds != [] {
      assert (ds + tail)[1..] == ds[1..] + tail;
      DigitPrefixOfDigits(ds[1..], tail);
    } else {
      assert ds + tail == tail;
    }
  }

  /** The text a number field holds for the integer `n`, optionally followed by a non-digit tail. */
  function Render(n: int, tail: string): string {
    if n < 0 then "-" + (Decimal(-n) + tail) else Decimal(n) + tail
  }

  /** A digit run followed by a non-digit tail reads as the run's value. */
  lemma ParseDigitsOfDigits(ds: string, tail: string)
    requires |ds| >= 1 && forall i :: 0 <= i < |ds| ==> IsDigit(ds[i])
    requires tail == [] || !IsDigit(tail[0])
    ensures ParseDigits(ds + tail) == Some(DigitsValue(ds))
  {
    DigitPrefixOfDigits(ds, tail);
  }

  /** Unsigned digits followed by a non-digit tail parse to their value. */
  lemma ParseIntOfDigits(ds: string, tail: string)
    requires |ds| >= 1 && forall i :: 0 <= i < |ds| ==> IsDigit(ds[i])
    requires tail == [] || !IsDigit(tail[0])
    ensures ParseInt(ds + tail) == Some(DigitsValue(ds))
  {
    assert (ds + tail)[0] == ds[0];
    ParseDigitsOfDigits(ds, tail);
  }

  /** Prefixing a minus sign puts it first and leaves the rest intact. */
  lemma SignSplit(rest: string)
    ensures ("-" + rest)[0] == '-' && ("-" + rest)[1..] == rest
  {
  }

  /** A minus sign before readable digits negates their value. */
  lemma ParseIntNegated(rest: string)
    requires ParseDigits(rest).Some?
    ensures ParseInt("-" + rest) == Some(0 - ParseDigits(rest).value)
  {
    SignSplit(rest);
  }

  /** Reading back the text of any integer, followed by a non-digit tail, gives the integer. */
  lemma ParseIntRender(n: int, tail: string)
    requires tail == [] || !IsDigit(tail[0])
    ensures ParseInt(Render(n, tail)) == Some(n)
  {
    if n < 0 {
      ParseIntRenderNegative(n, tail);
    } else {
      ParseIntRenderUnsigned(n, tail);
    }
  }

  /** The unsigned case of `ParseIntRender`. */
  lemma ParseIntRenderUnsigned(n: nat, tail: string)
    requires tail == [] || !IsDigit(tail[0])
    ensures ParseInt(Render(n, tail)) == Some(n)
  {
    DecimalValue(n);
    ParseIntOfDigits(Decimal(n), tail);
  }

  /** The negative case of `ParseIntRender`. */
  lemma ParseIntRenderNegative(n: int, tail: string)
    requires n < 0
    requires tail == [] || !IsDigit(tail[0])
    ensures ParseInt(Render(n, tail)) == Some(n)
  {
    var rest := Decimal(-n) + tail;
    assert ParseDigits(rest) == Some(-n) by {
      DecimalValue(-n);
      ParseDigitsOfDigits(Decimal(-n), tail);
    }
    ParseIntNegated(rest);
  }

  /**
    Any nonzero integer typed in, negative or above 60 included, reaches
    the scene unchanged; whatever follows the digits (a fraction, an
    exponent) is ignored.
  */
  lemma DurationInputPassesThrough(n: int, tail: string)
    requires n != 0
    requires tail == [] || !IsDigit(tail[0])
    ensures DurationInput(Render(n, tail)) == n
  {
    ParseIntRender(n, tail);
  }

  /** An empty field, or text that starts with neither a digit nor a sign, gives the default 5. */
  lemma DurationInputNoDigits(value: string)
    requires value == [] || (!IsDigit(value[0]) && value[0] != '-' && value[0] != '+')
    ensures DurationInput(value) == 5
  {
  }

  /** A typed zero, signed or not, is falsy and also gives the default 5. */
  lemma DurationInputZero(tail: string)
    requires tail == [] || !IsDigit(tail[0])
    ensures DurationInput("0" + tail) == 5 && DurationInput("-0" + tail) == 5
  {
    assert Decimal(0) == "0";
    ParseIntRender(0, tail);
    var rest := "0" + tail;
    ParseDigitsOfDigits("0", tail);
    ParseIntNegated(rest);
    assert "-0" + tail == "-" + rest;
  }

  /** An edit of one field of the current scene; without a current scene there is no editor. */
  function EditCurrent(s: seq<Scene>, selected: string, p: Patch): seq<Scene> {
    match CurrentScene(s, selected)
    case None => s
    case Some(c) => UpdateScenes(s, c.id, p)
  }

  /** The script text area. */
  function EditScript(s: seq<Scene>, selected: string, text: string): (r: seq<Scene>)
    ensures |r| == |s|
    ensures forall i :: 0 <= i < |s| ==> r[i] == if s[i].id == selected then s[i].(script := text) else s[i]
  {
    EditCurrent(s, selected, Patch(Some(text), None, None, None, None))
  }

  /** The duration field. */
  function EditDuration(s: seq<Scene>, selected: string, value: string): (r: seq<Scene>)
    ensures |r| == |s|
    ensures forall i :: 0 <= i < |s| ==>
      r[i] == if s[i].id == selected then s[i].(duration := DurationInput(value)) else s[i]
  {
    EditCurrent(s, selected, Patch(None, Some(DurationInput(value)), None, None, None))
  }

  /** The transition select. */
  function EditTransition(s: seq<Scene>, selected: string, t: Transition): (r: seq<Scene>)
    ensures |r| == |s|
    ensures forall i :: 0 <= i < |s| ==> r[i] == if s[i].id == selected then s[i].(transition := t) else s[i]
  {
    EditCurrent(s, selected, Patch(None, None, Some(t), None, None))
  }

  /**
    With distinct ids, each edit replaces one field of the current scene
    and leaves every other field and every other scene as it was.
  */
  lemma EditsTouchOneField(s: seq<Scene>, selected: string, text: string, value: string, t: Transition)
    requires UniqueIds(s) && selected in Ids(s)
    ensures var k := FindIndex(s, selected);
      && EditScript(s, selected, text) == s[k := s[k].(script := text)]
      && EditDuration(s, selected, value) == s[k := s[k].(duration := DurationInput(value))]
      && EditTransition(s, selected, t) == s[k := s[k].(transition := t)]
  {
    var k := FindIndex(s, selected);
    CurrentSceneAtIndex(s, selected);
    UpdateAt(s, k, Patch(Some(text), None, None, None, None));
    UpdateAt(s, k, Patch(None, Some(DurationInput(value)), None, None, None));
    UpdateAt(s, k, Patch(None, None, Some(t), None, None));
  }

  /** What the AI assist button sends: the current scene's script, or nothing without one. */
  function AssistPrompt(s: seq<Scene>, selected: string): (r: Option<string>)
    ensures r.None? <==> selected !in Ids(s)
    ensures r.Some? ==> exists sc :: sc in s && sc.id == selected && sc.script == r.value
  {
    match CurrentScene(s, selected)
    case None => None
    case Some(c) => Some(c.script)
  }

  /** The service's answer: a suggestion, or a failure that is only logged. */
  datatype Reply = Suggestion(text: string) | Failure

  /** The suggestion panel after the call; a failure leaves it as it was. */
  function SuggestionAfter(panel: string, reply: Reply): (r: string)
    ensures reply.Failure? ==> r == panel
    ensures reply.Suggestion? ==> r == reply.text
  {
    match reply
    case Suggestion(text) => text
    case Failure => panel
  }
}
