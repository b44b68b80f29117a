/**
 * The one-character-per-slot OTP input. Typing into a slot rebuilds the whole
 * value through a JavaScript array: `value.split('')`, assign at the slot's
 * index, `join('')`. Focus moves are returned as the index to focus next.
 */
module OtpInput {
  import opened Optional

  /** A JavaScript array of strings; `None` is a hole left by assigning past the end. */
  type JsArray = seq<Option<string>>

  /** `value.split('')`. */
  function Split(value: string): (a: JsArray)
    ensures |a| == |value|
    ensures forall k | 0 <= k < |a| :: a[k] == Some([value[k]])
  {
    seq(|value|, k requires 0 <= k < |value| => Some([value[k]]))
  }

  /** `a[index] = text`: past the end, the array grows with holes up to `index`. */
  function Assign(a: JsArray, index: nat, text: string): (r: JsArray)
    ensures |r| == if index < |a| then |a| else index + 1
    ensures r[index] == Some(text)
    ensures forall k | 0 <= k < |a| && k != index :: r[k] == a[k]
    ensures forall k | |a| <= k < index :: r[k] == None
  {
    if index < |a| then a[index := Some(text)]
    else a + Holes(index - |a|) + [Some(text)]
  }

  /** `n` holes in a row. */
  function Holes(n: nat): (h: JsArray)
    ensures |h| == n && forall k | 0 <= k < n :: h[k] == None
  {
    seq(n, _ => None)
  }

  /** `a.join('')`: holes join as the empty string. */
  function Join(a: JsArray): string
    decreases |a|
  {
    if a == [] then ""
    else Join(a[..|a| - 1]) + (match a[|a| - 1] case None => "" case Some(t) => t)
  }

  lemma {:induction false} JoinAppend(a: JsArray, b: JsArray)
    ensures Join(a + b) == Join(a) + Join(b)
    decreases |b|
  {
    if b == [] {
      assert a + b == a;
    } else {
      assert (a + b)[..|a + b| - 1] == a + b[..|b| - 1];
      assert (a + b)[|a + b| - 1] == b[|b| - 1];
      JoinAppend(a, b[..|b| - 1]);
    }
  }

  lemma {:induction false} JoinSplit(value: string)
    ensures Join(Split(value)) == value
    decreases |value|
  {
    if value != [] {
      var v := value[..|value| - 1];
      assert Split(value)[..|value| - 1] == Split(v);
      JoinSplit(v);
    }
  }

  lemma {:induction false} JoinHoles(a: JsArray)
    requires forall k | 0 <= k < |a| :: a[k] == None
    ensures Join(a) == ""
    decreases |a|
  {
    if a != [] {
      JoinHoles(a[..|a| - 1]);
    }
  }

  /**
   * `value.split('')`, `[index] = text`, `join('')`. In plain terms: inside the
   * value the slot's character is replaced by `text` (so an empty `text` deletes
   * it and shifts the rest left); at or past the end `text` is appended, since the
   * holes join as nothing.
   */
  function SetSlot(value: string, index: nat, text: string): (r: string)
    ensures index < |value| ==> r == value[..index] + text + value[index + 1..]
    ensures index >= |value| ==> r == value + text
  {
    var slots := Assign(Split(value), index, text);
    if index < |value| then
      AssignInside(value, index, text);
      Join(slots)
    else
      AssignPast(value, index, text);
      Join(slots)
  }

  /** Assigning inside the value replaces that one character by `text`. */
  lemma AssignInside(value: string, index: nat, text: string)
    requires index < |value|
    ensures Join(Assign(Split(value), index, text)) == value[..index] + text + value[index + 1..]
  {
    var slots := Assign(Split(value), index, text);
    assert slots == Split(value[..index]) + [Some(text)] + Split(value[index + 1..]);
    JoinAppend(Split(value[..index]) + [Some(text)], Split(value[index + 1..]));
    JoinAppend(Split(value[..index]), [Some(text)]);
    JoinSplit(value[..index]);
    JoinSplit(value[index + 1..]);
  }

  /** Assigning at or past the end appends `text`: the holes in between join as nothing. */
  lemma AssignPast(value: string, index: nat, text: string)
    requires index >= |value|
    ensures Join(Assign(Split(value), index, text)) == value + text
  {
    JoinPast(Split(value), Holes(index - |value|), text);
    JoinSplit(value);
  }

  /** Holes joined between an array and a last element add nothing. */
  lemma JoinPast(a: JsArray, holes: JsArray, text: string)
    requires forall k | 0 <= k < |holes| :: holes[k] == None
    ensures Join(a + holes + [Some(text)]) == Join(a) + text
  {
    var ah := a + holes;
    JoinAppend(ah, [Some(text)]);
    JoinOne(text);
    JoinAppend(a, holes);
    JoinHoles(holes);
  }

  lemma JoinOne(text: string)
    ensures Join([Some(text)]) == text
  {
    assert [Some(text)][..0] == [];
  }

  /** `text.slice(-1)`: each change passes on at most the last character typed. */
  function LastChar(text: string): (t: string)
    ensures |t| <= 1
    ensures text == "" <==> t == ""
    ensures text != "" ==> t == [text[|text| - 1]]
  {
    if text == "" then "" else [text[|text| - 1]]
  }

  /** The new value passed to `onChange` and the slot focused next, if focus moves. */
  datatype Change = Change(value: string, focus: Option<nat>)

  /** `onChangeText` of slot `index` in an input of `length` slots. */
  function HandleChangeText(value: string, length: nat, index: nat, typed: string): (c: Change)
    ensures var t := LastChar(typed);
      && (index < |value| && |t| == 1 ==>
            |c.value| == |value| && c.value[index] == t[0]
            && forall k | 0 <= k < |value| && k != index :: c.value[k] == value[k])
      && (index < |value| && t == "" ==> c.value == value[..index] + value[index + 1..])
      && (index >= |value| ==> c.value == value + t)
    ensures c.focus.Some? <==> typed != "" && index < length - 1
    ensures c.focus.Some? ==> c.focus.value == index + 1
  {
    var t := LastChar(typed);
    Change(SetSlot(value, index, t), if t != "" && index < length - 1 then Some(index + 1) else None)
  }

  /** `handleKeyPress`: Backspace in an empty slot (past the value's end) other than the first moves focus back. */
  function HandleKeyPress(value: string, key: string, index: nat): (focus: Option<nat>)
    ensures focus.Some? <==> key == "Backspace" && index >= |value| && index > 0
    ensures focus.Some? ==> focus.value == index - 1
  {
    if key == "Backspace" && index >= |value| && index > 0 then Some(index - 1) else None
  }

  /** `value[index] || ''`: what slot `index` displays; past the value's end it is empty. */
  function Slot(value: string, index: nat): (t: string)
    ensures |t| <= 1
    ensures t == "" <==> index >= |value|
  {
    if index < |value| then [value[index]] else ""
  }

  /** Backspace moves focus back exactly from a displayed-empty slot other than the first. */
  lemma BackspaceFollowsSlots(value: string, index: nat)
    ensures HandleKeyPress(value, "Backspace", index).Some? <==> Slot(value, index) == "" && index > 0
    ensures forall key | key != "Backspace" :: HandleKeyPress(value, key, index) == None
  {
  }

  /**
   * Clearing a filled slot keeps focus where it is, shifts the later characters
   * one slot left and leaves the last filled slot displayed empty, so a Backspace
   * there now moves focus back while one on any still-filled slot does not.
   */
  lemma ClearingShiftsLeft(value: string, length: nat, index: nat)
    requires index < |value|
    ensures var c := HandleChangeText(value, length, index, "");
      && c.focus == None
      && |c.value| == |value| - 1
      && (forall k | 0 <= k < index :: Slot(c.value, k) == Slot(value, k))
      && (forall k | index <= k < |value| - 1 :: Slot(c.value, k) == Slot(value, k + 1))
      && Slot(c.value, |value| - 1) == ""
      && (|value| > 1 ==> HandleKeyPress(c.value, "Backspace", |value| - 1) == Some(|value| - 2))
      && (forall k | 0 <= k < |value| - 1 :: HandleKeyPress(c.value, "Backspace", k) == None)
  {
  }

  /** Typing `chars` one by one, each into whichever slot has focus. */
  function TypeAll(value: string, focus: nat, length: nat, chars: string): string
    decreases |chars|
  {
    if chars == [] then value
    else
      var c := HandleChangeText(value, length, focus, [chars[0]]);
      TypeAll(c.value, c.focus.GetOr(focus), length, chars[1..])
  }

  /** Typing into the focused slot of a partly filled input appends, and focus follows the value's end. */
  lemma {:induction false} TypingAppends(value: string, length: nat, chars: string)
    requires |value| + |chars| <= length
    ensures TypeAll(value, |value|, length, chars) == value + chars
    decreases |chars|
  {
    if chars != [] {
      var c := HandleChangeText(value, length, |value|, [chars[0]]);
      assert c.value == value + [chars[0]];
      if chars[1..] != [] {
        assert c.focus == Some(|value| + 1);
      }
      TypingAppends(c.value, length, chars[1..]);
      assert value + [chars[0]] + chars[1..] == value + chars;
    }
  }
}
