/**
 * The one-time-code entry widget: a row of single-digit cells and the index
 * of the focused cell, changed by typing, Backspace, the arrow keys, focus,
 * paste and a new error message.
 */
module OtpInput {
  import opened Wrappers
  import opened Text

  /** A cell shows nothing or exactly one decimal digit. */
  predicate IsCell(c: string) {
    c == "" || (|c| == 1 && IsDigit(c[0]))
  }

  predicate AllCells(cells: seq<string>) {
    forall i :: 0 <= i < |cells| ==> IsCell(cells[i])
  }

  /** `every(digit => digit !== '')`. */
  predicate AllFilled(cells: seq<string>) {
    forall i :: 0 <= i < |cells| ==> cells[i] != ""
  }

  /** `new Array(length).fill('')`. */
  function EmptyCells(length: nat): (r: seq<string>)
    ensures |r| == length && AllCells(r)
    ensures forall i :: 0 <= i < length ==> r[i] == ""
  {
    seq(length, _ => "")
  }

  /** `cells.join('')`. */
  function Join(cells: seq<string>): string {
    if cells == [] then "" else cells[0] + Join(cells[1..])
  }

  /** `value.slice(-1)`: the last character, or nothing for an empty value (the path
      that clears a cell). */
  function LastChar(value: string): (r: string)
    ensures |r| <= 1
    ensures r == "" <==> value == ""
    ensures value != "" ==> r == [value[|value| - 1]]
  {
    if value == "" then "" else [value[|value| - 1]]
  }

  /** The digits a paste keeps: `replace(/\D/g, '').slice(0, length)`, the first `length`
      digits of the text in their order (see `KeepDigitsChar` and `KeepDigitsAppend`). */
  function PasteDigits(text: string, length: nat): (r: string)
    ensures AllDigits(r)
    ensures |r| == if |KeepDigits(text)| <= length then |KeepDigits(text)| else length
    ensures r == KeepDigits(text)[..|r|]
  {
    TakeAllDigits(KeepDigits(text), length);
    Take(KeepDigits(text), length)
  }

  /** The cells after a paste of `digits`: the digits in order, padded with empty cells. */
  function PastedCells(digits: string, length: nat): (r: seq<string>)
    requires |digits| <= length
    ensures |r| == length
  {
    seq(length, i requires 0 <= i < length => if i < |digits| then [digits[i]] else "")
  }

  datatype Key = Backspace | ArrowLeft | ArrowRight | OtherKey

  // ---------------------------------------------------------------------------
  // Lemmas about the cell row

  /** When every cell holds one digit, the joined code has one character per cell,
      all digits: the second half of the completion test always holds. */
  lemma {:induction false} JoinFilled(cells: seq<string>)
    requires AllCells(cells) && AllFilled(cells)
    ensures |Join(cells)| == |cells| && AllDigits(Join(cells))
  {
    if cells != [] {
      JoinFilled(cells[1..]);
      assert |cells[0]| == 1;
    }
  }

  /** Joining the pasted cells gives back exactly the pasted digits. */
  lemma {:induction false} JoinPasted(digits: string, length: nat)
    requires |digits| <= length
    ensures Join(PastedCells(digits, length)) == digits
  {
    var cells := PastedCells(digits, length);
    if length == 0 {
    } else if digits == [] {
      assert cells[1..] == PastedCells([], length - 1);
      JoinPasted([], length - 1);
    } else {
      assert cells[1..] == PastedCells(digits[1..], length - 1);
      JoinPasted(digits[1..], length - 1);
      assert digits == [digits[0]] + digits[1..];
    }
  }

  /** A paste yields valid cells, and the row is full exactly when the paste
      supplied one digit per cell. */
  lemma PastedCellsShape(digits: string, length: nat)
    requires |digits| <= length && AllDigits(digits)
    ensures AllCells(PastedCells(digits, length))
    ensures AllFilled(PastedCells(digits, length)) <==> |digits| == length
  {
    var cells := PastedCells(digits, length);
    if |digits| < length {
      assert cells[|digits|] == "";
    }
  }

  // ---------------------------------------------------------------------------
  // The widget

  class OtpInput {
    /** The `length` prop: the number of cells. */
    const length: nat
    /** The `otp` state. */
    var cells: seq<string>
    /** The `activeIndex` state: which cell has focus. */
    var activeIndex: nat

    ghost predicate Valid()
      reads this
    {
      && length >= 1
      && |cells| == length
      && AllCells(cells)
      && activeIndex < length
    }

    /** Mounting: every cell empty, focus on the first. */
    constructor (length: nat := 6)
      requires length >= 1
      ensures Valid()
      ensures this.length == length && cells == EmptyCells(length) && activeIndex == 0
    {
      this.length := length;
      cells := EmptyCells(length);
      activeIndex := 0;
    }

    /** The effect run when the `error` prop changes: a non-empty error clears
        every cell and moves focus to the first. */
    method OnErrorChange(error: string)
      requires Valid()
      modifies this
      ensures Valid()
      ensures error != "" ==> cells == EmptyCells(length) && activeIndex == 0
      ensures error == "" ==> cells == old(cells) && activeIndex == old(activeIndex)
    {
      if error != "" {
        cells := EmptyCells(length);
        activeIndex := 0;
      }
    }

    /** `handleChange(value, index)`. Returns the code passed to `onComplete`, if it is called. */
    method HandleChange(value: string, index: nat) returns (completed: Option<string>)
      requires Valid() && index < length
      modifies this
      ensures Valid()
      ensures !AllDigits(value) ==>
        cells == old(cells) && activeIndex == old(activeIndex) && completed == None
      ensures AllDigits(value) ==> cells == old(cells)[index := LastChar(value)]
      ensures AllDigits(value) ==>
        activeIndex == if value != "" && index < length - 1 then index + 1 else old(activeIndex)
      ensures completed.Some? <==> AllDigits(value) && AllFilled(cells)
      ensures completed.Some? ==>
        completed.value == Join(cells) && |completed.value| == length && AllDigits(completed.value)
    {
      completed := None;
      if !AllDigits(value) {
        return;
      }
      var next := cells[index := LastChar(value)];
      assert IsCell(next[index]) by {
        if value != "" { assert IsDigit(value[|value| - 1]); }
      }
      cells := next;
      if value != "" && index < length - 1 {
        activeIndex := index + 1;
      }
      if AllFilled(next) {
        JoinFilled(next);
      }
      if AllFilled(next) && |Join(next)| == length {
        completed := Some(Join(next));
      }
    }

    /** `handleKeyDown(e, index)`. */
    method HandleKeyDown(key: Key, index: nat)
      requires Valid() && index < length
      modifies this
      ensures Valid()
      ensures key == Backspace && old(cells)[index] != "" ==>
        cells == old(cells)[index := ""] && activeIndex == old(activeIndex)
      ensures key == Backspace && old(cells)[index] == "" && index > 0 ==>
        cells == old(cells)[index - 1 := ""] && activeIndex == index - 1
      ensures key == Backspace && old(cells)[index] == "" && index == 0 ==>
        cells == old(cells) && activeIndex == old(activeIndex)
      ensures key == ArrowLeft ==>
        cells == old(cells) && activeIndex == if index > 0 then index - 1 else old(activeIndex)
      ensures key == ArrowRight ==>
        cells == old(cells) && activeIndex == if index < length - 1 then index + 1 else old(activeIndex)
      ensures key == OtherKey ==> cells == old(cells) && activeIndex == old(activeIndex)
    {
      if key == Backspace {
        if cells[index] != "" {
          cells := cells[index := ""];
        } else if index > 0 {
          cells := cells[index - 1 := ""];
          activeIndex := index - 1;
        }
      } else if key == ArrowLeft && index > 0 {
        activeIndex := index - 1;
      } else if key == ArrowRight && index < length - 1 {
        activeIndex := index + 1;
      }
    }

    /** `handleFocus(index)`. */
    method HandleFocus(index: nat)
      requires Valid() && index < length
      modifies this
      ensures Valid()
      ensures cells == old(cells) && activeIndex == index
    {
      activeIndex := index;
    }

    /** `handlePaste`: the clipboard text is a parameter. Returns the code passed to
        `onComplete`, if it is called. */
    method HandlePaste(text: string) returns (completed: Option<string>)
      requires Valid()
      modifies this
      ensures Valid()
      ensures var digits := PasteDigits(text, length);
        && (digits == "" ==> cells == old(cells) && activeIndex == old(activeIndex))
        && (digits != "" ==> cells == PastedCells(digits, length))
        && (digits != "" ==> activeIndex == if |digits| < length - 1 then |digits| else length - 1)
        && (completed.Some? <==> |digits| == length)
        && (completed.Some? ==> completed.value == digits)
    {
      completed := None;
      var digits := PasteDigits(text, length);
      if digits != "" {
        var row := new string[length](_ => "");
        var i := 0;
        while i < |digits|
          invariant 0 <= i <= |digits|
          invariant forall k :: 0 <= k < i ==> row[k] == [digits[k]]
          invariant forall k :: i <= k < length ==> row[k] == ""
        {
          if i < length {
            row[i] := [digits[i]];
          }
          i := i + 1;
        }
        assert row[..] == PastedCells(digits, length);
        PastedCellsShape(digits, length);
        cells := row[..];
        activeIndex := if |digits| < length - 1 then |digits| else length - 1;
        if |digits| == length {
          completed := Some(digits);
        }
      }
    }
  }
}
