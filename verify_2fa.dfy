/**
 * The two-factor code page (client/src/pages/auth/Verify2FA.jsx): six
 * one-character cells filled by typing or pasting, the focused cell, the
 * submit check, and the resend countdown. Focus movements and timer ticks
 * are events; the verification request is an input.
 */
module Verify2FA {
  import opened Common

  const Cells: nat := 6
  /** The resend cooldown, in seconds. */
  const Cooldown: nat := 60

  /** A cell holds nothing or one digit. */
  predicate IsCell(c: string)
  {
    c == "" || (|c| == 1 && IsDigit(c[0]))
  }

  predicate AllDigits(s: string)
  {
    forall i :: 0 <= i < |s| ==> IsDigit(s[i])
  }

  /** `code.join('')`. */
  function Joined(code: seq<string>): string
  {
    if code == [] then "" else code[0] + Joined(code[1..])
  }

  /** Cells of at most one character join to six characters exactly when every one is filled. */
  lemma {:induction false} JoinedFull(code: seq<string>)
    requires forall i :: 0 <= i < |code| ==> |code[i]| <= 1
    ensures |Joined(code)| <= |code|
    ensures |Joined(code)| == |code| <==> forall i :: 0 <= i < |code| ==> code[i] != ""
  {
    if code != [] {
      JoinedFull(code[1..]);
      assert forall i :: 1 <= i < |code| ==> code[i] == code[1..][i - 1];
    }
  }

  /** The last character of a typed value, or nothing for an empty one (`value.slice(-1)`). */
  function LastChar(value: string): (r: string)
    ensures |r| <= 1
    ensures value == "" <==> r == ""
    ensures r != "" ==> r[0] == value[|value| - 1]
  {
    if value == "" then "" else [value[|value| - 1]]
  }

  /** The pasted text cut to the number of cells (`slice(0, 6)`). */
  function Pasted(text: string): (r: string)
    ensures |r| <= Cells && r <= text
    ensures |text| <= Cells ==> r == text
  {
    if |text| <= Cells then text else text[..Cells]
  }

  function EmptyCode(): (r: seq<string>)
    ensures |r| == Cells && forall i :: 0 <= i < |r| ==> r[i] == ""
  {
    ["", "", "", "", "", ""]
  }

  class CodeForm {
    var code: seq<string>
    /** The index of the focused cell. */
    var focus: nat
    /** The seconds left before another code may be requested. */
    var countdown: nat
    /** An error message is shown. */
    var error: bool

    predicate Valid()
      reads this
    {
      |code| == Cells && (forall i :: 0 <= i < |code| ==> IsCell(code[i])) && focus < Cells && countdown <= Cooldown
    }

    constructor()
      ensures Valid()
      ensures code == EmptyCode() && focus == 0 && countdown == 0 && !error
    {
      code := EmptyCode();
      focus := 0;
      countdown := 0;
      error := false;
    }

    /**
     * `handleChange`: a value with a non-digit changes nothing; otherwise the
     * cell keeps only the value's last digit (an empty value clears it), and
     * a non-empty entry below the last cell moves the focus on.
     */
    method HandleChange(index: nat, value: string)
      requires Valid() && index < Cells
      modifies this`code, this`focus
      ensures Valid()
      ensures !AllDigits(value) ==> code == old(code) && focus == old(focus)
      ensures AllDigits(value) ==> code == old(code)[index := LastChar(value)]
      ensures AllDigits(value) && value != "" && index < 5 ==> focus == index + 1
      ensures !(AllDigits(value) && value != "" && index < 5) ==> focus == old(focus)
    {
      if !AllDigits(value) {
        return;
      }
      code := code[index := LastChar(value)];
      if value != "" && index < 5 {
        focus := index + 1;
      }
    }

    /** `handleKeyDown`: backspace on an empty cell other than the first moves the focus back. */
    method HandleKeyDown(index: nat, key: string)
      requires Valid() && index < Cells
      modifies this`focus
      ensures Valid()
      ensures key == "Backspace" && code[index] == "" && index > 0 ==> focus == index - 1
      ensures !(key == "Backspace" && code[index] == "" && index > 0) ==> focus == old(focus)
    {
      if key == "Backspace" && code[index] == "" && index > 0 {
        focus := index - 1;
      }
    }

    /**
     * `handlePaste`: the first six pasted characters, when there are some
     * and all are digits, fill the cells from the first one; the cells after
     * them keep their contents, and the focus goes to the cell after the
     * last one filled (the last cell at most). Anything else is ignored.
     */
    method HandlePaste(text: string)
      requires Valid()
      modifies this`code, this`focus
      ensures Valid()
      ensures Pasted(text) == "" || !AllDigits(Pasted(text)) ==> code == old(code) && focus == old(focus)
      ensures Pasted(text) != "" && AllDigits(Pasted(text)) ==>
        (forall i :: 0 <= i < |Pasted(text)| ==> code[i] == [Pasted(text)[i]]) &&
        (forall i :: |Pasted(text)| <= i < Cells ==> code[i] == old(code)[i]) &&
        focus == (if |Pasted(text)| < 5 then |Pasted(text)| else 5)
    {
      var pasted := Pasted(text);
      if pasted == "" || !AllDigits(pasted) {
        return;
      }
      var newCode := code;
      var i := 0;
      while i < |pasted|
        invariant 0 <= i <= |pasted| <= Cells
        invariant |newCode| == Cells && forall k :: 0 <= k < Cells ==> IsCell(newCode[k])
        invariant forall k :: 0 <= k < i ==> newCode[k] == [pasted[k]]
        invariant forall k :: i <= k < Cells ==> newCode[k] == code[k]
      {
        newCode := newCode[i := [pasted[i]]];
        i := i + 1;
      }
      code := newCode;
      focus := if |pasted| < 5 then |pasted| else 5;
    }

    /**
     * `handleSubmit`'s check: the joined code is sent only when it has six
     * characters, that is when every cell is filled; otherwise an error is
     * shown and nothing is sent.
     */
    method Submit() returns (sent: Option<string>)
      requires Valid()
      modifies this`error
      ensures Valid()
      ensures sent.Some? <==> forall i :: 0 <= i < Cells ==> code[i] != ""
      ensures sent.Some? ==> sent.value == Joined(code) && |sent.value| == Cells
      ensures error <==> sent.None?
    {
      JoinedFull(code);
      var fullCode := Joined(code);
      if |fullCode| != Cells {
        error := true;
        return None;
      }
      error := false;
      sent := Some(fullCode);
    }

    /** A rejected code empties every cell and focuses the first. */
    method VerifyFailed()
      requires Valid()
      modifies this`code, this`focus, this`error
      ensures Valid()
      ensures code == EmptyCode() && focus == 0 && error
    {
      code := EmptyCode();
      focus := 0;
      error := true;
    }

    /** A code sent again starts the cooldown. */
    method Resent()
      requires Valid()
      modifies this`countdown, this`error
      ensures Valid()
      ensures countdown == Cooldown && !error
    {
      countdown := Cooldown;
      error := false;
    }

    /** One second of the cooldown: it goes down by one and stays at zero. */
    method Tick()
      requires Valid()
      modifies this`countdown
      ensures Valid()
      ensures old(countdown) > 0 ==> countdown == old(countdown) - 1
      ensures old(countdown) == 0 ==> countdown == 0
    {
      if countdown > 0 {
        countdown := countdown - 1;
      }
    }

    /** The resend button shows only once the cooldown has run out. */
    predicate CanResend()
      reads this
    {
      countdown == 0
    }
  }

  /** The countdown after `ticks` seconds from `c`: it never goes below zero. */
  function AfterTicks(c: nat, ticks: nat): (r: nat)
    ensures r == if ticks <= c then c - ticks else 0
  {
    if ticks == 0 || c == 0 then c else AfterTicks(c - 1, ticks - 1)
  }

  /** The resend button comes back exactly sixty ticks after a resend. */
  lemma ResendAvailableAfterCooldown(ticks: nat)
    ensures AfterTicks(Cooldown, ticks) == 0 <==> ticks >= Cooldown
  {
  }
}
