/** The PIN input display (Assets/_Scripts/InputCanvas.cs): a pending
    "correct" flag takes precedence over a pending "incorrect" flag, which
    takes precedence over showing the digits typed so far. */
module InputCanvas {
  import opened Common

  const CorrectMark: string := "\U{2705}"
  const IncorrectMark: string := "\U{274C}"

  datatype Display = Display(text: string, isPinCorrect: bool, isPinIncorrect: bool)

  /** One Update frame with the manager's current PIN input. */
  function Frame(d: Display, currentPin: seq<int>): (r: Display)
    ensures d.isPinCorrect ==> r == Display(CorrectMark, false, d.isPinIncorrect)
    ensures !d.isPinCorrect && d.isPinIncorrect ==> r == Display(IncorrectMark, false, false)
    ensures !d.isPinCorrect && !d.isPinIncorrect ==> !r.isPinCorrect && !r.isPinIncorrect
    ensures !d.isPinCorrect && !d.isPinIncorrect && currentPin != [] ==> r.text == ConcatInts(currentPin)
    ensures !d.isPinCorrect && !d.isPinIncorrect && currentPin == [] ==> r == d
  {
    if d.isPinCorrect then d.(text := CorrectMark, isPinCorrect := false)
    else if d.isPinIncorrect then d.(text := IncorrectMark, isPinCorrect := false, isPinIncorrect := false)
    else if |currentPin| != 0 then d.(text := ConcatInts(currentPin))
    else d
  }

  /** With both flags pending, the first frame shows the tick and the
      second the cross, after which no flag is pending. */
  lemma BothFlagsShowInTurn(text: string, pin1: seq<int>, pin2: seq<int>)
    ensures Frame(Display(text, true, true), pin1).text == CorrectMark
    ensures Frame(Frame(Display(text, true, true), pin1), pin2) == Display(IncorrectMark, false, false)
  {
  }

  /** A frame never raises a flag, and clears the incorrect flag only
      together with the correct one. */
  lemma FrameOnlyClears(d: Display, pin: seq<int>)
    ensures Frame(d, pin).isPinCorrect ==> d.isPinCorrect
    ensures Frame(d, pin).isPinIncorrect ==> d.isPinIncorrect
    ensures !Frame(d, pin).isPinCorrect
  {
  }

  /** The shown text is a status mark, the previous text, or digits and
      minus signs only. */
  lemma FrameText(d: Display, pin: seq<int>)
    ensures var t := Frame(d, pin).text;
      t == CorrectMark || t == IncorrectMark || t == d.text || forall k :: 0 <= k < |t| ==> IsNumeral(t[k])
  {
  }

  class InputCanvas {
    var text: string
    var isPinCorrect: bool
    var isPinIncorrect: bool

    function State(): Display
      reads this
    {
      Display(text, isPinCorrect, isPinIncorrect)
    }

    constructor (text: string)
      ensures State() == Display(text, false, false)
    {
      this.text := text;
      isPinCorrect := false;
      isPinIncorrect := false;
    }

    method Update(currentPin: seq<int>)
      modifies this
      ensures State() == Frame(old(State()), currentPin)
    {
      if isPinCorrect {
        text := CorrectMark;
        isPinCorrect := false;
      } else if isPinIncorrect {
        text := IncorrectMark;
        isPinCorrect := false;
        isPinIncorrect := false;
      } else if |currentPin| != 0 {
        text := ConcatInts(currentPin);
      }
    }

    method PinCorrect()
      modifies this`isPinCorrect
      ensures isPinCorrect
    {
      isPinCorrect := true;
    }

    method PinIncorrect()
      modifies this`isPinIncorrect
      ensures isPinIncorrect
    {
      isPinIncorrect := true;
    }

    method SetText(t: string)
      modifies this`text
      ensures text == t
    {
      text := t;
    }
  }
}
