/** The PIN keypad: the PIN text with its next digit highlighted, the button
    spacing measures used to scale the keypad, and the buttons' interactable
    switch (Assets/_Scripts/Keypad.cs). */
module Keypad {
  import opened Common
  import opened Geometry

  /** Rich-text markup wrapped around the digit the user must press next. */
  const OpenTag: string := "<color=#5555ff>"
  const CloseTag: string := "</color>"

  /** The PIN text with the character at k wrapped in the highlight markup
      (string.Remove(k, 1) followed by string.Insert(k, markup)). */
  function Highlighted(pin: string, k: nat): string
    requires k < |pin|
  {
    pin[..k] + OpenTag + [pin[k]] + CloseTag + pin[k + 1..]
  }

  /** Removes every occurrence of the two highlight tags, keeping all other
      characters in order. */
  function StripTags(s: string): string
    decreases |s|
  {
    if |OpenTag| <= |s| && s[..|OpenTag|] == OpenTag then StripTags(s[|OpenTag|..])
    else if |CloseTag| <= |s| && s[..|CloseTag|] == CloseTag then StripTags(s[|CloseTag|..])
    else if s == [] then []
    else [s[0]] + StripTags(s[1..])
  }

  predicate NoMarkup(s: string)
  {
    forall i :: 0 <= i < |s| ==> s[i] != '<'
  }

  lemma {:induction false} StripTagsPlain(a: string, b: string)
    requires NoMarkup(a)
    ensures StripTags(a + b) == a + StripTags(b)
    decreases |a|
  {
    if a != [] {
      var ab := a + b;
      assert ab[0] == a[0] && a[0] != '<';
      assert !(|OpenTag| <= |ab| && ab[..|OpenTag|] == OpenTag) by { assert OpenTag[0] == '<'; }
      assert !(|CloseTag| <= |ab| && ab[..|CloseTag|] == CloseTag) by { assert CloseTag[0] == '<'; }
      assert ab[1..] == a[1..] + b;
      StripTagsPlain(a[1..], b);
    } else {
      assert a + b == b;
    }
  }

  lemma StripTagsAfterTag(tag: string, rest: string)
    requires tag == OpenTag || tag == CloseTag
    ensures StripTags(tag + rest) == StripTags(rest)
  {
    var s := tag + rest;
    assert s[..|tag|] == tag;
    assert s[|tag|..] == rest;
    if tag == CloseTag {
      assert !(|OpenTag| <= |s| && s[..|OpenTag|] == OpenTag) by { assert s[1] == '/' != OpenTag[1]; }
    }
  }

  /** Removing the highlight markup gives back the PIN text: the highlight
      only decorates, it never changes which digits are shown. */
  lemma HighlightRoundTrip(pin: string, k: nat)
    requires k < |pin| && NoMarkup(pin)
    ensures StripTags(Highlighted(pin, k)) == pin
  {
    var pre, c, post := pin[..k], pin[k], pin[k + 1..];
    assert NoMarkup(pre) && NoMarkup(post) && NoMarkup([c]);
    calc {
      StripTags(Highlighted(pin, k));
      { assert Highlighted(pin, k) == pre + (OpenTag + ([c] + (CloseTag + post))); }
      StripTags(pre + (OpenTag + ([c] + (CloseTag + post))));
      { StripTagsPlain(pre, OpenTag + ([c] + (CloseTag + post))); }
      pre + StripTags(OpenTag + ([c] + (CloseTag + post)));
      { StripTagsAfterTag(OpenTag, [c] + (CloseTag + post)); }
      pre + StripTags([c] + (CloseTag + post));
      { StripTagsPlain([c], CloseTag + post); }
      pre + ([c] + StripTags(CloseTag + post));
      { StripTagsAfterTag(CloseTag, post); }
      pre + ([c] + StripTags(post));
      { StripTagsPlain(post, []); assert post + [] == post; }
      pre + ([c] + post);
      { assert pin == pre + [c] + post; }
      pin;
    }
  }

  lemma NumeralsHaveNoMarkup(s: string)
    requires forall i :: 0 <= i < |s| ==> IsNumeral(s[i])
    ensures NoMarkup(s)
  {
  }

  /** With single-digit PIN entries the text has one character per entry,
      so highlighting position k highlights the k-th PIN entry. */
  lemma {:induction false} SingleDigitsAlign(digits: seq<int>, k: nat)
    requires forall i :: 0 <= i < |digits| ==> 0 <= digits[i] < 10
    requires k < |digits|
    ensures |ConcatInts(digits)| == |digits|
    ensures ConcatInts(digits)[k] == DigitChar(digits[k])
    decreases |digits|
  {
    assert IntToString(digits[0]) == [DigitChar(digits[0])];
    if k > 0 {
      SingleDigitsAlign(digits[1..], k - 1);
    } else if |digits| > 1 {
      SingleDigitsAlign(digits[1..], 0);
    }
  }

  /** Indexing is by character: once an entry has two digits, position k of
      the text is no longer the k-th entry. For the PIN [12, 3] the input
      count 1 highlights the '2' of "12" instead of the entry 3. */
  lemma TwoDigitEntryMisaligns()
    ensures ConcatInts([12, 3]) == "123"
    ensures Highlighted(ConcatInts([12, 3]), 1) == "1" + OpenTag + "2" + CloseTag + "3"
  {
    assert NatToString(12) == "12";
    assert ConcatInts([3]) == "3";
    assert ConcatInts([12, 3]) == "12" + ConcatInts([3]);
  }

  /** Distances of all ordered pairs of button positions, in the order of
      buttons.SelectMany(_ => buttons, ...). */
  function AllPairDistances(ps: seq<Vec3>, all: seq<Vec3>, norm: Vec3 -> real): (ds: seq<real>)
    ensures |ds| == |ps| * |all|
  {
    if ps == [] then []
    else RowDistances(ps[0], all, norm) + AllPairDistances(ps[1..], all, norm)
  }

  function RowDistances(p: Vec3, all: seq<Vec3>, norm: Vec3 -> real): (ds: seq<real>)
    ensures |ds| == |all|
    ensures forall j :: 0 <= j < |all| ==> ds[j] == norm(Sub(p, all[j]))
  {
    seq(|all|, j requires 0 <= j < |all| => norm(Sub(p, all[j])))
  }

  lemma {:induction false} PairDistanceListed(ps: seq<Vec3>, all: seq<Vec3>, norm: Vec3 -> real, i: nat, j: nat)
    requires i < |ps| && j < |all|
    ensures norm(Sub(ps[i], all[j])) in AllPairDistances(ps, all, norm)
    decreases |ps|
  {
    if i == 0 {
      assert RowDistances(ps[0], all, norm)[j] == norm(Sub(ps[0], all[j]));
    } else {
      PairDistanceListed(ps[1..], all, norm, i - 1, j);
    }
  }

  lemma {:induction false} ListedIsPairDistance(ps: seq<Vec3>, all: seq<Vec3>, norm: Vec3 -> real, d: real)
    requires d in AllPairDistances(ps, all, norm)
    ensures exists i, j :: 0 <= i < |ps| && 0 <= j < |all| && d == norm(Sub(ps[i], all[j]))
    decreases |ps|
  {
    if d in RowDistances(ps[0], all, norm) {
      var j :| 0 <= j < |all| && RowDistances(ps[0], all, norm)[j] == d;
      assert d == norm(Sub(ps[0], all[j]));
    } else {
      ListedIsPairDistance(ps[1..], all, norm, d);
      var i, j :| 0 <= i < |ps[1..]| && 0 <= j < |all| && d == norm(Sub(ps[1..][i], all[j]));
      assert d == norm(Sub(ps[i + 1], all[j]));
    }
  }

  /** Enumerable.Max over a non-empty sequence. */
  function SeqMax(xs: seq<real>): (m: real)
    requires xs != []
    ensures m in xs
    ensures forall x :: x in xs ==> x <= m
  {
    if |xs| == 1 then xs[0]
    else
      var rest := SeqMax(xs[1..]);
      assert forall x :: x in xs ==> x == xs[0] || x in xs[1..];
      if xs[0] >= rest then xs[0] else rest
  }

  /** GetMaxDistance: the largest distance between two buttons. Max() throws
      on an empty sequence, so at least one button is required. */
  function MaxDistance(points: seq<Vec3>, norm: Vec3 -> real): (r: real)
    requires |points| > 0
    requires IsNorm(norm)
    ensures r >= 0.0
    ensures forall i, j :: 0 <= i < |points| && 0 <= j < |points| ==> norm(Sub(points[i], points[j])) <= r
    ensures exists i, j :: 0 <= i < |points| && 0 <= j < |points| && r == norm(Sub(points[i], points[j]))
  {
    var ds := AllPairDistances(points, points, norm);
    assert |ds| == |points| * |points| > 0;
    var r := SeqMax(ds);
    forall i, j | 0 <= i < |points| && 0 <= j < |points|
      ensures norm(Sub(points[i], points[j])) <= r
    {
      PairDistanceListed(points, points, norm, i, j);
    }
    ListedIsPairDistance(points, points, norm, r);
    r
  }

  ghost predicate IsLeast(m: real, s: set<real>)
  {
    m in s && forall x :: x in s ==> m <= x
  }

  lemma HasElement(s: set<real>)
    ensures s != {} ==> exists y :: y in s
  {
    if forall y :: y !in s { assert s == {}; }
  }

  lemma {:induction false} LeastExists(s: set<real>)
    requires s != {}
    ensures exists m :: IsLeast(m, s)
    decreases |s|
  {
    HasElement(s);
    var y :| y in s;
    if s == {y} {
      assert IsLeast(y, s);
    } else {
      var rest := s - {y};
      LeastExists(rest);
      var m :| IsLeast(m, rest);
      if y < m {
        forall x | x in s ensures y <= x { if x != y { assert x in rest; } }
        assert IsLeast(y, s);
      } else {
        forall x | x in s ensures m <= x { if x != y { assert x in rest; } }
        assert IsLeast(m, s);
      }
    }
  }

  /** The least element of a finite non-empty set of reals (OrderBy, then First). */
  ghost function SetMin(s: set<real>): (m: real)
    requires s != {}
    ensures m in s
    ensures forall x :: x in s ==> m <= x
  {
    LeastExists(s);
    var m :| IsLeast(m, s);
    m
  }

  /** The third smallest element: OrderBy(x => x).Skip(2).First(). */
  ghost function ThirdSmallest(s: set<real>): (r: real)
    requires |s| >= 3
    ensures r in s
    ensures |set x | x in s && x < r| == 2
  {
    var m0 := SetMin(s);
    var s1 := s - {m0};
    assert |s1| == |s| - 1;
    var m1 := SetMin(s1);
    var s2 := s1 - {m1};
    assert |s2| == |s1| - 1;
    var m2 := SetMin(s2);
    assert m0 < m1 < m2;
    forall x | x in s && x < m2 ensures x == m0 || x == m1 {
      assert x !in s2;
    }
    assert (set x | x in s && x < m2) == {m0, m1};
    m2
  }

  /** The rounded distances of all ordered button pairs, without repeats
      (Select with Math.Round, then Distinct). */
  function RoundedDistances(points: seq<Vec3>, norm: Vec3 -> real, round: real -> real): set<real>
  {
    set d | d in AllPairDistances(points, points, norm) :: round(d)
  }

  /** GetDiagonalDistance: sort the distinct rounded distances, skip two and
      take the first, or the float default 0 when fewer than three exist. */
  ghost function DiagonalDistance(points: seq<Vec3>, norm: Vec3 -> real, round: real -> real): (r: real)
    ensures var s := RoundedDistances(points, norm, round);
      (|s| < 3 ==> r == 0.0) &&
      (|s| >= 3 ==> r in s && |set x | x in s && x < r| == 2)
  {
    var s := RoundedDistances(points, norm, round);
    if |s| < 3 then 0.0 else ThirdSmallest(s)
  }

  /** The self-pair of any button is among the distances, so Math.Round(0)
      is always one of the distinct values. */
  lemma SelfPairRounded(points: seq<Vec3>, norm: Vec3 -> real, round: real -> real)
    requires |points| > 0 && IsNorm(norm)
    ensures round(0.0) in RoundedDistances(points, norm, round)
  {
    PairDistanceListed(points, points, norm, 0, 0);
    assert Sub(points[0], points[0]) == Zero;
    NormZero(norm);
  }

  class Button {
    var interactable: bool

    constructor (interactable: bool)
      ensures this.interactable == interactable
    {
      this.interactable := interactable;
    }
  }

  class Keypad {
    const buttons: seq<Button>
    /** The PIN shown on the keypad (the list handed to SetPin). */
    var pin: seq<int>
    /** The text of the PIN label. */
    var pinText: string
    /** gameObject.activeSelf */
    var active: bool
    /** transform.position */
    var position: Vec3

    constructor (buttons: seq<Button>, position: Vec3)
      ensures this.buttons == buttons && this.position == position
      ensures pin == [] && pinText == "" && active
    {
      this.buttons := buttons;
      this.position := position;
      pin := [];
      pinText := "";
      active := true;
    }

    /** SetPin: stores the digits and shows them joined without separator. */
    method SetPin(digits: seq<int>)
      modifies this`pin, this`pinText
      ensures pin == digits && pinText == ConcatInts(digits)
      ensures active == old(active) && position == old(position)
    {
      pin := digits;
      pinText := ConcatInts(digits);
    }

    /** HighlightPinDigit, given the number of PIN entries typed so far. */
    method HighlightPinDigit(inputCount: nat)
      modifies this
      ensures var text := ConcatInts(pin);
        pinText == if inputCount >= |text| then old(pinText) else Highlighted(text, inputCount)
      ensures inputCount < |ConcatInts(pin)| ==> StripTags(pinText) == ConcatInts(pin)
      ensures pin == old(pin) && active == old(active) && position == old(position)
    {
      var text := ConcatInts(pin);
      if inputCount >= |text| {
        return;
      }
      pinText := text[..inputCount] + OpenTag + [text[inputCount]] + CloseTag + text[inputCount + 1..];
      HighlightRoundTrip(text, inputCount);
    }

    /** ActivateAllButtons: sets every button's interactable flag. */
    method ActivateAllButtons(value: bool)
      modifies set b | b in buttons
      ensures forall b :: b in buttons ==> b.interactable == value
    {
      var i := 0;
      while i < |buttons|
        invariant 0 <= i <= |buttons|
        invariant forall j :: 0 <= j < i ==> buttons[j].interactable == value
      {
        buttons[i].interactable := value;
        i := i + 1;
      }
    }
  }
}
