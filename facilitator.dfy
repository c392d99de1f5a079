/** The outreach page of the facilitator section: an image lightbox with
    keyboard navigation over sixteen images, and the tab and sub-menu state of
    the workshop and nodal-centre panels, where a workshop year is carried in
    an option id of the form `data-<year>`. */
module Facilitator {
  import opened Common

  /** The length of the `images` list. */
  const ImageCount := 16

  /** The workshop sub-menu ids and the years listed under "Workshop Data by Year". */
  const WorkshopOptionIds: seq<string> := ["request", "report", "summary"]
  const WorkshopYears: seq<int> := [2024, 2023, 2022, 2021, 2020, 2019, 2018]
  const NodalOptionIds: seq<string> := ["become", "summary", "data"]

  /** JavaScript `a % b` for a positive `b`: the remainder takes the sign of `a`. */
  function JsRemainder(a: int, b: int): (r: int)
    requires b > 0
    ensures a >= 0 ==> 0 <= r < b
    ensures a < 0 ==> -b < r <= 0
    ensures r == a - b * (if a >= 0 then a / b else -((-a) / b))
  {
    if a >= 0 then a % b else -((-a) % b)
  }

  /** `(selectedImage + direction + images.length) % images.length`. */
  function NavigateIndex(selected: int, direction: int): int {
    JsRemainder(selected + direction + ImageCount, ImageCount)
  }

  /** From an image on the list, a step back or forward lands on the list: on
      the neighbour, counted round the end. */
  lemma NavigateInRange(selected: int, direction: int)
    requires 0 <= selected < ImageCount && (direction == 1 || direction == -1)
    ensures 0 <= NavigateIndex(selected, direction) < ImageCount
    ensures NavigateIndex(selected, direction) == (selected + direction) % ImageCount
  {
  }

  /** Forward from the last image gives the first, back from the first the last. */
  lemma NavigateWraps()
    ensures NavigateIndex(ImageCount - 1, 1) == 0
    ensures NavigateIndex(0, -1) == ImageCount - 1
  {
  }

  /** A step forward and a step back cancel, in either order. */
  lemma NavigateInverse(selected: int)
    requires 0 <= selected < ImageCount
    ensures NavigateIndex(NavigateIndex(selected, 1), -1) == selected
    ensures NavigateIndex(NavigateIndex(selected, -1), 1) == selected
  {
  }

  /** Sixteen steps forward visit every image once and return to the start. */
  lemma {:induction false} NavigateRound(selected: int, steps: nat)
    requires 0 <= selected < ImageCount
    ensures Forward(selected, steps) == (selected + steps) % ImageCount
  {
    if steps > 0 {
      NavigateRound(selected, steps - 1);
      NavigateInRange(Forward(selected, steps - 1), 1);
    }
  }

  /** The image reached by `steps` presses of ArrowRight. */
  function Forward(selected: int, steps: nat): int {
    if steps == 0 then selected else NavigateIndex(Forward(selected, steps - 1), 1)
  }

  /** `${n}` for a natural number: decimal digits without leading zeros. */
  function NatToString(n: nat): (r: string)
    ensures |r| > 0 && forall i :: 0 <= i < |r| ==> '0' <= r[i] <= '9'
  {
    if n < 10 then [DigitChar(n)] else NatToString(n / 10) + [DigitChar(n % 10)]
  }

  function DigitChar(d: nat): (c: char)
    requires d < 10
    ensures '0' <= c <= '9'
  {
    (('0' as int) + d) as char
  }

  /** `${n}` for an integer. */
  function IntToString(n: int): string {
    if n < 0 then "-" + NatToString(-n) else NatToString(n)
  }

  /** `s.replace(pattern, replacement)` with a string pattern: only the first
      occurrence is replaced. */
  function Replace(s: string, pattern: string, replacement: string): string {
    if pattern <= s then replacement + s[|pattern|..]
    else if s == [] then s
    else [s[0]] + Replace(s[1..], pattern, replacement)
  }

  predicate IsDigit(c: char) {
    '0' <= c <= '9'
  }

  function DigitValue(c: char): nat
    requires IsDigit(c)
  {
    (c as int) - ('0' as int)
  }

  /** The longest prefix of decimal digits. */
  function DigitPrefix(s: string): (r: string)
    ensures r <= s
    ensures forall i :: 0 <= i < |r| ==> IsDigit(r[i])
    ensures |r| < |s| ==> !IsDigit(s[|r|])
  {
    if s != [] && IsDigit(s[0]) then [s[0]] + DigitPrefix(s[1..]) else []
  }

  /** The value of a string of decimal digits. */
  function DigitsValue(s: string): nat
    requires forall i :: 0 <= i < |s| ==> IsDigit(s[i])
  {
    if s == [] then 0 else DigitsValue(s[..|s| - 1]) * 10 + DigitValue(s[|s| - 1])
  }

  /** `parseInt(s)` on a string without leading white space or a hexadecimal
      prefix: an optional sign and the decimal digits after it; no digit at all
      gives `NaN`, here `None`. */
  function ParseInt(s: string): Option<int> {
    var negative := s != [] && s[0] == '-';
    var rest := if s != [] && (s[0] == '-' || s[0] == '+') then s[1..] else s;
    var digits := DigitPrefix(rest);
    if digits == [] then None
    else
      var value: int := DigitsValue(digits);
      Some(if negative then -value else value)
  }

  lemma {:induction false} DigitPrefixOfDigits(s: string)
    requires forall i :: 0 <= i < |s| ==> IsDigit(s[i])
    ensures DigitPrefix(s) == s
  {
    if s != [] {
      DigitPrefixOfDigits(s[1..]);
    }
  }

  lemma {:induction false} NatToStringValue(n: nat)
    ensures DigitsValue(NatToString(n)) == n
  {
    if n >= 10 {
      NatToStringValue(n / 10);
      var s := NatToString(n);
      assert s[..|s| - 1] == NatToString(n / 10);
    }
  }

  /** A non-empty run of digits reads as its value. */
  lemma ParseIntOfDigits(t: string)
    requires t != [] && forall i :: 0 <= i < |t| ==> IsDigit(t[i])
    ensures ParseInt(t) == Some(DigitsValue(t) as int)
  {
    DigitPrefixOfDigits(t);
    assert t[0] != '-' && t[0] != '+';
  }

  /** A minus sign before a non-empty run of digits reads as the negated value. */
  lemma ParseIntOfNegatedDigits(t: string)
    requires t != [] && forall i :: 0 <= i < |t| ==> IsDigit(t[i])
    ensures ParseInt("-" + t) == Some(-(DigitsValue(t) as int))
  {
    var s := "-" + t;
    assert s != [] && s[0] == '-';
    assert s[1..] == t;
    DigitPrefixOfDigits(t);
    assert DigitPrefix(s[1..]) == t;
  }

  /** `Number.MAX_SAFE_INTEGER`: beyond it a JavaScript number no longer holds
      every integer, and from 1e21 on `${n}` uses exponent notation. */
  const MaxSafeInteger := 9007199254740991

  /** `parseInt` reads back what `${n}` writes, for every safe integer. */
  lemma ParseIntToString(n: int)
    requires -MaxSafeInteger <= n <= MaxSafeInteger
    ensures ParseInt(IntToString(n)) == Some(n)
  {
    var m: nat := if n < 0 then -n else n;
    var t := NatToString(m);
    NatToStringValue(m);
    if n < 0 {
      assert IntToString(n) == "-" + t;
      ParseIntOfNegatedDigits(t);
    } else {
      assert IntToString(n) == t;
      ParseIntOfDigits(t);
    }
  }

  /** The option id a year button stores. */
  function YearOption(year: int): string {
    "data-" + IntToString(year)
  }

  /** The decode of the data panel: the year handed to the workshop table. */
  function DecodeYear(option: string): Option<int> {
    ParseInt(Replace(option, "data-", ""))
  }

  /** Decoding a year option gives back the year, and its title shows the year
      as written. */
  lemma YearRoundTrip(year: int)
    requires -MaxSafeInteger <= year <= MaxSafeInteger
    ensures "data-" <= YearOption(year)
    ensures Replace(YearOption(year), "data-", "") == IntToString(year)
    ensures DecodeYear(YearOption(year)) == Some(year)
  {
    ParseIntToString(year);
  }

  /** Which workshop panel is shown. */
  datatype WorkshopPanel = WorkshopMenu | RequestForm | ReportForm | DataSummary | YearData(year: Option<int>) | BlankWorkshop

  /** An option id with the `data-` prefix is none of the three sub-menu ids. */
  lemma DataOptionIsNoMenuId(option: Option<string>)
    ensures option.Some? && "data-" <= option.value ==>
      option.value !in WorkshopOptionIds && option.value != ""
  {
    if option.Some? && "data-" <= option.value {
      assert option.value[0] == 'd';
    }
  }

  function WorkshopPanelFor(option: Option<string>): (p: WorkshopPanel)
    ensures p == WorkshopMenu <==> option.None? || option.value == ""
    ensures option.Some? && "data-" <= option.value ==> p == YearData(DecodeYear(option.value))
  {
    DataOptionIsNoMenuId(option);
    if option.None? || option.value == "" then WorkshopMenu
    else if option.value == "request" then RequestForm
    else if option.value == "report" then ReportForm
    else if option.value == "summary" then DataSummary
    else if "data-" <= option.value then YearData(DecodeYear(option.value))
    else BlankWorkshop
  }

  /** Which nodal-centre panel is shown. */
  datatype NodalPanel = NodalMenu | BecomeForm | NodalSummary | NodalData | BlankNodal

  function NodalPanelFor(option: Option<string>): (p: NodalPanel)
    ensures p == NodalMenu <==> option.None? || option.value == ""
  {
    if option.None? || option.value == "" then NodalMenu
    else if option.value == "become" then BecomeForm
    else if option.value == "summary" then NodalSummary
    else if option.value == "data" then NodalData
    else BlankNodal
  }

  /** Each menu entry opens its own panel: the three workshop options their
      forms, every year the data of that year. */
  lemma PanelsOpened(year: int)
    requires -MaxSafeInteger <= year <= MaxSafeInteger
    ensures WorkshopPanelFor(Some(WorkshopOptionIds[0])) == RequestForm
    ensures WorkshopPanelFor(Some(WorkshopOptionIds[1])) == ReportForm
    ensures WorkshopPanelFor(Some(WorkshopOptionIds[2])) == DataSummary
    ensures WorkshopPanelFor(Some(YearOption(year))) == YearData(Some(year))
    ensures NodalPanelFor(Some(NodalOptionIds[0])) == BecomeForm
    ensures NodalPanelFor(Some(NodalOptionIds[1])) == NodalSummary
    ensures NodalPanelFor(Some(NodalOptionIds[2])) == NodalData
  {
    YearPanelOpened(year);
  }

  /** A year button opens the data panel of that year. */
  lemma YearPanelOpened(year: int)
    requires -MaxSafeInteger <= year <= MaxSafeInteger
    ensures WorkshopPanelFor(Some(YearOption(year))) == YearData(Some(year))
  {
    var option := YearOption(year);
    YearRoundTrip(year);
    assert "data-" <= option;
    assert WorkshopPanelFor(Some(option)) == YearData(DecodeYear(option));
  }

  /** The page state the handlers assign. */
  class OutreachPage {
    var selectedImage: Option<int>
    var isLightboxOpen: bool
    var activeTab: string
    var activeWorkshopOption: Option<string>
    var activeNodalOption: Option<string>
    var bodyOverflow: string  // `document.body.style.overflow`

    /** A selected image is one of the sixteen. */
    ghost predicate SelectionInRange()
      reads this
    {
      selectedImage.Some? ==> 0 <= selectedImage.value < ImageCount
    }

    constructor ()
      ensures selectedImage.None? && !isLightboxOpen && activeTab == "gallery"
      ensures activeWorkshopOption.None? && activeNodalOption.None?
      ensures SelectionInRange()
    {
      selectedImage, isLightboxOpen, activeTab := None, false, "gallery";
      activeWorkshopOption, activeNodalOption := None, None;
      bodyOverflow := "";
    }

    /** `openLightbox(index)`. */
    method OpenLightbox(index: int)
      modifies this`selectedImage, this`isLightboxOpen, this`bodyOverflow
      ensures selectedImage == Some(index) && isLightboxOpen && bodyOverflow == "hidden"
      ensures 0 <= index < ImageCount ==> SelectionInRange()
    {
      selectedImage := Some(index);
      isLightboxOpen := true;
      bodyOverflow := "hidden";
    }

    /** `closeLightbox`: the selection is kept. */
    method CloseLightbox()
      modifies this`isLightboxOpen, this`bodyOverflow
      ensures !isLightboxOpen && bodyOverflow == "auto"
    {
      isLightboxOpen := false;
      bodyOverflow := "auto";
    }

    /** `navigateLightbox(direction)`: nothing without a selection. */
    method NavigateLightbox(direction: int)
      modifies this`selectedImage
      ensures old(selectedImage).None? ==> selectedImage.None?
      ensures old(selectedImage).Some? ==> selectedImage == Some(NavigateIndex(old(selectedImage).value, direction))
      ensures old(SelectionInRange()) && (direction == 1 || direction == -1) ==> SelectionInRange()
    {
      if selectedImage.Some? {
        if 0 <= selectedImage.value < ImageCount && (direction == 1 || direction == -1) {
          NavigateInRange(selectedImage.value, direction);
        }
        selectedImage := Some(NavigateIndex(selectedImage.value, direction));
      }
    }

    /** The keydown listener: ignored while the lightbox is closed; Escape
        closes, ArrowLeft goes back and ArrowRight forward. */
    method HandleKeyDown(key: string)
      modifies this`selectedImage, this`isLightboxOpen, this`bodyOverflow
      ensures !old(isLightboxOpen) ==>
        selectedImage == old(selectedImage) && !isLightboxOpen && bodyOverflow == old(bodyOverflow)
      ensures old(isLightboxOpen) && key == "Escape" ==>
        !isLightboxOpen && bodyOverflow == "auto" && selectedImage == old(selectedImage)
      ensures old(isLightboxOpen) && (key == "ArrowLeft" || key == "ArrowRight") ==>
        isLightboxOpen && bodyOverflow == old(bodyOverflow)
        && (old(selectedImage).None? ==> selectedImage == old(selectedImage))
      ensures old(isLightboxOpen) && key == "ArrowLeft" && old(selectedImage).Some? ==>
        isLightboxOpen && selectedImage == Some(NavigateIndex(old(selectedImage).value, -1))
      ensures old(isLightboxOpen) && key == "ArrowRight" && old(selectedImage).Some? ==>
        isLightboxOpen && selectedImage == Some(NavigateIndex(old(selectedImage).value, 1))
      ensures old(isLightboxOpen) && key != "Escape" && key != "ArrowLeft" && key != "ArrowRight" ==>
        isLightboxOpen && selectedImage == old(selectedImage) && bodyOverflow == old(bodyOverflow)
      ensures old(SelectionInRange()) ==> SelectionInRange()
    {
      if !isLightboxOpen {
        return;
      }
      if key == "Escape" {
        CloseLightbox();
      }
      if key == "ArrowLeft" {
        NavigateLightbox(-1);
      }
      if key == "ArrowRight" {
        NavigateLightbox(1);
      }
    }

    /** `handleWorkshopOptionSelect(optionId)`. */
    method HandleWorkshopOptionSelect(optionId: string)
      modifies this`activeWorkshopOption, this`activeTab
      ensures activeWorkshopOption == Some(optionId) && activeTab == "workshops"
    {
      activeWorkshopOption := Some(optionId);
      activeTab := "workshops";
    }

    /** `handleWorkshopYearSelect(year)`: the workshop tab with the data panel of
        that year. */
    method HandleWorkshopYearSelect(year: int)
      modifies this`activeWorkshopOption, this`activeTab
      ensures activeWorkshopOption == Some(YearOption(year)) && activeTab == "workshops"
      ensures -MaxSafeInteger <= year <= MaxSafeInteger ==>
        WorkshopPanelFor(activeWorkshopOption) == YearData(Some(year))
    {
      if -MaxSafeInteger <= year <= MaxSafeInteger {
        YearPanelOpened(year);
      }
      activeWorkshopOption := Some("data-" + IntToString(year));
      activeTab := "workshops";
    }

    /** `handleNodalOptionSelect(optionId)`. */
    method HandleNodalOptionSelect(optionId: string)
      modifies this`activeNodalOption, this`activeTab
      ensures activeNodalOption == Some(optionId) && activeTab == "nodal"
    {
      activeNodalOption := Some(optionId);
      activeTab := "nodal";
    }

    /** A tab button. */
    method SelectTab(tab: string)
      modifies this`activeTab
      ensures activeTab == tab
    {
      activeTab := tab;
    }

    /** The back button of a workshop panel. */
    method BackToWorkshopMenu()
      modifies this`activeWorkshopOption
      ensures activeWorkshopOption.None? && WorkshopPanelFor(activeWorkshopOption) == WorkshopMenu
    {
      activeWorkshopOption := None;
    }

    /** The back button of a nodal-centre panel. */
    method BackToNodalMenu()
      modifies this`activeNodalOption
      ensures activeNodalOption.None? && NodalPanelFor(activeNodalOption) == NodalMenu
    {
      activeNodalOption := None;
    }
  }
}
