/**
 * The settings screen: the preset session lengths, the custom length
 * entered as text and validated before it is stored, the auto-start
 * switch and the date format.
 *
 * The alert shown for rejected input is the returned `DurationError`.
 */
module Settings {
  import opened Data
  import opened Numbers
  import opened MainSlice

  /** The preset session lengths, in minutes. */
  const DURATIONS: seq<int> := [15, 25, 45, 55]

  /** Why a custom length was refused, in the order the checks run. */
  datatype DurationError = InvalidNumber | TooShort | TooLong

  /**
   * `handleSaveCustomDuration`'s checks: the text must parse as an integer
   * and not be blank, then the number must be at least 1 and at most 120.
   */
  function ValidateCustomDuration(input: string): (r: Result<int, DurationError>)
    ensures r.Success? <==> ParseInt(input).Some? && 1 <= ParseInt(input).value <= 120
    ensures r.Success? ==> r.value == ParseInt(input).value && 1 <= r.value <= 120
    ensures r == Failure(InvalidNumber) <==> ParseInt(input).None?
    ensures r == Failure(TooShort) <==> ParseInt(input).Some? && ParseInt(input).value < 1
    ensures r == Failure(TooLong) <==> ParseInt(input).Some? && ParseInt(input).value > 120
  {
    ParsedIsNotBlank(input);
    var duration := ParseInt(input);
    if duration.None? || Trim(input) == "" then Failure(InvalidNumber)
    else if duration.value < 1 then Failure(TooShort)
    else if duration.value > 120 then Failure(TooLong)
    else Success(duration.value)
  }

  /**
   * Text that parses is never blank, so the blank check after the parse
   * refuses nothing the parse accepts.
   */
  lemma ParsedIsNotBlank(s: string)
    ensures ParseInt(s).Some? ==> Trim(s) != ""
  {
    if Trim(s) == "" {
      TrimEmptyIffBlank(s);
      TrimStartEmptyIffBlank(s);
    }
  }

  /**
   * Every length from 1 to 120, written out as `toString()` writes it, is
   * accepted as itself; in particular opening the dialog (which fills in
   * the current length) and saving keeps a length in that range.
   */
  lemma ValidLengthsRoundTrip(d: int)
    requires 1 <= d <= 120
    ensures ValidateCustomDuration(NumberToString(d)) == Success(d)
  {
    ParseIntOfNumberToString(d);
  }

  /** Lengths outside 1..120, written out, are refused with the matching reason. */
  lemma OutOfRangeRefused(d: int)
    ensures d < 1 ==> ValidateCustomDuration(NumberToString(d)) == Failure(TooShort)
    ensures d > 120 ==> ValidateCustomDuration(NumberToString(d)) == Failure(TooLong)
  {
    ParseIntOfNumberToString(d);
  }

  /**
   * `parseInt` stops at the first non-digit, so text after the digits is
   * ignored: "30m" is accepted as 30.
   */
  lemma TrailingTextIgnored(digits: string, rest: string)
    requires |digits| > 0 && AllDigits(digits)
    requires |rest| > 0 ==> !IsDigit(rest[0])
    ensures ValidateCustomDuration(digits + rest) == ValidateCustomDuration(digits)
  {
    ParseIntIgnoresTrailing(digits, rest);
    ParseIntIgnoresTrailing(digits, "");
    assert digits + "" == digits;
  }

  /** Leading white space is skipped: " 7" is accepted as 7. */
  lemma LeadingSpaceSkipped(ws: string, s: string)
    requires forall i :: 0 <= i < |ws| ==> IsWhitespace(ws[i])
    ensures ValidateCustomDuration(ws + s) == ValidateCustomDuration(s)
  {
    ParseIntSkipsLeadingSpace(ws, s);
  }

  /** Text without any digit, the empty field among it, is not a number. */
  lemma NoDigitsRefused(s: string)
    requires forall i :: 0 <= i < |s| ==> !IsDigit(s[i])
    ensures ValidateCustomDuration(s) == Failure(InvalidNumber)
  {
  }

  // ---------------------------------------------------------------------
  // The length buttons

  /**
   * Whether each length button is highlighted: the presets in order, then
   * the custom button, which is highlighted when the length is no preset.
   */
  function HighlightedButtons(timeDuration: int): seq<bool> {
    seq(|DURATIONS|, i requires 0 <= i < |DURATIONS| => DURATIONS[i] == timeDuration)
      + [timeDuration !in DURATIONS]
  }

  /** The custom button shows the length when it is no preset, "+ Custom" otherwise. */
  datatype CustomLabel = ShowsMinutes(minutes: int) | PlusCustom

  function CustomButtonLabel(timeDuration: int): (r: CustomLabel)
    ensures r.ShowsMinutes? <==> HighlightedButtons(timeDuration)[|DURATIONS|]
    ensures r.ShowsMinutes? ==> r.minutes == timeDuration
  {
    if timeDuration !in DURATIONS then ShowsMinutes(timeDuration) else PlusCustom
  }

  /** Whatever the stored length, exactly one length button is highlighted. */
  lemma ExactlyOneHighlighted(timeDuration: int)
    ensures var h := HighlightedButtons(timeDuration);
      |h| == |DURATIONS| + 1
      && exists k :: 0 <= k < |h| && h[k] && forall j :: 0 <= j < |h| && j != k ==> !h[j]
  {
    var h := HighlightedButtons(timeDuration);
    assert h == [timeDuration == 15, timeDuration == 25, timeDuration == 45, timeDuration == 55,
                 timeDuration !in DURATIONS];
    var k := if timeDuration == 15 then 0
             else if timeDuration == 25 then 1
             else if timeDuration == 45 then 2
             else if timeDuration == 55 then 3
             else 4;
    assert h[k];
    assert forall j :: 0 <= j < |h| && j != k ==> !h[j];
  }

  // ---------------------------------------------------------------------
  // The screen

  class Screen {
    const store: MainStore
    /** Whether the custom-length sheet is open. */
    var showCustomModal: bool
    /** The text in the custom-length field. */
    var customDuration: string

    constructor (store: MainStore)
      ensures this.store == store && !showCustomModal && customDuration == ""
    {
      this.store := store;
      showCustomModal := false;
      customDuration := "";
    }

    /** `changeTimeDuration`: stores the length as given (the presets call it). */
    method ChangeTimeDuration(time: int)
      modifies store`timeDuration, store`autoStartTimer, store`dateFormat
      ensures store.timeDuration == time
      ensures store.autoStartTimer == old(store.autoStartTimer) && store.dateFormat == old(store.dateFormat)
    {
      store.ChangeSettings(SettingsPatch(Some(time), None, None));
    }

    /** `changeAutoStart`: flips the auto-start switch. */
    method ChangeAutoStart()
      modifies store`timeDuration, store`autoStartTimer, store`dateFormat
      ensures store.autoStartTimer == !old(store.autoStartTimer)
      ensures store.timeDuration == old(store.timeDuration) && store.dateFormat == old(store.dateFormat)
    {
      store.ChangeSettings(SettingsPatch(None, Some(!store.autoStartTimer), None));
    }

    /** `changeDateFormat`. */
    method ChangeDateFormat(format: DateFormat)
      modifies store`timeDuration, store`autoStartTimer, store`dateFormat
      ensures store.dateFormat == format
      ensures store.timeDuration == old(store.timeDuration) && store.autoStartTimer == old(store.autoStartTimer)
    {
      store.ChangeSettings(SettingsPatch(None, None, Some(format)));
    }

    /** `handleOpenCustomModal`: the field starts with the current length. */
    method OpenCustomModal()
      modifies this`showCustomModal, this`customDuration
      ensures showCustomModal && customDuration == NumberToString(store.timeDuration)
    {
      customDuration := NumberToString(store.timeDuration);
      showCustomModal := true;
    }

    /** The field's `onChangeText`. */
    method EnterText(text: string)
      modifies this`customDuration
      ensures customDuration == text
    {
      customDuration := text;
    }

    /**
     * `handleSaveCustomDuration`: an accepted length is stored and the sheet
     * closed with the field cleared; a refused one raises the alert and
     * changes nothing.
     */
    method SaveCustomDuration() returns (alert: Option<DurationError>)
      modifies this`showCustomModal, this`customDuration
      modifies store`timeDuration, store`autoStartTimer, store`dateFormat
      ensures store.autoStartTimer == old(store.autoStartTimer) && store.dateFormat == old(store.dateFormat)
      ensures match ValidateCustomDuration(old(customDuration))
        case Success(d) =>
          alert.None? && store.timeDuration == d && !showCustomModal && customDuration == ""
        case Failure(e) =>
          alert == Some(e) && store.timeDuration == old(store.timeDuration)
          && showCustomModal == old(showCustomModal) && customDuration == old(customDuration)
    {
      var checked := ValidateCustomDuration(customDuration);
      if checked.Failure? {
        alert := Some(checked.error);
        return;
      }
      ChangeTimeDuration(checked.value);
      showCustomModal := false;
      customDuration := "";
      alert := None;
    }

    /** `handleCancelCustomDuration`, also run when the sheet is dismissed. */
    method CancelCustomDuration()
      modifies this`showCustomModal, this`customDuration
      ensures !showCustomModal && customDuration == ""
    {
      showCustomModal := false;
      customDuration := "";
    }
  }
}
