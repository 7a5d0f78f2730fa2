/** The hour window of `getUsersToNotify` (backend/functions/message-sender/index.ts and
    backend/functions/message_sender/index.ts): the current UTC hour and the next one,
    printed as `HH:00:00`. Postgres compares `utc_notification_time`, a time of day, with
    these texts as times, so a time is modelled as its seconds after midnight and a text by
    the seconds it denotes. */
module NotificationWindow {

  import opened Text

  /** `h.toString().padStart(2, "0") + ":00:00"`; Postgres also reads `24:00:00`, the end of
      the day. */
  function HourText(h: nat): string
    requires h <= 24
  {
    PadStart2(NatToString(h)) + ":00:00"
  }

  predicate IsClockText(s: string) {
    |s| == 8 && AllDigits(s[..2]) && s[2] == ':' && AllDigits(s[3..5]) && s[5] == ':' && AllDigits(s[6..])
  }

  /** The seconds after midnight of a `HH:MM:SS` text. */
  function Seconds(s: string): nat
    requires IsClockText(s)
  {
    ParseDigits(s[..2]) * 3600 + ParseDigits(s[3..5]) * 60 + ParseDigits(s[6..])
  }

  lemma ParseTwo(a: char, b: char)
    requires IsDigit(a) && IsDigit(b)
    ensures AllDigits([a, b]) && ParseDigits([a, b]) == DigitValue(a) * 10 + DigitValue(b)
  {
    assert [a, b][..1] == [a];
    assert [a][..0] == [];
    assert ParseDigits([a]) == DigitValue(a);
  }

  /** The text of hour `h` is a clock text that denotes `h` hours. */
  lemma HourTextSeconds(h: nat)
    requires h <= 24
    ensures IsClockText(HourText(h)) && Seconds(HourText(h)) == h * 3600
  {
    var d := PadStart2(NatToString(h));
    if h < 10 {
      assert NatToString(h) == [DigitChar(h)];
      assert PadStart2(NatToString(h)) == "0" + [DigitChar(h)];
      assert d == ['0', DigitChar(h)];
      ParseTwo('0', DigitChar(h));
    } else {
      assert NatToString(h / 10) == [DigitChar(h / 10)];
      assert NatToString(h) == [DigitChar(h / 10), DigitChar(h % 10)];
      assert d == [DigitChar(h / 10), DigitChar(h % 10)];
      ParseTwo(DigitChar(h / 10), DigitChar(h % 10));
    }
    var s := HourText(h);
    assert s[..2] == d;
    assert s[3..5] == "00" && s[6..] == "00";
    ParseTwo('0', '0');
  }

  /** The selection `start <= utc_notification_time < end` on times of day. */
  predicate Selects(window: (string, string), t: nat)
    requires IsClockText(window.0) && IsClockText(window.1)
  {
    Seconds(window.0) <= t < Seconds(window.1)
  }

  /** As written: the end is the hour of `setUTCHours(h + 1)`, which rolls over to `00` after
      hour 23. */
  function WindowAsWritten(h: nat): (w: (string, string))
    requires h < 24
    ensures IsClockText(w.0) && IsClockText(w.1)
    ensures Seconds(w.0) == h * 3600 && Seconds(w.1) == (h + 1) % 24 * 3600
  {
    HourTextSeconds(h);
    HourTextSeconds((h + 1) % 24);
    (HourText(h), HourText((h + 1) % 24))
  }

  /** Corrected: the window of hour 23 ends at `24:00:00`, the end of the day. */
  function Window(h: nat): (w: (string, string))
    requires h < 24
    ensures IsClockText(w.0) && IsClockText(w.1)
    ensures Seconds(w.0) == h * 3600 && Seconds(w.1) == (h + 1) * 3600
  {
    var next := h + 1;
    HourTextSeconds(h);
    HourTextSeconds(next);
    (HourText(h), HourText(next))
  }

  /** As written, a run selects somebody only before hour 23: the last run's window ends
      where the day begins. */
  lemma OnlyEarlierRunsSelect(h: nat, t: nat)
    requires h < 24
    ensures Selects(WindowAsWritten(h), t) ==> h < 23
  {
    var w := WindowAsWritten(h);
    if h == 23 {
      assert Seconds(w.1) == 0;
    }
  }

  /** As written the run at hour 23 selects nobody: its window ends at `HourText(0)`,
      00:00:00 (`Hour0Text`), no later than its start, 23:00:00 (`Hour23Text`). */
  lemma Hour23SelectsNobody(h: nat, t: nat)
    requires h == 23
    ensures !Selects(WindowAsWritten(h), t)
  {
    OnlyEarlierRunsSelect(h, t);
  }

  lemma Hour0Text(h: nat)
    requires h == 0
    ensures HourText(h) == "00:00:00"
  {
    var z := NatToString(0);
    assert z == [DigitChar(0)];
    assert DigitChar(0) == '0';
    assert "0" + z == ['0', '0'];
    assert PadStart2(z) == ['0', '0'];
  }

  lemma Hour23Text(h: nat)
    requires h == 23
    ensures HourText(h) == "23:00:00"
  {
    assert NatToString(2) == [DigitChar(2)];
    assert NatToString(23) == [DigitChar(2), DigitChar(3)];
    assert DigitChar(2) == '2' && DigitChar(3) == '3';
    assert PadStart2(['2', '3']) == ['2', '3'];
  }

  /** So a notification time in the last hour of the day is never selected, whatever the
      hour of the run: 23:30:00 is one. */
  lemma LastHourNeverSelected(t: nat, h: nat)
    requires 23 * 3600 <= t < 24 * 3600 && h < 24
    ensures !Selects(WindowAsWritten(h), t)
  {
  }

  /** Corrected, every time of day is selected by exactly one run: the one of its own hour. */
  lemma ExactlyOneWindow(t: nat, h: nat)
    requires t < 24 * 3600 && h < 24
    ensures Selects(Window(h), t) <==> h == t / 3600
  {
  }

  /** Both windows agree for every hour but the last. */
  lemma WindowsAgree(h: nat)
    requires h < 23
    ensures WindowAsWritten(h) == Window(h)
  {
    assert (h + 1) % 24 == h + 1;
  }
}
