/** The timer dialog's rendering of the remaining time: minutes, a colon and
    seconds, each padded with '0' to two characters. */
module TimerDisplay {
  import Decimal

  /** One field of the display: the decimal numeral padded with '0' to at
      least two characters, never truncated. */
  function Field(n: nat): (r: string)
    ensures |r| >= 2
  {
    Decimal.PadStart(Decimal.ToDecimal(n), 2, '0')
  }

  /** The rendered remaining time: whole minutes, a colon, and the seconds
      within the minute. */
  function Display(total: nat): (r: string)
    ensures |r| >= 5
  {
    Field(total / 60) + ":" + Field(total % 60)
  }

  /** A field reads back as the number it renders. */
  lemma FieldValue(n: nat)
    ensures Decimal.ReadsAs(Field(n), n)
  {
    Decimal.ValueOfZeroPadded(Decimal.ToDecimal(n), 2);
    Decimal.ValueOfDecimal(n);
  }

  /** The display reads back as the total: the text before the last three
      characters is a numeral for the whole minutes, then comes a colon, and
      the last two characters are a numeral for the seconds within the
      minute. */
  lemma DisplayReadsBack(total: nat)
    ensures var r := Display(total);
      && r[|r| - 3] == ':'
      && Decimal.ReadsAs(r[..|r| - 3], total / 60)
      && Decimal.ReadsAs([r[|r| - 2], r[|r| - 1]], total % 60)
  {
    var m, sec := total / 60, total % 60;
    var a, b := Field(m), Field(sec);
    assert Display(total) == a + ":" + b;
    FieldValue(m);
    FieldValue(sec);
    FieldWidth(sec);
    SplitAtColon(Display(total), a, b, m, sec);
  }

  /** The minutes field is padded but never truncated: the display is five
      characters long exactly when fewer than 100 minutes remain. */
  lemma DisplayWidth(total: nat)
    ensures |Display(total)| == 5 <==> total < 6000
  {
    FieldWidth(total / 60);
    FieldWidth(total % 60);
  }

  /** A string made of a numeral, a colon and a two-digit numeral splits
      apart again at the colon. */
  lemma SplitAtColon(r: string, a: string, b: string, m: nat, sec: nat)
    requires r == a + ":" + b
    requires Decimal.ReadsAs(a, m) && Decimal.ReadsAs(b, sec) && |b| == 2
    ensures r[|r| - 3] == ':' && Decimal.ReadsAs(r[..|r| - 3], m)
    ensures Decimal.ReadsAs([r[|r| - 2], r[|r| - 1]], sec)
  {
    assert r[..|r| - 3] == a;
    assert [r[|r| - 2], r[|r| - 1]] == b;
  }

  lemma FieldWidth(n: nat)
    ensures |Field(n)| == 2 <==> n < 100
  {
    DecimalWidth(n);
  }

  lemma {:induction false} DecimalWidth(n: nat)
    ensures |Decimal.ToDecimal(n)| <= 2 <==> n < 100
  {
    if n >= 10 {
      DecimalWidth(n / 10);
    }
  }

  /** The display for 80, 0 and 600 seconds and for the largest total the
      inputs allow (999 minutes 59 seconds). */
  lemma DisplayExamples()
    ensures Display(80) == "01:20"
    ensures Display(0) == "00:00"
    ensures Display(600) == "10:00"
    ensures Display(59999) == "999:59"
  {
    FieldExamples();
    JoinExamples();
    DisplayExample(80, 1, 20, "01", "20", "01:20");
    DisplayExample(0, 0, 0, "00", "00", "00:00");
    DisplayExample(600, 10, 0, "10", "00", "10:00");
    DisplayExample(59999, 999, 59, "999", "59", "999:59");
  }

  lemma DisplayExample(total: nat, m: nat, sec: nat, a: string, b: string, s: string)
    requires total == 60 * m + sec && sec < 60
    requires Field(m) == a && Field(sec) == b && a + ":" + b == s
    ensures Display(total) == s
  {
    DivideByMinute(total, m, sec);
  }

  lemma JoinExamples()
    ensures "01" + ":" + "20" == "01:20" && "00" + ":" + "00" == "00:00"
    ensures "10" + ":" + "00" == "10:00" && "999" + ":" + "59" == "999:59"
  {
  }

  lemma DivideByMinute(total: nat, m: nat, sec: nat)
    requires total == 60 * m + sec && sec < 60
    ensures total / 60 == m && total % 60 == sec
  {
  }

  lemma FieldExamples()
    ensures Field(0) == "00" && Field(1) == "01" && Field(10) == "10"
    ensures Field(20) == "20" && Field(59) == "59" && Field(999) == "999"
  {
    DecimalExamples();
    FieldOfDigit(0);
    FieldOfDigit(1);
    assert Field(10) == "10";
    assert Field(20) == "20";
    assert Field(59) == "59";
    assert Field(999) == "999";
  }

  lemma FieldOfDigit(n: nat)
    requires n < 10
    ensures Field(n) == ['0', Decimal.DigitChar(n)]
  {
    PadExample([Decimal.DigitChar(n)]);
  }

  lemma PadExample(d: string)
    requires |d| == 1
    ensures Decimal.PadStart(d, 2, '0') == ['0'] + d
  {
  }

  lemma DecimalExamples()
    ensures Decimal.ToDecimal(0) == "0" && Decimal.ToDecimal(1) == "1"
    ensures Decimal.ToDecimal(10) == "10" && Decimal.ToDecimal(20) == "20"
    ensures Decimal.ToDecimal(59) == "59" && Decimal.ToDecimal(999) == "999"
  {
    assert Decimal.ToDecimal(9) == "9";
    assert Decimal.ToDecimal(99) == "99";
  }
}
