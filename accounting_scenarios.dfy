/** The behaviour pkg/accounting/accounting_test.go checks on its sample
    line, stated over the model. */
module AccountingScenarios {
  import opened GoStrings
  import opened GoStrconv
  import opened GoTime
  import opened Accounting

  /** The bytes of an integer column. */
  function Number(n: int): Bytes
  {
    Text(FormatInt(n))
  }

  lemma NumberColumn(k: Kind, n: int)
    requires k == IntKind || k == Int64Kind
    requires MinInt64 <= n <= MaxInt64
    ensures DecodeColumn(k, Number(n)) == Int(n)
  {
    FormatIntChars(n);
    TextRoundTrip(FormatInt(n));
    ParseFormatInt(n);
  }

  /** The column text of the sample's ru_wallclock, which is not an
      integer. */
  const Wallclock: string := "62331.676"

  lemma WallclockColumn()
    ensures DecodeColumn(Int64Kind, Text(Wallclock)) == Int(0)
  {
    assert Wallclock[5] == '.';
    TextRoundTrip(Wallclock);
    assert !IsDecimal(BytesText(Text(Wallclock)));
    NonDecimalColumn(Int64Kind, Text(Wallclock));
  }

  /** A time column holding a millisecond count above the threshold. */
  lemma MillisColumn(ms: int)
    requires MillisThreshold < ms <= MaxInt64
    ensures DecodeColumn(TimeKind, Number(ms)) == Stamp(MsEpochTime(ms))
  {
    FormatIntChars(ms);
    TextRoundTrip(FormatInt(ms));
    ParseFormatInt(ms);
  }

  /** The submission time of the sample, in milliseconds. */
  const SubmissionMillis: int := 1448376371581

  lemma SubmissionColumn()
    ensures DecodeColumn(TimeKind, Number(SubmissionMillis)) == Stamp(Time(1448376371, 581000))
  {
    MillisColumn(SubmissionMillis);
    MsEpochTimeParts(SubmissionMillis);
  }

  /** TestParseLine on the 53-column sample line: any line of 53
      `:`-free columns that holds the sample's texts at the positions the
      test looks at decodes to the values the test expects. The Category
      column, which holds spaces, is copied verbatim; ru_wallclock, a
      decimal fraction, gives 0; the submission time is read as
      milliseconds. */
  lemma SampleLine(columns: seq<Bytes>)
    requires |columns| == NumFields
    requires forall i :: 0 <= i < |columns| ==> Colon !in columns[i]
    requires columns[0] == Text("vcontrol.q") && columns[1] == Text("maui") && columns[2] == Text("sgegroup")
    requires columns[7] == Number(0) && columns[8] == Number(SubmissionMillis)
    requires columns[11] == Number(100) && columns[12] == Number(137) && columns[13] == Text(Wallclock)
    requires columns[34] == Number(1) && columns[35] == Number(0)
    requires columns[49] == Text("maui")
    ensures var e := Decode(Join(columns, [Colon]));
      && e.values[0] == Str(Text("vcontrol.q"))
      && e.values[1] == Str(Text("maui"))
      && e.values[2] == Str(Text("sgegroup"))
      && e.values[7] == Int(0)
      && e.values[8] == Stamp(Time(1448376371, 581000))
      && e.values[11] == Int(100)
      && e.values[12] == Int(137)
      && e.values[13] == Int(0)
      && e.values[34] == Int(1)
      && e.values[35] == Int(0)
      && e.values[39] == Str(columns[39])
      && e.values[49] == Str(Text("maui"))
  {
    var line := Join(columns, [Colon]);
    SampleKinds();
    DecodeJoin(columns);
    var e := Decode(line);
    assert e.values[7] == DecodeColumn(IntKind, Number(0));
    assert e.values[8] == DecodeColumn(TimeKind, Number(SubmissionMillis));
    assert e.values[11] == DecodeColumn(IntKind, Number(100));
    assert e.values[12] == DecodeColumn(IntKind, Number(137));
    assert e.values[13] == DecodeColumn(Int64Kind, Text(Wallclock));
    assert e.values[34] == DecodeColumn(IntKind, Number(1));
    assert e.values[35] == DecodeColumn(IntKind, Number(0));
    NumberColumn(IntKind, 0);
    NumberColumn(IntKind, 100);
    NumberColumn(IntKind, 137);
    NumberColumn(IntKind, 1);
    WallclockColumn();
    SubmissionColumn();
  }

  /** The kinds of the columns the sample line is checked at. */
  lemma SampleKinds()
    ensures Schema[0].kind == StringKind && Schema[1].kind == StringKind && Schema[2].kind == StringKind
    ensures Schema[7].kind == IntKind && Schema[8].kind == TimeKind
    ensures Schema[11].kind == IntKind && Schema[12].kind == IntKind && Schema[13].kind == Int64Kind
    ensures Schema[34].kind == IntKind && Schema[35].kind == IntKind
    ensures Schema[39].kind == StringKind && Schema[49].kind == StringKind
  {
  }
}
