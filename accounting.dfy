/** The accounting-file line decoder of pkg/accounting/accounting.go: a
    line of bytes is split at `:`, each chunk goes through the escape step,
    and the chunks are assigned in order to the 53 fields of an Entry,
    each decoded according to the field's kind. The field table replaces
    the reflection over the struct's declaration order. */
module Accounting {
  import opened Wrappers
  import opened GoStrings
  import opened GoStrconv
  import opened GoTime

  newtype byte = b: int | 0 <= b < 256

  type Bytes = seq<byte>

  /** The column separator `:`. */
  const Colon: byte := 58

  /** The byte 0xFF, which the escape step is meant to turn into `:`. */
  const Escape: byte := 0xFF

  /** The kinds of Entry field the decoder distinguishes. */
  datatype Kind = StringKind | IntKind | Int64Kind | FloatKind | TimeKind

  datatype Column = Column(name: string, kind: Kind)

  /** The fields of Entry in declaration order, which is the column order
      of the accounting file, in four groups: the job, its resource usage,
      its project and slots, and the later additions. */
  const Schema: seq<Column> := JobColumns + UsageColumns + ProjectColumns + LaterColumns

  const JobColumns: seq<Column> := [
     Column("Qname", StringKind),
     Column("Hostname", StringKind),
     Column("GroupID", StringKind),
     Column("Owner", StringKind),
     Column("JobName", StringKind),
     Column("JobNumber", StringKind),
     Column("Account", StringKind),
     Column("PosixPriority", IntKind),
     Column("SubmissionTime", TimeKind),
     Column("StartTime", TimeKind),
     Column("EndTime", TimeKind),
     Column("Failed", IntKind),
     Column("ExitStatus", IntKind)
  ]

  const UsageColumns: seq<Column> := [
     Column("RuWallclock", Int64Kind),
     Column("RuUtime", Int64Kind),
     Column("RuStime", Int64Kind),
     Column("RuMaxRSS", Int64Kind),
     Column("RuIxRSS", Int64Kind),
     Column("RuIsmRSS", Int64Kind),
     Column("RuIdRSS", Int64Kind),
     Column("RuIsRSS", Int64Kind),
     Column("RuMinFlt", Int64Kind),
     Column("RuMajFlt", Int64Kind),
     Column("RunSwap", Int64Kind),
     Column("RuInblock", Int64Kind),
     Column("RuOublock", Int64Kind),
     Column("RuMsgSnd", Int64Kind),
     Column("RuMsgRcv", Int64Kind),
     Column("RunSignals", Int64Kind),
     Column("RuNvCsw", Int64Kind),
     Column("RuNivCsw", Int64Kind)
  ]

  const ProjectColumns: seq<Column> := [
     Column("Project", StringKind),
     Column("Department", StringKind),
     Column("GrantedPE", StringKind),
     Column("Slots", IntKind),
     Column("TaskNumber", IntKind),
     Column("CPU", FloatKind),
     Column("MEM", FloatKind),
     Column("IO", FloatKind),
     Column("Category", StringKind),
     Column("IOW", FloatKind)
  ]

  const LaterColumns: seq<Column> := [
     Column("PETaskID", IntKind),
     Column("MaxVmem", Int64Kind),
     Column("AdvanceReservationID", IntKind),
     Column("AdvanceReservationSubmissionTime", TimeKind),
     Column("JobClass", StringKind),
     Column("QdelInfo", StringKind),
     Column("MaxRSS", Int64Kind),
     Column("MaxPSS", Int64Kind),
     Column("SubmitHost", StringKind),
     Column("CurrentWorkingDirectory", StringKind),
     Column("SubmitCommand", StringKind),
     Column("WallClock", FloatKind)
  ]

  const NumFields: nat := 53

  lemma SchemaSize()
    ensures |Schema| == NumFields
  {
  }

  /** The value of one field. A float field keeps the text it was parsed
      from: the empty text stands for Go's zero value 0.0, which is also
      what strconv.ParseFloat returns for it. */
  datatype Value = Str(bytes: Bytes) | Int(n: int) | Float(text: Bytes) | Stamp(time: Time)

  function KindOf(v: Value): Kind
  {
    match v
    case Str(_) => StringKind
    case Int(_) => IntKind
    case Float(_) => FloatKind
    case Stamp(_) => TimeKind
  }

  /** Whether a value may sit in a field of a kind: both integer kinds
      hold an Int. */
  predicate Fits(v: Value, k: Kind)
  {
    if k == Int64Kind then v.Int? else KindOf(v) == k
  }

  /** Go's zero value of a field of each kind; the zero time.Time. */
  function Zero(k: Kind): (v: Value)
    ensures Fits(v, k)
  {
    match k
    case StringKind => Str([])
    case IntKind => Int(0)
    case Int64Kind => Int(0)
    case FloatKind => Float([])
    case TimeKind => Stamp(ZeroTime)
  }

  /** An accounting Entry: one value per field of the schema. */
  datatype Entry = Entry(values: seq<Value>)

  predicate WellTyped(e: Entry)
  {
    |e.values| == NumFields && forall j :: 0 <= j < NumFields ==> Fits(e.values[j], Schema[j].kind)
  }

  /** `string(chunk)`, read byte by byte; strconv only looks at ASCII
      digits and signs, so nothing depends on the text being UTF-8. */
  function BytesText(b: Bytes): (s: string)
    ensures |s| == |b|
  {
    seq(|b|, i requires 0 <= i < |b| => b[i] as int as char)
  }

  /** An encoder for writing test lines as bytes: each character taken
      modulo 256, so it is exact only for characters below 256
      (TextRoundTrip). No Go function corresponds to it. */
  function Text(s: string): (b: Bytes)
    ensures |b| == |s|
  {
    seq(|s|, i requires 0 <= i < |s| => (s[i] as int % 256) as byte)
  }

  lemma TextRoundTrip(s: string)
    requires forall i :: 0 <= i < |s| ==> s[i] as int < 256
    ensures BytesText(Text(s)) == s
  {
  }

  // ---------------------------------------------------------------------
  // Timestamps

  /** The magnitude above which a time column holds milliseconds: the
      start of 1990 in milliseconds since the epoch. */
  const MillisThreshold: int := 631152000000

  /** sEpochTime. */
  function SEpochTime(s: int): (t: Time)
    ensures t == Time(s, 0)
  {
    Unix(s, 0)
  }

  /** msEpochTime: whole seconds from `ms / 1000`, and the leftover
      milliseconds multiplied by 1000, as nanoseconds. The instant is the
      `ms * 1000000` nanoseconds that were meant, less 999000 for each
      leftover millisecond. */
  function MsEpochTime(ms: int): (t: Time)
    ensures 0 <= t.nsec < NanosPerSecond
    ensures t.sec * NanosPerSecond + t.nsec == ms * 1_000_000 - Rem(ms, 1000) * 999_000
  {
    var sec := Quo(ms, 1000);
    var nsec := Rem(ms, 1000) * 1000;
    Unix(sec, nsec)
  }

  /** For a non-negative millisecond count, msEpochTime keeps the whole
      seconds and puts the leftover milliseconds into the nanosecond field
      scaled by 1000 only, so they read as microseconds: the nanoseconds
      stay below one millisecond, and the count is recovered as
      `sec * 1000 + nsec / 1000`. */
  lemma MsEpochTimeParts(ms: int)
    requires ms >= 0
    ensures var t := MsEpochTime(ms);
      && t.sec == ms / 1000
      && t.nsec == (ms % 1000) * 1000
      && t.nsec < 1_000_000
      && t.sec * 1000 + t.nsec / 1000 == ms
  {
    var q, r := Quo(ms, 1000), Rem(ms, 1000);
    assert q == ms / 1000;
    assert 0 <= r * 1000 < NanosPerSecond;
    assert Unix(q, r * 1000) == Time(q, r * 1000);
  }

  /** parseTime: a column that is not an int64 decimal gives the epoch,
      one above the threshold is milliseconds, any other is seconds. */
  function ParseTime(column: Bytes): (t: Time)
    ensures 0 <= t.nsec < 1_000_000
    ensures t.nsec != 0 ==> ParseInt(BytesText(column)).value > MillisThreshold
  {
    var r := ParseInt(BytesText(column));
    if r.err.Some? then Unix(0, 0)
    else if r.value > MillisThreshold then MsEpochTime(r.value)
    else SEpochTime(r.value)
  }

  /** The three cases of parseTime, stated over the decimal text. */
  lemma ParseTimeCases(column: Bytes)
    ensures var s := BytesText(column);
      && (!(IsDecimal(s) && MinInt64 <= DecimalValue(s) <= MaxInt64) ==> ParseTime(column) == Time(0, 0))
      && (IsDecimal(s) && MillisThreshold < DecimalValue(s) <= MaxInt64 ==> ParseTime(column) == MsEpochTime(DecimalValue(s)))
      && (IsDecimal(s) && MinInt64 <= DecimalValue(s) <= MillisThreshold ==> ParseTime(column) == Time(DecimalValue(s), 0))
  {
    ParseIntSpec(BytesText(column));
  }

  // ---------------------------------------------------------------------
  // One column

  /** The escape step, `bytes.Replace(chunk, "\xFF", ":", 0)`: with a
      count of 0 bytes.Replace replaces nothing, so the chunk comes back
      unchanged. */
  function Unescape(chunk: Bytes): (r: Bytes)
    ensures r == chunk
  {
    Replace(chunk, [Escape], [Colon], 0)
  }

  /** One case of the field switch: a string is copied, the integer kinds
      keep ParseInt's or Atoi's value whatever the error, a float keeps its
      text, a time goes through parseTime. */
  function DecodeColumn(k: Kind, chunk: Bytes): (v: Value)
    ensures Fits(v, k)
  {
    match k
    case StringKind => Str(chunk)
    case Int64Kind => Int(ParseInt(BytesText(chunk)).value)
    case IntKind => Int(Atoi(BytesText(chunk)).value)
    case FloatKind => Float(chunk)
    case TimeKind => Stamp(ParseTime(chunk))
  }

  /** An integer column holds the value of a decimal in the int64 range
      and the bound for a decimal beyond it. */
  lemma IntColumn(k: Kind, chunk: Bytes)
    requires k == IntKind || k == Int64Kind
    ensures var s := BytesText(chunk);
      && (IsDecimal(s) && MinInt64 <= DecimalValue(s) <= MaxInt64 ==> DecodeColumn(k, chunk) == Int(DecimalValue(s)))
      && (IsDecimal(s) && DecimalValue(s) > MaxInt64 ==> DecodeColumn(k, chunk) == Int(MaxInt64))
      && (IsDecimal(s) && DecimalValue(s) < MinInt64 ==> DecodeColumn(k, chunk) == Int(MinInt64))
  {
    ParseIntSpec(BytesText(chunk));
  }

  function Pow10(n: nat): nat
  {
    if n == 0 then 1 else 10 * Pow10(n - 1)
  }

  lemma {:induction false} DigitsValueBound(s: string)
    requires AllDigits(s)
    ensures DigitsValue(s) < Pow10(|s|)
    decreases |s|
  {
    if s != [] {
      DigitsValueBound(s[..|s| - 1]);
    }
  }

  /** Text of at most 20 bytes that is not a decimal, such as "NONE" or
      "62331.676", gives 0 in an integer column: its leading digits are
      too few to overflow before the offending byte is reached. A longer
      run of digits can overflow first, and then Go saturates instead. */
  lemma NonDecimalColumn(k: Kind, chunk: Bytes)
    requires k == IntKind || k == Int64Kind
    requires !IsDecimal(BytesText(chunk)) && |chunk| <= 20
    ensures DecodeColumn(k, chunk) == Int(0)
  {
    var s := BytesText(chunk);
    var body := Unsigned(s);
    if s != [] && body != [] {
      var n := DigitRun(body);
      assert n < |body|;
      DigitsValueBound(body[..n]);
      Pow10Monotone(n, 19);
      assert Pow10(19) == 10000000000000000000 by {
        assert Pow10(10) == 10000000000;
      }
    }
  }

  lemma {:induction false} Pow10Monotone(m: nat, n: nat)
    requires m <= n
    ensures Pow10(m) <= Pow10(n)
    decreases n
  {
    if m < n {
      Pow10Monotone(m, n - 1);
    }
  }

  // ---------------------------------------------------------------------
  // The whole line

  /** The chunks of a line: bytes.Split at `:`. No chunk holds a `:`,
      and joining the chunks with `:` gives the line back. */
  function Chunks(line: Bytes): (cs: seq<Bytes>)
    ensures |cs| >= 1
    ensures forall i :: 0 <= i < |cs| ==> Colon !in cs[i]
    ensures Join(cs, [Colon]) == line
  {
    var cs := Split(line, [Colon]);
    SplitPartsFree(line, [Colon]);
    JoinSplit(line, [Colon]);
    forall i | 0 <= i < |cs| ensures Colon !in cs[i] {
      OccursAtSingle(cs[i], Colon);
    }
    cs
  }

  /** What ParseLine makes of a line: field `j` is decoded from chunk `j`
      after the escape step while both exist; every later field keeps its
      zero value, and chunks beyond the last field are ignored. */
  function Decode(line: Bytes): (e: Entry)
    ensures WellTyped(e)
  {
    var cs := Chunks(line);
    Entry(seq(NumFields, j requires 0 <= j < NumFields =>
      if j < |cs| then DecodeColumn(Schema[j].kind, Unescape(cs[j])) else Zero(Schema[j].kind)))
  }

  /** ParseLine. The first loop rewrites every chunk in place with the
      escape step; the second walks the fields in order while there is a
      chunk left, decoding each by its kind. Go's error result is always
      nil. */
  method ParseLine(line: Bytes) returns (e: Entry, err: Option<string>)
    ensures e == Decode(line)
    ensures err == None
  {
    var parts := Chunks(line);
    var chunks := new Bytes[|parts|](i requires 0 <= i < |parts| => parts[i]);
    for i := 0 to chunks.Length
      invariant forall j :: 0 <= j < i ==> chunks[j] == Unescape(parts[j])
      invariant forall j :: i <= j < chunks.Length ==> chunks[j] == parts[j]
    {
      chunks[i] := Replace(chunks[i], [Escape], [Colon], 0);
    }
    var values := seq(NumFields, j requires 0 <= j < NumFields => Zero(Schema[j].kind));
    var i := 0;
    while i < NumFields && i < chunks.Length
      invariant 0 <= i <= NumFields && i <= chunks.Length
      invariant |values| == NumFields
      invariant forall j :: 0 <= j < NumFields ==>
        values[j] == if j < i then DecodeColumn(Schema[j].kind, chunks[j]) else Zero(Schema[j].kind)
      decreases NumFields - i
    {
      var chunk := chunks[i];
      var v: Value;
      match Schema[i].kind {
        case StringKind =>
          v := Str(chunk);
        case Int64Kind =>
          var r := ParseInt(BytesText(chunk));
          v := Int(r.value);
        case IntKind =>
          var r := Atoi(BytesText(chunk));
          v := Int(r.value);
        case FloatKind =>
          v := Float(chunk);
        case TimeKind =>
          v := Stamp(ParseTime(chunk));
      }
      values := values[i := v];
      i := i + 1;
    }
    e := Entry(values);
    err := None;
  }

  /** A line splits into one more chunk than it has `:` bytes. */
  lemma ChunkCount(line: Bytes)
    ensures |Chunks(line)| == multiset(line)[Colon] + 1
  {
    SplitCount(line, Colon);
  }

  /** Appending columns to a line never changes the fields its own
      columns decode to. */
  lemma AppendColumns(line: Bytes, rest: Bytes)
    ensures var e, e' := Decode(line), Decode(line + [Colon] + rest);
      forall j :: 0 <= j < NumFields && j < |Chunks(line)| ==> e'.values[j] == e.values[j]
  {
    SplitConcat(line, Colon, rest);
  }

  /** Columns beyond the 53rd are ignored. */
  lemma ExtraColumnsIgnored(line: Bytes, rest: Bytes)
    requires |Chunks(line)| >= NumFields
    ensures Decode(line + [Colon] + rest) == Decode(line)
  {
    AppendColumns(line, rest);
  }

  /** A line of fewer columns leaves the remaining fields at their zero
      values. */
  lemma ShortLine(line: Bytes, j: nat)
    requires |Chunks(line)| <= j < NumFields
    ensures Decode(line).values[j] == Zero(Schema[j].kind)
  {
  }

  /** A line written as `:`-free columns joined by `:` decodes each field
      from its own column, as long as there are columns. */
  lemma DecodeJoin(columns: seq<Bytes>)
    requires |columns| >= 1
    requires forall i :: 0 <= i < |columns| ==> Colon !in columns[i]
    ensures var e := Decode(Join(columns, [Colon]));
      forall j :: 0 <= j < NumFields ==>
        e.values[j] == if j < |columns| then DecodeColumn(Schema[j].kind, columns[j]) else Zero(Schema[j].kind)
  {
    SplitJoin(columns, Colon);
    DecodeChunks(Join(columns, [Colon]), columns);
  }

  /** Decode in terms of the chunks of the line. */
  lemma DecodeChunks(line: Bytes, cs: seq<Bytes>)
    requires Chunks(line) == cs
    ensures forall j :: 0 <= j < NumFields ==>
      Decode(line).values[j] == if j < |cs| then DecodeColumn(Schema[j].kind, cs[j]) else Zero(Schema[j].kind)
  {
  }
}
