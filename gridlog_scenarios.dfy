/** The behaviour pkg/log/log_test.go checks, plus a few edge cases of
    ParseLine and ParseLevel, stated over the model. */
module GridLogScenarios {
  import opened Wrappers
  import opened GoStrings
  import opened GoTime
  import opened GridLog

  const SampleStamp: string := "07/08/2015 06:07:28.662"
  const SampleMessage: string := "removing trigger " + "to terminate job " + "3000000278.657"
  const SamplePadded: string := "          worker"

  /** The line of TestParseLine: `07/08/2015 06:07:28.662|          worker|u1010|I|removing trigger ...`. */
  const SampleLine: string := SampleStamp + "|" + SamplePadded + "|" + "u1010" + "|" + "I" + "|" + SampleMessage

  lemma SampleFields()
    ensures Split(SampleLine, "|") == [SampleStamp, SamplePadded, "u1010", "I", SampleMessage]
  {
    SplitFive(SampleStamp, SamplePadded, "u1010", "I", SampleMessage);
  }

  lemma SampleTrims()
    ensures TrimSpace(SamplePadded) == "worker"
    ensures TrimSpace("u1010") == "u1010"
    ensures TrimSpace(SampleMessage) == SampleMessage
  {
    ComponentTrim();
    TrimSpaceTrimmed("u1010");
    MessageTrim();
  }

  lemma ComponentTrim()
    ensures TrimSpace(SamplePadded) == "worker"
  {
    var spaces := "          ";
    assert AllSpace(spaces);
    TrimSpacePadded(spaces, "worker", "");
    assert spaces + "worker" + "" == SamplePadded;
    TrimSpaceTrimmed("worker");
  }

  lemma MessageTrim()
    ensures TrimSpace(SampleMessage) == SampleMessage
  {
    var tail := "3000000278.657";
    assert SampleMessage[0] == 'r';
    assert SampleMessage[|SampleMessage| - 1] == tail[|tail| - 1];
    TrimSpaceTrimmed(SampleMessage);
  }

  /** TestParseLine: the sample line of the worker on host u1010 is an
      Info entry with both names trimmed and the message kept. */
  lemma ParseSampleLine(parseTime: TimeParser)
    requires parseTime(SampleStamp).Some?
    ensures ParseLine(SampleLine, parseTime)
      == Parsed(Entry(parseTime(SampleStamp).value, "worker", "u1010", Info, SampleMessage), None)
  {
    SampleFields();
    SampleTrims();
  }

  /** A line without five fields is the zero entry and the "empty line"
      error. */
  lemma ParseShortLine(parseTime: TimeParser)
    ensures ParseLine("a|b|c", parseTime) == Parsed(ZeroEntry, Some(WrongFieldCount))
  {
    SplitJoin(["a", "b", "c"], '|');
    assert Join(["a", "b", "c"], "|") == "a|b|c";
  }

  /** TestParseLevel: the five sample spellings. */
  lemma ParseSampleLevels()
    ensures ParseLevel("I") == LevelParse(Info, true)
    ensures ParseLevel("warning") == LevelParse(Warning, true)
    ensures ParseLevel("C") == LevelParse(Critical, true)
    ensures ParseLevel("profile") == LevelParse(Profile, true)
    ensures ParseLevel("ERROR") == LevelParse(Error, true)
  {
  }

  /** A spelling that mixes the cases names no level. */
  lemma ParseMixedCaseLevel()
    ensures ParseLevel("Warning") == LevelParse(Info, false)
  {
  }

  /** The message text of the filter test at a level: `"my test %s"`
      formatted with the level's name. */
  function Message(l: Level): string
  {
    "my test " + Word(l)
  }

  /** The two lines a pair of calls at one level writes when both reach
      the file: one for the logger's component "scheduler" and one for
      "test". */
  function PairRecords(stamp: string, host: string, l: Level): seq<Record>
  {
    [Record(stamp, "scheduler", host, l, Message(l)), Record(stamp, "test", host, l, Message(l))]
  }

  /** The lines the filter test leaves in the file, in order. */
  function SurvivingRecords(stamp: string, host: string): seq<Record>
  {
    PairRecords(stamp, host, Error) + PairRecords(stamp, host, Critical) + PairRecords(stamp, host, Profile)
  }

  /** Files written one after the other are their texts one after the
      other. */
  lemma {:induction false} WrittenConcat(a: seq<Record>, b: seq<Record>)
    ensures Written(a + b) == Written(a) + Written(b)
    decreases |a|
  {
    if a == [] {
      assert a + b == b;
    } else {
      assert (a + b)[1..] == a[1..] + b;
      WrittenConcat(a[1..], b);
    }
  }

  /** What the two calls at one level of the filter test write: first at
      the logger's component "scheduler", then at "test". */
  function PairText(settings: Settings, stamp: string, host: string, l: Level): string
  {
    Emitted(settings, Code(l), stamp, "scheduler", host, Message(l)) + Emitted(settings, Code(l), stamp, "test", host, Message(l))
  }

  /** What two calls at one level write: both lines or neither. */
  lemma PairEmitted(settings: Settings, stamp: string, host: string, l: Level)
    ensures PairText(settings, stamp, host, l) == if ShouldEmit(settings, Code(l)) then Written(PairRecords(stamp, host, l)) else ""
  {
    var rs := PairRecords(stamp, host, l);
    assert rs[1..][1..] == [];
    assert Written(rs[1..][1..]) == "";
    assert Written(rs[1..]) == RecordText(rs[1]) + "\n" + "";
  }

  /** One level's pair of calls in the filter test: Log at the logger's
      own component, then LogC for "test". */
  method WritePair(log: GELog, settings: Settings, l: Level, stamp: string)
    requires log.component == "scheduler"
    modifies log`file
    ensures log.file == old(log.file) + PairText(settings, stamp, log.hostname, l)
  {
    log.Log(settings, l, Message(l), stamp);
    log.LogC(settings, l, "test", Message(l), stamp);
    AppendAssoc(old(log.file), Emitted(settings, Code(l), stamp, "scheduler", log.hostname, Message(l)),
      Emitted(settings, Code(l), stamp, "test", log.hostname, Message(l)));
  }

  // A rewriting step only: regroups the concatenation for WritePair.
  lemma AppendAssoc<T>(a: seq<T>, b: seq<T>, c: seq<T>)
    ensures a + b + c == a + (b + c)
  {
  }

  /** The threshold Error lets the Error, Critical and Profile pairs
      through and drops the Info and Warning pairs. */
  lemma FilterPairs(stamp: string, host: string)
    ensures var settings := Settings(Error, InitialSettings.profiling);
      && PairText(settings, stamp, host, Info) == ""
      && PairText(settings, stamp, host, Warning) == ""
      && PairText(settings, stamp, host, Error) + PairText(settings, stamp, host, Critical) + PairText(settings, stamp, host, Profile)
        == Written(SurvivingRecords(stamp, host))
  {
    var settings := Settings(Error, InitialSettings.profiling);
    ShouldEmitLevel(settings, Info);
    ShouldEmitLevel(settings, Warning);
    ShouldEmitLevel(settings, Error);
    ShouldEmitLevel(settings, Critical);
    ShouldEmitLevel(settings, Profile);
    PairEmitted(settings, stamp, host, Info);
    PairEmitted(settings, stamp, host, Warning);
    PairEmitted(settings, stamp, host, Error);
    PairEmitted(settings, stamp, host, Critical);
    PairEmitted(settings, stamp, host, Profile);
    SurvivingWritten(stamp, host);
  }

  /** The ten calls of TestLogLevelFilter, with the threshold at Error and
      profiling on as init() leaves it, on a logger for "scheduler": two
      at each level. Only the Error, Critical and Profile lines reach the
      file. */
  method WriteFilterTest(log: GELog, stamp: string)
    requires log.component == "scheduler"
    modifies log`file
    ensures log.file == old(log.file) + Written(SurvivingRecords(stamp, log.hostname))
  {
    var settings := Settings(Error, InitialSettings.profiling);
    var host := log.hostname;
    WritePair(log, settings, Info, stamp);
    WritePair(log, settings, Warning, stamp);
    WritePair(log, settings, Error, stamp);
    WritePair(log, settings, Critical, stamp);
    WritePair(log, settings, Profile, stamp);
    FilterPairs(stamp, host);
    AppendFour(old(log.file), PairText(settings, stamp, host, Error), PairText(settings, stamp, host, Critical),
      PairText(settings, stamp, host, Profile));
  }

  // A rewriting step only: regroups the concatenation for WriteFilterTest.
  lemma AppendFour<T>(a: seq<T>, b: seq<T>, c: seq<T>, d: seq<T>)
    ensures a + [] + [] + b + c + d == a + (b + c + d)
  {
  }

  lemma SurvivingWritten(stamp: string, host: string)
    ensures Written(SurvivingRecords(stamp, host))
      == Written(PairRecords(stamp, host, Error)) + Written(PairRecords(stamp, host, Critical)) + Written(PairRecords(stamp, host, Profile))
  {
    var e, c, p := PairRecords(stamp, host, Error), PairRecords(stamp, host, Critical), PairRecords(stamp, host, Profile);
    WrittenConcat(e, c);
    WrittenConcat(e + c, p);
  }

  lemma MessageLine(l: Level)
    ensures '|' !in Message(l) && '\n' !in Message(l)
    ensures TrimSpace(Message(l)) == Message(l)
  {
    var m := Message(l);
    assert m[0] == 'm';
    assert m[|m| - 1] == Word(l)[|Word(l)| - 1];
    TrimSpaceTrimmed(m);
  }

  /** The six surviving lines parse back to six entries, two at each of
      Error, Critical and Profile, alternating between the two
      components, with no error. */
  lemma ReadSurvivors(stamp: string, host: string, parseTime: TimeParser)
    requires '|' !in host && '\n' !in host && '|' !in stamp && '\n' !in stamp
    requires parseTime(stamp).Some?
    requires TrimSpace(host) == host
    ensures var lines := Split(Written(SurvivingRecords(stamp, host)), "\n");
      var es := Successes(lines, parseTime);
      && LastError(lines, parseTime) == None
      && |es| == 6
      && [es[0].level, es[1].level, es[2].level, es[3].level, es[4].level, es[5].level]
        == [Error, Error, Critical, Critical, Profile, Profile]
      && [es[0].component, es[1].component, es[2].component, es[3].component, es[4].component, es[5].component]
        == ["scheduler", "test", "scheduler", "test", "scheduler", "test"]
      && [es[0].message, es[1].message, es[2].message, es[3].message, es[4].message, es[5].message]
        == [Message(Error), Message(Error), Message(Critical), Message(Critical), Message(Profile), Message(Profile)]
  {
    var rs := SurvivingRecords(stamp, host);
    SurvivorsWritable(stamp, host, parseTime);
    ReadBack(rs, parseTime);
    SurvivorsExpected(stamp, host, parseTime);
  }

  lemma SurvivorsWritable(stamp: string, host: string, parseTime: TimeParser)
    requires '|' !in host && '\n' !in host && '|' !in stamp && '\n' !in stamp
    requires parseTime(stamp).Some?
    ensures var rs := SurvivingRecords(stamp, host);
      |rs| == 6 && forall i :: 0 <= i < |rs| ==> Writable(rs[i]) && parseTime(rs[i].stamp).Some?
  {
    MessageLine(Error);
    MessageLine(Critical);
    MessageLine(Profile);
  }

  /** The entries the six surviving lines are expected to parse to. */
  lemma SurvivorsExpected(stamp: string, host: string, parseTime: TimeParser)
    requires TrimSpace(host) == host
    ensures var es := ExpectedEntries(SurvivingRecords(stamp, host), parseTime);
      && |es| == 6
      && [es[0].level, es[1].level, es[2].level, es[3].level, es[4].level, es[5].level]
        == [Error, Error, Critical, Critical, Profile, Profile]
      && [es[0].component, es[1].component, es[2].component, es[3].component, es[4].component, es[5].component]
        == ["scheduler", "test", "scheduler", "test", "scheduler", "test"]
      && [es[0].message, es[1].message, es[2].message, es[3].message, es[4].message, es[5].message]
        == [Message(Error), Message(Error), Message(Critical), Message(Critical), Message(Profile), Message(Profile)]
  {
    var rs := SurvivingRecords(stamp, host);
    MessageLine(Error);
    MessageLine(Critical);
    MessageLine(Profile);
    TrimSpaceTrimmed("scheduler");
    TrimSpaceTrimmed("test");
    forall i | 0 <= i < 6
      ensures ExpectedEntries(rs, parseTime)[i] == Expected(rs[i], parseTime)
    {
      ExpectedEntriesAt(rs, parseTime, i);
    }
  }

  /** TestLogLevelFilter end to end: a fresh logger, the ten calls, and
      ParseFile on what was written give six entries and no error. */
  method LevelFilter(host: string, stamp: string, parseTime: TimeParser) returns (entries: seq<Entry>, last: Option<LineError>)
    requires '|' !in host && '\n' !in host && '|' !in stamp && '\n' !in stamp
    requires parseTime(stamp).Some?
    requires TrimSpace(host) == host
    ensures |entries| == 6 && last == None
    ensures [entries[0].level, entries[1].level, entries[2].level, entries[3].level, entries[4].level, entries[5].level]
      == [Error, Error, Critical, Critical, Profile, Profile]
  {
    var log := new GELog("scheduler", host);
    WriteFilterTest(log, stamp);
    assert log.file == Written(SurvivingRecords(stamp, host));
    ReadSurvivors(stamp, host, parseTime);
    entries, last := ParseFile(log.file, parseTime);
  }
}
