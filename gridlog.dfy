/** The Grid Engine style messages log of pkg/log/log.go: the severity
    levels, the two-part emit filter of printMessage, the line format, the
    line parser, the level-name parser and the whole-file parser.

    The package globals LogLevelFilter and Profiling are passed in as a
    `Settings` value. The clock and the timestamp layout
    "02/01/2006 15:04:05.000" are not modelled: the writer is given the
    already formatted timestamp, and the parsers are given a `TimeParser`
    that stands for time.Parse with that layout. */
module GridLog {
  import opened Wrappers
  import opened GoStrings
  import opened GoTime

  /** LogLevel, in declaration order. */
  datatype Level = Info | Warning | Error | Critical | Profile

  /** The iota value of a level. */
  function Ordinal(l: Level): nat
  {
    match l
    case Info => 0
    case Warning => 1
    case Error => 2
    case Critical => 3
    case Profile => 4
  }

  /** The one-letter code the logger methods hand to printMessage and that
      ParseLine reads back. */
  function Code(l: Level): string
  {
    match l
    case Info => "I"
    case Warning => "W"
    case Error => "E"
    case Critical => "C"
    case Profile => "P"
  }

  /** ParseLine's switch on the fourth field, which is compared as it is,
      without trimming: the inverse of Code. */
  function LevelOfCode(code: string): (r: Option<Level>)
    ensures r.Some? ==> Code(r.value) == code
    ensures (exists l :: Code(l) == code) ==> r.Some?
  {
    if code == "I" then Some(Info)
    else if code == "W" then Some(Warning)
    else if code == "E" then Some(Error)
    else if code == "C" then Some(Critical)
    else if code == "P" then Some(Profile)
    else None
  }

  lemma LevelOfCodeOfLevel(l: Level)
    ensures LevelOfCode(Code(l)) == Some(l)
  {
  }

  // ---------------------------------------------------------------------
  // The emit filter

  /** The two package globals printMessage reads: LogLevelFilter and
      Profiling. */
  datatype Settings = Settings(filter: Level, profiling: bool)

  /** Their values after the package's init(): every message is written. */
  const InitialSettings: Settings := Settings(Profile, true)

  /** printMessage's filter on the code it is given: first the profiling
      toggle for "P", then, for a threshold above Info, the codes the
      threshold drops. Profiling off drops every "P" message, and a
      threshold of Info or Profile drops nothing else. */
  predicate ShouldEmit(s: Settings, code: string)
    ensures ShouldEmit(s, code) ==> code != "P" || s.profiling
    ensures (s.filter == Info || s.filter == Profile) && (code != "P" || s.profiling) ==> ShouldEmit(s, code)
  {
    if code == "P" && !s.profiling then false
    else if Ordinal(s.filter) > Ordinal(Info) then
      match s.filter
      case Warning => code != "I"
      case Error => code != "I" && code != "W"
      case Critical => code != "I" && code != "W" && code != "E"
      case _ => true
    else true
  }

  /** For the five level codes the filter is a threshold on the level
      order Info < Warning < Error < Critical, which a Profile or Info
      threshold leaves open; Profile messages are outside the order and
      pass exactly when profiling is on. */
  lemma ShouldEmitLevel(s: Settings, l: Level)
    ensures ShouldEmit(s, Code(l)) <==>
      if l == Profile then s.profiling
      else s.filter == Profile || Ordinal(l) >= Ordinal(s.filter)
  {
  }

  /** A code that is none of the five is never dropped. */
  lemma ShouldEmitOtherCode(s: Settings, code: string)
    requires LevelOfCode(code).None?
    ensures ShouldEmit(s, code)
  {
  }

  // ---------------------------------------------------------------------
  // The line format

  /** The width of the component column, `%17s`. */
  const ComponentWidth: nat := 17

  /** fmt's `%*s`: `s` right-aligned in a field of at least `width`
      characters, padded on the left with spaces and never truncated. */
  function PadLeft(s: string, width: nat): (r: string)
    ensures |r| == if |s| < width then width else |s|
    ensures r[|r| - |s|..] == s
    ensures forall i :: 0 <= i < |r| - |s| ==> r[i] == ' '
  {
    if |s| >= width then s else seq(width - |s|, _ => ' ') + s
  }

  /** A log line without its line feed: `stamp|component|host|code|msg`
      with the component padded to the column width. It starts with the
      stamp and a bar, and ends with the message. */
  function FormatRecord(stamp: string, component: string, host: string, code: string, msg: string): (r: string)
    ensures |r| > |stamp| + |msg| && r[..|stamp|] == stamp && r[|stamp|] == '|'
    ensures r[|r| - |msg|..] == msg
  {
    stamp + "|" + PadLeft(component, ComponentWidth) + "|" + host + "|" + code + "|" + msg
  }

  /** The text printMessage writes for one message: one line, ended by a
      line feed, when no field holds a line feed. */
  function FormatLine(stamp: string, component: string, host: string, code: string, msg: string): (r: string)
    ensures |r| > 0 && r[|r| - 1] == '\n'
    ensures '\n' !in stamp + component + host + code + msg ==> '\n' !in r[..|r| - 1]
  {
    var record := FormatRecord(stamp, component, host, code, msg);
    var padded := PadLeft(component, ComponentWidth);
    assert record == stamp + "|" + padded + "|" + host + "|" + code + "|" + msg;
    assert padded == padded[..|padded| - |component|] + component;
    assert '\n' !in padded[..|padded| - |component|];
    assert (record + "\n")[..|record|] == record;
    record + "\n"
  }

  /** What one printMessage call appends to the log file: the formatted
      line when the filter passes the code, and nothing otherwise. A level
      code is written when profiling allows a "P" message or when any
      other level reaches the threshold (which a Profile threshold leaves
      open); a code that is none of the five is always written. */
  function Emitted(s: Settings, code: string, stamp: string, component: string, host: string, msg: string): (r: string)
    ensures LevelOfCode(code).Some? ==>
      (r != "" <==> if code == "P" then s.profiling
                    else s.filter == Profile || Ordinal(LevelOfCode(code).value) >= Ordinal(s.filter))
    ensures LevelOfCode(code).None? ==> r == FormatLine(stamp, component, host, code, msg)
    ensures r != "" ==> r == FormatLine(stamp, component, host, code, msg)
  {
    match LevelOfCode(code)
    case Some(l) =>
      ShouldEmitLevel(s, l);
      if ShouldEmit(s, code) then FormatLine(stamp, component, host, code, msg) else ""
    case None =>
      ShouldEmitOtherCode(s, code);
      FormatLine(stamp, component, host, code, msg)
  }

  // ---------------------------------------------------------------------
  // The line parser

  /** Entry: one decoded log line. */
  datatype Entry = Entry(time: Time, component: string, host: string, level: Level, message: string)

  /** The zero Entry that ParseLine returns for a line of the wrong shape. */
  const ZeroEntry: Entry := Entry(ZeroTime, "", "", Info, "")

  /** The three errors ParseLine can return: the wrong number of fields
      ("empty line"), a timestamp time.Parse rejects, an unknown level
      code. */
  datatype LineError = WrongFieldCount | BadTimestamp | BadLevel

  /** ParseLine returns an entry and an error side by side, as Go does. */
  datatype Parsed = Parsed(entry: Entry, err: Option<LineError>)

  /** time.Parse with the log's timestamp layout. */
  type TimeParser = string -> Option<Time>

  /** The instant time.Parse assigns: its result, or the zero time when
      it fails. */
  function TimeOf(parseTime: TimeParser, text: string): Time
  {
    match parseTime(text)
    case Some(t) => t
    case None => ZeroTime
  }

  /** ParseLine: split on `|` into exactly five fields; the timestamp is
      parsed, the component and the host are trimmed, the code is mapped
      to a level and the trimmed message is kept. A bad timestamp is
      reported only when the level code is valid, and then the entry is
      still filled in; a bad level code leaves the message empty. */
  function ParseLine(line: string, parseTime: TimeParser): (r: Parsed)
    ensures r.err == Some(WrongFieldCount) <==> |Split(line, "|")| != 5
    ensures r.err == Some(WrongFieldCount) ==> r.entry == ZeroEntry
    ensures |Split(line, "|")| == 5 ==>
      var parts := Split(line, "|");
      && r.entry.time == TimeOf(parseTime, parts[0])
      && r.entry.component == TrimSpace(parts[1])
      && r.entry.host == TrimSpace(parts[2])
      && (r.err == Some(BadLevel) <==> LevelOfCode(parts[3]).None?)
      && (r.err == Some(BadTimestamp) <==> LevelOfCode(parts[3]).Some? && parseTime(parts[0]).None?)
      && (r.err != Some(BadLevel) ==> Code(r.entry.level) == parts[3] && r.entry.message == TrimSpace(parts[4]))
      && (r.err == Some(BadLevel) ==> r.entry.level == Info && r.entry.message == "")
  {
    var parts := Split(line, "|");
    if |parts| != 5 then Parsed(ZeroEntry, Some(WrongFieldCount))
    else
      var time := TimeOf(parseTime, parts[0]);
      var timeErr := if parseTime(parts[0]).None? then Some(BadTimestamp) else None;
      var component := TrimSpace(parts[1]);
      var host := TrimSpace(parts[2]);
      match LevelOfCode(parts[3])
      case None => Parsed(Entry(time, component, host, Info, ""), Some(BadLevel))
      case Some(level) => Parsed(Entry(time, component, host, level, TrimSpace(parts[4])), timeErr)
  }

  /** Splitting five `|`-free fields joined by `|` gives them back. */
  lemma SplitFive(a: string, b: string, c: string, d: string, e: string)
    requires '|' !in a && '|' !in b && '|' !in c && '|' !in d && '|' !in e
    ensures Split(a + "|" + b + "|" + c + "|" + d + "|" + e, "|") == [a, b, c, d, e]
  {
    JoinFive(a, b, c, d, e);
    SplitJoin([a, b, c, d, e], '|');
  }

  lemma JoinFive(a: string, b: string, c: string, d: string, e: string)
    ensures Join([a, b, c, d, e], "|") == a + "|" + b + "|" + c + "|" + d + "|" + e
  {
    var parts := [a, b, c, d, e];
    assert Join(parts[4..], "|") == e;
    assert Join(parts[3..], "|") == d + "|" + e by { assert parts[3..][1..] == parts[4..]; }
    assert Join(parts[2..], "|") == c + "|" + (d + "|" + e) by { assert parts[2..][1..] == parts[3..]; }
    assert Join(parts[1..], "|") == b + "|" + (c + "|" + (d + "|" + e)) by { assert parts[1..][1..] == parts[2..]; }
    AppendFive(a, b, c, d, e);
  }

  // A rewriting step only: regroups the concatenation for JoinFive.
  lemma AppendFive(a: string, b: string, c: string, d: string, e: string)
    ensures a + "|" + (b + "|" + (c + "|" + (d + "|" + e))) == a + "|" + b + "|" + c + "|" + d + "|" + e
  {
  }

  /** The padding added to a component is spaces only. */
  lemma PadLeftParts(s: string, width: nat)
    ensures var r := PadLeft(s, width);
      && r == r[..|r| - |s|] + s
      && AllSpace(r[..|r| - |s|])
  {
    var r := PadLeft(s, width);
    assert r == r[..|r| - |s|] + r[|r| - |s|..];
  }

  /** Padding keeps a character out of the component and trims away. */
  lemma PadLeftClean(s: string, width: nat, c: char)
    requires c !in s && !IsSpace(c)
    ensures c !in PadLeft(s, width)
    ensures TrimSpace(PadLeft(s, width)) == TrimSpace(s)
  {
    var r := PadLeft(s, width);
    var lead := r[..|r| - |s|];
    PadLeftParts(s, width);
    assert c !in lead;
    TrimSpacePadded(lead, s, "");
    assert lead + s + "" == r;
  }

  /** The fields of a written line: the padded component keeps no `|` it
      did not have, and trims to the trimmed component. */
  lemma RecordFields(stamp: string, component: string, host: string, code: string, msg: string)
    requires '|' !in stamp && '|' !in component && '|' !in host && '|' !in code && '|' !in msg
    ensures Split(FormatRecord(stamp, component, host, code, msg), "|")
      == [stamp, PadLeft(component, ComponentWidth), host, code, msg]
    ensures TrimSpace(PadLeft(component, ComponentWidth)) == TrimSpace(component)
  {
    PadLeftClean(component, ComponentWidth, '|');
    SplitFive(stamp, PadLeft(component, ComponentWidth), host, code, msg);
  }

  /** A line the logger writes parses back, without its line feed, to the
      trimmed component, host and message and to the written level code,
      provided no field holds a `|`; the timestamp is whatever time.Parse
      makes of the written one. */
  lemma ParseFormatRecord(stamp: string, component: string, host: string, code: string, msg: string, parseTime: TimeParser)
    requires '|' !in stamp && '|' !in component && '|' !in host && '|' !in code && '|' !in msg
    ensures var r := ParseLine(FormatRecord(stamp, component, host, code, msg), parseTime);
      && r.err != Some(WrongFieldCount)
      && r.entry.time == TimeOf(parseTime, stamp)
      && r.entry.component == TrimSpace(component)
      && r.entry.host == TrimSpace(host)
      && (r.err == Some(BadLevel) <==> LevelOfCode(code).None?)
      && (r.err == Some(BadTimestamp) <==> LevelOfCode(code).Some? && parseTime(stamp).None?)
      && (r.err != Some(BadLevel) ==> Code(r.entry.level) == code && r.entry.message == TrimSpace(msg))
  {
    RecordFields(stamp, component, host, code, msg);
  }

  /** The round trip for a message written at a level: every part of the
      entry is recovered, up to white space around the component, the host
      and the message. */
  lemma ParseFormatLevel(stamp: string, component: string, host: string, level: Level, msg: string, parseTime: TimeParser)
    requires '|' !in stamp && '|' !in component && '|' !in host && '|' !in msg
    requires parseTime(stamp).Some?
    ensures ParseLine(FormatRecord(stamp, component, host, Code(level), msg), parseTime)
      == Parsed(Entry(parseTime(stamp).value, TrimSpace(component), TrimSpace(host), level, TrimSpace(msg)), None)
  {
    var r := ParseLine(FormatRecord(stamp, component, host, Code(level), msg), parseTime);
    ParseFormatRecord(stamp, component, host, Code(level), msg, parseTime);
    LevelOfCodeOfLevel(level);
    LevelOfCodeOfLevel(r.entry.level);
    assert r.entry.level == level;
    assert r.err == None;
    assert r.entry.time == parseTime(stamp).value;
    assert r.entry == Entry(parseTime(stamp).value, TrimSpace(component), TrimSpace(host), level, TrimSpace(msg));
  }

  // ---------------------------------------------------------------------
  // The level-name parser

  /** The lower-case name of a level. */
  function Word(l: Level): string
  {
    match l
    case Info => "info"
    case Warning => "warning"
    case Error => "error"
    case Critical => "critical"
    case Profile => "profile"
  }

  function UpperChar(c: char): char
  {
    if 'a' <= c <= 'z' then (c as int - 32) as char else c
  }

  /** ASCII upper case. */
  function Upper(s: string): (r: string)
    ensures |r| == |s|
  {
    seq(|s|, i requires 0 <= i < |s| => UpperChar(s[i]))
  }

  /** The spellings ParseLevel accepts for a level: its name and its
      initial, each all in lower case or all in upper case. */
  predicate Spells(word: string, l: Level)
  {
    var w := Word(l);
    word == w || word == Upper(w) || word == w[..1] || word == Upper(w[..1])
  }

  /** The code letter of a level is its upper-case initial. */
  lemma CodeIsUpperInitial(l: Level)
    ensures Code(l) == Upper(Word(l)[..1])
  {
  }

  /** The spellings of each level, written out. */
  lemma SpellingsTable()
    ensures Word(Info)[..1] == "i" && Upper("info") == "INFO" && Upper("i") == "I"
    ensures Word(Warning)[..1] == "w" && Upper("warning") == "WARNING" && Upper("w") == "W"
    ensures Word(Error)[..1] == "e" && Upper("error") == "ERROR" && Upper("e") == "E"
    ensures Word(Critical)[..1] == "c" && Upper("critical") == "CRITICAL" && Upper("c") == "C"
    ensures Word(Profile)[..1] == "p" && Upper("profile") == "PROFILE" && Upper("p") == "P"
  {
  }

  /** A text none of the twenty spellings of ParseLevel spells no level. */
  lemma NotSpelled(word: string)
    requires word !in {"info", "i", "INFO", "I", "warning", "w", "WARNING", "W", "error", "e", "ERROR", "E"}
    requires word !in {"critical", "c", "CRITICAL", "C", "profile", "p", "PROFILE", "P"}
    ensures forall l :: !Spells(word, l)
  {
    SpellingsTable();
    forall l ensures !Spells(word, l) {
      match l
      case Info =>
      case Warning =>
      case Error =>
      case Critical =>
      case Profile =>
    }
  }

  /** ParseLevel's answer: a level, and whether the text named one. */
  datatype LevelParse = LevelParse(level: Level, ok: bool)

  /** ParseLevel: one of the four spellings of a level gives that level;
      anything else gives Info and an error. */
  function ParseLevel(word: string): (r: LevelParse)
    ensures r.ok <==> exists l :: Spells(word, l)
    ensures r.ok ==> Spells(word, r.level)
    ensures !r.ok ==> r.level == Info
  {
    SpellingsTable();
    if word == "info" || word == "i" || word == "INFO" || word == "I" then assert Spells(word, Info); LevelParse(Info, true)
    else if word == "warning" || word == "w" || word == "WARNING" || word == "W" then assert Spells(word, Warning); LevelParse(Warning, true)
    else if word == "error" || word == "e" || word == "ERROR" || word == "E" then assert Spells(word, Error); LevelParse(Error, true)
    else if word == "critical" || word == "c" || word == "CRITICAL" || word == "C" then assert Spells(word, Critical); LevelParse(Critical, true)
    else if word == "profile" || word == "p" || word == "PROFILE" || word == "P" then assert Spells(word, Profile); LevelParse(Profile, true)
    else NotSpelled(word); LevelParse(Info, false)
  }

  // ---------------------------------------------------------------------
  // The whole-file parser

  /** The entries ParseFile collects from `lines`, in order: those of the
      non-empty lines that parse without error, at most one per line. */
  function Successes(lines: seq<string>, parseTime: TimeParser): (es: seq<Entry>)
    ensures |es| <= |lines|
  {
    if lines == [] then []
    else
      var line := lines[|lines| - 1];
      var r := ParseLine(line, parseTime);
      Successes(lines[..|lines| - 1], parseTime) + (if line != "" && r.err == None then [r.entry] else [])
  }

  /** The error ParseFile returns for `lines`: `last` is overwritten by
      every non-empty line, so it is the error of the final non-empty
      line. Without a non-empty line there is no error. */
  function LastError(lines: seq<string>, parseTime: TimeParser): (e: Option<LineError>)
    ensures e.Some? ==> exists i :: 0 <= i < |lines| && lines[i] != ""
  {
    if lines == [] then None
    else
      var line := lines[|lines| - 1];
      if line == "" then LastError(lines[..|lines| - 1], parseTime) else ParseLine(line, parseTime).err
  }

  /** ParseFile on the file's contents (reading the file is not
      modelled): split on line feeds, skip empty lines, keep the entries
      that parse, and remember the error of each line parsed. */
  method ParseFile(data: string, parseTime: TimeParser) returns (entries: seq<Entry>, last: Option<LineError>)
    ensures entries == Successes(Split(data, "\n"), parseTime)
    ensures last == LastError(Split(data, "\n"), parseTime)
  {
    var lines := Split(data, "\n");
    entries := [];
    last := None;
    for i := 0 to |lines|
      invariant entries == Successes(lines[..i], parseTime)
      invariant last == LastError(lines[..i], parseTime)
    {
      var line := lines[i];
      assert lines[..i + 1][..i] == lines[..i];
      if line == "" {
        continue;
      }
      var r := ParseLine(line, parseTime);
      last := r.err;
      if last == None {
        entries := entries + [r.entry];
      }
    }
    assert lines[..|lines|] == lines;
  }

  /** The entries of consecutive stretches of lines are those of each
      stretch, in order. */
  lemma {:induction false} SuccessesAppend(a: seq<string>, b: seq<string>, parseTime: TimeParser)
    ensures Successes(a + b, parseTime) == Successes(a, parseTime) + Successes(b, parseTime)
    decreases |b|
  {
    if b == [] {
      assert a + b == a;
    } else {
      var b' := b[..|b| - 1];
      assert (a + b)[..|a + b| - 1] == a + b';
      SuccessesAppend(a, b', parseTime);
    }
  }

  /** Empty lines contribute nothing and do not disturb the error. */
  lemma SkipEmpty(lines: seq<string>, parseTime: TimeParser)
    ensures Successes(lines + [""], parseTime) == Successes(lines, parseTime)
    ensures LastError(lines + [""], parseTime) == LastError(lines, parseTime)
  {
    assert (lines + [""])[..|lines|] == lines;
  }

  /** The error is that of the final non-empty line alone, whatever the
      lines before it did. */
  lemma {:induction false} LastErrorIsFinalLine(lines: seq<string>, j: nat, parseTime: TimeParser)
    requires j < |lines| && lines[j] != ""
    requires forall k :: j < k < |lines| ==> lines[k] == ""
    ensures LastError(lines, parseTime) == ParseLine(lines[j], parseTime).err
    decreases |lines|
  {
    if j < |lines| - 1 {
      var front := lines[..|lines| - 1];
      assert front[j] == lines[j];
      LastErrorIsFinalLine(front, j, parseTime);
    }
  }

  /** A file without a non-empty line reports no error. */
  lemma {:induction false} LastErrorAllEmpty(lines: seq<string>, parseTime: TimeParser)
    requires forall k :: 0 <= k < |lines| ==> lines[k] == ""
    ensures LastError(lines, parseTime) == None
    ensures Successes(lines, parseTime) == []
    decreases |lines|
  {
    if lines != [] {
      LastErrorAllEmpty(lines[..|lines| - 1], parseTime);
    }
  }

  // ---------------------------------------------------------------------
  // Reading back what was written

  /** The arguments of one printMessage call that wrote a line. */
  datatype Record = Record(stamp: string, component: string, host: string, level: Level, msg: string)

  /** A record no field of which holds a field or line separator. */
  predicate Writable(r: Record)
  {
    '|' !in r.stamp && '|' !in r.component && '|' !in r.host && '|' !in r.msg
    && '\n' !in r.stamp && '\n' !in r.component && '\n' !in r.host && '\n' !in r.msg
  }

  function RecordText(r: Record): string
  {
    FormatRecord(r.stamp, r.component, r.host, Code(r.level), r.msg)
  }

  /** The log file holding the lines of `rs`, in order. */
  function Written(rs: seq<Record>): string
  {
    if rs == [] then "" else RecordText(rs[0]) + "\n" + Written(rs[1..])
  }

  /** The entry ParseLine makes of a written record. */
  function Expected(r: Record, parseTime: TimeParser): Entry
  {
    Entry(TimeOf(parseTime, r.stamp), TrimSpace(r.component), TrimSpace(r.host), r.level, TrimSpace(r.msg))
  }

  lemma RecordTextOneLine(r: Record)
    requires Writable(r)
    ensures '\n' !in RecordText(r)
  {
    var padded := PadLeft(r.component, ComponentWidth);
    assert padded == padded[..|padded| - |r.component|] + r.component;
    assert '\n' !in padded;
  }

  /** The texts of the records, in order. */
  function Texts(rs: seq<Record>): (ts: seq<string>)
    ensures |ts| == |rs|
    ensures forall i :: 0 <= i < |rs| ==> ts[i] == RecordText(rs[i])
  {
    seq(|rs|, i requires 0 <= i < |rs| => RecordText(rs[i]))
  }

  /** The written file is the records' texts joined by line feeds, with
      an empty text after the final line feed. */
  lemma {:induction false} WrittenJoin(rs: seq<Record>)
    ensures Written(rs) == Join(Texts(rs) + [""], "\n")
    decreases |rs|
  {
    if rs != [] {
      WrittenJoin(rs[1..]);
      var parts := Texts(rs) + [""];
      assert parts[1..] == Texts(rs[1..]) + [""];
    }
  }

  lemma TextsLineFree(rs: seq<Record>)
    requires forall i :: 0 <= i < |rs| ==> Writable(rs[i])
    ensures forall i :: 0 <= i < |rs| + 1 ==> '\n' !in (Texts(rs) + [""])[i]
  {
    var parts := Texts(rs) + [""];
    forall i | 0 <= i < |rs| + 1
      ensures '\n' !in parts[i]
    {
      if i < |rs| {
        RecordTextOneLine(rs[i]);
      }
    }
  }

  lemma SplitWritten(rs: seq<Record>)
    requires forall i :: 0 <= i < |rs| ==> Writable(rs[i])
    ensures Split(Written(rs), "\n") == Texts(rs) + [""]
  {
    WrittenJoin(rs);
    TextsLineFree(rs);
    SplitJoin(Texts(rs) + [""], '\n');
  }

  /** The entries expected from the records, in order. */
  function ExpectedEntries(rs: seq<Record>, parseTime: TimeParser): (es: seq<Entry>)
    ensures |es| == |rs|
  {
    if rs == [] then [] else ExpectedEntries(rs[..|rs| - 1], parseTime) + [Expected(rs[|rs| - 1], parseTime)]
  }

  lemma {:induction false} ExpectedEntriesAt(rs: seq<Record>, parseTime: TimeParser, i: nat)
    requires i < |rs|
    ensures ExpectedEntries(rs, parseTime)[i] == Expected(rs[i], parseTime)
    decreases |rs|
  {
    if i < |rs| - 1 {
      ExpectedEntriesAt(rs[..|rs| - 1], parseTime, i);
    }
  }

  /** Parsing lines one at a time: a line at the end adds its own entry
      and sets the error when it is not empty. */
  lemma SuccessesSnoc(lines: seq<string>, line: string, parseTime: TimeParser)
    ensures var r := ParseLine(line, parseTime);
      && Successes(lines + [line], parseTime)
        == Successes(lines, parseTime) + (if line != "" && r.err == None then [r.entry] else [])
      && LastError(lines + [line], parseTime)
        == (if line == "" then LastError(lines, parseTime) else r.err)
  {
    assert (lines + [line])[..|lines|] == lines;
  }

  lemma RecordParses(r: Record, parseTime: TimeParser)
    requires Writable(r) && parseTime(r.stamp).Some?
    ensures RecordText(r) != ""
    ensures ParseLine(RecordText(r), parseTime) == Parsed(Expected(r, parseTime), None)
  {
    ParseFormatLevel(r.stamp, r.component, r.host, r.level, r.msg, parseTime);
    RecordTextLong(r);
  }

  lemma RecordTextLong(r: Record)
    ensures |RecordText(r)| > ComponentWidth
  {
    var padded := PadLeft(r.component, ComponentWidth);
    assert RecordText(r) == r.stamp + "|" + padded + "|" + r.host + "|" + Code(r.level) + "|" + r.msg;
  }

  lemma TextsSnoc(rs: seq<Record>)
    requires rs != []
    ensures Texts(rs) == Texts(rs[..|rs| - 1]) + [RecordText(rs[|rs| - 1])]
  {
    var n := |rs| - 1;
    var ts, tf := Texts(rs), Texts(rs[..n]);
    forall i | 0 <= i < n ensures ts[i] == tf[i] {
      assert rs[..n][i] == rs[i];
    }
    assert ts == tf + [ts[n]];
  }

  lemma {:induction false} SuccessesOfRecords(rs: seq<Record>, parseTime: TimeParser)
    requires forall i :: 0 <= i < |rs| ==> Writable(rs[i]) && parseTime(rs[i].stamp).Some?
    ensures Successes(Texts(rs), parseTime) == ExpectedEntries(rs, parseTime)
    ensures LastError(Texts(rs), parseTime) == None
    decreases |rs|
  {
    if rs != [] {
      var n := |rs| - 1;
      var r := rs[n];
      var front := rs[..n];
      assert forall i :: 0 <= i < |front| ==> front[i] == rs[i];
      SuccessesOfRecords(front, parseTime);
      TextsSnoc(rs);
      var tf := Texts(front);
      RecordParses(r, parseTime);
      SuccessesSnoc(tf, RecordText(r), parseTime);
    }
  }

  /** Every log written through printMessage parses back by ParseFile to
      one entry per written line, in order, with no error, when the
      timestamps parse and no field holds `|` or a line feed. */
  lemma ReadBack(rs: seq<Record>, parseTime: TimeParser)
    requires forall i :: 0 <= i < |rs| ==> Writable(rs[i]) && parseTime(rs[i].stamp).Some?
    ensures Successes(Split(Written(rs), "\n"), parseTime) == ExpectedEntries(rs, parseTime)
    ensures LastError(Split(Written(rs), "\n"), parseTime) == None
  {
    SplitWritten(rs);
    SuccessesOfRecords(rs, parseTime);
    SkipEmpty(Texts(rs), parseTime);
  }

  /** A line without a line feed in front of a text is a line of its
      own. */
  lemma LineInFront(line: string, text: string)
    requires '\n' !in line
    ensures Split(line + "\n" + text, "\n") == [line] + Split(text, "\n")
  {
    SplitConcat(line, '\n', text);
    SplitAbsent(line, '\n');
  }

  /** A bad line is forgotten once written lines follow it: ParseFile
      still returns the entries of those lines, after whatever the bad
      line gave, and reports no error. */
  lemma ErrorForgotten(bad: string, rs: seq<Record>, parseTime: TimeParser)
    requires '\n' !in bad
    requires rs != []
    requires forall i :: 0 <= i < |rs| ==> Writable(rs[i]) && parseTime(rs[i].stamp).Some?
    ensures var lines := Split(bad + "\n" + Written(rs), "\n");
      && Successes(lines, parseTime) == Successes([bad], parseTime) + ExpectedEntries(rs, parseTime)
      && LastError(lines, parseTime) == None
  {
    var tail := Split(Written(rs), "\n");
    LineInFront(bad, Written(rs));
    ReadBack(rs, parseTime);
    SuccessesAppend([bad], tail, parseTime);
    SplitWritten(rs);
    var n := |rs| - 1;
    assert tail[n] == RecordText(rs[n]);
    RecordParses(rs[n], parseTime);
    LastErrorAppend([bad], tail, n, parseTime);
  }

  /** Lines that hold a non-empty line decide the error alone, whatever
      lines come before them. */
  lemma {:induction false} LastErrorAppend(a: seq<string>, b: seq<string>, k: nat, parseTime: TimeParser)
    requires k < |b| && b[k] != ""
    ensures LastError(a + b, parseTime) == LastError(b, parseTime)
    decreases |b|
  {
    var last := |b| - 1;
    var ab := a + b;
    assert ab[|ab| - 1] == b[last];
    if b[last] == "" {
      var front := b[..last];
      assert ab[..|ab| - 1] == a + front;
      assert LastError(ab, parseTime) == LastError(a + front, parseTime);
      assert b[..|b| - 1] == front;
      assert LastError(b, parseTime) == LastError(front, parseTime);
      assert front[k] == b[k];
      LastErrorAppend(a, front, k, parseTime);
    } else {
      assert LastError(ab, parseTime) == ParseLine(b[last], parseTime).err;
    }
  }

  // ---------------------------------------------------------------------
  // The logger

  /** GELog: a component name, the host name written into every line, and
      the log file, modelled as the text written to it so far. */
  class GELog {
    var component: string
    var hostname: string
    var file: string

    /** MakeLoggerHostname. MakeLogger is the same with the host name
        taken from os.Hostname. */
    constructor (component: string, hostname: string)
      ensures this.component == component && this.hostname == hostname && file == ""
    {
      this.component := component;
      this.hostname := hostname;
      file := "";
    }

    /** printMessage, given the code, the formatted message and the
        formatted current time: returns early when the filter drops the
        code, otherwise appends one line. */
    method PrintMessage(settings: Settings, code: string, component: string, msg: string, stamp: string)
      modifies this`file
      ensures file == old(file) + Emitted(settings, code, stamp, component, hostname, msg)
    {
      if code == "P" {
        if !settings.profiling {
          return;
        }
      }
      if Ordinal(settings.filter) > Ordinal(Info) {
        match settings.filter {
          case Warning =>
            if code == "I" {
              return;
            }
          case Error =>
            if code == "I" || code == "W" {
              return;
            }
          case Critical =>
            if code == "I" || code == "W" || code == "E" {
              return;
            }
          case _ =>
        }
      }
      file := file + FormatLine(stamp, component, hostname, code, msg);
    }

    /** InfoC, WarningC, ErrorC, CriticalC and ProfileC: a message at a
        level for a given component. */
    method LogC(settings: Settings, level: Level, component: string, msg: string, stamp: string)
      modifies this`file
      ensures file == old(file) + Emitted(settings, Code(level), stamp, component, hostname, msg)
    {
      PrintMessage(settings, Code(level), component, msg, stamp);
    }

    /** Info, Warning, Error, Critical and Profile: a message at a level
        for the logger's own component. */
    method Log(settings: Settings, level: Level, msg: string, stamp: string)
      modifies this`file
      ensures file == old(file) + Emitted(settings, Code(level), stamp, component, hostname, msg)
    {
      LogC(settings, level, component, msg, stamp);
    }
  }
}
