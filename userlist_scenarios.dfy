/** The user list of userList_test.go and some malformed variants of it,
    stated over the model. */
module UserListScenarios {
  import opened Wrappers
  import opened GoStrings
  import opened GoStrconv
  import opened UserLists

  /** A keyword whose first character is missing from a text is absent. */
  lemma AbsentOfFirst(value: string, kw: string)
    requires |kw| > 0 && kw[0] !in value
    ensures !Contains(value, kw)
  {
    forall j: nat ensures !OccursAt(value, kw, j) {
      if j + |kw| <= |value| {
        assert value[j..j + |kw|][0] == value[j];
      }
    }
  }

  /** A keyword whose first two characters never stand side by side in a
      text is absent. */
  lemma AbsentOfPair(value: string, kw: string)
    requires |kw| >= 2
    requires forall j :: 0 <= j < |value| - 1 ==> !(value[j] == kw[0] && value[j + 1] == kw[1])
    ensures !Contains(value, kw)
  {
    forall j: nat ensures !OccursAt(value, kw, j) {
      if j + |kw| <= |value| {
        var w := value[j..j + |kw|];
        assert w[0] == value[j] && w[1] == value[j + 1];
      }
    }
  }

  const SampleEntries: seq<string> := ["daniel", "root", "%wheel"]

  const SampleList: UserList := UserList("exclude", "ACL", 13, 77, SampleEntries)

  /** The access list of TestParseUserList, line by line: each keyword,
      the spaces up to column 8, and the value. */
  const SampleLines: seq<string> := [
    "name" + "    " + "exclude",
    "type" + "    " + "ACL",
    "fshare" + "  " + "13",
    "oticket" + " " + "77",
    "entries" + " " + "daniel,root,%wheel"
  ]

  const SampleText: string := Join(SampleLines, "\n")

  lemma SamplePads()
    ensures Pad("name") == "    " && Pad("type") == "    " && Pad("fshare") == "  "
    ensures Pad("oticket") == " " && Pad("entries") == " "
  {
  }

  lemma SampleNumbers()
    ensures FormatInt(13) == "13" && FormatInt(77) == "77"
  {
  }

  lemma SampleFormat()
    ensures Format(SampleList) == SampleText
  {
    SamplePads();
    SampleNumbers();
    assert Join(SampleEntries, ",") == "daniel,root,%wheel";
    var lines := [Labelled("name", "exclude"), Labelled("type", "ACL"), Labelled("fshare", "13"),
                  Labelled("oticket", "77"), Labelled("entries", "daniel,root,%wheel")];
    assert lines == SampleLines;
  }

  lemma SampleNamesPrintable()
    ensures Printable("exclude", "name") && Printable("ACL", "type")
  {
    TrimSpaceTrimmed("exclude");
    TrimSpaceTrimmed("ACL");
    AbsentOfFirst("exclude", "name");
    AbsentOfFirst("ACL", "type");
  }

  lemma SampleEntriesPrintable()
    ensures Printable(Join(SampleEntries, ","), "entries")
  {
    var joined := Join(SampleEntries, ",");
    assert joined == "daniel,root,%wheel";
    TrimSpaceTrimmed(joined);
    AbsentOfPair(joined, "entries");
  }

  lemma SampleWritable()
    ensures Writable(SampleList)
  {
    SampleNamesPrintable();
    SampleEntriesPrintable();
  }

  /** TestParseUserList: name exclude, type ACL, fshare 13, oticket 77 and
      the three entries daniel, root and %wheel. */
  lemma ParseSample()
    ensures ParseUserList(SampleText) == Success(UserList("exclude", "ACL", 13, 77, ["daniel", "root", "%wheel"]))
  {
    SampleWritable();
    SampleFormat();
    ParseFormat(SampleList);
  }

  /** The sample with one newline more has six lines. */
  lemma ParseSampleNewline()
    ensures ParseUserList(SampleText + "\n") == Failure(WrongLineCount(6))
  {
    ParseSample();
    TrailingNewline(SampleText);
  }

  /** The sample with `name username` on its first line. */
  const RepeatedText: string := Join(["name username"] + SampleLines[1..], "\n")

  lemma RepeatedLines()
    ensures Lines(RepeatedText) == ["name username"] + SampleLines[1..]
  {
    var lines := ["name username"] + SampleLines[1..];
    assert forall i :: 0 <= i < |lines| ==> '\n' !in lines[i];
    SplitJoin(lines, '\n');
  }

  /** The keyword `name` occurs twice on the first line of RepeatedText,
      and the name line is refused. */
  lemma ParseRepeatedName()
    ensures ParseUserList(RepeatedText) == Failure(BadLine("name"))
  {
    RepeatedLines();
    var line := "name username";
    assert line[0..4] == "name";
    assert line[9..13] == "name";
    OccurrencesTwo(line, "name", 0, 9);
    KeywordChecks(RepeatedText);
    assert Keywords[0] == "name";
  }
}
