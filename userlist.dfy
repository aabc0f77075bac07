/** ParseUserList of userList.go: the text `qconf -su` prints for a Grid
    Engine access list or department, five lines each holding a keyword and
    its value, read into a UserList record. */
module UserLists {
  import opened Wrappers
  import opened GoStrings
  import opened GoStrconv

  /** An access control list or department. */
  datatype UserList = UserList(name: string, listType: string, fshare: int, oticket: int, entries: seq<string>)

  /** Why a text is not a user list. A Go NumError from strconv.Atoi
      carries the text it could not convert. */
  datatype ParseError =
    | WrongLineCount(lines: nat)
    | BadLine(keyword: string)
    | NumberError(num: string, err: NumError)

  /** The keyword each of the five lines must hold, in line order. */
  const Keywords: seq<string> := ["name", "type", "fshare", "oticket", "entries"]

  /** The lines of a text: strings.Split(ul, "\n"). */
  function Lines(ul: string): (el: seq<string>)
    ensures |el| >= 1
  {
    Split(ul, "\n")
  }

  /** ParseUserList. The line count and all five keywords are checked
      before the two numbers are converted. */
  function ParseUserList(ul: string): (r: Result<UserList, ParseError>)
    ensures r.Success? ==> |r.value.entries| >= 1
    ensures r.Success? ==> MinInt64 <= r.value.fshare <= MaxInt64 && MinInt64 <= r.value.oticket <= MaxInt64
  {
    var el := Lines(ul);
    if |el| != 5 then Failure(WrongLineCount(|el|))
    else
      var name := Split(el[0], "name");
      if |name| != 2 then Failure(BadLine("name"))
      else
        var t := Split(el[1], "type");
        if |t| != 2 then Failure(BadLine("type"))
        else
          var fs := Split(el[2], "fshare");
          if |fs| != 2 then Failure(BadLine("fshare"))
          else
            var ot := Split(el[3], "oticket");
            if |ot| != 2 then Failure(BadLine("oticket"))
            else
              var ent := Split(el[4], "entries");
              if |ent| != 2 then Failure(BadLine("entries"))
              else
                var fsText := TrimSpace(fs[1]);
                var f := Atoi(fsText);
                if f.err.Some? then Failure(NumberError(fsText, f.err.value))
                else
                  var otText := TrimSpace(ot[1]);
                  var o := Atoi(otText);
                  if o.err.Some? then Failure(NumberError(otText, o.err.value))
                  else Success(UserList(TrimSpace(name[1]), TrimSpace(t[1]), f.value, o.value, Split(TrimSpace(ent[1]), ",")))
  }

  // ---------------------------------------------------------------------
  // Keywords

  /** The text after the first occurrence of `kw` in `line`. */
  function After(line: string, kw: string): string
  {
    var k := Index(line, kw);
    if k < 0 then "" else line[k + |kw|..]
  }

  /** A separator whose first element does not recur cannot overlap
      itself. */
  lemma OverlapFreeOfFirst(kw: string)
    requires forall k :: 0 < k < |kw| ==> kw[k] != kw[0]
    ensures OverlapFree(kw)
  {
    forall k | 0 < k < |kw| ensures kw[k..] != kw[..|kw| - k] {
      assert kw[k..][0] != kw[..|kw| - k][0];
    }
  }

  /** No keyword can overlap itself. */
  lemma KeywordsOverlapFree()
    ensures forall i :: 0 <= i < |Keywords| ==> |Keywords[i]| > 0 && OverlapFree(Keywords[i])
  {
    OverlapFreeOfFirst(Keywords[0]);
    OverlapFreeOfFirst(Keywords[1]);
    OverlapFreeOfFirst(Keywords[2]);
    OverlapFreeOfFirst(Keywords[3]);
    var kw := Keywords[4];
    forall k | 0 < k < |kw| ensures kw[k..] != kw[..|kw| - k] {
      if k == 5 {
        assert kw[k..][1] != kw[..|kw| - k][1];
      } else {
        assert kw[k..][0] != kw[..|kw| - k][0];
      }
    }
  }

  /** A line splits into two pieces on its keyword exactly when the keyword
      occurs in it once, and the second piece is the text after it. */
  lemma KeywordSplit(line: string, kw: string)
    requires |kw| > 0 && OverlapFree(kw)
    ensures |Split(line, kw)| == 2 <==> Occurrences(line, kw) == 1
    ensures |Split(line, kw)| == 2 ==> Split(line, kw)[1] == After(line, kw)
  {
    SplitOccurrences(line, kw);
    var k := Index(line, kw);
    if k >= 0 {
      var rest := line[k + |kw|..];
      assert Split(line, kw) == [line[..k]] + Split(rest, kw);
      if |Split(rest, kw)| == 1 {
        assert Index(rest, kw) < 0;
      }
    }
  }

  // ---------------------------------------------------------------------
  // What ParseUserList accepts

  predicate InRange(n: int)
  {
    MinInt64 <= n <= MaxInt64
  }

  /** A number field: a decimal literal whose value is an int64. */
  predicate Numeric(s: string)
  {
    IsDecimal(s) && InRange(DecimalValue(s))
  }

  /** The first `i` lines each hold their keyword exactly once. */
  predicate KeywordsBefore(el: seq<string>, i: nat)
    requires |el| == 5 && i <= 5
  {
    forall j :: 0 <= j < i ==> Occurrences(el[j], Keywords[j]) == 1
  }

  /** Five lines, each holding its keyword exactly once. */
  predicate Structured(ul: string)
  {
    |Lines(ul)| == 5 && KeywordsBefore(Lines(ul), 5)
  }

  /** The trimmed value that follows the keyword on line `i`. */
  function Field(ul: string, i: nat): string
    requires |Lines(ul)| == 5 && i < 5
  {
    TrimSpace(After(Lines(ul)[i], Keywords[i]))
  }

  /** The text has five lines exactly when it holds four newlines;
      otherwise the error reports the number of lines. */
  lemma LineCount(ul: string)
    ensures |Lines(ul)| == multiset(ul)['\n'] + 1
    ensures ParseUserList(ul).Failure? && ParseUserList(ul).error.WrongLineCount? <==> multiset(ul)['\n'] != 4
    ensures multiset(ul)['\n'] != 4 ==> ParseUserList(ul) == Failure(WrongLineCount(multiset(ul)['\n'] + 1))
  {
    SplitCount(ul, '\n');
  }

  /** A user list followed by a newline is six lines and is refused. */
  lemma TrailingNewline(ul: string)
    requires ParseUserList(ul).Success?
    ensures ParseUserList(ul + "\n") == Failure(WrongLineCount(6))
  {
    LineCount(ul);
    LineCount(ul + "\n");
    assert multiset(ul + "\n") == multiset(ul) + multiset{'\n'};
  }

  /** On five lines, each line's split on its keyword has two pieces
      exactly when the keyword occurs once, the second being the text
      after it. */
  lemma LineSplits(ul: string)
    requires |Lines(ul)| == 5
    ensures forall i :: 0 <= i < 5 ==>
      (|Split(Lines(ul)[i], Keywords[i])| == 2 <==> Occurrences(Lines(ul)[i], Keywords[i]) == 1)
    ensures forall i :: 0 <= i < 5 && |Split(Lines(ul)[i], Keywords[i])| == 2 ==>
      Split(Lines(ul)[i], Keywords[i])[1] == After(Lines(ul)[i], Keywords[i])
  {
    var el := Lines(ul);
    KeywordsOverlapFree();
    forall i | 0 <= i < 5
      ensures |Split(el[i], Keywords[i])| == 2 <==> Occurrences(el[i], Keywords[i]) == 1
      ensures |Split(el[i], Keywords[i])| == 2 ==> Split(el[i], Keywords[i])[1] == After(el[i], Keywords[i])
    {
      KeywordSplit(el[i], Keywords[i]);
    }
  }

  /** On five lines, the first line whose keyword does not occur exactly
      once decides the error, in line order: an absent or a repeated
      keyword is refused. */
  lemma KeywordChecks(ul: string)
    requires |Lines(ul)| == 5
    ensures forall i :: 0 <= i < 5 ==>
      (ParseUserList(ul) == Failure(BadLine(Keywords[i])) <==>
        KeywordsBefore(Lines(ul), i) && Occurrences(Lines(ul)[i], Keywords[i]) != 1)
  {
    LineSplits(ul);
  }

  /** A number error only ever comes from a structured text: every
      keyword is checked before either number is converted. */
  lemma NumbersAfterKeywords(ul: string)
    ensures ParseUserList(ul).Failure? && ParseUserList(ul).error.NumberError? ==> Structured(ul)
  {
    if |Lines(ul)| == 5 {
      LineSplits(ul);
    }
  }

  /** The fshare value is converted before the oticket one. A failed
      conversion carries the text that failed; a decimal literal out of
      range fails with ErrRange. */
  lemma NumberChecks(ul: string)
    requires Structured(ul)
    ensures !Numeric(Field(ul, 2)) ==>
      && ParseUserList(ul).Failure? && ParseUserList(ul).error.NumberError?
      && ParseUserList(ul).error.num == Field(ul, 2)
      && (IsDecimal(Field(ul, 2)) ==> ParseUserList(ul).error.err == ErrRange)
    ensures Numeric(Field(ul, 2)) && !Numeric(Field(ul, 3)) ==>
      && ParseUserList(ul).Failure? && ParseUserList(ul).error.NumberError?
      && ParseUserList(ul).error.num == Field(ul, 3)
      && (IsDecimal(Field(ul, 3)) ==> ParseUserList(ul).error.err == ErrRange)
  {
    LineSplits(ul);
    ParseIntSpec(Field(ul, 2));
    ParseIntSpec(Field(ul, 3));
  }

  /** ParseUserList succeeds exactly on structured texts whose two number
      fields are int64 decimal literals. */
  lemma Accepted(ul: string)
    ensures ParseUserList(ul).Success? <==> Structured(ul) && Numeric(Field(ul, 2)) && Numeric(Field(ul, 3))
  {
    var el := Lines(ul);
    if |el| == 5 {
      LineSplits(ul);
      if |Split(el[0], "name")| != 2 {
        assert Occurrences(el[0], Keywords[0]) != 1;
      } else if |Split(el[1], "type")| != 2 {
        assert Occurrences(el[1], Keywords[1]) != 1;
      } else if |Split(el[2], "fshare")| != 2 {
        assert Occurrences(el[2], Keywords[2]) != 1;
      } else if |Split(el[3], "oticket")| != 2 {
        assert Occurrences(el[3], Keywords[3]) != 1;
      } else if |Split(el[4], "entries")| != 2 {
        assert Occurrences(el[4], Keywords[4]) != 1;
      } else {
        assert KeywordsBefore(el, 5);
        assert TrimSpace(Split(el[2], "fshare")[1]) == Field(ul, 2);
        assert TrimSpace(Split(el[3], "oticket")[1]) == Field(ul, 3);
      }
    }
  }

  /** On success, name and type are the trimmed text after their
      keywords, the numbers are the values of theirs, and the entries are
      the comma-free pieces of the trimmed text after `entries`, at least
      one of them. */
  lemma AcceptedFields(ul: string)
    requires ParseUserList(ul).Success?
    ensures |Lines(ul)| == 5 && Numeric(Field(ul, 2)) && Numeric(Field(ul, 3))
    ensures var u := ParseUserList(ul).value;
      && u.name == Field(ul, 0)
      && u.listType == Field(ul, 1)
      && u.fshare == DecimalValue(Field(ul, 2))
      && u.oticket == DecimalValue(Field(ul, 3))
      && |u.entries| >= 1
      && Join(u.entries, ",") == Field(ul, 4)
      && forall i :: 0 <= i < |u.entries| ==> ',' !in u.entries[i]
  {
    LineSplits(ul);
    Accepted(ul);
    ParseIntSpec(Field(ul, 2));
    ParseIntSpec(Field(ul, 3));
    EntryPieces(Field(ul, 4));
  }

  /** The pieces of a comma-separated list hold no comma and join back to
      it. */
  lemma EntryPieces(s: string)
    ensures Join(Split(s, ","), ",") == s
    ensures forall i :: 0 <= i < |Split(s, ",")| ==> ',' !in Split(s, ",")[i]
  {
    JoinSplit(s, ",");
    SplitPartsFree(s, ",");
    var entries := Split(s, ",");
    forall i | 0 <= i < |entries| ensures ',' !in entries[i] {
      OccursAtSingle(entries[i], ',');
    }
  }

  // ---------------------------------------------------------------------
  // The printed form

  /** The column at which `qconf -su` starts the values. */
  const ValueColumn: nat := 8

  function Spaces(n: nat): (r: string)
    ensures |r| == n && forall i :: 0 <= i < n ==> r[i] == ' '
  {
    seq(n, i => ' ')
  }

  /** The spaces that bring the value after `kw` to ValueColumn, at least
      one. */
  function Pad(kw: string): string
  {
    Spaces(if |kw| < ValueColumn then ValueColumn - |kw| else 1)
  }

  /** A keyword, its padding and the value. */
  function Labelled(kw: string, value: string): string
  {
    kw + Pad(kw) + value
  }

  /** A user list in the layout of the sample in the comment above
      ParseUserList. */
  function Format(u: UserList): string
  {
    Join([Labelled("name", u.name), Labelled("type", u.listType), Labelled("fshare", FormatInt(u.fshare)),
          Labelled("oticket", FormatInt(u.oticket)), Labelled("entries", Join(u.entries, ","))], "\n")
  }

  /** A value that can stand after `kw` and be read back: on one line, with
      no white space at either end, and without the keyword in it. */
  ghost predicate Printable(value: string, kw: string)
  {
    '\n' !in value && TrimSpace(value) == value && !Contains(value, kw)
  }

  /** A user list that Format prints and ParseUserList reads back. */
  ghost predicate Writable(u: UserList)
  {
    && Printable(u.name, "name") && Printable(u.listType, "type")
    && InRange(u.fshare) && InRange(u.oticket)
    && |u.entries| >= 1 && (forall i :: 0 <= i < |u.entries| ==> ',' !in u.entries[i])
    && Printable(Join(u.entries, ","), "entries")
  }

  /** A keyword that does not start with a space is absent from a padded
      value that does not hold it. */
  lemma PaddedAbsent(pad: string, value: string, kw: string)
    requires |kw| > 0 && kw[0] != ' '
    requires forall i :: 0 <= i < |pad| ==> pad[i] == ' '
    requires !Contains(value, kw)
    ensures Index(pad + value, kw) == -1
  {
    var rest := pad + value;
    forall j: nat | OccursAt(rest, kw, j) ensures false {
      if j >= |pad| {
        assert value[j - |pad|..j - |pad| + |kw|] == rest[j..j + |kw|];
        assert OccursAt(value, kw, j - |pad|);
      }
    }
    IndexSpec(rest, kw);
  }

  /** A text that starts with `kw` and has no other occurrence of it
      splits into an empty piece and the rest. */
  lemma FrontSplit(kw: string, rest: string)
    requires |kw| > 0 && Index(rest, kw) == -1
    ensures Split(kw + rest, kw) == ["", rest]
  {
    var line := kw + rest;
    assert line[..|kw|] == kw;
    assert line[|kw|..] == rest;
  }

  /** A keyword that does not start with a space occurs once in its
      labelled line, at the front, and the padded value follows it. */
  lemma LabelledSplit(kw: string, value: string)
    requires |kw| > 0 && kw[0] != ' '
    requires !Contains(value, kw)
    ensures Split(Labelled(kw, value), kw) == ["", Pad(kw) + value]
  {
    PaddedAbsent(Pad(kw), value, kw);
    FrontSplit(kw, Pad(kw) + value);
    assert Labelled(kw, value) == kw + (Pad(kw) + value);
  }

  /** The printed text of an int64 can stand after any keyword that starts
      with a letter. */
  lemma NumberPrintable(n: int, kw: string)
    requires |kw| > 0 && 'a' <= kw[0] <= 'z'
    ensures Printable(FormatInt(n), kw)
  {
    var s := FormatInt(n);
    FormatIntChars(n);
    assert |s| > 0;
    TrimSpaceTrimmed(s);
  }

  /** The line Labelled(kw, value) holds and the field ParseUserList reads
      from it. */
  lemma LabelledField(kw: string, value: string)
    requires |kw| > 0 && 'a' <= kw[0] <= 'z'
    requires Printable(value, kw)
    ensures |Split(Labelled(kw, value), kw)| == 2
    ensures TrimSpace(Split(Labelled(kw, value), kw)[1]) == value
  {
    LabelledSplit(kw, value);
    var pad := Pad(kw);
    assert AllSpace(pad);
    TrimSpacePadded(pad, value, "");
    assert pad + value + "" == pad + value;
  }

  /** The five lines of a printed user list. */
  lemma FormatLines(u: UserList)
    requires Writable(u)
    ensures Lines(Format(u)) == [Labelled("name", u.name), Labelled("type", u.listType), Labelled("fshare", FormatInt(u.fshare)),
                                 Labelled("oticket", FormatInt(u.oticket)), Labelled("entries", Join(u.entries, ","))]
  {
    var lines := [Labelled("name", u.name), Labelled("type", u.listType), Labelled("fshare", FormatInt(u.fshare)),
                  Labelled("oticket", FormatInt(u.oticket)), Labelled("entries", Join(u.entries, ","))];
    NumberPrintable(u.fshare, "fshare");
    NumberPrintable(u.oticket, "oticket");
    assert '\n' !in Labelled("name", u.name);
    assert '\n' !in Labelled("type", u.listType);
    assert '\n' !in Labelled("fshare", FormatInt(u.fshare));
    assert '\n' !in Labelled("oticket", FormatInt(u.oticket));
    assert '\n' !in Labelled("entries", Join(u.entries, ","));
    assert forall i :: 0 <= i < |lines| ==> '\n' !in lines[i];
    SplitJoin(lines, '\n');
  }

  /** Every writable user list survives printing and reading back. */
  lemma ParseFormat(u: UserList)
    requires Writable(u)
    ensures ParseUserList(Format(u)) == Success(u)
  {
    FormatLines(u);
    NumberPrintable(u.fshare, "fshare");
    NumberPrintable(u.oticket, "oticket");
    LabelledField("name", u.name);
    LabelledField("type", u.listType);
    LabelledField("fshare", FormatInt(u.fshare));
    LabelledField("oticket", FormatInt(u.oticket));
    LabelledField("entries", Join(u.entries, ","));
    ParseFormatInt(u.fshare);
    ParseFormatInt(u.oticket);
    SplitJoin(u.entries, ',');
  }
}
