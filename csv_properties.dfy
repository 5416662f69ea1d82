/** Properties of the CSV format of FileManager.java: what reading a written row or
    file gives back, and how the category text selects the team subclass. */
module CsvProperties {
  import opened Wrappers
  import opened JavaText
  import opened Teams
  import opened Csv
  import Scoring

  // ---------------------------------------------------------------------------
  // Round trip

  /** The fields of a row, before they are joined with commas. */
  function RowFields(teamNumber: int, teamName: string, universityName: string, category: string,
                     scores: seq<int>): seq<string>
  {
    [IntToString(teamNumber), teamName, universityName, category] + ScoreTexts(scores)
  }

  lemma {:induction false} JoinSnoc(ps: seq<string>, x: string, sep: char)
    requires |ps| >= 1
    ensures Join(ps + [x], sep) == Join(ps, sep) + [sep] + x
    decreases |ps|
  {
    if |ps| > 1 {
      assert (ps + [x])[1..] == ps[1..] + [x];
      JoinSnoc(ps[1..], x, sep);
    }
  }

  lemma {:induction false} RowTextIsJoin(teamNumber: int, teamName: string, universityName: string,
                                         category: string, scores: seq<int>)
    ensures RowText(teamNumber, teamName, universityName, category, scores) ==
            Join(RowFields(teamNumber, teamName, universityName, category, scores), ',')
    decreases |scores|
  {
    if scores == [] {
      RowTextNoScores(teamNumber, teamName, universityName, category);
    } else {
      var init := scores[..|scores| - 1];
      var last := IntToString(scores[|scores| - 1]);
      RowTextIsJoin(teamNumber, teamName, universityName, category, init);
      RowStep(teamNumber, teamName, universityName, category, scores);
      JoinSnoc(RowFields(teamNumber, teamName, universityName, category, init), last, ',');
    }
  }

  /** A row without scores is its four fields joined by commas. */
  lemma {:induction false} RowTextNoScores(teamNumber: int, teamName: string, universityName: string, category: string)
    ensures RowText(teamNumber, teamName, universityName, category, []) ==
            Join(RowFields(teamNumber, teamName, universityName, category, []), ',')
  {
    var head := [IntToString(teamNumber), teamName, universityName, category];
    assert RowFields(teamNumber, teamName, universityName, category, []) == head;
    assert Join(head[3..], ',') == category;
    assert Join(head[2..], ',') == universityName + [','] + category by {
      assert head[2..][1..] == head[3..];
    }
    assert Join(head[1..], ',') == teamName + [','] + universityName + [','] + category by {
      assert head[1..][1..] == head[2..];
    }
    assert Join(head, ',') == IntToString(teamNumber) + [','] + teamName + [','] + universityName + [','] + category;
  }

  /** The last score adds `,score` to the row and one field to its fields. */
  lemma {:induction false} RowStep(teamNumber: int, teamName: string, universityName: string, category: string, scores: seq<int>)
    requires scores != []
    ensures var init := scores[..|scores| - 1];
            var last := IntToString(scores[|scores| - 1]);
            RowText(teamNumber, teamName, universityName, category, scores) ==
              RowText(teamNumber, teamName, universityName, category, init) + [','] + last &&
            RowFields(teamNumber, teamName, universityName, category, scores) ==
              RowFields(teamNumber, teamName, universityName, category, init) + [last]
  {
    var init := scores[..|scores| - 1];
    assert ScoreTexts(scores) == ScoreTexts(init) + [IntToString(scores[|scores| - 1])];
  }

  lemma {:induction false} ParseScoresSnoc(fields: seq<string>, f: string, xs: seq<int>, v: int)
    requires ParseScores(fields) == Success(xs)
    requires ParseInt(Trim(f)) == Some(v)
    ensures ParseScores(fields + [f]) == Success(xs + [v])
  {
    assert (fields + [f])[..|fields|] == fields;
  }

  lemma {:induction false} ParseScoresOfTexts(scores: seq<int>)
    requires forall i :: 0 <= i < |scores| ==> IsInt32(scores[i])
    ensures ParseScores(ScoreTexts(scores)) == Success(scores)
    decreases |scores|
  {
    if scores != [] {
      var init := scores[..|scores| - 1];
      var last := scores[|scores| - 1];
      ParseScoresOfTexts(init);
      var texts := ScoreTexts(scores);
      var w := IntToString(last);
      assert texts == ScoreTexts(init) + [w];
      IntToStringTrimmed(last);
      TrimOfTrimmed(w);
      ParseIntToString(last);
      ParseScoresSnoc(ScoreTexts(init), w, init, last);
      assert init + [last] == scores;
    }
  }

  /** What can be written and read back unchanged: 32-bit numbers, and name, university
      and category free of commas, of line breaks and of surrounding white space; a row
      with no scores also needs a non-empty category, since `split` drops trailing empty
      fields. A line break inside a field would end the row early for `readLine`, so the
      row would come back as two lines that do not parse. */
  predicate Writable(teamNumber: int, teamName: string, universityName: string, category: string,
                     scores: seq<int>)
  {
    IsInt32(teamNumber) && (forall i :: 0 <= i < |scores| ==> IsInt32(scores[i])) &&
    Trimmed(teamName) && Trimmed(universityName) && Trimmed(category) &&
    ',' !in teamName && ',' !in universityName && ',' !in category &&
    OneLine(teamName) && OneLine(universityName) && OneLine(category) &&
    (category != "" || scores != [])
  }

  /** Text `readLine` returns whole: no '\n' and no '\r'. */
  predicate OneLine(s: string)
  {
    '\n' !in s && '\r' !in s
  }

  /** A writable row splits back into exactly its fields. */
  lemma {:induction false} SplitRow(teamNumber: int, teamName: string, universityName: string, category: string,
                 scores: seq<int>)
    requires Writable(teamNumber, teamName, universityName, category, scores)
    ensures Split(RowText(teamNumber, teamName, universityName, category, scores), ',') ==
            RowFields(teamNumber, teamName, universityName, category, scores)
  {
    var fields := RowFields(teamNumber, teamName, universityName, category, scores);
    RowTextIsJoin(teamNumber, teamName, universityName, category, scores);
    IntToStringTrimmed(teamNumber);
    forall i | 0 <= i < |fields|
      ensures ',' !in fields[i]
    {
      if i >= 4 {
        IntToStringTrimmed(scores[i - 4]);
      }
    }
    SplitJoin(fields, ',');
    JoinContainsSeparator(fields, ',');
    if scores != [] {
      assert fields[|fields| - 1] == IntToString(scores[|scores| - 1]);
    }
    assert fields[|fields| - 1] != "";
    DropTrailingEmptyKeeps(fields);
  }

  /** Reading a written row restores number, name, university and scores, and the
      subclass its category selects. */
  lemma {:induction false} RowRoundTrip(teamNumber: int, teamName: string, universityName: string, category: string,
                     scores: seq<int>)
    requires Writable(teamNumber, teamName, universityName, category, scores)
    ensures ParseLine(RowText(teamNumber, teamName, universityName, category, scores)) ==
            Success(ParsedTeam(KindOfCategory(category), teamNumber, teamName, universityName, scores))
  {
    var fields := RowFields(teamNumber, teamName, universityName, category, scores);
    SplitRow(teamNumber, teamName, universityName, category, scores);
    IntToStringTrimmed(teamNumber);
    TrimOfTrimmed(IntToString(teamNumber));
    TrimOfTrimmed(teamName);
    TrimOfTrimmed(universityName);
    TrimOfTrimmed(category);
    ParseIntToString(teamNumber);
    assert fields[4..] == ScoreTexts(scores);
    ParseScoresOfTexts(scores);
  }

  /** What reading a team's written row yields. */
  function ReadBack(t: Team): ParsedTeam
    reads t, t.scores
  {
    ParsedTeam(KindOfCategory(t.category), t.teamNumber, t.teamName, t.universityName, t.scores[..])
  }

  function ReadBackAll(ts: seq<Team>): (r: seq<ParsedTeam>)
    reads set t | t in ts, set t | t in ts :: t.scores
    ensures |r| == |ts|
  {
    if ts == [] then [] else ReadBackAll(ts[..|ts| - 1]) + [ReadBack(ts[|ts| - 1])]
  }

  predicate WritableTeam(t: Team)
    reads t, t.scores
  {
    Writable(t.teamNumber, t.teamName, t.universityName, t.category, t.scores[..])
  }

  /** Reading back a written file restores every team, in list order; a team whose
      category is its subclass's own name comes back as the same subclass. */
  lemma {:induction false} FileRoundTrip(ts: seq<Team>)
    requires forall t :: t in ts ==> WritableTeam(t)
    ensures ReadLines([Header] + RowsOf(ts)) == ReadBackAll(ts)
    ensures forall i :: 0 <= i < |ts| && ts[i].category == Scoring.CategoryName(ts[i].kind) ==>
              ReadBackAll(ts)[i].kind == ts[i].kind
  {
    assert ([Header] + RowsOf(ts))[1..] == RowsOf(ts);
    ParseRowsOf(ts);
    forall i | 0 <= i < |ts| && ts[i].category == Scoring.CategoryName(ts[i].kind)
      ensures ReadBackAll(ts)[i].kind == ts[i].kind
    {
      ReadBackAllAt(ts, i);
      KindOfCategoryName(ts[i].kind);
    }
  }

  lemma {:induction false} ParseRowsOf(ts: seq<Team>)
    requires forall t :: t in ts ==> WritableTeam(t)
    ensures ParseLines(RowsOf(ts)) == ReadBackAll(ts)
    decreases |ts|
  {
    if ts != [] {
      var init := ts[..|ts| - 1];
      var t := ts[|ts| - 1];
      assert forall u :: u in init ==> u in ts;
      ParseRowsOf(init);
      var rows := RowsOf(ts);
      assert rows == RowsOf(init) + [RowOf(t)];
      assert rows[..|rows| - 1] == RowsOf(init);
      assert t in ts;
      assert WritableTeam(t);
      RowRoundTrip(t.teamNumber, t.teamName, t.universityName, t.category, t.scores[..]);
      assert ParseLine(rows[|rows| - 1]) == Success(ReadBack(t));
      assert ParseLines(rows) == ParseLines(RowsOf(init)) + [ReadBack(t)];
    }
  }

  lemma {:induction false} ReadBackAllAt(ts: seq<Team>, i: nat)
    requires i < |ts|
    ensures ReadBackAll(ts)[i] == ReadBack(ts[i])
    decreases |ts|
  {
    if i < |ts| - 1 {
      ReadBackAllAt(ts[..|ts| - 1], i);
    }
  }

  // ---------------------------------------------------------------------------
  // Category dispatch

  /** Every subclass's own category text selects that subclass again. */
  lemma {:induction false} KindOfCategoryName(k: Scoring.Kind)
    ensures KindOfCategory(Scoring.CategoryName(k)) == k
  {
    match k
    case Cybersecurity => assert LowerEquals("Cybersecurity", "cybersecurity");
    case ArtificialIntelligence => ArtificialIntelligenceName();
    case WebDevelopment => WebDevelopmentName();
    case MobileDevelopment => MobileDevelopmentName();
  }

  lemma {:induction false} ArtificialIntelligenceName()
    ensures KindOfCategory("Artificial Intelligence") == Scoring.ArtificialIntelligence
  {
    assert LowerEquals("Artificial Intelligence", "artificial intelligence");
  }

  lemma {:induction false} WebDevelopmentName()
    ensures KindOfCategory("Web Development") == Scoring.WebDevelopment
  {
    assert LowerEquals("Web Development", "web development");
  }

  lemma {:induction false} MobileDevelopmentName()
    ensures KindOfCategory("Mobile Development") == Scoring.MobileDevelopment
  {
    assert !LowerEquals("Mobile Development", "cybersecurity");
  }

  /** The choice depends on the category text only up to case. */
  lemma {:induction false} KindOfCategoryIgnoresCase(a: string, b: string)
    requires EqualsIgnoreCase(a, b)
    ensures KindOfCategory(a) == KindOfCategory(b)
  {
    forall t: string
      ensures LowerEquals(a, t) <==> LowerEquals(b, t)
    {
      LowerEqualsLowerAll(a, t);
      LowerEqualsLowerAll(b, t);
    }
  }

  /** The short aliases, in any case, select their subclass. */
  lemma {:induction false} KindOfCategoryAliases()
    ensures KindOfCategory("AI") == Scoring.ArtificialIntelligence
    ensures KindOfCategory("Web") == Scoring.WebDevelopment
    ensures KindOfCategory("MOBILE") == Scoring.MobileDevelopment
    ensures KindOfCategory("CyberSecurity") == Scoring.Cybersecurity
  {
    assert LowerEquals("AI", "ai");
    assert LowerEquals("Web", "web");
    assert LowerEquals("CyberSecurity", "cybersecurity");
  }

  /** A category that is none of the names or aliases selects Mobile Development. */
  lemma {:induction false} KindOfCategoryUnknown(c: string)
    requires !LowerEquals(c, "cybersecurity") && !LowerEquals(c, "artificial intelligence")
    requires !LowerEquals(c, "ai") && !LowerEquals(c, "web development") && !LowerEquals(c, "web")
    ensures KindOfCategory(c) == Scoring.MobileDevelopment
  {
  }

  /** A team with an empty category and no scores is written as `number,name,university,`.
      `split` drops the empty last field, so the reader sees three fields, rejects the
      row, and the team is not read back. */
  lemma {:induction false} EmptyCategoryRowDropped(teamNumber: int, teamName: string, universityName: string)
    requires ',' !in teamName && ',' !in universityName
    ensures ParseLine(RowText(teamNumber, teamName, universityName, "", [])) == Failure(TooFewFields)
    ensures ReadLines([Header, RowText(teamNumber, teamName, universityName, "", [])]) == []
  {
    var row := RowText(teamNumber, teamName, universityName, "", []);
    var fields := RowFields(teamNumber, teamName, universityName, "", []);
    assert fields == [IntToString(teamNumber), teamName, universityName, ""];
    RowTextNoScores(teamNumber, teamName, universityName, "");
    IntToStringTrimmed(teamNumber);
    SplitJoin(fields, ',');
    JoinContainsSeparator(fields, ',');
    assert DropTrailingEmpty(fields) == DropTrailingEmpty(fields[..3]);
    assert |Split(row, ',')| <= 3;
    assert [Header, row][1..] == [row];
    assert ParseLines([row]) == ParseLines([]) + Parsed(row);
  }

  /** For instance "Blockchain", which is no category of the application. */
  lemma {:induction false} KindOfCategoryBlockchain()
    ensures KindOfCategory("Blockchain") == Scoring.MobileDevelopment
  {
    KindOfCategoryUnknown("Blockchain");
  }
}
