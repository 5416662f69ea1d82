/** FileManager.java: one team per comma-separated line. Files are modelled as
    sequences of lines; opening, reading and writing them is not modelled. */
module Csv {
  import opened Wrappers
  import opened JavaText
  import opened Teams
  import opened TeamLists
  import Scoring
  import opened Seqs

  const Header: string := "TeamNumber,TeamName,University,Category,Score1,Score2,Score3,Score4,Score5"

  /** Why `parseTeamLine` threw: too few fields (IllegalArgumentException) or a field
      that is not a 32-bit integer (NumberFormatException). */
  datatype ParseError = TooFewFields | NotAnInteger(field: string)

  /** What `parseTeamLine` hands to the subclass constructor it picks. */
  datatype ParsedTeam = ParsedTeam(kind: Scoring.Kind, teamNumber: int, teamName: string,
                                   universityName: string, scores: seq<int>)

  // ---------------------------------------------------------------------------
  // Reading one line

  /** The `switch (category.toLowerCase())` of parseTeamLine: full names and the short
      aliases "ai", "web", "mobile"; anything else falls back to Mobile Development. */
  function KindOfCategory(category: string): (k: Scoring.Kind)
    ensures k == Scoring.Cybersecurity <==> LowerEquals(category, "cybersecurity")
    ensures k == Scoring.ArtificialIntelligence <==>
              !LowerEquals(category, "cybersecurity") &&
              (LowerEquals(category, "artificial intelligence") || LowerEquals(category, "ai"))
    ensures k == Scoring.WebDevelopment <==>
              !LowerEquals(category, "cybersecurity") &&
              !LowerEquals(category, "artificial intelligence") && !LowerEquals(category, "ai") &&
              (LowerEquals(category, "web development") || LowerEquals(category, "web"))
  {
    if LowerEquals(category, "cybersecurity") then Scoring.Cybersecurity
    else if LowerEquals(category, "artificial intelligence") || LowerEquals(category, "ai") then
      Scoring.ArtificialIntelligence
    else if LowerEquals(category, "web development") || LowerEquals(category, "web") then
      Scoring.WebDevelopment
    else Scoring.MobileDevelopment
  }

  /** The trimmed score fields as integers, or the first one that is not. */
  function ParseScores(fields: seq<string>): Result<seq<int>, ParseError>
  {
    if fields == [] then Success([])
    else
      match ParseScores(fields[..|fields| - 1])
      case Failure(e) => Failure(e)
      case Success(xs) =>
        var f := Trim(fields[|fields| - 1]);
        match ParseInt(f)
        case None => Failure(NotAnInteger(f))
        case Some(v) => Success(xs + [v])
  }

  /** `parseTeamLine` as a function of the line. */
  function ParseLine(line: string): Result<ParsedTeam, ParseError>
  {
    var parts := Split(line, ',');
    if |parts| < 4 then Failure(TooFewFields)
    else
      var numberField := Trim(parts[0]);
      match ParseInt(numberField)
      case None => Failure(NotAnInteger(numberField))
      case Some(number) =>
        match ParseScores(parts[4..])
        case Failure(e) => Failure(e)
        case Success(scores) =>
          Success(ParsedTeam(KindOfCategory(Trim(parts[3])), number, Trim(parts[1]),
                             Trim(parts[2]), scores))
  }

  /** A team object carries exactly the parsed data, with the subclass's category. */
  predicate Holds(t: Team, p: ParsedTeam)
    reads t, t.scores
  {
    t.kind == p.kind && t.teamNumber == p.teamNumber && t.teamName == p.teamName &&
    t.universityName == p.universityName && t.category == Scoring.CategoryName(p.kind) &&
    t.scores[..] == p.scores
  }

  lemma {:induction false} ParseScoresPrefixFailure(fields: seq<string>, j: nat)
    requires j <= |fields| && ParseScores(fields[..j]).Failure?
    ensures ParseScores(fields) == ParseScores(fields[..j])
    decreases |fields| - j
  {
    if j < |fields| {
      assert fields[..j + 1][..j] == fields[..j];
      ParseScoresPrefixFailure(fields, j + 1);
    } else {
      assert fields[..j] == fields;
    }
  }

  /** `parseTeamLine`: splits the line, rejects fewer than four fields, parses the
      number and then each score field into a new array, and builds the team. */
  method ParseTeamLine(line: string) returns (r: Result<Team, ParseError>)
    ensures ParseLine(line).Failure? ==> r == Failure(ParseLine(line).error)
    ensures ParseLine(line).Success? ==>
              r.Success? && fresh(r.value) && fresh(r.value.scores) && Holds(r.value, ParseLine(line).value)
  {
    var parts := Split(line, ',');
    if |parts| < 4 {
      return Failure(TooFewFields);
    }
    var numberField := Trim(parts[0]);
    var number := ParseInt(numberField);
    if number.None? {
      return Failure(NotAnInteger(numberField));
    }
    var teamName := Trim(parts[1]);
    var universityName := Trim(parts[2]);
    var category := Trim(parts[3]);
    var parsed := ParseScoreArray(parts);
    if parsed.Failure? {
      return Failure(parsed.error);
    }
    var scores := parsed.value;
    var team := new Team(KindOfCategory(category), number.value, teamName, universityName, scores);
    return Success(team);
  }

  /** The score loop of `parseTeamLine`: a new array sized for the fields after the
      fourth, filled in order, and abandoned at the first field that is not an integer. */
  method ParseScoreArray(parts: seq<string>) returns (r: Result<array<int>, ParseError>)
    requires |parts| >= 4
    ensures ParseScores(parts[4..]).Failure? ==> r == Failure(ParseScores(parts[4..]).error)
    ensures ParseScores(parts[4..]).Success? ==>
              r.Success? && fresh(r.value) && r.value[..] == ParseScores(parts[4..]).value
  {
    ghost var fields := parts[4..];
    var scores := new int[|parts| - 4];
    for i := 4 to |parts|
      invariant ParseScores(fields[..i - 4]) == Success(scores[..i - 4])
    {
      assert fields[..i - 3][..i - 4] == fields[..i - 4];
      assert fields[i - 4] == parts[i];
      var field := Trim(parts[i]);
      var value := ParseInt(field);
      if value.None? {
        ParseScoresPrefixFailure(fields, i - 3);
        return Failure(NotAnInteger(field));
      }
      scores[i - 4] := value.value;
      assert scores[..i - 3] == scores[..i - 4] + [value.value];
    }
    assert fields[..|parts| - 4] == fields && scores[..|parts| - 4] == scores[..];
    return Success(scores);
  }

  // ---------------------------------------------------------------------------
  // Reading a file

  /** The parsed lines in order, lines that do not parse left out. */
  function ParseLines(lines: seq<string>): seq<ParsedTeam>
  {
    if lines == [] then []
    else
      ParseLines(lines[..|lines| - 1]) + Parsed(lines[|lines| - 1])
  }

  /** What `readTeamsFromCSV` loads: the first line is a header whatever it says. */
  function ReadLines(lines: seq<string>): seq<ParsedTeam>
  {
    if lines == [] then [] else ParseLines(lines[1..])
  }

  predicate HoldsAll(ts: seq<Team>, ps: seq<ParsedTeam>)
    reads set t | t in ts, set t | t in ts :: t.scores
  {
    |ts| == |ps| && forall i :: 0 <= i < |ts| ==> Holds(ts[i], ps[i])
  }

  /** No two entries of the list are the same team object or share a score array. */
  predicate Unshared(ts: seq<Team>)
    reads set t | t in ts
  {
    forall i, j :: 0 <= i < j < |ts| ==> ts[i] != ts[j] && ts[i].scores != ts[j].scores
  }

  /** `readTeamsFromCSV` over the file's lines: skips the first line, skips (and
      reports) lines that fail to parse, and appends the rest in file order. A missing
      file behaves as no lines. */
  method ReadTeams(lines: seq<string>) returns (teamList: TeamList)
    ensures fresh(teamList)
    ensures HoldsAll(teamList.teams, ReadLines(lines))
    ensures forall t :: t in teamList.teams ==> fresh(t) && fresh(t.scores)
    ensures Unshared(teamList.teams)
  {
    teamList := new TeamList();
    var firstLine := true;
    ghost var loaded: seq<ParsedTeam> := [];
    for i := 0 to |lines|
      invariant firstLine <==> i == 0
      invariant fresh(teamList)
      invariant loaded == if i == 0 then [] else ParseLines(lines[1..i])
      invariant HoldsAll(teamList.teams, loaded) && Unshared(teamList.teams)
      invariant forall t :: t in teamList.teams ==> fresh(t) && fresh(t.scores)
    {
      var line := lines[i];
      if firstLine {
        firstLine := false;
        assert lines[1..1] == [];
        continue;
      }
      ParseLinesStep(lines, i);
      ghost var before := teamList.teams;
      ghost var added := LoadLine(teamList, line, loaded);
      forall t | t in teamList.teams
        ensures fresh(t) && fresh(t.scores)
      {
        if t !in before {
          assert t in added;
        }
      }
      loaded := loaded + Parsed(line);
    }
    if |lines| > 0 {
      assert lines[1..|lines|] == lines[1..];
    }
  }

  /** The team a line contributes: none when it does not parse. */
  function Parsed(line: string): seq<ParsedTeam>
  {
    if ParseLine(line).Success? then [ParseLine(line).value] else []
  }

  /** The body of the reading loop for one line after the header: parse it and, when
      that succeeds, append the new team. */
  method LoadLine(teamList: TeamList, line: string, ghost loaded: seq<ParsedTeam>) returns (ghost added: seq<Team>)
    requires HoldsAll(teamList.teams, loaded) && Unshared(teamList.teams)
    modifies teamList
    ensures HoldsAll(teamList.teams, loaded + Parsed(line)) && Unshared(teamList.teams)
    ensures teamList.teams == old(teamList.teams) + added
    ensures forall t :: t in added ==> fresh(t) && fresh(t.scores)
  {
    added := [];
    var r := ParseTeamLine(line);
    assert HoldsAll(teamList.teams, loaded);
    if r.Success? {
      assert forall u :: u in teamList.teams ==> u != r.value && u.scores != r.value.scores;
      AppendTeam(teamList, r.value, loaded, ParseLine(line).value);
      added := [r.value];
    } else {
      assert loaded + Parsed(line) == loaded;
    }
  }

  /** Appending a parsed team that is new to the list and shares no score array with it. */
  method AppendTeam(teamList: TeamList, t: Team, ghost loaded: seq<ParsedTeam>, ghost p: ParsedTeam)
    requires HoldsAll(teamList.teams, loaded) && Holds(t, p) && Unshared(teamList.teams)
    requires forall u :: u in teamList.teams ==> u != t && u.scores != t.scores
    modifies teamList
    ensures teamList.teams == old(teamList.teams) + [t]
    ensures HoldsAll(teamList.teams, loaded + [p]) && Unshared(teamList.teams)
  {
    HoldsAllSnoc(teamList.teams, loaded, t, p);
    UnsharedSnoc(teamList.teams, t);
    teamList.AddTeam(t);
  }

  lemma {:induction false} HoldsAllSnoc(ts: seq<Team>, ps: seq<ParsedTeam>, t: Team, p: ParsedTeam)
    requires HoldsAll(ts, ps) && Holds(t, p)
    ensures HoldsAll(ts + [t], ps + [p])
  {
    assert forall i :: 0 <= i < |ts| ==> (ts + [t])[i] == ts[i] && (ps + [p])[i] == ps[i];
  }

  /** A team that is not in the list and whose score array no entry uses can be
      appended without sharing. */
  lemma {:induction false} UnsharedSnoc(ts: seq<Team>, t: Team)
    requires Unshared(ts)
    requires forall u :: u in ts ==> u != t && u.scores != t.scores
    ensures Unshared(ts + [t])
  {
    forall i, j | 0 <= i < j < |ts| + 1
      ensures (ts + [t])[i] != (ts + [t])[j] && (ts + [t])[i].scores != (ts + [t])[j].scores
    {
      assert (ts + [t])[i] == ts[i];
      if j == |ts| {
        assert ts[i] in ts;
      }
    }
  }

  lemma {:induction false} ParseLinesStep(lines: seq<string>, i: nat)
    requires 1 <= i < |lines|
    ensures ParseLines(lines[1..i + 1]) == ParseLines(lines[1..i]) + Parsed(lines[i])
  {
    assert lines[1..i + 1][..i - 1] == lines[1..i];
  }

  // ---------------------------------------------------------------------------
  // Writing

  /** `,score` for each score, in order. */
  function ScoreSuffix(scores: seq<int>): string
  {
    if scores == [] then ""
    else ScoreSuffix(scores[..|scores| - 1]) + "," + IntToString(scores[|scores| - 1])
  }

  /** One written row: `number,name,university,category` then `,score` per score. */
  function RowText(teamNumber: int, teamName: string, universityName: string, category: string,
                   scores: seq<int>): string
  {
    IntToString(teamNumber) + "," + teamName + "," + universityName + "," + category + ScoreSuffix(scores)
  }

  function RowOf(t: Team): string
    reads t, t.scores
  {
    RowText(t.teamNumber, t.teamName, t.universityName, t.category, t.scores[..])
  }

  function RowsOf(ts: seq<Team>): (r: seq<string>)
    reads set t | t in ts, set t | t in ts :: t.scores
    ensures |r| == |ts|
  {
    if ts == [] then [] else RowsOf(ts[..|ts| - 1]) + [RowOf(ts[|ts| - 1])]
  }

  lemma {:induction false} RowsOfAt(ts: seq<Team>, i: nat)
    requires i < |ts|
    ensures RowsOf(ts)[i] == RowOf(ts[i])
    decreases |ts|
  {
    if i < |ts| - 1 {
      RowsOfAt(ts[..|ts| - 1], i);
    }
  }

  /** The row `writeTeamsToCSV` prints for one team, score by score. */
  method WriteRow(team: Team) returns (row: string)
    ensures row == RowOf(team)
  {
    var head := IntToString(team.teamNumber) + "," + team.teamName + "," +
                team.universityName + "," + team.category;
    var scores := team.scores;
    var tail := "";
    for j := 0 to scores.Length
      invariant tail == ScoreSuffix(scores[..j])
    {
      assert scores[..j + 1][..j] == scores[..j];
      tail := tail + "," + IntToString(scores[j]);
    }
    assert scores[..scores.Length] == scores[..];
    row := head + tail;
  }

  /** `writeTeamsToCSV`: the fixed header, then one row per team in list order. */
  method WriteTeams(teamList: TeamList) returns (lines: seq<string>)
    ensures lines == [Header] + RowsOf(teamList.teams)
  {
    lines := [Header];
    var teams := teamList.teams;
    ghost var rows := RowsOf(teams);
    for i := 0 to |teams|
      invariant lines == [Header] + rows[..i]
    {
      var row := WriteRow(teams[i]);
      RowsOfAt(teams, i);
      TakeSnoc([Header], rows, i);
      lines := lines + [row];
    }
    assert rows[..|rows|] == rows;
  }
}
