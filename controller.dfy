/** HackathonController.java: the teams table (category filter, the three sort
    options and the row projection), the edit and delete actions, and the score
    frequency section of the statistics text. The view is not modelled: what it
    would read (the selected category and sort option) arrives as parameters, and
    what it would display is returned. */
module Controller {
  import opened Wrappers
  import opened Seqs
  import opened JavaText
  import Scoring
  import opened Teams
  import opened TeamLists
  import opened TeamSort
  import Csv
  import Model

  // ---------------------------------------------------------------------------
  // The teams table

  /** One line of the teams table; the score is the overall score before `%.2f`. */
  datatype Row = Row(teamNumber: int, teamName: string, universityName: string,
                     category: string, overall: real)

  /** The teams the table starts from: the whole list for "All", the teams whose
      category matches ignoring case otherwise. */
  function Shown(category: string, ts: seq<Team>): seq<Team>
    reads set t | t in ts
  {
    if category == "All" then ts else FilterByCategory(ts, category)
  }

  /** `sortTeams`: the list sorted by the option's comparator, or as it was for an
      option the switch does not know. The library sort is stable. */
  function SortTeams(sortOption: string, ts: seq<Team>): (r: seq<Team>)
    reads set t | t in ts, set t | t in ts :: t.scores
    requires OrderOf(sortOption) == Some(ByScore) ==> AllScorable(ts)
    ensures multiset(r) == multiset(ts)
    ensures AllScorable(ts) ==> AllScorable(r)
  {
    match OrderOf(sortOption)
    case None => ts
    case Some(o) =>
      SortedByPermutes(o, ts);
      if AllScorable(ts) then
        AllScorablePermutation(ts, SortedBy(o, ts));
        SortedBy(o, ts)
      else SortedBy(o, ts)
  }

  /** What each option promises: ascending numbers, names in `compareTo` order,
      descending overall scores, or the order unchanged. */
  lemma {:induction false} SortTeamsOrders(sortOption: string, ts: seq<Team>)
    requires OrderOf(sortOption) == Some(ByScore) ==> AllScorable(ts)
    ensures var r := SortTeams(sortOption, ts);
            (OrderOf(sortOption) == None ==> r == ts) &&
            (OrderOf(sortOption) == Some(ByNumber) ==>
               forall i, j :: 0 <= i < j < |r| ==> r[i].teamNumber <= r[j].teamNumber) &&
            (OrderOf(sortOption) == Some(ByName) ==>
               forall i, j :: 0 <= i < j < |r| ==> LexLe(r[i].teamName, r[j].teamName)) &&
            (OrderOf(sortOption) == Some(ByScore) ==>
               AllScorable(r) && forall i, j :: 0 <= i < j < |r| ==> r[i].Overall() >= r[j].Overall())
  {
    match OrderOf(sortOption)
    case None =>
    case Some(ByNumber) => SortedByNumber(ts);
    case Some(ByName) => SortedByName(ts);
    case Some(ByScore) => SortedByScore(ts);
  }

  function RowOf(t: Team): Row
    reads t, t.scores
    requires t.Scorable()
  {
    Row(t.teamNumber, t.teamName, t.universityName, t.category, t.Overall())
  }

  /** The table's rows, one per team, in list order. */
  function TableRows(ts: seq<Team>): (r: seq<Row>)
    reads set t | t in ts, set t | t in ts :: t.scores
    requires AllScorable(ts)
    ensures |r| == |ts| && forall i :: 0 <= i < |ts| ==> r[i] == RowOf(ts[i])
  {
    if ts == [] then [] else TableRows(ts[..|ts| - 1]) + [RowOf(ts[|ts| - 1])]
  }

  /** A rearrangement of scorable teams is scorable. */
  lemma {:induction false} AllScorablePermutation(a: seq<Team>, b: seq<Team>)
    requires multiset(a) == multiset(b) && AllScorable(a)
    ensures AllScorable(b)
  {
    forall k | 0 <= k < |b|
      ensures b[k].Scorable()
    {
      assert b[k] in multiset(a);
      var m :| 0 <= m < |a| && a[m] == b[k];
    }
  }

  // ---------------------------------------------------------------------------
  // Editing

  /** The subclass `saveTeamChanges` builds: the four full category names ignoring
      case, and Mobile Development for anything else. Unlike the file reader it knows
      no short aliases. */
  function EditedKind(category: string): (k: Scoring.Kind)
    ensures k == Scoring.Cybersecurity <==> LowerEquals(category, "cybersecurity")
    ensures k == Scoring.ArtificialIntelligence <==>
              !LowerEquals(category, "cybersecurity") && LowerEquals(category, "artificial intelligence")
    ensures k == Scoring.WebDevelopment <==>
              !LowerEquals(category, "cybersecurity") &&
              !LowerEquals(category, "artificial intelligence") && LowerEquals(category, "web development")
  {
    if LowerEquals(category, "cybersecurity") then Scoring.Cybersecurity
    else if LowerEquals(category, "artificial intelligence") then Scoring.ArtificialIntelligence
    else if LowerEquals(category, "web development") then Scoring.WebDevelopment
    else Scoring.MobileDevelopment
  }

  /** Each subclass's own category text selects that subclass again. */
  lemma {:induction false} EditedKindOfName(k: Scoring.Kind)
    ensures EditedKind(Scoring.CategoryName(k)) == k
  {
    match k
    case Cybersecurity => assert LowerEquals("Cybersecurity", "cybersecurity");
    case ArtificialIntelligence => EditedArtificialIntelligence();
    case WebDevelopment => EditedWebDevelopment();
    case MobileDevelopment => EditedMobileDevelopment();
  }

  lemma {:induction false} EditedArtificialIntelligence()
    ensures EditedKind("Artificial Intelligence") == Scoring.ArtificialIntelligence
  {
    assert LowerEquals("Artificial Intelligence", "artificial intelligence");
  }

  lemma {:induction false} EditedWebDevelopment()
    ensures EditedKind("Web Development") == Scoring.WebDevelopment
  {
    assert LowerEquals("Web Development", "web development");
  }

  lemma {:induction false} EditedMobileDevelopment()
    ensures EditedKind("Mobile Development") == Scoring.MobileDevelopment
  {
    assert !LowerEquals("Mobile Development", "cybersecurity");
  }

  /** The choice depends on the category text only up to case. */
  lemma {:induction false} EditedKindIgnoresCase(a: string, b: string)
    requires EqualsIgnoreCase(a, b)
    ensures EditedKind(a) == EditedKind(b)
  {
    forall t: string
      ensures LowerEquals(a, t) <==> LowerEquals(b, t)
    {
      LowerEqualsLowerAll(a, t);
      LowerEqualsLowerAll(b, t);
    }
  }

  /** The edit form and the file reader disagree on the short aliases: "AI" read
      from a file is an AI team, the same text saved from the edit form is a Mobile
      team. */
  lemma {:induction false} EditedKindIgnoresAliases()
    ensures EditedKind("AI") == Scoring.MobileDevelopment
    ensures Csv.KindOfCategory("AI") == Scoring.ArtificialIntelligence
    ensures EditedKind("Web") == Scoring.MobileDevelopment
    ensures Csv.KindOfCategory("Web") == Scoring.WebDevelopment
  {
    assert LowerEquals("AI", "ai");
    assert LowerEquals("Web", "web");
  }

  /** The list `removeTeam` leaves: the first team with that number taken out. */
  function Removed(ts: seq<Team>, teamNumber: int): seq<Team>
    reads set t | t in ts
  {
    match FirstIndex(NumbersOf(ts), teamNumber)
    case None => ts
    case Some(k) => RemoveAt(ts, k)
  }

  /** The numbers after an edit: the first occurrence of the edited number taken out
      and the number appended. */
  lemma {:induction false} SavedNumbers(ts: seq<Team>, teamNumber: int, t: Team)
    requires t.teamNumber == teamNumber
    ensures NumbersOf(Removed(ts, teamNumber) + [t]) ==
            RemoveFirst(NumbersOf(ts), teamNumber) + [teamNumber]
  {
    if teamNumber in NumbersOf(ts) {
      RemoveThenFind(ts, teamNumber);
    }
    var rest := Removed(ts, teamNumber);
    assert NumbersOf(rest + [t]) == NumbersOf(rest) + [teamNumber];
  }

  ghost predicate NoDuplicates(ns: seq<int>)
  {
    forall n :: multiset(ns)[n] <= 1
  }

  /** Saving an edit takes out the first occurrence of the number and appends it
      again: the list keeps its length when the number was there and grows by one
      when it was not, and numbers that were unique stay unique. */
  lemma {:induction false} EditNumbers(ns: seq<int>, teamNumber: int)
    ensures var edited := RemoveFirst(ns, teamNumber) + [teamNumber];
            multiset(edited) == multiset(ns) - multiset{teamNumber} + multiset{teamNumber} &&
            |edited| == (if teamNumber in ns then |ns| else |ns| + 1) &&
            (NoDuplicates(ns) ==> NoDuplicates(edited))
  {
    var edited := RemoveFirst(ns, teamNumber) + [teamNumber];
    RemoveFirstMultiset(ns, teamNumber);
    assert |edited| == |multiset(edited)|;
    assert |ns| == |multiset(ns)|;
    if NoDuplicates(ns) {
      forall n
        ensures multiset(edited)[n] <= 1
      {
      }
    }
  }

  // ---------------------------------------------------------------------------
  // Score frequency

  /** Occurrence counts in `xs` of the scores 0 .. n-1, in that order. */
  function Occurrences(xs: seq<int>, n: nat): (r: seq<int>)
    ensures |r| == n && forall v :: 0 <= v < n ==> r[v] == multiset(xs)[v]
  {
    if n == 0 then [] else Occurrences(xs, n - 1) + [multiset(xs)[n - 1]]
  }

  lemma {:induction false} OccurrencesSnoc(xs: seq<int>, x: int, n: nat)
    ensures SumInt(Occurrences(xs + [x], n)) ==
            SumInt(Occurrences(xs, n)) + (if 0 <= x < n then 1 else 0)
  {
    var after := Occurrences(xs + [x], n);
    var before := Occurrences(xs, n);
    assert multiset(xs + [x]) == multiset(xs) + multiset{x};
    assert forall v :: 0 <= v < n ==> after[v] == before[v] + (if x == v then 1 else 0);
    SumAddOne(after, before, x);
  }

  /** When every score lies in 0 .. n-1, the counts add up to the number of scores. */
  lemma {:induction false} OccurrencesTotal(xs: seq<int>, n: nat)
    requires forall i :: 0 <= i < |xs| ==> 0 <= xs[i] < n
    ensures SumInt(Occurrences(xs, n)) == |xs|
  {
    if xs == [] {
      OccurrencesOfNothing(n);
    } else {
      var init := xs[..|xs| - 1];
      OccurrencesTotal(init, n);
      assert xs == init + [xs[|xs| - 1]];
      OccurrencesSnoc(init, xs[|xs| - 1], n);
    }
  }

  lemma {:induction false} OccurrencesOfNothing(n: nat)
    ensures SumInt(Occurrences([], n)) == 0
  {
    if n > 0 {
      OccurrencesOfNothing(n - 1);
      SumIntAppend(Occurrences([], n - 1), [0]);
    }
  }

  // ---------------------------------------------------------------------------
  // The controller

  class HackathonController {
    const model: Model.HackathonModel

    constructor (model: Model.HackathonModel)
      ensures this.model == model
    {
      this.model := model;
    }

    /** `refreshTeamsTable`: filter, sort, and project each team to a row. For "All"
        the list being sorted is the model's own, so the stored order changes too. */
    method RefreshTeamsTable(category: string, sortOption: string) returns (rows: seq<Row>)
      requires AllScorable(Shown(category, model.teamList.teams))
      modifies model.teamList
      ensures category == "All" ==>
                model.teamList.teams == old(SortTeams(sortOption, model.teamList.teams))
      ensures category != "All" ==> model.teamList.teams == old(model.teamList.teams)
      ensures rows == old(TableRows(SortTeams(sortOption, Shown(category, model.teamList.teams))))
    {
      var shown := Shown(category, model.teamList.teams);
      var sorted := SortTeams(sortOption, shown);
      ghost var table := TableRows(sorted);
      rows := ProjectRows(sorted);
      assert rows == table;
      if category == "All" {
        model.teamList.teams := sorted;
      }
    }

    /** The table data: number, name, university, category and overall score of each
        team, in list order. */
    method ProjectRows(teams: seq<Team>) returns (rows: seq<Row>)
      requires AllScorable(teams)
      ensures rows == TableRows(teams)
      ensures |rows| == |teams|
      ensures forall i :: 0 <= i < |teams| ==>
                rows[i].teamNumber == teams[i].teamNumber && rows[i].teamName == teams[i].teamName &&
                rows[i].universityName == teams[i].universityName &&
                rows[i].category == teams[i].category && rows[i].overall == teams[i].Overall()
    {
      rows := [];
      for i := 0 to |teams|
        invariant rows == TableRows(teams[..i])
      {
        var team := teams[i];
        var overall := team.GetOverallScore();
        assert teams[..i + 1][..i] == teams[..i];
        rows := rows + [Row(team.teamNumber, team.teamName, team.universityName, team.category, overall)];
      }
      assert teams[..|teams|] == teams;
    }

    /** `saveTeamChanges`: the first team with the number is removed and a new team of
        the chosen subclass, holding the caller's score array, is appended. */
    method SaveTeamChanges(teamNumber: int, teamName: string, university: string,
                           category: string, scores: array<int>)
      modifies model.teamList
      ensures |model.teamList.teams| >= 1
      ensures var t := model.teamList.teams[|model.teamList.teams| - 1];
              fresh(t) && t.kind == EditedKind(category) &&
              t.category == Scoring.CategoryName(EditedKind(category)) &&
              t.teamNumber == teamNumber && t.teamName == teamName &&
              t.universityName == university && t.scores == scores &&
              model.teamList.teams == old(Removed(model.teamList.teams, teamNumber)) + [t]
    {
      ghost var expected := Removed(model.teamList.teams, teamNumber);
      // `model.removeTeam`, whose effect `DeleteTeam` states
      var removed := DeleteTeam(teamNumber);
      var kind := EditedKind(category);
      var team := new Team(kind, teamNumber, teamName, university, scores);
      model.AddTeam(team);
      assert model.teamList.teams == expected + [team];
    }

    /** `deleteTeam`: exactly what `removeTeam` answers and does. */
    method DeleteTeam(teamNumber: int) returns (removed: bool)
      modifies model.teamList
      ensures removed <==> teamNumber in old(NumbersOf(model.teamList.teams))
      ensures model.teamList.teams == old(Removed(model.teamList.teams, teamNumber))
    {
      removed := model.RemoveTeam(teamNumber);
    }

    /** The frequency section of the statistics: one count for each score 0 to 5,
        zero for a score that never occurs. */
    method ScoreFrequencyRows() returns (counts: seq<int>)
      ensures counts == Occurrences(AllScoresOf(model.teamList.teams), 6)
      ensures forall s :: 0 <= s < 6 ==> counts[s] == multiset(AllScoresOf(model.teamList.teams))[s]
    {
      var frequency := model.teamList.GetScoreFrequency();
      ghost var xs := AllScoresOf(model.teamList.teams);
      counts := [];
      for score := 0 to 6
        invariant counts == Occurrences(xs, score)
      {
        var count := if score in frequency then frequency[score] else 0;
        counts := counts + [count];
      }
    }
  }
}
