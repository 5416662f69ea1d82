/** hackathon_teamlist.java: the ordered, mutable list of teams with its searches
    and aggregate statistics. Team numbers need not be unique: nothing on the load
    or edit paths enforces it, so every search is "first match". */
module TeamLists {
  import opened Wrappers
  import opened Seqs
  import opened JavaText
  import opened Teams

  /** The teams whose category equals `category` ignoring case, in list order. */
  function FilterByCategory(ts: seq<Team>, category: string): seq<Team>
    reads set t | t in ts
  {
    if ts == [] then []
    else
      var last := ts[|ts| - 1];
      FilterByCategory(ts[..|ts| - 1], category) +
        (if EqualsIgnoreCase(last.category, category) then [last] else [])
  }

  lemma {:induction false} FilterByCategoryMembers(ts: seq<Team>, category: string)
    ensures forall t :: t in FilterByCategory(ts, category) <==>
                        t in ts && EqualsIgnoreCase(t.category, category)
    ensures |FilterByCategory(ts, category)| <= |ts|
    decreases |ts|
  {
    if ts != [] {
      FilterByCategoryMembers(ts[..|ts| - 1], category);
      assert ts == ts[..|ts| - 1] + [ts[|ts| - 1]];
    }
  }

  /** Removing the first team with a number takes that number out of the list of
      numbers; a later search for it fails exactly when the number occurred once. */
  lemma {:induction false} RemoveThenFind(ts: seq<Team>, teamNumber: int)
    requires teamNumber in NumbersOf(ts)
    ensures var k := FirstIndex(NumbersOf(ts), teamNumber).value;
            NumbersOf(RemoveAt(ts, k)) == RemoveFirst(NumbersOf(ts), teamNumber) &&
            (teamNumber !in NumbersOf(RemoveAt(ts, k)) <==> multiset(NumbersOf(ts))[teamNumber] == 1)
  {
    var k := FirstIndex(NumbersOf(ts), teamNumber).value;
    assert NumbersOf(RemoveAt(ts, k)) == RemoveAt(NumbersOf(ts), k);
    RemoveFirstThenSearch(NumbersOf(ts), teamNumber);
    assert multiset(NumbersOf(ts))[teamNumber] >= 1;
  }

  /** One inner pass of `getScoreFrequency`: counts the scores of one array on top of
      the counts gathered so far. */
  method TallyScores(frequency: map<int, nat>, ghost before: seq<int>, scores: array<int>)
    returns (r: map<int, nat>)
    requires frequency == Tally(before)
    ensures r == Tally(before + scores[..])
  {
    r := frequency;
    assert before + scores[..0] == before;
    for j := 0 to scores.Length
      invariant r == Tally(before + scores[..j])
    {
      var score := scores[j];
      assert (before + scores[..j + 1])[..|before| + j] == before + scores[..j];
      r := r[score := (if score in r then r[score] else 0) + 1];
    }
    assert scores[..scores.Length] == scores[..];
  }

  class TeamList {
    var teams: seq<Team>

    constructor ()
      ensures teams == []
    {
      teams := [];
    }

    /** `addTeam`: appends; nothing before it moves. */
    method AddTeam(team: Team)
      modifies this
      ensures teams == old(teams) + [team]
    {
      teams := teams + [team];
    }

    /** `findTeamByNumber`: the first team with that number, or null. */
    method FindTeamByNumber(teamNumber: int) returns (team: Team?)
      ensures team == null <==> teamNumber !in NumbersOf(teams)
      ensures team != null ==> team == teams[FirstIndex(NumbersOf(teams), teamNumber).value]
    {
      for i := 0 to |teams|
        invariant teamNumber !in NumbersOf(teams)[..i]
      {
        if teams[i].teamNumber == teamNumber {
          assert NumbersOf(teams)[i] == teamNumber;
          return teams[i];
        }
        assert NumbersOf(teams)[..i + 1] == NumbersOf(teams)[..i] + [teams[i].teamNumber];
      }
      assert NumbersOf(teams)[..|teams|] == NumbersOf(teams);
      return null;
    }

    /** `removeTeam`: true, and exactly the first team with that number gone, when there
        is one; false and the list as it was otherwise. */
    method RemoveTeam(teamNumber: int) returns (removed: bool)
      modifies this
      ensures removed <==> teamNumber in old(NumbersOf(teams))
      ensures removed ==> teams == RemoveAt(old(teams), FirstIndex(old(NumbersOf(teams)), teamNumber).value)
      ensures !removed ==> teams == old(teams)
    {
      var team := FindTeamByNumber(teamNumber);
      if team != null {
        ghost var k := FirstIndex(NumbersOf(teams), teamNumber).value;
        assert FirstIndex(teams, team) == Some(k) by {
          forall j | 0 <= j < k
            ensures teams[j] != team
          {
            assert NumbersOf(teams)[j] != teamNumber;
          }
          assert team !in teams[..k];
        }
        teams := RemoveFirst(teams, team);
        return true;
      }
      return false;
    }

    /** `getHighestScoringTeam`: null for no teams, else the first team with the
        greatest overall score (later ties do not replace it). */
    method GetHighestScoringTeam() returns (highest: Team?)
      requires AllScorable(teams)
      ensures highest == null <==> teams == []
      ensures highest != null ==> highest == teams[FirstMax(OverallsOf(teams))]
    {
      if teams == [] {
        return null;
      }
      ghost var xs := OverallsOf(teams);
      ghost var k := 0;
      highest := teams[0];
      for i := 0 to |teams|
        invariant 0 <= k < |teams| && highest == teams[k]
        invariant k == FirstMax(xs[..if i == 0 then 1 else i])
      {
        var score := teams[i].GetOverallScore();
        var best := highest.GetOverallScore();
        if i > 0 {
          FirstMaxStep(xs, i);
        }
        if score > best {
          highest := teams[i];
          k := i;
        }
      }
      assert xs[..|teams|] == xs;
    }

    /** `getAverageOverallScore`: 0 for no teams, else the mean overall score. */
    method GetAverageOverallScore() returns (average: real)
      requires AllScorable(teams)
      ensures average == if teams == [] then 0.0 else MeanReal(OverallsOf(teams))
    {
      if teams == [] {
        return 0.0;
      }
      ghost var xs := OverallsOf(teams);
      var sum := 0.0;
      for i := 0 to |teams|
        invariant sum == SumReal(xs[..i])
      {
        var score := teams[i].GetOverallScore();
        assert xs[..i + 1][..i] == xs[..i];
        sum := sum + score;
      }
      assert xs[..|teams|] == xs;
      average := sum / |teams| as real;
    }

    /** `getMinimumOverallScore`: 0 for no teams, else the least overall score. */
    method GetMinimumOverallScore() returns (min: real)
      requires AllScorable(teams)
      ensures min == if teams == [] then 0.0 else MinReal(OverallsOf(teams))
    {
      if teams == [] {
        return 0.0;
      }
      ghost var xs := OverallsOf(teams);
      min := teams[0].GetOverallScore();
      for i := 0 to |teams|
        invariant min == MinReal(xs[..if i == 0 then 1 else i])
      {
        var score := teams[i].GetOverallScore();
        if i > 0 {
          MinRealStep(xs, i);
        }
        if score < min {
          min := score;
        }
      }
      assert xs[..|teams|] == xs;
    }

    /** `getMaximumOverallScore`: 0 for no teams, else the greatest overall score. */
    method GetMaximumOverallScore() returns (max: real)
      requires AllScorable(teams)
      ensures max == if teams == [] then 0.0 else MaxReal(OverallsOf(teams))
    {
      if teams == [] {
        return 0.0;
      }
      ghost var xs := OverallsOf(teams);
      max := teams[0].GetOverallScore();
      for i := 0 to |teams|
        invariant max == MaxReal(xs[..if i == 0 then 1 else i])
      {
        var score := teams[i].GetOverallScore();
        if i > 0 {
          MaxRealStep(xs, i);
        }
        if score > max {
          max := score;
        }
      }
      assert xs[..|teams|] == xs;
    }

    /** `getScoreFrequency`: how often each individual score occurs across all teams.
        The keys are exactly the scores that occur and the counts add up to the
        number of scores. */
    method GetScoreFrequency() returns (frequency: map<int, nat>)
      ensures frequency == Tally(AllScoresOf(teams))
      ensures forall v :: v in frequency <==> v in AllScoresOf(teams)
      ensures forall v :: v in frequency ==> frequency[v] == multiset(AllScoresOf(teams))[v]
      ensures SumValues(frequency) == |AllScoresOf(teams)|
    {
      frequency := map[];
      for i := 0 to |teams|
        invariant frequency == Tally(AllScoresOf(teams[..i]))
      {
        assert teams[..i + 1][..i] == teams[..i];
        assert AllScoresOf(teams[..i + 1]) == AllScoresOf(teams[..i]) + teams[i].scores[..];
        frequency := TallyScores(frequency, AllScoresOf(teams[..i]), teams[i].scores);
      }
      assert teams[..|teams|] == teams;
      TallyCounts(AllScoresOf(teams));
      TallyTotal(AllScoresOf(teams));
    }

    /** `getTeamsByCategory`: a new list of the teams whose category matches ignoring
        case, in list order. */
    method GetTeamsByCategory(category: string) returns (filtered: seq<Team>)
      ensures filtered == FilterByCategory(teams, category)
      ensures forall t :: t in filtered <==> t in teams && EqualsIgnoreCase(t.category, category)
    {
      filtered := [];
      for i := 0 to |teams|
        invariant filtered == FilterByCategory(teams[..i], category)
      {
        assert teams[..i + 1][..i] == teams[..i];
        if EqualsIgnoreCase(teams[i].category, category) {
          filtered := filtered + [teams[i]];
        }
      }
      assert teams[..|teams|] == teams;
      FilterByCategoryMembers(teams, category);
    }

    /** `getCategoryCount`: teams per stored category string; the counts add up to the
        number of teams. */
    method GetCategoryCount() returns (count: map<string, nat>)
      ensures count == Tally(CategoriesOf(teams))
      ensures forall c :: c in count <==> c in CategoriesOf(teams)
      ensures forall c :: c in count ==> count[c] == multiset(CategoriesOf(teams))[c]
      ensures SumValues(count) == |teams|
    {
      count := map[];
      for i := 0 to |teams|
        invariant count == Tally(CategoriesOf(teams[..i]))
      {
        assert teams[..i + 1][..i] == teams[..i];
        var category := teams[i].category;
        count := count[category := (if category in count then count[category] else 0) + 1];
      }
      assert teams[..|teams|] == teams;
      TallyCounts(CategoriesOf(teams));
      TallyTotal(CategoriesOf(teams));
    }
  }
}
