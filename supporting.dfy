/** The helper entities of hackathon_supporting_classes.java: categories, team
    members, judges with their assigned categories, four-part scores, and user
    accounts. */
module Supporting {
  import opened JavaText
  import opened Teams

  // ---------------------------------------------------------------------------
  // Category

  class Category {
    const categoryId: int
    const categoryName: string
    var description: string

    constructor (categoryId: int, categoryName: string, description: string)
      ensures this.categoryId == categoryId && this.categoryName == categoryName
      ensures this.description == description
    {
      this.categoryId := categoryId;
      this.categoryName := categoryName;
      this.description := description;
    }

    /** `updateDescription`: only the description changes. */
    method UpdateDescription(description: string)
      modifies this
      ensures this.description == description
    {
      this.description := description;
    }
  }

  // ---------------------------------------------------------------------------
  // TeamMember

  class TeamMember {
    const memberName: string
    var email: string
    const studentId: string

    constructor (memberName: string, email: string, studentId: string)
      ensures this.memberName == memberName && this.email == email && this.studentId == studentId
    {
      this.memberName := memberName;
      this.email := email;
      this.studentId := studentId;
    }

    /** `updateContactDetails`: only the e-mail address changes. */
    method UpdateContactDetails(email: string)
      modifies this
      ensures this.email == email
    {
      this.email := email;
    }
  }

  // ---------------------------------------------------------------------------
  // Judge

  /** The category list after `assignCategory(c)`: `c` is appended unless that very
      object is already there (`List.contains` with identity equality). */
  function Assign(cs: seq<Category>, c: Category): seq<Category>
  {
    if c in cs then cs else cs + [c]
  }

  predicate Distinct(cs: seq<Category>)
  {
    forall i, j :: 0 <= i < j < |cs| ==> cs[i] != cs[j]
  }

  /** Some category in the list has the given name, ignoring case. */
  predicate Covers(cs: seq<Category>, category: string)
  {
    exists i :: 0 <= i < |cs| && EqualsIgnoreCase(cs[i].categoryName, category)
  }

  /** Assigning adds `c`, keeps every earlier category in place, and adds nothing else. */
  lemma {:induction false} AssignContents(cs: seq<Category>, c: Category)
    ensures c in Assign(cs, c)
    ensures cs <= Assign(cs, c)
    ensures forall d :: d in Assign(cs, c) <==> d in cs || d == c
  {
  }

  /** Assigning the same category twice is the same as assigning it once. */
  lemma {:induction false} AssignIdempotent(cs: seq<Category>, c: Category)
    ensures Assign(Assign(cs, c), c) == Assign(cs, c)
  {
    assert c in Assign(cs, c);
  }

  /** Assigning never introduces a duplicate. */
  lemma {:induction false} AssignKeepsDistinct(cs: seq<Category>, c: Category)
    requires Distinct(cs)
    ensures Distinct(Assign(cs, c))
  {
    if c !in cs {
      var r := cs + [c];
      forall i, j | 0 <= i < j < |r|
        ensures r[i] != r[j]
      {
        if j == |cs| {
          assert r[i] == cs[i];
        }
      }
    }
  }

  /** After assigning a category, the judge covers its name; what was covered stays so. */
  lemma {:induction false} AssignCovers(cs: seq<Category>, c: Category, category: string)
    ensures EqualsIgnoreCase(c.categoryName, category) ==> Covers(Assign(cs, c), category)
    ensures Covers(cs, category) ==> Covers(Assign(cs, c), category)
  {
    var r := Assign(cs, c);
    if EqualsIgnoreCase(c.categoryName, category) {
      var k :| 0 <= k < |r| && r[k] == c;
      assert EqualsIgnoreCase(r[k].categoryName, category);
    }
    if Covers(cs, category) {
      var i :| 0 <= i < |cs| && EqualsIgnoreCase(cs[i].categoryName, category);
      assert r[i] == cs[i];
    }
  }

  class Judge {
    const judgeId: int
    const firstName: string
    const lastName: string
    const email: string
    var assignedCategories: seq<Category>

    constructor (judgeId: int, firstName: string, lastName: string, email: string)
      ensures this.judgeId == judgeId && this.firstName == firstName
      ensures this.lastName == lastName && this.email == email
      ensures assignedCategories == []
    {
      this.judgeId := judgeId;
      this.firstName := firstName;
      this.lastName := lastName;
      this.email := email;
      assignedCategories := [];
    }

    /** `getFullName`. */
    function FullName(): (name: string)
      ensures |name| == |firstName| + 1 + |lastName|
      ensures name[..|firstName|] == firstName && name[|firstName|] == ' '
      ensures name[|firstName| + 1..] == lastName
    {
      firstName + " " + lastName
    }

    /** `assignCategory`: append the category unless it is already assigned. */
    method AssignCategory(category: Category)
      modifies this
      ensures assignedCategories == Assign(old(assignedCategories), category)
    {
      if category !in assignedCategories {
        assignedCategories := assignedCategories + [category];
      }
    }

    /** `canJudgeTeam`: whether some assigned category has the team's category name,
        ignoring case. */
    method CanJudgeTeam(team: Team) returns (b: bool)
      ensures b <==> Covers(assignedCategories, team.category)
    {
      var cs := assignedCategories;
      for i := 0 to |cs|
        invariant forall j :: 0 <= j < i ==> !EqualsIgnoreCase(cs[j].categoryName, team.category)
      {
        if EqualsIgnoreCase(cs[i].categoryName, team.category) {
          return true;
        }
      }
      return false;
    }
  }

  /** Splitting a full name on the space gives back first and last name when neither
      contains a space and the last name is not empty. */
  lemma {:induction false} FullNameSplit(j: Judge)
    requires ' ' !in j.firstName && ' ' !in j.lastName && j.lastName != ""
    ensures Split(j.FullName(), ' ') == [j.firstName, j.lastName]
  {
    var ps := [j.firstName, j.lastName];
    assert Join(ps, ' ') == j.FullName() by {
      assert Join(ps[1..], ' ') == j.lastName;
    }
    SplitJoin(ps, ' ');
    JoinContainsSeparator(ps, ' ');
    DropTrailingEmptyKeeps(ps);
  }

  // ---------------------------------------------------------------------------
  // Score

  /** `calculateOverall`: the four `int` components added in 32-bit arithmetic, then
      divided by 4.0. */
  function OverallOf(creativity: int, technical: int, teamwork: int, presentation: int): real
  {
    Wrap32(creativity + technical + teamwork + presentation) as real / 4.0
  }

  predicate InRange(x: int)
  {
    0 <= x <= 5
  }

  /** With every component in range, no overflow happens: the overall score is the exact
      mean of the four components, between 0 and 5. */
  lemma {:induction false} OverallOfValid(creativity: int, technical: int, teamwork: int, presentation: int)
    requires InRange(creativity) && InRange(technical) && InRange(teamwork) && InRange(presentation)
    ensures OverallOf(creativity, technical, teamwork, presentation) ==
            (creativity + technical + teamwork + presentation) as real / 4.0
    ensures 0.0 <= OverallOf(creativity, technical, teamwork, presentation) <= 5.0
  {
    var sum := creativity + technical + teamwork + presentation;
    assert IsInt32(sum);
  }

  /** Out-of-range components can overflow the sum: four components of 2^30 give 0. */
  lemma {:induction false} OverallOfOverflows()
    ensures OverallOf(0x4000_0000, 0x4000_0000, 0x4000_0000, 0x4000_0000) == 0.0
  {
    assert Wrap32(0x1_0000_0000) == 0;
  }

  class Score {
    const scoreId: int
    const judge: Judge
    const team: Team
    var creativity: int
    var technicalImplementation: int
    var teamwork: int
    var presentation: int
    var overallScore: real

    /** A new score has every component 0 and overall 0. */
    constructor (scoreId: int, judge: Judge, team: Team)
      ensures this.scoreId == scoreId && this.judge == judge && this.team == team
      ensures creativity == 0 && technicalImplementation == 0 && teamwork == 0 && presentation == 0
      ensures overallScore == 0.0
    {
      this.scoreId := scoreId;
      this.judge := judge;
      this.team := team;
      creativity := 0;
      technicalImplementation := 0;
      teamwork := 0;
      presentation := 0;
      overallScore := 0.0;
    }

    /** `validateScores`: every component between 0 and 5. */
    predicate ValidateScores(): (valid: bool)
      reads this
      ensures valid <==> InRange(creativity) && InRange(technicalImplementation) &&
                         InRange(teamwork) && InRange(presentation)
      ensures valid ==> OverallOf(creativity, technicalImplementation, teamwork, presentation) ==
                        (creativity + technicalImplementation + teamwork + presentation) as real / 4.0
      ensures valid ==> 0.0 <= OverallOf(creativity, technicalImplementation, teamwork, presentation) <= 5.0
    {
      if InRange(creativity) && InRange(technicalImplementation) && InRange(teamwork) && InRange(presentation) then
        OverallOfValid(creativity, technicalImplementation, teamwork, presentation);
        true
      else
        false
    }

    /** `calculateOverall`: stores and returns the overall score of the current components. */
    method CalculateOverall() returns (overall: real)
      modifies this
      ensures overall == overallScore
      ensures overallScore == OverallOf(creativity, technicalImplementation, teamwork, presentation)
      ensures creativity == old(creativity) && technicalImplementation == old(technicalImplementation)
      ensures teamwork == old(teamwork) && presentation == old(presentation)
    {
      overallScore := Wrap32(creativity + technicalImplementation + teamwork + presentation) as real / 4.0;
      return overallScore;
    }

    /** `setScores`: stores the four components, then recalculates the overall score. */
    method SetScores(creativity: int, technical: int, teamwork: int, presentation: int)
      modifies this
      ensures this.creativity == creativity && technicalImplementation == technical
      ensures this.teamwork == teamwork && this.presentation == presentation
      ensures overallScore == OverallOf(creativity, technical, teamwork, presentation)
      ensures ValidateScores() ==>
                overallScore == (creativity + technical + teamwork + presentation) as real / 4.0
    {
      this.creativity := creativity;
      technicalImplementation := technical;
      this.teamwork := teamwork;
      this.presentation := presentation;
      var _ := CalculateOverall();
      if ValidateScores() {
        OverallOfValid(creativity, technical, teamwork, presentation);
      }
    }
  }

  // ---------------------------------------------------------------------------
  // User

  /** A login account; the role is one of "ADMIN", "JUDGE", "PARTICIPANT", "PUBLIC". */
  datatype User = User(username: string, password: string, role: string)
  {
    /** `authenticate`: the given password is the stored one. */
    predicate Authenticate(password: string): (ok: bool)
      ensures ok <==> password == this.password
    {
      this.password == password
    }
  }
}
