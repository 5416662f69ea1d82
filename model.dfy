/** HackathonModel.java: the application state — the team list, the judges, the
    categories, the user accounts and who is logged in. */
module Model {
  import opened Wrappers
  import opened Seqs
  import opened JavaText
  import opened Teams
  import opened TeamLists
  import opened Supporting
  import Csv

  /** The accounts `initializeUsers` creates, in order. */
  const DefaultUsers: seq<User> := [
    User("admin", "admin123", "ADMIN"),
    User("judge1", "judge123", "JUDGE"),
    User("judge2", "judge123", "JUDGE"),
    User("participant", "part123", "PARTICIPANT"),
    User("public", "public123", "PUBLIC")
  ]

  /** The first account with that user name and password. */
  function FirstLogin(users: seq<User>, username: string, password: string): (r: Option<nat>)
    ensures r.None? <==>
              forall i :: 0 <= i < |users| ==> !(users[i].username == username && users[i].Authenticate(password))
    ensures r.Some? ==> r.value < |users| && users[r.value].username == username &&
                        users[r.value].Authenticate(password)
    ensures r.Some? ==> forall i :: 0 <= i < r.value ==>
                          !(users[i].username == username && users[i].Authenticate(password))
  {
    if users == [] then None
    else if users[0].username == username && users[0].Authenticate(password) then Some(0)
    else
      match FirstLogin(users[1..], username, password)
      case None => None
      case Some(k) => Some(k + 1)
  }

  function JudgeIds(judges: seq<Judge>): (r: seq<int>)
    ensures |r| == |judges| && forall i :: 0 <= i < |judges| ==> r[i] == judges[i].judgeId
  {
    if judges == [] then [] else JudgeIds(judges[..|judges| - 1]) + [judges[|judges| - 1].judgeId]
  }

  /** The first category whose name matches, ignoring case. */
  function FirstCovering(categories: seq<Category>, name: string): (r: Option<nat>)
    ensures r.None? <==> !Covers(categories, name)
    ensures r.Some? ==> r.value < |categories| &&
                        EqualsIgnoreCase(categories[r.value].categoryName, name) &&
                        forall i :: 0 <= i < r.value ==> !EqualsIgnoreCase(categories[i].categoryName, name)
  {
    if categories == [] then None
    else if EqualsIgnoreCase(categories[0].categoryName, name) then Some(0)
    else
      match FirstCovering(categories[1..], name)
      case None =>
        assert forall i :: 1 <= i < |categories| ==> categories[i] == categories[1..][i - 1];
        None
      case Some(k) => Some(k + 1)
  }

  /** The administrator account logs in with its password, as ADMIN. */
  lemma {:induction false} AdminLogin()
    ensures FirstLogin(DefaultUsers, "admin", "admin123") == Some(0)
    ensures DefaultUsers[0].role == "ADMIN"
  {
  }

  /** Both judge accounts share a password; each is found by its own name. */
  lemma {:induction false} SecondJudgeLogin()
    ensures FirstLogin(DefaultUsers, "judge2", "judge123") == Some(2)
  {
    var us := DefaultUsers;
    assert us[0].username != "judge2" && us[1].username != "judge2";
    assert us[2].username == "judge2" && us[2].Authenticate("judge123");
  }

  /** Another account's password is refused. */
  lemma {:induction false} WrongPasswordRefused()
    ensures FirstLogin(DefaultUsers, "judge1", "admin123") == None
  {
    var us := DefaultUsers;
    forall i | 0 <= i < |us|
      ensures !(us[i].username == "judge1" && us[i].Authenticate("admin123"))
    {
      if i == 1 {
        assert us[1].password == "judge123";
      } else {
        assert us[i].username != "judge1";
      }
    }
  }

  predicate CategoryIs(c: Category, id: int, name: string, description: string)
    reads c
  {
    c.categoryId == id && c.categoryName == name && c.description == description
  }

  /** The four categories `initializeCategories` creates, ids 1 to 4 in order. */
  predicate InitialCategories(cs: seq<Category>)
    reads set c | c in cs
  {
    |cs| == 4 &&
    CategoryIs(cs[0], 1, "Cybersecurity", "Security-focused applications and tools") &&
    CategoryIs(cs[1], 2, "Artificial Intelligence", "AI and Machine Learning projects") &&
    CategoryIs(cs[2], 3, "Web Development", "Web applications and services") &&
    CategoryIs(cs[3], 4, "Mobile Development", "Mobile apps for Android/iOS")
  }

  predicate JudgeIs(j: Judge, id: int, firstName: string, lastName: string, email: string,
                    categories: seq<Category>)
    reads j
  {
    j.judgeId == id && j.firstName == firstName && j.lastName == lastName && j.email == email &&
    j.assignedCategories == categories
  }

  /** The two judges `initializeJudges` creates, each with two of the categories. */
  predicate InitialJudges(js: seq<Judge>, cs: seq<Category>)
    requires |cs| == 4
    reads set j | j in js
  {
    |js| == 2 && js[0] != js[1] &&
    JudgeIs(js[0], 1, "John", "Smith", "john.smith@hackathon.com", [cs[0], cs[1]]) &&
    JudgeIs(js[1], 2, "Sarah", "Johnson", "sarah.j@hackathon.com", [cs[2], cs[3]])
  }

  /** `initializeCategories`. */
  method InitializeCategories() returns (cs: seq<Category>)
    ensures InitialCategories(cs)
    ensures forall c :: c in cs ==> fresh(c)
  {
    var cyber := new Category(1, "Cybersecurity", "Security-focused applications and tools");
    var ai := new Category(2, "Artificial Intelligence", "AI and Machine Learning projects");
    var web := new Category(3, "Web Development", "Web applications and services");
    var mobile := new Category(4, "Mobile Development", "Mobile apps for Android/iOS");
    cs := [cyber, ai, web, mobile];
  }

  /** `initializeUsers`: the default accounts, in order. Their user names are distinct,
      so every one of them logs in with its own password as itself. */
  method InitializeUsers() returns (users: seq<User>)
    ensures users == DefaultUsers
    ensures forall i, j :: 0 <= i < j < |users| ==> users[i].username != users[j].username
    ensures forall i :: 0 <= i < |users| ==> FirstLogin(users, users[i].username, users[i].password) == Some(i)
  {
    users := [];
    users := users + [User("admin", "admin123", "ADMIN")];
    users := users + [User("judge1", "judge123", "JUDGE")];
    users := users + [User("judge2", "judge123", "JUDGE")];
    users := users + [User("participant", "part123", "PARTICIPANT")];
    users := users + [User("public", "public123", "PUBLIC")];
    assert users == DefaultUsers;
    DefaultUsersDistinct();
    DefaultUsersLogIn();
  }

  lemma {:induction false} DefaultUsersDistinct()
    ensures forall i, j :: 0 <= i < j < |DefaultUsers| ==> DefaultUsers[i].username != DefaultUsers[j].username
  {
    var us := DefaultUsers;
    assert |us[0].username| == 5 && |us[3].username| == 11;
    assert us[1].username[5] != us[2].username[5];
    assert us[1].username[0] != us[4].username[0] && us[2].username[0] != us[4].username[0];
  }

  lemma {:induction false} DefaultUsersLogIn()
    ensures forall i :: 0 <= i < |DefaultUsers| ==>
              FirstLogin(DefaultUsers, DefaultUsers[i].username, DefaultUsers[i].password) == Some(i)
  {
    DefaultUsersDistinct();
    forall i | 0 <= i < |DefaultUsers|
      ensures FirstLogin(DefaultUsers, DefaultUsers[i].username, DefaultUsers[i].password) == Some(i)
    {
      FirstLoginDistinct(DefaultUsers, i);
    }
  }

  /** Among accounts with distinct user names, an account's own name and password find
      that account. */
  lemma {:induction false} FirstLoginDistinct(users: seq<User>, i: nat)
    requires i < |users|
    requires forall p, q :: 0 <= p < q < |users| ==> users[p].username != users[q].username
    ensures FirstLogin(users, users[i].username, users[i].password) == Some(i)
  {
    var r := FirstLogin(users, users[i].username, users[i].password);
    assert users[i].Authenticate(users[i].password);
    assert r.Some?;
  }

  /** `initializeJudges`: John Smith judges the first two categories, Sarah Johnson the
      last two. */
  method InitializeJudges(cs: seq<Category>) returns (js: seq<Judge>)
    requires InitialCategories(cs)
    ensures InitialJudges(js, cs)
    ensures forall j :: j in js ==> fresh(j)
  {
    var judge1 := new Judge(1, "John", "Smith", "john.smith@hackathon.com");
    judge1.AssignCategory(cs[0]);
    judge1.AssignCategory(cs[1]);
    var judge2 := new Judge(2, "Sarah", "Johnson", "sarah.j@hackathon.com");
    judge2.AssignCategory(cs[2]);
    judge2.AssignCategory(cs[3]);
    js := [judge1, judge2];
  }

  /** In the initial state the first judge can judge teams of the first two categories
      (Cybersecurity, Artificial Intelligence) and the second judge teams of the last two
      (Web Development, Mobile Development). */
  lemma {:induction false} InitialCoverage(js: seq<Judge>, cs: seq<Category>)
    requires |cs| == 4 && InitialJudges(js, cs)
    ensures Covers(js[0].assignedCategories, cs[0].categoryName)
    ensures Covers(js[0].assignedCategories, cs[1].categoryName)
    ensures Covers(js[1].assignedCategories, cs[2].categoryName)
    ensures Covers(js[1].assignedCategories, cs[3].categoryName)
  {
    CoveredByName(js[0].assignedCategories, 0, cs[0].categoryName);
    CoveredByName(js[0].assignedCategories, 1, cs[1].categoryName);
    CoveredByName(js[1].assignedCategories, 0, cs[2].categoryName);
    CoveredByName(js[1].assignedCategories, 1, cs[3].categoryName);
  }

  class HackathonModel {
    var teamList: TeamList
    var judges: seq<Judge>
    var categories: seq<Category>
    var users: seq<User>
    var currentUser: Option<User>

    /** The initial catalogues: four categories with ids 1 to 4, the default accounts,
        and two judges covering two categories each; nobody is logged in. */
    constructor ()
      ensures fresh(teamList) && teamList.teams == []
      ensures InitialCategories(categories)
      ensures users == DefaultUsers
      ensures InitialJudges(judges, categories)
      ensures currentUser == None
    {
      var list := new TeamList();
      var cs := InitializeCategories();
      var js := InitializeJudges(cs);
      var us := InitializeUsers();
      teamList := list;
      currentUser := None;
      categories := cs;
      users := us;
      judges := js;
    }

    /** `login`: the first account with that name and password becomes the current user;
        when there is none, the current user is left as it was. */
    method Login(username: string, password: string) returns (ok: bool)
      modifies this
      ensures ok <==> FirstLogin(users, username, password).Some?
      ensures ok ==> currentUser == Some(users[FirstLogin(users, username, password).value])
      ensures !ok ==> currentUser == old(currentUser)
      ensures teamList == old(teamList) && judges == old(judges)
      ensures categories == old(categories) && users == old(users)
    {
      for i := 0 to |users|
        invariant forall j :: 0 <= j < i ==> !(users[j].username == username && users[j].Authenticate(password))
      {
        var user := users[i];
        if user.username == username && user.Authenticate(password) {
          currentUser := Some(user);
          return true;
        }
      }
      return false;
    }

    /** `logout`: nobody is logged in afterwards. */
    method Logout()
      modifies this
      ensures currentUser == None
      ensures teamList == old(teamList) && judges == old(judges)
      ensures categories == old(categories) && users == old(users)
    {
      currentUser := None;
    }

    /** `isLoggedIn`. */
    predicate IsLoggedIn(): (loggedIn: bool)
      reads this
      ensures loggedIn <==> currentUser != None
    {
      currentUser.Some?
    }

    /** `addTeam`, delegated to the team list. */
    method AddTeam(team: Team)
      modifies teamList
      ensures teamList.teams == old(teamList.teams) + [team]
    {
      teamList.AddTeam(team);
    }

    /** `removeTeam`, delegated to the team list. */
    method RemoveTeam(teamNumber: int) returns (removed: bool)
      modifies teamList
      ensures removed <==> teamNumber in old(NumbersOf(teamList.teams))
      ensures removed ==>
                (teamList.teams ==
                 RemoveAt(old(teamList.teams), FirstIndex(old(NumbersOf(teamList.teams)), teamNumber).value))
      ensures !removed ==> teamList.teams == old(teamList.teams)
    {
      removed := teamList.RemoveTeam(teamNumber);
    }

    /** `findTeam`, delegated to the team list. */
    method FindTeam(teamNumber: int) returns (team: Team?)
      ensures team == null <==> teamNumber !in NumbersOf(teamList.teams)
      ensures team != null ==> team == teamList.teams[FirstIndex(NumbersOf(teamList.teams), teamNumber).value]
    {
      team := teamList.FindTeamByNumber(teamNumber);
    }

    /** `getTeamsByCategory`, delegated to the team list. */
    method GetTeamsByCategory(category: string) returns (filtered: seq<Team>)
      ensures filtered == FilterByCategory(teamList.teams, category)
    {
      filtered := teamList.GetTeamsByCategory(category);
    }

    /** `addJudge`. */
    method AddJudge(judge: Judge)
      modifies this
      ensures judges == old(judges) + [judge]
      ensures teamList == old(teamList) && categories == old(categories)
      ensures users == old(users) && currentUser == old(currentUser)
    {
      judges := judges + [judge];
    }

    /** `findJudge`: the first judge with that id, or null. */
    method FindJudge(judgeId: int) returns (judge: Judge?)
      ensures judge == null <==> judgeId !in JudgeIds(judges)
      ensures judge != null ==> judge == judges[FirstIndex(JudgeIds(judges), judgeId).value]
    {
      ghost var ids := JudgeIds(judges);
      for i := 0 to |judges|
        invariant judgeId !in ids[..i]
      {
        if judges[i].judgeId == judgeId {
          assert FirstIndex(ids, judgeId) == Some(i) by {
            FirstIndexAt(ids, judgeId, i);
          }
          return judges[i];
        }
        assert ids[..i + 1] == ids[..i] + [ids[i]];
      }
      assert ids[..|judges|] == ids;
      return null;
    }

    /** `addCategory`. */
    method AddCategory(category: Category)
      modifies this
      ensures categories == old(categories) + [category]
      ensures teamList == old(teamList) && judges == old(judges)
      ensures users == old(users) && currentUser == old(currentUser)
    {
      categories := categories + [category];
    }

    /** `findCategory`: the first category whose name matches ignoring case, or null. */
    method FindCategory(categoryName: string) returns (category: Category?)
      ensures category == null <==> !Covers(categories, categoryName)
      ensures category != null ==> category == categories[FirstCovering(categories, categoryName).value]
    {
      for i := 0 to |categories|
        invariant forall j :: 0 <= j < i ==> !EqualsIgnoreCase(categories[j].categoryName, categoryName)
      {
        if EqualsIgnoreCase(categories[i].categoryName, categoryName) {
          FirstCoveringAt(categories, categoryName, i);
          return categories[i];
        }
      }
      return null;
    }

    /** `loadTeamsFromFile`: the team list is replaced by what the file's lines hold. */
    method LoadTeamsFromFile(lines: seq<string>)
      modifies this
      ensures fresh(teamList) && Csv.HoldsAll(teamList.teams, Csv.ReadLines(lines))
      ensures forall t :: t in teamList.teams ==> fresh(t) && fresh(t.scores)
      ensures Csv.Unshared(teamList.teams)
      ensures judges == old(judges) && categories == old(categories)
      ensures users == old(users) && currentUser == old(currentUser)
    {
      teamList := Csv.ReadTeams(lines);
    }

    /** `saveTeamsToFile`: the lines written for the current team list. */
    method SaveTeamsToFile() returns (lines: seq<string>)
      ensures lines == [Csv.Header] + Csv.RowsOf(teamList.teams)
    {
      lines := Csv.WriteTeams(teamList);
    }
  }

  /** A match at `i` with none before it is the first match. */
  lemma {:induction false} FirstIndexAt<T>(s: seq<T>, x: T, i: nat)
    requires i < |s| && s[i] == x && x !in s[..i]
    ensures FirstIndex(s, x) == Some(i)
  {
    assert x in s;
    var v := FirstIndex(s, x).value;
    assert forall k :: 0 <= k < i ==> s[..i][k] == s[k];
    assert forall k :: 0 <= k < v ==> s[..v][k] == s[k];
  }

  lemma {:induction false} CoveredByName(cs: seq<Category>, i: nat, name: string)
    requires i < |cs| && cs[i].categoryName == name
    ensures Covers(cs, name)
  {
    assert EqualsIgnoreCase(cs[i].categoryName, name);
  }

  lemma {:induction false} FirstCoveringAt(categories: seq<Category>, name: string, i: nat)
    requires i < |categories| && EqualsIgnoreCase(categories[i].categoryName, name)
    requires forall j :: 0 <= j < i ==> !EqualsIgnoreCase(categories[j].categoryName, name)
    ensures FirstCovering(categories, name) == Some(i)
  {
    assert Covers(categories, name);
  }
}
