# Hackathon team records — a verified Dafny model

This project models the logic layer of a small Java desktop application that keeps
hackathon team records:

- the four category scoring rules (Cybersecurity, Artificial Intelligence, Web
  Development, Mobile Development);
- the `Team` record with its setters, initials and score list;
- the `TeamList` collection with its searches, removal, filter and statistics;
- the CSV line reader and writer;
- the model's session and lookup state, and the judge, score, category and user helpers;
- the controller's sorting, editing, deleting and table projection.

Swing, the console menu and real file access are not modelled.

One Dafny module stands for each source file:

| module | file | models |
|---|---|---|
| `Scoring` | `scoring.dfy` | the four `getOverallScore` overrides of `hackathon_team_subclasses.java` |
| `Teams` | `teams.dfy` | `Team.java` |
| `TeamLists` | `teamlists.dfy` | `hackathon_teamlist.java` |
| `Csv` | `csv.dfy` | `FileManager.java` |
| `CsvProperties` | `csv_properties.dfy` | the round trip between the writer and the reader of `FileManager.java` |
| `Supporting` | `supporting.dfy` | `hackathon_supporting_classes.java` |
| `Model` | `model.dfy` | `HackathonModel.java` |
| `TeamSort` | `sorting.dfy` | the comparators and library sort used by `HackathonController.java` |
| `Controller` | `controller.dfy` | `HackathonController.java` |

Three helper modules sit under them:

- `Wrappers` holds `Option` and `Result`.
- `Seqs` holds sums, extrema, first-match search, first-occurrence removal and tallies.
- `JavaText` holds the parts of `String` and `Integer` the code relies on: `split`,
  `trim`, `parseInt`, `toString`, `toLowerCase`, `toUpperCase` and `equalsIgnoreCase`.

Objects the Java code updates in place are Dafny classes whose methods carry
`modifies` clauses. These are `Team`, `TeamList`, `HackathonModel`, `Category`,
`TeamMember`, `Judge`, `Score` and `HackathonController`.

- A team's `int[]` scores are an `array<int>`. The array is shared with the caller,
  exactly as the Java constructor and setter share it.
- The `ArrayList` fields are `seq` fields that the methods reassign.
- Each modelled loop of the source is a method with invariants. Each method is proved equal to
  a pure specification function, and the properties are proved about that function.
- The Java subclass of a team is the immutable field `kind`. Scoring follows `kind`
  even after `setCategory` changes the category text, as the Java overrides do.
- Overall scores are exact `real` numbers. The Java doubles are not modelled.
- `Score.calculateOverall` adds four Java `int`s before dividing. The model makes the
  32-bit wrap-around of that sum explicit (`JavaText.Wrap32`).

## Model

| member | source | states |
|---|---|---|
| `Scoring.CategoryName` | hackathon_team_subclasses.java:4-84 | each subclass constructor passes its fixed category text (lines 5, 27, 49 and 84), which is never empty and holds no comma |
| `Scoring.CategoryNameInjective` | hackathon_team_subclasses.java:4-84 | the four subclasses pass four different category texts |
| `Scoring.SortInPlace` | hackathon_team_subclasses.java:11-12 | the array ends up ascending and a permutation of what it held |
| `Scoring.SortAscCorrect` | hackathon_team_subclasses.java:12 | the reference sort is ascending and a permutation of its input |
| `Scoring.SortedUnique` | hackathon_team_subclasses.java:12 | two ascending permutations of the same scores are equal, so any correct sort gives the same top scores |
| `Scoring.CyberAveragesTop` | hackathon_team_subclasses.java:9-20 | Cybersecurity splits the sorted scores into the lower part and the top `min(4,n)` (no lower score exceeds a top one) and averages the top part |
| `Scoring.CyberSample` | hackathon_team_subclasses.java:9-20 | scores 3,4,3,4,4 give 3.75 |
| `Scoring.SumOfLast` | hackathon_team_subclasses.java:15-18 | the downward loop sums exactly the last `n` array entries |
| `Scoring.CyberScoreOf` | hackathon_team_subclasses.java:9-20 | the method sorts a copy and returns the Cybersecurity score of the team's scores, which it leaves unchanged |
| `Scoring.TotalWeightPositive` | hackathon_team_subclasses.java:32-39 | the total weight of `m` positions is at least `m`, so it is 0 only with no scores |
| `Scoring.WeightedSumPrefix` | hackathon_team_subclasses.java:36-39 | the weighted sum depends only on the first `m` scores |
| `Scoring.AiIgnoresTail` | hackathon_team_subclasses.java:36 | scores after the fifth do not change the AI score |
| `Scoring.AiEmptyIsZero` | hackathon_team_subclasses.java:41 | the total weight is 0 exactly when there are no scores, and the AI score is then 0 |
| `Scoring.AiSample` | hackathon_team_subclasses.java:31-42 | scores 5,4,5,4,3 give 30/7 |
| `Scoring.AiScoreOf` | hackathon_team_subclasses.java:31-42 | the loop over `min(n,5)` positions returns the weighted mean, or 0 |
| `Scoring.TrimmedLength` | hackathon_team_subclasses.java:63-76 | dropping one minimum and one maximum leaves `n-2` scores |
| `Scoring.WebDropsOneMinOneMax` | hackathon_team_subclasses.java:63-76 | with more than two scores, the remainder is the multiset minus one minimum and one maximum, and the Web score is its mean |
| `Scoring.TrimmedMean` | hackathon_team_subclasses.java:75-76 | `(sum - min - max) / (n - 2)` is the mean of the scores left after dropping one minimum and one maximum |
| `Scoring.TrimmedSum` | hackathon_team_subclasses.java:75 | the remainder sums to `sum - min - max` |
| `Scoring.MaxSurvivesMinRemoval` | hackathon_team_subclasses.java:64-75 | removing one minimum from more than two scores keeps a maximum, so both can be dropped |
| `Scoring.SumScores` | hackathon_team_subclasses.java:91-94 | the for-each loop returns the sum of all scores |
| `Scoring.ScanScores` | hackathon_team_subclasses.java:64-72 | the single pass returns the minimum, the maximum and the sum |
| `Scoring.WebScoreOf` | hackathon_team_subclasses.java:53-77 | the method returns the Web Development score: the plain mean (0 if empty) up to two scores, the trimmed mean above |
| `Scoring.MobileScoreOf` | hackathon_team_subclasses.java:88-96 | the method returns the plain mean, 0 for no scores |
| `Scoring.WeightedSumBounds` | hackathon_team_subclasses.java:36-39 | with every score in `[lo,hi]`, the weighted sum lies between `lo` and `hi` times the total weight |
| `Scoring.WeightedSumAbove` | hackathon_team_subclasses.java:36-39 | with every score at least `lo`, the weighted sum is at least `lo` times the total weight |
| `Scoring.WeightedSumBelow` | hackathon_team_subclasses.java:36-39 | with every score at most `hi`, the weighted sum is at most `hi` times the total weight |
| `Scoring.CyberWithinScoreRange` | hackathon_team_subclasses.java:9-20 | scores in `[lo,hi]` give a Cybersecurity score in `[lo,hi]` |
| `Scoring.AiWithinScoreRange` | hackathon_team_subclasses.java:31-42 | scores in `[lo,hi]` give an AI score in `[lo,hi]` |
| `Scoring.WebWithinScoreRange` | hackathon_team_subclasses.java:53-77 | scores in `[lo,hi]` give a Web Development score in `[lo,hi]` |
| `Scoring.Overall` | hackathon_team_subclasses.java:8-96 | the subclass chooses the rule; every subclass that may be scored on no scores gives 0 then |
| `Scoring.OverallWithinScoreRange` | hackathon_team_subclasses.java:1-96 | every rule maps non-empty scores in `[lo,hi]` into `[lo,hi]` |
| `Seqs.MeanBetweenExtrema` | hackathon_teamlist.java:56-90 | on a non-empty list the minimum overall score is at most the average, which is at most the maximum |
| `Seqs.FirstIndex` | hackathon_teamlist.java:23-30 | the first position holding the value, and none exactly when it does not occur |
| `Seqs.FirstMax` | hackathon_teamlist.java:43-53 | the first position of a greatest value: every value is at most it and every earlier one is strictly smaller |
| `Seqs.RemoveFirstMultiset` | hackathon_teamlist.java:36 | removing the first occurrence takes exactly one copy out |
| `Seqs.RemoveFirstThenSearch` | hackathon_teamlist.java:33-40 | after removing the first occurrence, a search finds nothing exactly when the value occurred at most once |
| `Seqs.TallyCounts` | hackathon_teamlist.java:93-104 | the keys of a tally are exactly the values that occur, each mapped to its number of occurrences |
| `Seqs.TallyTotal` | hackathon_teamlist.java:118-125 | the counts of a tally add up to the length of the tallied sequence |
| `JavaText.LowerEqualsLowerAll` | FileManager.java:63 | comparing character by character after lower-casing is the same as lower-casing and comparing |
| `JavaText.SplitJoin` | FileManager.java:45 | splitting a join gives back pieces that do not contain the separator |
| `JavaText.JoinSplit` | FileManager.java:45 | joining the pieces of a split gives back the string |
| `JavaText.ParseIntToString` | FileManager.java:51 | `parseInt` reads back what `Integer.toString` wrote for every 32-bit value |
| `JavaText.IntToStringTrimmed` | FileManager.java:101 | a written number has no surrounding white space and no comma |
| `JavaText.Wrap32` | hackathon_supporting_classes.java:165 | Java `int` addition: the result is a 32-bit value congruent to the exact sum, and equal to it when it fits |
| `Teams.Team.constructor` | Team.java:10-16 | the five fields are stored as given (the score array shared), with the subclass's fixed category |
| `Teams.Team.GetOverallScore` | Team.java:60 | the subclass's scoring rule applied to the current scores |
| `Teams.Team.SetTeamNumber` | Team.java:23-25 | only the number changes |
| `Teams.Team.SetTeamName` | Team.java:31-33 | only the name changes |
| `Teams.Team.SetUniversityName` | Team.java:39-41 | only the university changes |
| `Teams.Team.SetCategory` | Team.java:47-49 | only the category text changes |
| `Teams.Team.SetScores` | Team.java:55-57 | only the score array reference changes |
| `Teams.FirstsOfSplit` | Team.java:86-92 | the first characters of the non-empty pieces of `split(" ")` are exactly the characters that start a word |
| `Teams.FirstsCountWords` | Team.java:88-92 | one initial per non-empty word |
| `Teams.GetInitials` | Team.java:85-94 | the initials are the upper-cased word starts, one per non-empty word |
| `Teams.ScoreListText` | Team.java:68-72 | the score list is `[`, the scores joined by `", "` with no trailing separator, then `]` |
| `TeamLists.FilterByCategoryMembers` | hackathon_teamlist.java:107-115 | the filter keeps exactly the teams whose category equals the argument ignoring case, and is no longer than the list |
| `TeamLists.RemoveThenFind` | hackathon_teamlist.java:33-40 | after removing the first team with a number, the numbers are the old numbers with that first occurrence removed |
| `TeamLists.TallyScores` | hackathon_teamlist.java:97-100 | the inner loop adds one array's scores to the running tally |
| `TeamLists.TeamList.constructor` | hackathon_teamlist.java:8-10 | a new list is empty |
| `TeamLists.TeamList.AddTeam` | hackathon_teamlist.java:13-15 | the team is appended and earlier entries stay |
| `TeamLists.TeamList.FindTeamByNumber` | hackathon_teamlist.java:23-30 | null exactly when no team has the number, otherwise the first team that has it |
| `TeamLists.TeamList.RemoveTeam` | hackathon_teamlist.java:33-40 | true exactly when the number occurs, and then exactly the first team with it is gone; otherwise the list is unchanged |
| `TeamLists.TeamList.GetHighestScoringTeam` | hackathon_teamlist.java:43-53 | null for an empty list, else the first team with the greatest overall score |
| `TeamLists.TeamList.GetAverageOverallScore` | hackathon_teamlist.java:56-64 | 0 for no teams, else the mean overall score |
| `TeamLists.TeamList.GetMinimumOverallScore` | hackathon_teamlist.java:67-77 | 0 for no teams, else the least overall score |
| `TeamLists.TeamList.GetMaximumOverallScore` | hackathon_teamlist.java:80-90 | 0 for no teams, else the greatest overall score |
| `TeamLists.TeamList.GetScoreFrequency` | hackathon_teamlist.java:93-104 | the keys are exactly the scores that occur, each counted, and the counts add up to the number of scores |
| `TeamLists.TeamList.GetTeamsByCategory` | hackathon_teamlist.java:107-115 | the order-preserving sub-list of teams whose category matches ignoring case |
| `TeamLists.TeamList.GetCategoryCount` | hackathon_teamlist.java:118-125 | the keys are exactly the categories present, each counted, and the counts add up to the list size |
| `Csv.ParseScoresPrefixFailure` | FileManager.java:58-60 | the first score field that does not parse decides the error, whatever follows |
| `Csv.KindOfCategory` | FileManager.java:63-77 | Cybersecurity exactly for "cybersecurity" in any case, AI exactly for "artificial intelligence" or "ai", Web exactly for "web development" or "web", and Mobile Development for everything else |
| `Csv.ParseTeamLine` | FileManager.java:44-78 | fewer than four fields or a non-integer field is an error; otherwise a new team of the category's subclass holds the trimmed fields and a fresh array of the parsed scores |
| `Csv.LoadLine` | FileManager.java:21-29 | a line that parses appends its new team; one that does not is skipped |
| `Csv.ParseLinesStep` | FileManager.java:14-30 | each further line adds its parse, or nothing, to the end |
| `Csv.ParseScoreArray` | FileManager.java:57-60 | a new array holding the parsed score fields in order, or the first parse error |
| `Csv.AppendTeam` | FileManager.java:22-25 | appending a team that shares nothing with the list keeps every team matched to its parsed line and keeps them unshared |
| `Csv.UnsharedSnoc` | FileManager.java:22-25 | a team whose object and score array are new to the list can be appended without sharing |
| `Csv.ReadTeams` | FileManager.java:7-41 | the first line is skipped, bad lines are skipped, and the other lines become new teams, each with a new score array, in file order; no two loaded teams share an object or a score array |
| `Csv.RowsOfAt` | FileManager.java:100-111 | the i-th written row is the i-th team's row |
| `Csv.WriteRow` | FileManager.java:101-110 | the row is `number,name,university,category` followed by `,score` per score |
| `Csv.WriteTeams` | FileManager.java:94-111 | the header line, then one row per team in list order |
| `CsvProperties.RowTextIsJoin` | FileManager.java:101-109 | a written row is its fields joined by commas |
| `CsvProperties.ParseScoresOfTexts` | FileManager.java:57-60 | parsing written 32-bit scores gives the scores back |
| `CsvProperties.SplitRow` | FileManager.java:45 | splitting a writable row gives back exactly its fields |
| `CsvProperties.RowRoundTrip` | FileManager.java:44-60 | parsing a written row restores the number, name, university and scores, and the subclass its category selects |
| `CsvProperties.ParseRowsOf` | FileManager.java:100-111 | parsing the written rows reads back every team, in list order |
| `CsvProperties.FileRoundTrip` | FileManager.java:94-111 | reading a written file restores every writable team in order, each of its own subclass when its category is that subclass's own name; writable means 32-bit numbers, trimmed text fields with no comma and no line break, and a non-empty category when there are no scores |
| `CsvProperties.EmptyCategoryRowDropped` | FileManager.java:44-49 | a team with an empty category and no scores is written as three fields and a trailing comma; `split` drops the empty field, so `parseTeamLine` rejects the row and reading the file loses the team |
| `CsvProperties.KindOfCategoryName` | FileManager.java:63-77 | each subclass's own category name reads back as that subclass |
| `CsvProperties.ArtificialIntelligenceName` | FileManager.java:66-68 | "Artificial Intelligence" selects the AI subclass |
| `CsvProperties.WebDevelopmentName` | FileManager.java:69-71 | "Web Development" selects the Web subclass |
| `CsvProperties.MobileDevelopmentName` | FileManager.java:72-74 | "Mobile Development" selects the Mobile subclass |
| `CsvProperties.KindOfCategoryIgnoresCase` | FileManager.java:63 | categories equal ignoring case select the same subclass |
| `CsvProperties.KindOfCategoryAliases` | FileManager.java:63-74 | the aliases "AI" and "Web" and the mixed-case "CyberSecurity" select their subclasses; other casings follow from `KindOfCategoryIgnoresCase` |
| `CsvProperties.KindOfCategoryUnknown` | FileManager.java:75-77 | every category that is none of the names or aliases of the first three subclasses, in any case, selects Mobile Development |
| `CsvProperties.KindOfCategoryBlockchain` | FileManager.java:75-77 | "Blockchain" selects Mobile Development |
| `Supporting.Category.constructor` | hackathon_supporting_classes.java:10-14 | the three fields are stored as given |
| `Supporting.Category.UpdateDescription` | hackathon_supporting_classes.java:28-30 | only the description changes |
| `Supporting.TeamMember.constructor` | hackathon_supporting_classes.java:44-48 | the three fields are stored as given |
| `Supporting.TeamMember.UpdateContactDetails` | hackathon_supporting_classes.java:62-64 | only the e-mail changes |
| `Supporting.AssignContents` | hackathon_supporting_classes.java:112-116 | after assigning, the list holds the category, keeps every earlier entry as a prefix and holds nothing else |
| `Supporting.AssignIdempotent` | hackathon_supporting_classes.java:112-116 | assigning the same category twice is the same as once |
| `Supporting.AssignKeepsDistinct` | hackathon_supporting_classes.java:112-116 | assignment never creates a duplicate |
| `Supporting.AssignCovers` | hackathon_supporting_classes.java:112-125 | after assigning, the judge can judge the new category's name and everything it could judge before |
| `Supporting.Judge.constructor` | hackathon_supporting_classes.java:80-86 | the fields are stored and no category is assigned |
| `Supporting.Judge.AssignCategory` | hackathon_supporting_classes.java:112-116 | the category object is appended only if it is not already assigned |
| `Supporting.Judge.CanJudgeTeam` | hackathon_supporting_classes.java:118-125 | true exactly when some assigned category name equals the team's category ignoring case |
| `Supporting.Judge.FullName` | hackathon_supporting_classes.java:100-102 | the first name, one space, then the last name |
| `Supporting.FullNameSplit` | hackathon_supporting_classes.java:100-102 | the full name is first and last name around one space, and splits back into the two |
| `Supporting.OverallOfValid` | hackathon_supporting_classes.java:163-167 | with components in `[0,5]` the overall is their exact sum over 4, which lies in `[0,5]` |
| `Supporting.OverallOfOverflows` | hackathon_supporting_classes.java:165 | four components of 2^30 wrap their `int` sum to 0 |
| `Supporting.Score.ValidateScores` | hackathon_supporting_classes.java:201-206 | true exactly when all four components lie in `[0,5]`, and then the overall score is their exact mean, in `[0,5]` |
| `Supporting.Score.constructor` | hackathon_supporting_classes.java:144-153 | all four components and the overall start at 0 |
| `Supporting.Score.CalculateOverall` | hackathon_supporting_classes.java:163-167 | the overall becomes the `int` sum of the components divided by 4, and is returned |
| `Supporting.Score.SetScores` | hackathon_supporting_classes.java:155-161 | the four components are stored and the overall recomputed |
| `Supporting.User.Authenticate` | hackathon_supporting_classes.java:239-241 | true exactly when the given password is the stored one |
| `Model.FirstLogin` | HackathonModel.java:57-65 | the first account whose name and password both match, and none exactly when no account matches |
| `Model.AdminLogin` | HackathonModel.java:36-42 | "admin"/"admin123" logs in as the first, ADMIN, account |
| `Model.SecondJudgeLogin` | HackathonModel.java:36-42 | "judge2"/"judge123" logs in as the third account even though "judge1" has the same password |
| `Model.WrongPasswordRefused` | HackathonModel.java:57-65 | another account's password does not log in |
| `Model.FirstCovering` | HackathonModel.java:135-142 | the first category whose name matches ignoring case, and none exactly when none matches |
| `Model.InitializeUsers` | HackathonModel.java:36-42 | the five default accounts in order; their user names are distinct, so each logs in with its own password as itself |
| `Model.DefaultUsersDistinct` | HackathonModel.java:36-42 | the five default user names are pairwise distinct |
| `Model.DefaultUsersLogIn` | HackathonModel.java:36-42 | each default account logs in, with its own password, as itself |
| `Model.FirstLoginDistinct` | HackathonModel.java:57-65 | among accounts with distinct user names, an account's own name and password find that account |
| `Model.InitializeCategories` | HackathonModel.java:29-34 | four new categories with ids 1 to 4 and the fixed names and descriptions, in order |
| `Model.InitializeJudges` | HackathonModel.java:44-54 | two new judges, the first assigned the first two categories and the second the last two |
| `Model.InitialCoverage` | HackathonModel.java:44-54 | the initial judges together can judge all four categories |
| `Model.HackathonModel.constructor` | HackathonModel.java:12-27 | an empty team list, the initial categories, the five accounts, the two judges and nobody logged in |
| `Model.HackathonModel.Login` | HackathonModel.java:57-65 | true exactly when an account matches, and then the first match is logged in; a failed login leaves the session as it was |
| `Model.HackathonModel.Logout` | HackathonModel.java:67-69 | nobody is logged in afterwards and nothing else changes |
| `Model.HackathonModel.IsLoggedIn` | HackathonModel.java:75-77 | true exactly when there is a current user |
| `Model.HackathonModel.AddTeam` | HackathonModel.java:88-90 | the team list's `addTeam` |
| `Model.HackathonModel.RemoveTeam` | HackathonModel.java:92-94 | the team list's `removeTeam` |
| `Model.HackathonModel.FindTeam` | HackathonModel.java:96-98 | the team list's `findTeamByNumber` |
| `Model.HackathonModel.GetTeamsByCategory` | HackathonModel.java:104-106 | the team list's case-insensitive filter |
| `Model.HackathonModel.AddJudge` | HackathonModel.java:113-115 | the judge is appended and nothing else changes |
| `Model.HackathonModel.FindJudge` | HackathonModel.java:117-124 | null exactly when no judge has the id, otherwise the first judge that has it |
| `Model.HackathonModel.AddCategory` | HackathonModel.java:131-133 | the category is appended and nothing else changes |
| `Model.HackathonModel.FindCategory` | HackathonModel.java:135-142 | null exactly when no name matches ignoring case, otherwise the first category that matches |
| `Model.HackathonModel.LoadTeamsFromFile` | HackathonModel.java:145-147 | a new team list holding what the reader loads from the lines; every team and score array in it is new, and none is shared |
| `Model.HackathonModel.SaveTeamsToFile` | HackathonModel.java:149-151 | the lines the writer produces for the current list |
| `TeamSort.LexLeTotal` | HackathonController.java:73 | `compareTo` order on names is total |
| `TeamSort.LexLeTransitive` | HackathonController.java:73 | `compareTo` order on names is transitive |
| `TeamSort.LexLeAntisymmetric` | HackathonController.java:73 | names ordered both ways are equal |
| `TeamSort.LeTotal` | HackathonController.java:67-79 | each comparator orders any two teams one way or the other |
| `TeamSort.LeTransitive` | HackathonController.java:67-79 | each comparator is transitive |
| `TeamSort.InsertMultiset` | HackathonController.java:67-79 | inserting adds exactly the one element |
| `TeamSort.InsertSorted` | HackathonController.java:67-79 | inserting into a sorted list keeps it sorted |
| `TeamSort.InsertStable` | HackathonController.java:67-79 | inserting a later element keeps equal keys in their original order |
| `TeamSort.SortPermutes` | HackathonController.java:67-79 | the sort is a permutation |
| `TeamSort.SortPermutesTeams` | HackathonController.java:67-79 | the sorted teams are a permutation of the teams |
| `TeamSort.SortOrders` | HackathonController.java:67-79 | the sort result is ordered by the comparator |
| `TeamSort.SortStable` | HackathonController.java:67-79 | the sort keeps teams with equal keys in list order, as `List.sort` promises |
| `TeamSort.SortedByPermutes` | HackathonController.java:67-79 | sorting by any option permutes the teams |
| `TeamSort.SortedByStable` | HackathonController.java:67-79 | sorting by any option is stable |
| `TeamSort.SortedByKeys` | HackathonController.java:67-79 | any two positions of the sorted list are in comparator order |
| `TeamSort.SortedByNumber` | HackathonController.java:70 | "Team Number" orders numbers ascending |
| `TeamSort.SortedByName` | HackathonController.java:73 | "Team Name" orders names by `compareTo` |
| `TeamSort.SortedByScore` | HackathonController.java:76 | "Overall Score" orders overall scores descending |
| `Controller.SortTeams` | HackathonController.java:67-79 | sorting permutes the list and keeps every team scorable |
| `Controller.SortTeamsOrders` | HackathonController.java:67-79 | each option's order holds (numbers ascending, names by `compareTo`, scores descending), and an unknown option leaves the list as it was |
| `Controller.TableRows` | HackathonController.java:53-61 | one row per team, in order, holding its number, name, university, category and overall score |
| `Controller.EditedKind` | HackathonController.java:106-121 | Cybersecurity, AI and Web exactly for their full category names in any case, Mobile Development for everything else |
| `Controller.EditedKindOfName` | HackathonController.java:106-121 | each subclass's own category name selects that subclass on edit |
| `Controller.EditedArtificialIntelligence` | HackathonController.java:110-112 | "Artificial Intelligence" selects the AI subclass on edit |
| `Controller.EditedWebDevelopment` | HackathonController.java:113-115 | "Web Development" selects the Web subclass on edit |
| `Controller.EditedMobileDevelopment` | HackathonController.java:116-117 | "Mobile Development" selects the Mobile subclass on edit |
| `Controller.EditedKindIgnoresCase` | HackathonController.java:106 | categories equal ignoring case select the same subclass on edit |
| `Controller.EditedKindIgnoresAliases` | HackathonController.java:106-121 | "AI" and "Web" become Mobile on edit although the file reader accepts them |
| `Controller.SavedNumbers` | HackathonController.java:100-124 | after an edit the numbers are the old ones with the first occurrence of the edited number removed and the number appended |
| `Controller.EditNumbers` | HackathonController.java:100-124 | an edit keeps the list length when the number was present and adds one otherwise, and keeps unique numbers unique |
| `Controller.Occurrences` | HackathonController.java:160-164 | one count per score 0 to n-1, each equal to its number of occurrences |
| `Controller.OccurrencesTotal` | HackathonController.java:160-164 | when every score lies in 0 to n-1, the listed counts add up to the number of scores |
| `Controller.HackathonController.constructor` | HackathonController.java:12-14 | the controller keeps the model it is given |
| `Controller.HackathonController.RefreshTeamsTable` | HackathonController.java:36-64 | for "All" the model's own list is sorted in place; for a category the list is untouched; the rows project the sorted shown teams |
| `Controller.HackathonController.ProjectRows` | HackathonController.java:53-61 | the loop fills one row per team, in order |
| `Controller.HackathonController.SaveTeamChanges` | HackathonController.java:100-124 | the first team with the number is removed and a new team of the chosen subclass is appended, holding the caller's score array |
| `Controller.HackathonController.DeleteTeam` | HackathonController.java:127-129 | true exactly when the number occurred, and the first team with it is removed |
| `Controller.HackathonController.ScoreFrequencyRows` | HackathonController.java:160-164 | the counts of the scores 0 to 5, with a score that does not occur counted 0 |

## Left out

- Getters, `size()` and `getAllTeams()` are field reads of the model. `User`'s getters
  are the datatype's fields.
- `toString`, `getShortDetails`, the rest of `getFullDetails`, `getFullDetailsTable`,
  `generateReport`, `getStatisticsSummary` and `generateStatisticsText` are left out.
  These are text layout built on `String.format("%.2f")` and `HashMap` iteration
  order, which Dafny does not model. The parts with logic are modelled: the initials,
  the score list, the statistics and the frequency rows.
- Overall scores are exact reals, not IEEE doubles. Rounding, `-0.0` and `Double.compare`
  on NaN are not modelled.
- `Scoring.CyberScoreOf` requires at least one score. In Java, an empty Cybersecurity
  team divides 0 by 0 and scores NaN, which has no `real` counterpart.
- The `TeamList` statistics, the "Overall Score" sort and the table refresh require
  every team involved to be scorable, which rules out empty Cybersecurity teams for
  the same reason.
- Case mapping covers ASCII letters only. Unicode case folding, locale rules and
  `parseInt` of non-ASCII digits are not modelled.
- `TeamSort.LexLe`: names are ordered by Unicode code point, while `compareTo` compares
  UTF-16 code units. The two orders differ only when a character above U+FFFF meets
  one in U+E000 to U+FFFF. Lone surrogates are not modelled.
- Team numbers, score entries and the four components of a judge's `Score` are
  unbounded integers, while Java's `int` has 32 bits. The file round trip bounds team
  numbers and scores (`IsInt32` in `Writable`). `Supporting.OverallOf` wraps the sum
  of the four components with `Wrap32`, which matches Java's `int` addition only when
  each component is itself a 32-bit value.
- File and console I/O is not modelled. A file is the sequence of its lines, and a
  missing file reads as no lines. The writer prints the name, university and category
  as they are, so a field holding '\n' or '\r' would break its row into several lines
  for `readLine`, and those lines would not parse. The round trip
  (`CsvProperties.FileRoundTrip`) therefore requires fields without line breaks
  (`OneLine` in `Writable`), and rows are not re-split at line breaks. The messages on standard output and standard error,
  `createSampleCSVFile` and `writeReportToFile` are left out.
- The write methods' boolean results report I/O failures that the model cannot have,
  so they are not modelled.
- The Swing view, the console menu, `HackathonManagementSystem`, `handleClose`,
  `searchTeam`, `loadTeamForEdit`, `generateReport` and `setView` are left out. They
  only display data or call the modelled operations.
- `TeamSort.SortOrders`: `List.sort` is the library's stable TimSort. The model uses
  a stable insertion sort and proves the result ordered, a permutation and stable,
  which fixes it uniquely. TimSort's comparison order and its
  `IllegalArgumentException` on inconsistent comparators are not modelled. The
  comparators here are consistent.
- `Controller.HackathonController.RefreshTeamsTable` computes the category view with
  the specification function `FilterByCategory` instead of calling
  `model.getTeamsByCategory`. `TeamLists.TeamList.GetTeamsByCategory` is proved to
  return exactly that function.
- `Controller.HackathonController.RefreshTeamsTable` builds the rows before it assigns
  the sorted list back to the model. In Java the list is sorted first, but the rows
  and the new list are the same either way.
- `Controller.HackathonController.RefreshTeamsTable` takes the view's selected
  category and sort option as parameters and returns the rows instead of handing
  them to the view.
- `Controller.HackathonController.ScoreFrequencyRows` returns the six counts. The
  text lines they are printed in are not modelled.

### Where the code departs from the intended behaviour

The model follows the code in each case.

- Team numbers are meant to be unique. Nothing in `TeamList`, the file
  reader or the edit path enforces that. The model allows duplicates.
  `Seqs.RemoveFirstThenSearch` shows that a search after a removal finds nothing only
  when the number occurred at most once.
- Every scoring rule is meant to give 0 for no scores. The Cybersecurity
  code divides by `min(4, 0) = 0` instead.
- Writing teams and reading them back is meant to restore their categories. The reader maps an unknown
  category to Mobile Development, so only the category's subclass survives. The
  category text survives only when it is that subclass's own name
  (`CsvProperties.FileRoundTrip`).
- Saving and loading is meant to keep every team. A team with an empty category and
  no scores is written as `number,name,university,`; `split` drops the empty last
  field, so the reader rejects the three-field row and the team is lost
  (`CsvProperties.EmptyCategoryRowDropped`). Only `Team.setCategory` can produce such
  a team, and no code in the application calls it.
- The file reader accepts the aliases "ai", "web" and "mobile", but the edit path
  does not. There "AI" and "Web" become Mobile Development
  (`Controller.EditedKindIgnoresAliases`).
