/** Team.java: the team record every subclass shares. The scores array is held
    by reference, exactly as the constructor and `setScores` receive it. */
module Teams {
  import opened Wrappers
  import opened Seqs
  import opened JavaText
  import Scoring

  class Team {
    /** The subclass the team was built as; it decides the scoring rule. */
    const kind: Scoring.Kind
    var teamNumber: int
    var teamName: string
    var universityName: string
    var category: string
    var scores: array<int>

    /** The constructor of each subclass: the category is fixed by the subclass and the
        caller's array is kept, not copied. */
    constructor (kind: Scoring.Kind, teamNumber: int, teamName: string, universityName: string,
                 scores: array<int>)
      ensures this.kind == kind && this.teamNumber == teamNumber
      ensures this.teamName == teamName && this.universityName == universityName
      ensures this.category == Scoring.CategoryName(kind)
      ensures this.scores == scores
    {
      this.kind := kind;
      this.teamNumber := teamNumber;
      this.teamName := teamName;
      this.universityName := universityName;
      this.category := Scoring.CategoryName(kind);
      this.scores := scores;
    }

    predicate Scorable()
      reads this
    {
      kind != Scoring.Cybersecurity || scores.Length > 0
    }

    function Overall(): real
      reads this, scores
      requires Scorable()
    {
      Scoring.Overall(kind, scores[..])
    }

    /** `getOverallScore`, dispatched on the subclass. */
    method GetOverallScore() returns (r: real)
      requires Scorable()
      ensures r == Overall()
    {
      match kind
      case Cybersecurity => r := Scoring.CyberScoreOf(scores);
      case ArtificialIntelligence => r := Scoring.AiScoreOf(scores);
      case WebDevelopment => r := Scoring.WebScoreOf(scores);
      case MobileDevelopment => r := Scoring.MobileScoreOf(scores);
    }

    method SetTeamNumber(teamNumber: int)
      modifies this
      ensures this.teamNumber == teamNumber
      ensures teamName == old(teamName) && universityName == old(universityName)
      ensures category == old(category) && scores == old(scores)
    {
      this.teamNumber := teamNumber;
    }

    method SetTeamName(teamName: string)
      modifies this
      ensures this.teamName == teamName
      ensures teamNumber == old(teamNumber) && universityName == old(universityName)
      ensures category == old(category) && scores == old(scores)
    {
      this.teamName := teamName;
    }

    method SetUniversityName(universityName: string)
      modifies this
      ensures this.universityName == universityName
      ensures teamNumber == old(teamNumber) && teamName == old(teamName)
      ensures category == old(category) && scores == old(scores)
    {
      this.universityName := universityName;
    }

    /** Changes the category text only: the scoring rule stays that of the subclass. */
    method SetCategory(category: string)
      modifies this
      ensures this.category == category
      ensures teamNumber == old(teamNumber) && teamName == old(teamName)
      ensures universityName == old(universityName) && scores == old(scores)
    {
      this.category := category;
    }

    /** Replaces the array reference; the old array's contents are not touched. */
    method SetScores(scores: array<int>)
      modifies this
      ensures this.scores == scores
      ensures teamNumber == old(teamNumber) && teamName == old(teamName)
      ensures universityName == old(universityName) && category == old(category)
    {
      this.scores := scores;
    }
  }

  // ---------------------------------------------------------------------------
  // Initials (getShortDetails)

  /** First character of every non-empty word, in order. */
  function Firsts(words: seq<string>): string
  {
    if words == [] then []
    else (if words[0] != [] then [words[0][0]] else []) + Firsts(words[1..])
  }

  function NonEmptyWords(words: seq<string>): seq<string>
  {
    if words == [] then []
    else (if words[0] != [] then [words[0]] else []) + NonEmptyWords(words[1..])
  }

  /** The characters of `s` that start a run of non-space characters; `afterSpace` says
      whether the position before `s` counts as a word boundary. */
  function WordStarts(s: string, afterSpace: bool): string
  {
    if s == [] then []
    else (if s[0] != ' ' && afterSpace then [s[0]] else []) + WordStarts(s[1..], s[0] == ' ')
  }

  lemma {:induction false} FirstsAppend(a: seq<string>, b: seq<string>)
    ensures Firsts(a + b) == Firsts(a) + Firsts(b)
    decreases |a|
  {
    if a != [] {
      assert (a + b)[1..] == a[1..] + b;
      FirstsAppend(a[1..], b);
    } else {
      assert a + b == b;
    }
  }

  lemma {:induction false} FirstsCountWords(words: seq<string>)
    ensures |Firsts(words)| == |NonEmptyWords(words)|
    decreases |words|
  {
    if words != [] {
      FirstsCountWords(words[1..]);
    }
  }

  /** The first characters of the space-separated pieces are exactly the characters
      that begin a word. */
  lemma {:induction false} FirstsOfSplitAll(s: string)
    ensures Firsts(SplitAll(s, ' ')) == WordStarts(s, true)
    ensures Firsts(SplitAll(s, ' ')[1..]) == WordStarts(s, false)
    decreases |s|
  {
    if s != [] {
      var rest := SplitAll(s[1..], ' ');
      FirstsOfSplitAll(s[1..]);
      if s[0] == ' ' {
        assert SplitAll(s, ' ') == [""] + rest;
      } else {
        var p := [[s[0]] + rest[0]] + rest[1..];
        assert SplitAll(s, ' ') == p;
        assert p[1..] == rest[1..];
        assert rest == [rest[0]] + rest[1..];
        assert Firsts(p) == [s[0]] + Firsts(rest[1..]);
      }
    }
  }

  lemma {:induction false} FirstsDropTrailingEmpty(ws: seq<string>)
    ensures Firsts(DropTrailingEmpty(ws)) == Firsts(ws)
    ensures NonEmptyWords(DropTrailingEmpty(ws)) == NonEmptyWords(ws)
    decreases |ws|
  {
    if |ws| > 0 && ws[|ws| - 1] == "" {
      var init := ws[..|ws| - 1];
      FirstsDropTrailingEmpty(init);
      assert ws == init + [""];
      FirstsAppend(init, [""]);
      NonEmptyAppendEmpty(init);
    }
  }

  lemma {:induction false} NonEmptyAppendEmpty(ws: seq<string>)
    ensures NonEmptyWords(ws + [""]) == NonEmptyWords(ws)
    decreases |ws|
  {
    if ws != [] {
      assert (ws + [""])[1..] == ws[1..] + [""];
      NonEmptyAppendEmpty(ws[1..]);
    }
  }

  /** Splitting on spaces the Java way yields the same first letters as splitting on
      every space: the pieces it drops are empty. */
  lemma {:induction false} FirstsOfSplit(s: string)
    ensures Firsts(Split(s, ' ')) == WordStarts(s, true)
    ensures |WordStarts(s, true)| == |NonEmptyWords(Split(s, ' '))|
  {
    FirstsOfSplitAll(s);
    if ' ' in s {
      FirstsDropTrailingEmpty(SplitAll(s, ' '));
    } else {
      assert SplitAll(s, ' ') == [s] by {
        JoinSplit(s, ' ');
        var ps := SplitAll(s, ' ');
        if |ps| > 1 {
          JoinContainsSeparator(ps, ' ');
        }
      }
    }
    FirstsCountWords(Split(s, ' '));
  }

  /** `getInitials`: the first character of each non-empty space-separated word,
      upper-cased; one character per word. */
  method GetInitials(name: string) returns (initials: string)
    ensures initials == UpperAll(WordStarts(name, true))
    ensures |initials| == |NonEmptyWords(Split(name, ' '))|
  {
    var words := Split(name, ' ');
    var sb := "";
    for i := 0 to |words|
      invariant sb == Firsts(words[..i])
    {
      FirstsAppend(words[..i], [words[i]]);
      assert words[..i + 1] == words[..i] + [words[i]];
      if words[i] != "" {
        sb := sb + [words[i][0]];
      }
    }
    assert words[..|words|] == words;
    FirstsOfSplit(name);
    initials := UpperAll(sb);
  }

  // ---------------------------------------------------------------------------
  // The score list of getFullDetails

  /** Decimal texts of the scores. */
  function ScoreTexts(s: seq<int>): (r: seq<string>)
    ensures |r| == |s| && forall i :: 0 <= i < |s| ==> r[i] == IntToString(s[i])
  {
    if s == [] then [] else ScoreTexts(s[..|s| - 1]) + [IntToString(s[|s| - 1])]
  }

  /** `String.join(sep, ws)`: separators between neighbours only. */
  function JoinWith(ws: seq<string>, sep: string): string
  {
    if |ws| == 0 then ""
    else if |ws| == 1 then ws[0]
    else JoinWith(ws[..|ws| - 1], sep) + sep + ws[|ws| - 1]
  }

  /** The `Scores: [...]` part of `getFullDetails`: the scores in order, joined by ", ",
      in brackets, with no separator after the last one. */
  method ScoreListText(scores: array<int>) returns (text: string)
    ensures text == "[" + JoinWith(ScoreTexts(scores[..]), ", ") + "]"
  {
    ghost var texts := ScoreTexts(scores[..]);
    ghost var body := "";
    var sb := "[";
    for i := 0 to scores.Length
      invariant sb == "[" + body
      invariant i == 0 ==> body == ""
      invariant 0 < i ==> body == JoinWith(texts[..i], ", ") + (if i < scores.Length then ", " else "")
    {
      var t := IntToString(scores[i]);
      assert texts[i] == t;
      ListBodyStep(texts, i, body);
      ConcatAssoc("[", body, t);
      sb, body := sb + t, body + t;
      if i < scores.Length - 1 {
        ConcatAssoc("[", body, ", ");
        sb, body := sb + ", ", body + ", ";
      }
    }
    assert texts[..scores.Length] == texts;
    if scores.Length == 0 {
      assert texts == [];
    }
    text := sb + "]";
  }

  /** One step of the score list: the next piece, then a separator unless it is the last. */
  lemma {:induction false} ListBodyStep(texts: seq<string>, i: nat, body: string)
    requires i < |texts|
    requires i == 0 ==> body == ""
    requires 0 < i ==> body == JoinWith(texts[..i], ", ") + ", "
    ensures body + texts[i] + (if i < |texts| - 1 then ", " else "") ==
            JoinWith(texts[..i + 1], ", ") + (if i + 1 < |texts| then ", " else "")
  {
    JoinWithPrefix(texts, i, ", ");
  }

  lemma {:induction false} ConcatAssoc(a: string, b: string, c: string)
    ensures a + b + c == a + (b + c)
  {
  }

  /** Joining one more piece: the first piece alone, later ones after a separator. */
  lemma {:induction false} JoinWithPrefix(ws: seq<string>, i: nat, sep: string)
    requires i < |ws|
    ensures JoinWith(ws[..i + 1], sep) ==
            if i == 0 then ws[0] else JoinWith(ws[..i], sep) + sep + ws[i]
  {
    assert ws[..i + 1][..i] == ws[..i];
  }

  // ---------------------------------------------------------------------------
  // Views of a sequence of teams (what a scan over a list of teams reads)

  function NumbersOf(ts: seq<Team>): (r: seq<int>)
    reads set t | t in ts
    ensures |r| == |ts| && forall i :: 0 <= i < |ts| ==> r[i] == ts[i].teamNumber
  {
    if ts == [] then [] else NumbersOf(ts[..|ts| - 1]) + [ts[|ts| - 1].teamNumber]
  }

  function CategoriesOf(ts: seq<Team>): (r: seq<string>)
    reads set t | t in ts
    ensures |r| == |ts| && forall i :: 0 <= i < |ts| ==> r[i] == ts[i].category
  {
    if ts == [] then [] else CategoriesOf(ts[..|ts| - 1]) + [ts[|ts| - 1].category]
  }

  predicate AllScorable(ts: seq<Team>)
    reads set t | t in ts
  {
    forall i :: 0 <= i < |ts| ==> ts[i].Scorable()
  }

  function OverallsOf(ts: seq<Team>): (r: seq<real>)
    reads set t | t in ts, set t | t in ts :: t.scores
    requires AllScorable(ts)
    ensures |r| == |ts| && forall i :: 0 <= i < |ts| ==> r[i] == ts[i].Overall()
  {
    if ts == [] then [] else OverallsOf(ts[..|ts| - 1]) + [ts[|ts| - 1].Overall()]
  }

  /** Every score of every team, team by team in list order. */
  function AllScoresOf(ts: seq<Team>): seq<int>
    reads set t | t in ts, set t | t in ts :: t.scores
  {
    if ts == [] then [] else AllScoresOf(ts[..|ts| - 1]) + ts[|ts| - 1].scores[..]
  }
}
