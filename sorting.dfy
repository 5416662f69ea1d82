/** The effect of `List.sort` with the three comparators of HackathonController.java:
    a stable sort (the library guarantees stability), here an insertion sort over items
    that remember each team's original position and its sort key. */
module TeamSort {
  import opened Wrappers
  import opened Teams

  // ---------------------------------------------------------------------------
  // Keys and their order

  /** What a comparator looks at: the team number, the team name, or the overall score. */
  datatype Key = NumberKey(number: int) | NameKey(name: string) | ScoreKey(score: real)

  /** `a.compareTo(b) <= 0` for strings: a prefix comes first, otherwise the first
      differing character decides. */
  predicate LexLe(a: string, b: string)
  {
    if a == [] then true
    else if b == [] then false
    else if a[0] != b[0] then a[0] < b[0]
    else LexLe(a[1..], b[1..])
  }

  lemma {:induction false} LexLeTotal(a: string, b: string)
    ensures LexLe(a, b) || LexLe(b, a)
  {
    if a != [] && b != [] && a[0] == b[0] {
      LexLeTotal(a[1..], b[1..]);
    }
  }

  lemma {:induction false} LexLeTransitive(a: string, b: string, c: string)
    requires LexLe(a, b) && LexLe(b, c)
    ensures LexLe(a, c)
  {
    if a != [] && b != [] && c != [] && a[0] == b[0] && b[0] == c[0] {
      LexLeTransitive(a[1..], b[1..], c[1..]);
    }
  }

  /** Two names that are each at most the other are equal. */
  lemma {:induction false} LexLeAntisymmetric(a: string, b: string)
    requires LexLe(a, b) && LexLe(b, a)
    ensures a == b
  {
    if a != [] && b != [] {
      LexLeAntisymmetric(a[1..], b[1..]);
      assert a == [a[0]] + a[1..] && b == [b[0]] + b[1..];
    }
  }

  function Rank(k: Key): nat
  {
    match k
    case NumberKey(_) => 0
    case NameKey(_) => 1
    case ScoreKey(_) => 2
  }

  /** The comparator says "not after": ascending numbers, ascending names, descending
      scores. Keys of different kinds never meet in one sort; ranking them keeps the
      order total. */
  predicate Le(a: Key, b: Key)
  {
    if Rank(a) != Rank(b) then Rank(a) < Rank(b)
    else
      match a
      case NumberKey(x) => x <= b.number
      case NameKey(x) => LexLe(x, b.name)
      case ScoreKey(x) => x >= b.score
  }

  lemma {:induction false} LeTotal(a: Key, b: Key)
    ensures Le(a, b) || Le(b, a)
  {
    if a.NameKey? && b.NameKey? {
      LexLeTotal(a.name, b.name);
    }
  }

  lemma {:induction false} LeTransitive(a: Key, b: Key, c: Key)
    ensures Le(a, b) && Le(b, c) ==> Le(a, c)
  {
    if Le(a, b) && Le(b, c) && a.NameKey? && b.NameKey? && c.NameKey? {
      LexLeTransitive(a.name, b.name, c.name);
    }
  }

  // ---------------------------------------------------------------------------
  // Stable insertion sort

  /** A team with its position in the list being sorted and its sort key. */
  datatype Item = Item(index: nat, team: Team, key: Key)

  predicate Sorted(s: seq<Item>)
  {
    forall i, j :: 0 <= i < j < |s| ==> Le(s[i].key, s[j].key)
  }

  /** Items with equal keys keep their original relative order. */
  predicate Stable(s: seq<Item>)
  {
    forall i, j :: 0 <= i < j < |s| && Le(s[j].key, s[i].key) ==> s[i].index < s[j].index
  }

  /** Puts `x` after every item whose key is not after it. */
  function Insert(x: Item, s: seq<Item>): seq<Item>
  {
    if s == [] then [x]
    else if Le(s[0].key, x.key) then [s[0]] + Insert(x, s[1..])
    else [x] + s
  }

  function Sort(s: seq<Item>): seq<Item>
  {
    if s == [] then [] else Insert(s[|s| - 1], Sort(s[..|s| - 1]))
  }

  function TeamsOf(s: seq<Item>): (r: seq<Team>)
    ensures |r| == |s| && forall i :: 0 <= i < |s| ==> r[i] == s[i].team
  {
    if s == [] then [] else [s[0].team] + TeamsOf(s[1..])
  }

  lemma {:induction false} InsertMultiset(x: Item, s: seq<Item>)
    ensures multiset(Insert(x, s)) == multiset(s) + multiset{x}
    decreases |s|
  {
    if s != [] && Le(s[0].key, x.key) {
      InsertMultiset(x, s[1..]);
      assert s == [s[0]] + s[1..];
    }
  }

  /** Every item of `Insert(x, s)` is `x` or an item of `s`. */
  lemma {:induction false} InsertMember(x: Item, s: seq<Item>, k: nat)
    requires k < |Insert(x, s)|
    ensures Insert(x, s)[k] == x || Insert(x, s)[k] in s
  {
    InsertMultiset(x, s);
    assert Insert(x, s)[k] in multiset(Insert(x, s));
  }

  lemma {:induction false} SortedCons(a: Item, s: seq<Item>)
    requires Sorted(s)
    requires forall k :: 0 <= k < |s| ==> Le(a.key, s[k].key)
    ensures Sorted([a] + s)
  {
    var r := [a] + s;
    forall i, j | 0 <= i < j < |r|
      ensures Le(r[i].key, r[j].key)
    {
      assert r[j] == s[j - 1];
      if i > 0 {
        assert r[i] == s[i - 1];
      }
    }
  }

  lemma {:induction false} StableCons(a: Item, s: seq<Item>)
    requires Stable(s)
    requires forall k :: 0 <= k < |s| && Le(s[k].key, a.key) ==> a.index < s[k].index
    ensures Stable([a] + s)
  {
    var r := [a] + s;
    forall i, j | 0 <= i < j < |r|
      ensures Le(r[j].key, r[i].key) ==> r[i].index < r[j].index
    {
      assert r[j] == s[j - 1];
      if i > 0 {
        assert r[i] == s[i - 1];
      }
    }
  }

  lemma {:induction false} InsertSorted(x: Item, s: seq<Item>)
    requires Sorted(s)
    ensures Sorted(Insert(x, s))
    decreases |s|
  {
    if s == [] {
    } else if Le(s[0].key, x.key) {
      var rest := Insert(x, s[1..]);
      InsertSorted(x, s[1..]);
      assert Sorted(s[1..]) by {
        forall i, j | 0 <= i < j < |s[1..]|
          ensures Le(s[1..][i].key, s[1..][j].key)
        {
          assert s[1..][i] == s[i + 1] && s[1..][j] == s[j + 1];
        }
      }
      forall k | 0 <= k < |rest|
        ensures Le(s[0].key, rest[k].key)
      {
        InsertMember(x, s[1..], k);
        if rest[k] != x {
          var m :| 0 <= m < |s[1..]| && s[1..][m] == rest[k];
          assert s[m + 1] == rest[k];
        }
      }
      SortedCons(s[0], rest);
    } else {
      LeTotal(s[0].key, x.key);
      forall k | 0 <= k < |s|
        ensures Le(x.key, s[k].key)
      {
        if k > 0 {
          LeTransitive(x.key, s[0].key, s[k].key);
        }
      }
      SortedCons(x, s);
    }
  }

  lemma {:induction false} InsertStable(x: Item, s: seq<Item>)
    requires Sorted(s) && Stable(s)
    requires forall k :: 0 <= k < |s| ==> s[k].index < x.index
    ensures Stable(Insert(x, s))
    decreases |s|
  {
    if s == [] {
    } else if Le(s[0].key, x.key) {
      var tail := s[1..];
      var rest := Insert(x, tail);
      assert Sorted(tail) && Stable(tail) by {
        forall i, j | 0 <= i < j < |tail|
          ensures Le(tail[i].key, tail[j].key)
          ensures Le(tail[j].key, tail[i].key) ==> tail[i].index < tail[j].index
        {
          assert tail[i] == s[i + 1] && tail[j] == s[j + 1];
        }
      }
      assert forall k :: 0 <= k < |tail| ==> tail[k].index < x.index by {
        forall k | 0 <= k < |tail|
          ensures tail[k].index < x.index
        {
          assert tail[k] == s[k + 1];
        }
      }
      InsertStable(x, tail);
      forall k | 0 <= k < |rest| && Le(rest[k].key, s[0].key)
        ensures s[0].index < rest[k].index
      {
        InsertMember(x, tail, k);
        if rest[k] != x {
          var m :| 0 <= m < |tail| && tail[m] == rest[k];
          assert s[m + 1] == rest[k];
        }
      }
      StableCons(s[0], rest);
    } else {
      forall k | 0 <= k < |s|
        ensures !Le(s[k].key, x.key)
      {
        if k > 0 {
          LeTransitive(s[0].key, s[k].key, x.key);
        }
      }
      StableCons(x, s);
    }
  }

  lemma {:induction false} InsertTeams(x: Item, s: seq<Item>)
    ensures multiset(TeamsOf(Insert(x, s))) == multiset(TeamsOf(s)) + multiset{x.team}
    decreases |s|
  {
    if s != [] && Le(s[0].key, x.key) {
      InsertTeams(x, s[1..]);
      var rest := Insert(x, s[1..]);
      assert ([s[0]] + rest)[1..] == rest;
      assert TeamsOf(Insert(x, s)) == [s[0].team] + TeamsOf(rest);
    } else {
      assert ([x] + s)[1..] == s;
    }
  }

  lemma {:induction false} TeamsOfSnoc(s: seq<Item>, x: Item)
    ensures TeamsOf(s + [x]) == TeamsOf(s) + [x.team]
  {
    var l := TeamsOf(s + [x]);
    var r := TeamsOf(s) + [x.team];
    assert |l| == |r|;
    forall i | 0 <= i < |l|
      ensures l[i] == r[i]
    {
      if i < |s| {
        assert (s + [x])[i] == s[i];
      }
    }
  }

  /** Sorting permutes the items. */
  lemma {:induction false} SortPermutes(s: seq<Item>)
    ensures multiset(Sort(s)) == multiset(s)
    decreases |s|
  {
    if s != [] {
      var init := s[..|s| - 1];
      SortPermutes(init);
      InsertMultiset(s[|s| - 1], Sort(init));
      assert s == init + [s[|s| - 1]];
    }
  }

  /** Sorting permutes the teams. */
  lemma {:induction false} SortPermutesTeams(s: seq<Item>)
    ensures multiset(TeamsOf(Sort(s))) == multiset(TeamsOf(s))
    decreases |s|
  {
    if s != [] {
      var init := s[..|s| - 1];
      var x := s[|s| - 1];
      SortPermutesTeams(init);
      InsertTeams(x, Sort(init));
      TeamsOfInit(s);
    }
  }

  /** The teams of a list are those of all but its last item, plus the last item's team. */
  lemma {:induction false} TeamsOfInit(s: seq<Item>)
    requires s != []
    ensures multiset(TeamsOf(s)) == multiset(TeamsOf(s[..|s| - 1])) + multiset{s[|s| - 1].team}
  {
    var init, x := s[..|s| - 1], s[|s| - 1];
    assert s == init + [x];
    TeamsOfSnoc(init, x);
    assert TeamsOf(s) == TeamsOf(init) + [x.team];
  }

  /** Sorting orders the keys. */
  lemma {:induction false} SortOrders(s: seq<Item>)
    ensures Sorted(Sort(s))
    decreases |s|
  {
    if s != [] {
      SortOrders(s[..|s| - 1]);
      InsertSorted(s[|s| - 1], Sort(s[..|s| - 1]));
    }
  }

  /** Items with equal keys keep their original order when the original positions
      increase along the list. */
  lemma {:induction false} SortStable(s: seq<Item>)
    requires forall i, j :: 0 <= i < j < |s| ==> s[i].index < s[j].index
    ensures Stable(Sort(s))
    decreases |s|
  {
    if s != [] {
      var init := s[..|s| - 1];
      var x := s[|s| - 1];
      var sorted := Sort(init);
      SortStable(init);
      SortOrders(init);
      SortPermutes(init);
      forall k | 0 <= k < |sorted|
        ensures sorted[k].index < x.index
      {
        assert sorted[k] in multiset(init);
        var m :| 0 <= m < |init| && init[m] == sorted[k];
      }
      InsertStable(x, sorted);
    }
  }

  // ---------------------------------------------------------------------------
  // Sorting teams

  /** The three sort options of the table view. */
  datatype Order = ByNumber | ByName | ByScore

  /** `sortOption` as the switch reads it; anything else leaves the list as it is. */
  function OrderOf(sortOption: string): Option<Order>
  {
    if sortOption == "Team Number" then Some(ByNumber)
    else if sortOption == "Team Name" then Some(ByName)
    else if sortOption == "Overall Score" then Some(ByScore)
    else None
  }

  /** Sorting by score needs every team's overall score. */
  predicate Keyed(o: Order, ts: seq<Team>)
    reads set t | t in ts, set t | t in ts :: t.scores
  {
    o == ByScore ==> AllScorable(ts)
  }

  function KeyOf(o: Order, t: Team): Key
    reads t, t.scores
    requires o == ByScore ==> t.Scorable()
  {
    match o
    case ByNumber => NumberKey(t.teamNumber)
    case ByName => NameKey(t.teamName)
    case ByScore => ScoreKey(t.Overall())
  }

  /** Each team with its position and key. */
  function ItemsOf(o: Order, ts: seq<Team>): (r: seq<Item>)
    reads set t | t in ts, set t | t in ts :: t.scores
    requires Keyed(o, ts)
    ensures |r| == |ts|
    ensures forall i :: 0 <= i < |ts| ==> r[i] == Item(i, ts[i], KeyOf(o, ts[i]))
  {
    if ts == [] then []
    else ItemsOf(o, ts[..|ts| - 1]) + [Item(|ts| - 1, ts[|ts| - 1], KeyOf(o, ts[|ts| - 1]))]
  }

  /** The list after `teams.sort(comparator)`. */
  function SortedBy(o: Order, ts: seq<Team>): seq<Team>
    reads set t | t in ts, set t | t in ts :: t.scores
    requires Keyed(o, ts)
  {
    TeamsOf(Sort(ItemsOf(o, ts)))
  }

  /** Every sorted item is one of the items, so it carries its own team's key. */
  lemma {:induction false} SortedItems(o: Order, ts: seq<Team>, k: nat)
    requires Keyed(o, ts)
    requires k < |Sort(ItemsOf(o, ts))|
    ensures var it := Sort(ItemsOf(o, ts))[k]; it.team in ts && it.key == KeyOf(o, it.team)
  {
    var items := ItemsOf(o, ts);
    SortPermutes(items);
    assert Sort(items)[k] in multiset(items);
    var m :| 0 <= m < |items| && items[m] == Sort(items)[k];
  }

  /** The sorted list is a permutation of the list. */
  lemma {:induction false} SortedByPermutes(o: Order, ts: seq<Team>)
    requires Keyed(o, ts)
    ensures multiset(SortedBy(o, ts)) == multiset(ts)
  {
    var items := ItemsOf(o, ts);
    SortPermutesTeams(items);
    assert TeamsOf(items) == ts;
  }

  /** Teams the comparator finds equal stay in their original order. */
  lemma {:induction false} SortedByStable(o: Order, ts: seq<Team>)
    requires Keyed(o, ts)
    ensures Stable(Sort(ItemsOf(o, ts)))
  {
    SortStable(ItemsOf(o, ts));
  }

  /** The comparator's keys of the sorted list are in order. */
  lemma {:induction false} SortedByKeys(o: Order, ts: seq<Team>, i: nat, j: nat)
    requires Keyed(o, ts)
    requires i < j < |SortedBy(o, ts)|
    ensures SortedBy(o, ts)[i] in ts && SortedBy(o, ts)[j] in ts
    ensures o == ByScore ==> SortedBy(o, ts)[i].Scorable() && SortedBy(o, ts)[j].Scorable()
    ensures Le(KeyOf(o, SortedBy(o, ts)[i]), KeyOf(o, SortedBy(o, ts)[j]))
  {
    SortOrders(ItemsOf(o, ts));
    SortedItems(o, ts, i);
    SortedItems(o, ts, j);
  }

  /** Sorting by number gives ascending team numbers. */
  lemma {:induction false} SortedByNumber(ts: seq<Team>)
    ensures var r := SortedBy(ByNumber, ts);
            forall i, j :: 0 <= i < j < |r| ==> r[i].teamNumber <= r[j].teamNumber
  {
    var r := SortedBy(ByNumber, ts);
    forall i, j | 0 <= i < j < |r|
      ensures r[i].teamNumber <= r[j].teamNumber
    {
      SortedByKeys(ByNumber, ts, i, j);
    }
  }

  /** Sorting by name gives names in `compareTo` order. */
  lemma {:induction false} SortedByName(ts: seq<Team>)
    ensures var r := SortedBy(ByName, ts);
            forall i, j :: 0 <= i < j < |r| ==> LexLe(r[i].teamName, r[j].teamName)
  {
    var r := SortedBy(ByName, ts);
    forall i, j | 0 <= i < j < |r|
      ensures LexLe(r[i].teamName, r[j].teamName)
    {
      SortedByKeys(ByName, ts, i, j);
    }
  }

  /** Sorting by score gives descending overall scores. */
  lemma {:induction false} SortedByScore(ts: seq<Team>)
    requires AllScorable(ts)
    ensures AllScorable(SortedBy(ByScore, ts))
    ensures var r := SortedBy(ByScore, ts);
            forall i, j :: 0 <= i < j < |r| ==> r[i].Overall() >= r[j].Overall()
  {
    var r := SortedBy(ByScore, ts);
    forall k | 0 <= k < |r|
      ensures r[k].Scorable()
    {
      SortedItems(ByScore, ts, k);
    }
    forall i, j | 0 <= i < j < |r|
      ensures r[i].Overall() >= r[j].Overall()
    {
      SortedByKeys(ByScore, ts, i, j);
    }
  }
}
