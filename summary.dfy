/**
 * `getSummaryByTotalScore`: the board's entries, sorted with the source's
 * comparator by a stable sort, each rendered as one line of text.
 */
module Summary {
  import opened Board
  import Numerals

  /**
   * The comparator handed to `sort`; a negative result puts a before b.
   * Different totals sort highest first. For equal totals the source returns
   * `a.createdAt - b.createdAt`, but a and b are `[key, match]` pairs, which
   * have no `createdAt`: undefined minus undefined is NaN, and `sort` reads
   * NaN as 0, "equal". So the result never depends on `createdAt`.
   */
  function Comparator(a: Entry, b: Entry): (r: int)
    ensures r < 0 <==> Total(a.game) > Total(b.game)
    ensures r == 0 <==> Total(a.game) == Total(b.game)
  {
    var aTotal := Total(a.game);
    var bTotal := Total(b.game);
    if aTotal != bTotal then bTotal - aTotal else 0
  }

  /**
   * Put e in front of the first entry that does not sort strictly before it.
   * Every entry of s came after e on the board, so ties keep board order.
   */
  function Insert(e: Entry, s: seq<Entry>): (r: seq<Entry>)
    ensures |r| == |s| + 1
  {
    if s == [] || Comparator(e, s[0]) <= 0 then [e] + s
    else [s[0]] + Insert(e, s[1..])
  }

  /**
   * `[...board.entries()].sort(Comparator)`. ECMAScript requires `sort` to be
   * stable; insertion sort is one stable sort, and SortedIsUnique shows that
   * every stable sort with this comparator gives the same sequence.
   */
  function SortByTotal(b: seq<Entry>): (r: seq<Entry>)
    ensures |r| == |b|
  {
    if b == [] then [] else Insert(b[0], SortByTotal(b[1..]))
  }

  ghost predicate TotalsNonIncreasing(s: seq<Entry>) {
    forall i, j :: 0 <= i < j < |s| ==> Total(s[i].game) >= Total(s[j].game)
  }

  /** The entries of s whose total is t, in their order in s. */
  function WithTotal(s: seq<Entry>, t: int): seq<Entry> {
    if s == [] then []
    else (if Total(s[0].game) == t then [s[0]] else []) + WithTotal(s[1..], t)
  }

  /**
   * One summary line: the home name, its score, " - ", the away name and its
   * score, a space between each name and its score.
   */
  function Render(m: Match): string {
    m.homeTeam + " " + Numerals.IntToString(m.homeTeamScore) + " - "
      + m.awayTeam + " " + Numerals.IntToString(m.awayTeamScore)
  }

  /** A numeral has no space in it. */
  lemma NumeralHasNoSpace(i: int, j: int)
    requires 0 <= j < |Numerals.IntToString(i)|
    ensures Numerals.IntToString(i)[j] != ' '
  {
    var s := Numerals.IntToString(i);
    if j > 0 && i < 0 {
      assert s[j] == s[1..][j - 1];
    }
  }

  /** Cancelling a common prefix. */
  lemma CancelPrefix(p: string, s: string, t: string)
    requires p + s == p + t
    ensures s == t
  {
    assert s == (p + s)[|p|..] && t == (p + t)[|p|..];
  }

  /**
   * A score's numeral ends where the first space after it begins, so two
   * numerals each followed by a space-led text can be told apart.
   */
  lemma {:induction false} LeadingScore(i: int, j: int, rest: string, rest': string)
    requires |rest| > 0 && |rest'| > 0 && rest[0] == ' ' && rest'[0] == ' '
    requires Numerals.IntToString(i) + rest == Numerals.IntToString(j) + rest'
    ensures i == j && rest == rest'
  {
    var x, x' := Numerals.IntToString(i), Numerals.IntToString(j);
    var w := x + rest;
    if |x| < |x'| {
      assert w[|x|] == ' ';
      assert (x' + rest')[|x|] == x'[|x|];
      NumeralHasNoSpace(j, |x|);
    } else if |x'| < |x| {
      assert (x' + rest')[|x'|] == ' ';
      assert w[|x'|] == x[|x'|];
      NumeralHasNoSpace(i, |x'|);
    }
    assert x == w[..|x|] && x' == (x' + rest')[..|x'|];
    Numerals.IntToStringInjective(i, j);
    CancelPrefix(x, rest, rest');
  }

  /** A summary line split after the home name and its space. */
  lemma RenderSplit(m: Match)
    ensures Render(m) == (m.homeTeam + " ") + (Numerals.IntToString(m.homeTeamScore)
                           + ((" - " + m.awayTeam + " ") + Numerals.IntToString(m.awayTeamScore)))
  {
  }

  /** Two lines for the same pair of names are equal only if their scores are. */
  lemma {:induction false} RenderScoresInjective(m: Match, n: Match)
    requires m.homeTeam == n.homeTeam && m.awayTeam == n.awayTeam
    requires Render(m) == Render(n)
    ensures m.homeTeamScore == n.homeTeamScore && m.awayTeamScore == n.awayTeamScore
  {
    var lead, middle := m.homeTeam + " ", " - " + m.awayTeam + " ";
    var y, y' := Numerals.IntToString(m.awayTeamScore), Numerals.IntToString(n.awayTeamScore);
    var rest, rest' := middle + y, middle + y';
    RenderSplit(m);
    RenderSplit(n);
    CancelPrefix(lead, Numerals.IntToString(m.homeTeamScore) + rest,
                 Numerals.IntToString(n.homeTeamScore) + rest');
    assert rest[0] == ' ' && rest'[0] == ' ';
    LeadingScore(m.homeTeamScore, n.homeTeamScore, rest, rest');
    CancelPrefix(middle, y, y');
    Numerals.IntToStringInjective(m.awayTeamScore, n.awayTeamScore);
  }

  /** `.map(...)` over the entries: the line of each, in order. */
  function RenderAll(s: seq<Entry>): (r: seq<string>)
    ensures |r| == |s|
    ensures forall i :: 0 <= i < |s| ==> r[i] == Render(s[i].game)
  {
    if s == [] then [] else [Render(s[0].game)] + RenderAll(s[1..])
  }

  /** `getSummaryByTotalScore`: one line per entry, the lines of all entries. */
  function GetSummaryByTotalScore(b: seq<Entry>): (r: seq<string>)
    ensures |r| == |b|
    ensures multiset(r) == multiset(RenderAll(b))
  {
    SummaryPermutes(b);
    RenderAll(SortByTotal(b))
  }

  lemma {:induction false} InsertPermutes(e: Entry, s: seq<Entry>)
    ensures multiset(Insert(e, s)) == multiset{e} + multiset(s)
  {
    if s != [] && Comparator(e, s[0]) > 0 {
      InsertPermutes(e, s[1..]);
      assert s == [s[0]] + s[1..];
    }
  }

  lemma {:induction false} InsertKeepsOrder(e: Entry, s: seq<Entry>)
    requires TotalsNonIncreasing(s)
    ensures TotalsNonIncreasing(Insert(e, s))
  {
    if s != [] && Comparator(e, s[0]) > 0 {
      InsertKeepsOrder(e, s[1..]);
      InsertPermutes(e, s[1..]);
      var r := Insert(e, s);
      forall j | 1 <= j < |r| ensures Total(r[0].game) >= Total(r[j].game) {
        assert r[j] in multiset(Insert(e, s[1..]));
        assert r[j] == e || r[j] in multiset(s[1..]);
      }
    }
  }

  lemma {:induction false} InsertWithTotal(e: Entry, s: seq<Entry>, t: int)
    ensures WithTotal(Insert(e, s), t) == WithTotal([e] + s, t)
  {
    assert ([e] + s)[1..] == s;
    if s != [] && Comparator(e, s[0]) > 0 {
      InsertWithTotal(e, s[1..], t);
      assert ([e] + s[1..])[1..] == s[1..];
      assert ([s[0]] + Insert(e, s[1..]))[1..] == Insert(e, s[1..]);
    }
  }

  /** The sorted board holds exactly the board's entries. */
  lemma {:induction false} SortPermutes(b: seq<Entry>)
    ensures multiset(SortByTotal(b)) == multiset(b)
  {
    if b != [] {
      SortPermutes(b[1..]);
      InsertPermutes(b[0], SortByTotal(b[1..]));
      assert b == [b[0]] + b[1..];
    }
  }

  /** Along the sorted board, totals never increase. */
  lemma {:induction false} SortOrdersByTotal(b: seq<Entry>)
    ensures TotalsNonIncreasing(SortByTotal(b))
  {
    if b != [] {
      SortOrdersByTotal(b[1..]);
      InsertKeepsOrder(b[0], SortByTotal(b[1..]));
    }
  }

  /** Entries with equal totals stay in board (insertion) order. */
  lemma {:induction false} SortIsStable(b: seq<Entry>, t: int)
    ensures WithTotal(SortByTotal(b), t) == WithTotal(b, t)
  {
    if b != [] {
      SortIsStable(b[1..], t);
      InsertWithTotal(b[0], SortByTotal(b[1..]), t);
      assert ([b[0]] + SortByTotal(b[1..]))[1..] == SortByTotal(b[1..]);
    }
  }

  lemma {:induction false} WithTotalMembers(s: seq<Entry>, t: int, x: Entry)
    requires x in WithTotal(s, t)
    ensures x in s && Total(x.game) == t
  {
    if s != [] {
      if x !in (if Total(s[0].game) == t then [s[0]] else []) {
        WithTotalMembers(s[1..], t, x);
      }
    }
  }

  lemma {:induction false} WithTotalFinds(s: seq<Entry>, i: int)
    requires 0 <= i < |s|
    ensures s[i] in WithTotal(s, Total(s[i].game))
  {
    if i > 0 {
      WithTotalFinds(s[1..], i - 1);
    }
  }

  /** Dropping the first entry drops it from the entries of its own total only. */
  lemma {:induction false} WithTotalTail(s: seq<Entry>, t: int)
    requires s != []
    ensures Total(s[0].game) == t ==> WithTotal(s, t) == [s[0]] + WithTotal(s[1..], t)
    ensures Total(s[0].game) != t ==> WithTotal(s, t) == WithTotal(s[1..], t)
  {
    assert [] + WithTotal(s[1..], t) == WithTotal(s[1..], t);
  }

  /** Sequences ordered by total with the same entries per total start with the same total. */
  lemma {:induction false} SameLeadingTotal(s: seq<Entry>, u: seq<Entry>)
    requires s != [] && u != []
    requires TotalsNonIncreasing(s) && TotalsNonIncreasing(u)
    requires WithTotal(s, Total(s[0].game)) == WithTotal(u, Total(s[0].game))
    requires WithTotal(s, Total(u[0].game)) == WithTotal(u, Total(u[0].game))
    ensures Total(s[0].game) == Total(u[0].game)
  {
    WithTotalFinds(s, 0);
    WithTotalMembers(u, Total(s[0].game), s[0]);
    WithTotalFinds(u, 0);
    WithTotalMembers(s, Total(u[0].game), u[0]);
  }

  /**
   * Two sequences ordered by total that agree on the entries of every total,
   * in order, are equal: ordering and stability pin down the sort's result.
   */
  lemma {:induction false} SortedIsUnique(s: seq<Entry>, u: seq<Entry>)
    requires TotalsNonIncreasing(s) && TotalsNonIncreasing(u)
    requires forall t :: WithTotal(s, t) == WithTotal(u, t)
    ensures s == u
  {
    if s == [] {
      if u != [] {
        WithTotalFinds(u, 0);
      }
    } else if u == [] {
      WithTotalFinds(s, 0);
    } else {
      var ts, tu := Total(s[0].game), Total(u[0].game);
      SameLeadingTotal(s, u);
      WithTotalTail(s, ts);
      WithTotalTail(u, ts);
      assert s[0] == u[0] by {
        assert WithTotal(s, ts)[0] == s[0];
        assert WithTotal(u, ts)[0] == u[0];
      }
      forall t ensures WithTotal(s[1..], t) == WithTotal(u[1..], t) {
        WithTotalTail(s, t);
        WithTotalTail(u, t);
        if t == ts {
          assert WithTotal(s[1..], t) == WithTotal(s, t)[1..];
          assert WithTotal(u[1..], t) == WithTotal(u, t)[1..];
        }
      }
      SortedIsUnique(s[1..], u[1..]);
      assert s == [s[0]] + s[1..] && u == [u[0]] + u[1..];
    }
  }

  /** Any stable sort of the board by the comparator is SortByTotal's result. */
  lemma StableSortIsSortByTotal(b: seq<Entry>, s: seq<Entry>)
    requires TotalsNonIncreasing(s)
    requires forall t :: WithTotal(s, t) == WithTotal(b, t)
    ensures s == SortByTotal(b)
  {
    SortOrdersByTotal(b);
    forall t ensures WithTotal(s, t) == WithTotal(SortByTotal(b), t) {
      SortIsStable(b, t);
    }
    SortedIsUnique(s, SortByTotal(b));
  }

  lemma {:induction false} RenderInsert(e: Entry, s: seq<Entry>)
    ensures multiset(RenderAll(Insert(e, s))) == multiset{Render(e.game)} + multiset(RenderAll(s))
  {
    if s != [] && Comparator(e, s[0]) > 0 {
      var head, rest := s[0], s[1..];
      var inserted := Insert(e, rest);
      RenderInsert(e, rest);
      assert ([head] + inserted)[1..] == inserted;
      assert RenderAll(Insert(e, s)) == [Render(head.game)] + RenderAll(inserted);
      assert RenderAll(s) == [Render(head.game)] + RenderAll(rest);
    } else {
      assert ([e] + s)[1..] == s;
    }
  }

  lemma {:induction false} SummaryPermutes(b: seq<Entry>)
    ensures multiset(RenderAll(SortByTotal(b))) == multiset(RenderAll(b))
  {
    if b != [] {
      SummaryPermutes(b[1..]);
      RenderInsert(b[0], SortByTotal(b[1..]));
    }
  }

  /**
   * The summary, line by line, is the rendering of a permutation of the board
   * ordered by total, highest first, ties in board order.
   */
  lemma SummarySpec(b: seq<Entry>)
    ensures exists s ::
      && multiset(s) == multiset(b)
      && TotalsNonIncreasing(s)
      && (forall t :: WithTotal(s, t) == WithTotal(b, t))
      && GetSummaryByTotalScore(b) == RenderAll(s)
  {
    var s := SortByTotal(b);
    SortPermutes(b);
    SortOrdersByTotal(b);
    forall t ensures WithTotal(s, t) == WithTotal(b, t) {
      SortIsStable(b, t);
    }
  }

  /**
   * The board of the test suite's ordering scenario (totals 3, 3, 10, in
   * start order) and its summary, for any clock readings.
   */
  lemma {:induction false} TestBoardSummary(t1: int, t2: int, t3: int)
    ensures GetSummaryByTotalScore([
              Entry("Mexico - Canada", Match("Mexico", "Canada", 1, 2, t1)),
              Entry("Spain - Brazil", Match("Spain", "Brazil", 2, 1, t2)),
              Entry("Germany - France", Match("Germany", "France", 5, 5, t3))])
         == ["Germany 5 - France 5", "Mexico 1 - Canada 2", "Spain 2 - Brazil 1"]
  {
    var mexico := Entry("Mexico - Canada", Match("Mexico", "Canada", 1, 2, t1));
    var spain := Entry("Spain - Brazil", Match("Spain", "Brazil", 2, 1, t2));
    var germany := Entry("Germany - France", Match("Germany", "France", 5, 5, t3));
    var b := [mexico, spain, germany];
    assert Render(germany.game) == "Germany 5 - France 5" by {
      assert Numerals.IntToString(5) == "5";
    }
    assert Render(mexico.game) == "Mexico 1 - Canada 2" by {
      assert Numerals.IntToString(1) == "1" && Numerals.IntToString(2) == "2";
    }
    assert Render(spain.game) == "Spain 2 - Brazil 1" by {
      assert Numerals.IntToString(1) == "1" && Numerals.IntToString(2) == "2";
    }
    TestBoardOrder(mexico, spain, germany);
  }

  /** Sorting three entries with totals 3, 3, 10. */
  lemma {:induction false} TestBoardOrder(mexico: Entry, spain: Entry, germany: Entry)
    requires Total(mexico.game) == Total(spain.game) < Total(germany.game)
    ensures SortByTotal([mexico, spain, germany]) == [germany, mexico, spain]
  {
    assert [mexico, spain, germany][1..] == [spain, germany];
    assert [spain, germany][1..] == [germany] && [germany][1..] == [];
    assert SortByTotal([germany]) == [germany];
    assert Insert(spain, [germany]) == [germany] + Insert(spain, []) == [germany, spain];
    assert Insert(mexico, [spain]) == [mexico, spain];
    assert Insert(mexico, [germany, spain]) == [germany] + Insert(mexico, [spain]);
  }

  /** Two entries with equal totals are summarised in board order. */
  lemma {:induction false} TieSummary(first: Entry, second: Entry)
    requires Total(first.game) == Total(second.game)
    ensures GetSummaryByTotalScore([first, second]) == [Render(first.game), Render(second.game)]
  {
    assert [first, second][1..] == [second] && [second][1..] == [];
    assert SortByTotal([first, second]) == Insert(first, [second]) == [first, second];
  }

  /** The board after a re-start (see RestartScenario) and its summary. */
  lemma {:induction false} RestartBoardSummary(t2: int, t3: int)
    ensures GetSummaryByTotalScore([
              Entry("Mexico - Canada", Match("Mexico", "Canada", 0, 0, t3)),
              Entry("Spain - Brazil", Match("Spain", "Brazil", 0, 0, t2))])
         == ["Mexico 0 - Canada 0", "Spain 0 - Brazil 0"]
  {
    var mexico := Entry("Mexico - Canada", Match("Mexico", "Canada", 0, 0, t3));
    var spain := Entry("Spain - Brazil", Match("Spain", "Brazil", 0, 0, t2));
    assert Render(mexico.game) == "Mexico 0 - Canada 0" by {
      assert Numerals.IntToString(0) == "0";
    }
    assert Render(spain.game) == "Spain 0 - Brazil 0" by {
      assert Numerals.IntToString(0) == "0";
    }
    TieSummary(mexico, spain);
  }
}
