/**
 * The `ScoreBoard` object: live matches in `board`, three operations that
 * change it in place and two that only read it.
 */
module ScoreBoards {
  import opened Wrappers
  import opened Board
  import opened Summary

  /** The messages the source throws. */
  datatype Error = InvalidTeams | MatchNotFound | InvalidScore

  /** A call that changes the board either returns normally or throws. */
  datatype Outcome = Done | Fail(error: Error)

  datatype Result<T> = Ok(value: T) | Err(error: Error)

  /** What `getScore` returns. */
  datatype Score = Score(homeTeamScore: int, awayTeamScore: int)

  /**
   * The `score` argument of `updateScore`; a side is None when its
   * `typeof` is not 'number' (missing, for one).
   */
  datatype ScoreUpdate = ScoreUpdate(home: Option<int>, away: Option<int>)

  /**
   * `getScore`: both scores of the match filed under the pair's key, or
   * "match not found". The names themselves are not checked.
   */
  function GetScore(b: seq<Entry>, homeTeam: string, awayTeam: string): (r: Result<Score>)
    ensures r.Ok? <==> HasKey(b, MatchKey(homeTeam, awayTeam))
    ensures r.Err? ==> r.error == MatchNotFound
    ensures r.Ok? ==> exists i :: 0 <= i < |b| && b[i].key == MatchKey(homeTeam, awayTeam) &&
                                  r.value == Score(b[i].game.homeTeamScore, b[i].game.awayTeamScore)
  {
    match Get(b, MatchKey(homeTeam, awayTeam))
    case None => Err(MatchNotFound)
    case Some(game) => Ok(Score(game.homeTeamScore, game.awayTeamScore))
  }

  class ScoreBoard {
    var board: seq<Entry>

    ghost predicate Valid()
      reads this
    {
      WellFormed(board)
    }

    constructor ()
      ensures Valid() && board == []
    {
      board := [];
    }

    /**
     * `startGame`: with both names present, file a 0-0 match under their key,
     * replacing (in place) any match already there; `now` is the clock reading.
     */
    method StartGame(homeTeam: string, awayTeam: string, now: int) returns (r: Outcome)
      requires Valid()
      modifies this
      ensures Valid()
      ensures r == if homeTeam == "" || awayTeam == "" then Fail(InvalidTeams) else Done
      ensures r.Fail? ==> board == old(board)
      ensures r.Done? ==>
        board == Set(old(board), MatchKey(homeTeam, awayTeam), Match(homeTeam, awayTeam, 0, 0, now))
      ensures r.Done? ==> GetScore(board, homeTeam, awayTeam) == Ok(Score(0, 0))
      ensures r.Done? ==>
        |board| == if HasKey(old(board), MatchKey(homeTeam, awayTeam)) then |old(board)| else |old(board)| + 1
      ensures forall i :: 0 <= i < |old(board)| ==> board[i].key == old(board)[i].key
      ensures forall k :: k != MatchKey(homeTeam, awayTeam) ==> Get(board, k) == Get(old(board), k)
    {
      if homeTeam == "" || awayTeam == "" {
        return Fail(InvalidTeams);
      }
      var key := MatchKey(homeTeam, awayTeam);
      var game := Match(homeTeam, awayTeam, 0, 0, now);
      SetPreservesWellFormed(board, key, game);
      forall k | k != key ensures Get(Set(board, key, game), k) == Get(board, k) {
        SetGetOther(board, key, game, k);
      }
      board := Set(board, key, game);
      r := Done;
    }

    /**
     * `finishGame`: with both names present, remove the match filed under
     * their key, or throw "match not found".
     */
    method FinishGame(homeTeam: string, awayTeam: string) returns (r: Outcome)
      requires Valid()
      modifies this
      ensures Valid()
      ensures r == if homeTeam == "" || awayTeam == "" then Fail(InvalidTeams)
                   else if !HasKey(old(board), MatchKey(homeTeam, awayTeam)) then Fail(MatchNotFound)
                   else Done
      ensures r.Fail? ==> board == old(board)
      ensures r.Done? ==> board == Without(old(board), MatchKey(homeTeam, awayTeam))
      ensures r.Done? ==> |board| == |old(board)| - 1
      ensures r.Done? ==> GetScore(board, homeTeam, awayTeam) == Err(MatchNotFound)
      ensures forall k :: k != MatchKey(homeTeam, awayTeam) ==> Get(board, k) == Get(old(board), k)
    {
      if homeTeam == "" || awayTeam == "" {
        return Fail(InvalidTeams);
      }
      var key := MatchKey(homeTeam, awayTeam);
      if Get(board, key).None? {
        return Fail(MatchNotFound);
      }
      DeleteIsWithout(board, key);
      DeletePreservesWellFormed(board, key);
      forall k | k != key ensures Get(Delete(board, key), k) == Get(board, k) {
        DeleteGetOther(board, key, k);
      }
      board := Delete(board, key);
      r := Done;
    }

    /**
     * `updateScore`: replace both scores of the match filed under the pair's
     * key, keeping its names, `createdAt` and position. A missing match is
     * reported before a bad score.
     */
    method UpdateScore(homeTeam: string, awayTeam: string, score: ScoreUpdate) returns (r: Outcome)
      requires Valid()
      modifies this
      ensures Valid()
      ensures r == if !HasKey(old(board), MatchKey(homeTeam, awayTeam)) then Fail(MatchNotFound)
                   else if score.home.None? || score.away.None? then Fail(InvalidScore)
                   else Done
      ensures r.Fail? ==> board == old(board)
      ensures r.Done? ==>
        var key := MatchKey(homeTeam, awayTeam);
        var game := Get(old(board), key).value;
        board == Set(old(board), key,
                     game.(homeTeamScore := score.home.value, awayTeamScore := score.away.value))
      ensures r.Done? ==>
        GetScore(board, homeTeam, awayTeam) == Ok(Score(score.home.value, score.away.value))
      ensures r.Done? ==>
        var key := MatchKey(homeTeam, awayTeam);
        var was, updated := Get(old(board), key).value, Get(board, key).value;
        updated.homeTeam == was.homeTeam && updated.awayTeam == was.awayTeam
          && updated.createdAt == was.createdAt
      ensures |board| == |old(board)|
      ensures forall i :: 0 <= i < |board| ==> board[i].key == old(board)[i].key
      ensures forall k :: k != MatchKey(homeTeam, awayTeam) ==> Get(board, k) == Get(old(board), k)
    {
      var key := MatchKey(homeTeam, awayTeam);
      var found := Get(board, key);
      if found.None? {
        return Fail(MatchNotFound);
      }
      if score.home.None? || score.away.None? {
        return Fail(InvalidScore);
      }
      var game := found.value.(homeTeamScore := score.home.value, awayTeamScore := score.away.value);
      SetPreservesWellFormed(board, key, game);
      forall k | k != key ensures Get(Set(board, key, game), k) == Get(board, k) {
        SetGetOther(board, key, game, k);
      }
      board := Set(board, key, game);
      r := Done;
    }
  }

  /**
   * Starting a pair that is not on the board and then scoring it appends one
   * entry, with those scores, behind all the others.
   */
  method StartAndUpdate(scoreBoard: ScoreBoard, homeTeam: string, awayTeam: string, now: int,
                        home: int, away: int)
    requires scoreBoard.Valid() && homeTeam != "" && awayTeam != ""
    requires !HasKey(scoreBoard.board, MatchKey(homeTeam, awayTeam))
    modifies scoreBoard
    ensures scoreBoard.Valid()
    ensures scoreBoard.board == old(scoreBoard.board)
      + [Entry(MatchKey(homeTeam, awayTeam), Match(homeTeam, awayTeam, home, away, now))]
  {
    ghost var b := scoreBoard.board;
    var key := MatchKey(homeTeam, awayTeam);
    var r := scoreBoard.StartGame(homeTeam, awayTeam, now);
    assert scoreBoard.board == b + [Entry(key, Match(homeTeam, awayTeam, 0, 0, now))];
    r := scoreBoard.UpdateScore(homeTeam, awayTeam, ScoreUpdate(Some(home), Some(away)));
    var e := Entry(key, Match(homeTeam, awayTeam, home, away, now));
    GetAt(scoreBoard.board, |b|);
    assert scoreBoard.board[|b|] == e;
  }

  /**
   * The ordering scenario of the test suite, carried out with the methods: the
   * 10-goal match leads, and the two 3-goal matches keep the order in which
   * they were started, whatever the clock read.
   */
  method SummaryScenario(t1: int, t2: int, t3: int) returns (summary: seq<string>)
    ensures summary == ["Germany 5 - France 5", "Mexico 1 - Canada 2", "Spain 2 - Brazil 1"]
  {
    assert MatchKey("Mexico", "Canada") == "Mexico - Canada";
    assert MatchKey("Spain", "Brazil") == "Spain - Brazil";
    assert MatchKey("Germany", "France") == "Germany - France";
    var mexico := Entry("Mexico - Canada", Match("Mexico", "Canada", 1, 2, t1));
    var spain := Entry("Spain - Brazil", Match("Spain", "Brazil", 2, 1, t2));
    var germany := Entry("Germany - France", Match("Germany", "France", 5, 5, t3));
    var scoreBoard := new ScoreBoard();
    StartAndUpdate(scoreBoard, "Mexico", "Canada", t1, 1, 2);
    assert scoreBoard.board == [mexico];
    assert !HasKey([mexico], "Spain - Brazil") by {
      assert |mexico.key| != |"Spain - Brazil"|;
    }
    StartAndUpdate(scoreBoard, "Spain", "Brazil", t2, 2, 1);
    assert scoreBoard.board == [mexico, spain];
    assert !HasKey([mexico, spain], "Germany - France") by {
      assert |mexico.key| != |"Germany - France"| && |spain.key| != |"Germany - France"|;
    }
    StartAndUpdate(scoreBoard, "Germany", "France", t3, 5, 5);
    assert scoreBoard.board == [mexico, spain, germany];
    summary := GetSummaryByTotalScore(scoreBoard.board);
    TestBoardSummary(t1, t2, t3);
  }

  /**
   * The error cases of the test suite, on a board holding Mexico - Canada:
   * a missing name, a pair that was never started (also when its score is
   * bad: the match is looked up first), a missing score. None of them
   * changes the board.
   */
  method ErrorScenario(now: int) returns (outcomes: seq<Outcome>, board: seq<Entry>)
    ensures outcomes == [Fail(InvalidTeams), Fail(MatchNotFound), Fail(InvalidTeams),
                         Fail(MatchNotFound), Fail(MatchNotFound), Fail(InvalidScore)]
    ensures board == [Entry("Mexico - Canada", Match("Mexico", "Canada", 0, 0, now))]
  {
    assert MatchKey("Mexico", "Canada") == "Mexico - Canada";
    var scoreBoard := new ScoreBoard();
    var r := scoreBoard.StartGame("Mexico", "Canada", now);
    var entry := Entry("Mexico - Canada", Match("Mexico", "Canada", 0, 0, now));
    assert scoreBoard.board == [entry];
    var r1 := scoreBoard.StartGame("Mexico", "", now);
    assert r1 == Fail(InvalidTeams) && scoreBoard.board == [entry];
    assert !HasKey([entry], MatchKey("Spain", "Brazil")) by {
      assert |MatchKey("Spain", "Brazil")| != |entry.key|;
    }
    var r2 := scoreBoard.FinishGame("Spain", "Brazil");
    assert r2 == Fail(MatchNotFound) && scoreBoard.board == [entry];
    var r3 := scoreBoard.FinishGame("Mexico", "");
    assert r3 == Fail(InvalidTeams) && scoreBoard.board == [entry];
    assert !HasKey([entry], MatchKey("Germany", "France")) by {
      assert |MatchKey("Germany", "France")| != |entry.key|;
    }
    var r4 := scoreBoard.UpdateScore("Germany", "France", ScoreUpdate(Some(1), Some(2)));
    assert r4 == Fail(MatchNotFound) && scoreBoard.board == [entry];
    var r5 := scoreBoard.UpdateScore("Germany", "France", ScoreUpdate(Some(1), None));
    assert r5 == Fail(MatchNotFound) && scoreBoard.board == [entry];
    assert HasKey([entry], MatchKey("Mexico", "Canada"));
    var r6 := scoreBoard.UpdateScore("Mexico", "Canada", ScoreUpdate(Some(1), None));
    outcomes := [r1, r2, r3, r4, r5, r6];
    board := scoreBoard.board;
  }

  /**
   * Re-starting a pair resets it to 0-0 where it stands. With all totals
   * equal, the summary keeps that board position although the re-started
   * match now has the latest `createdAt`: the comparator's `createdAt`
   * tie-break never takes effect.
   */
  method RestartScenario(t1: int, t2: int, t3: int) returns (summary: seq<string>, board: seq<Entry>)
    requires t1 < t2 < t3
    ensures summary == ["Mexico 0 - Canada 0", "Spain 0 - Brazil 0"]
    ensures |board| == 2 && board[0].game.createdAt == t3 && board[1].game.createdAt == t2
    ensures board[0].game.createdAt > board[1].game.createdAt
  {
    assert MatchKey("Mexico", "Canada") == "Mexico - Canada";
    assert MatchKey("Spain", "Brazil") == "Spain - Brazil";
    var mexico := Entry("Mexico - Canada", Match("Mexico", "Canada", 0, 0, t3));
    var spain := Entry("Spain - Brazil", Match("Spain", "Brazil", 0, 0, t2));
    var scored := Entry("Mexico - Canada", Match("Mexico", "Canada", 3, 0, t1));
    var scoreBoard := new ScoreBoard();
    StartAndUpdate(scoreBoard, "Mexico", "Canada", t1, 3, 0);
    assert scoreBoard.board == [scored];
    assert !HasKey([scored], "Spain - Brazil") by {
      assert |scored.key| != |"Spain - Brazil"|;
    }
    StartAndUpdate(scoreBoard, "Spain", "Brazil", t2, 0, 0);
    assert scoreBoard.board == [scored, spain];
    assert Set([scored, spain], "Mexico - Canada", mexico.game) == [mexico, spain] by {
      assert IndexOf([scored, spain], "Mexico - Canada") == Some(0);
    }
    ghost var before := scoreBoard.board;
    var r := scoreBoard.StartGame("Mexico", "Canada", t3);
    assert scoreBoard.board == Set(before, "Mexico - Canada", mexico.game);
    assert scoreBoard.board == [mexico, spain];
    summary := GetSummaryByTotalScore(scoreBoard.board);
    board := scoreBoard.board;
    RestartBoardSummary(t2, t3);
  }

  /**
   * Keys are plain concatenations, so two different pairs can share one:
   * after ("Guinea - Bissau", "Chad") starts, `getScore` for the pair
   * ("Guinea", "Bissau - Chad"), never started, finds it.
   */
  lemma KeyCollision(b: seq<Entry>, now: int)
    ensures MatchKey("Guinea - Bissau", "Chad") == MatchKey("Guinea", "Bissau - Chad")
    ensures GetScore(Set(b, MatchKey("Guinea - Bissau", "Chad"), Match("Guinea - Bissau", "Chad", 0, 0, now)),
                     "Guinea", "Bissau - Chad")
         == Ok(Score(0, 0))
  {
    assert MatchKey("Guinea - Bissau", "Chad") == MatchKey("Guinea", "Bissau - Chad");
  }
}
