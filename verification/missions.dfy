/** Resolving a mission from its ballots (`calcMissionVotes`). */
module Missions {
  import opened Collections
  import opened Tables

  const Succeed: string := "succeed"
  const Fail: string := "fail"
  const Succeeded: string := "succeeded"
  const Failed: string := "failed"

  /** The number of fail ballots a mission needs, read off the mission table:
      two on a starred cell, one otherwise (and one outside the table). */
  function FailsNeeded(numPlayers: int, missionNum: int): (k: nat)
    ensures k == 1 || k == 2
    ensures MinPlayers <= numPlayers <= MaxPlayers && 1 <= missionNum <= 5 ==>
              (k == 2 <==> RequiresTwoFails(numPlayers, missionNum))
  {
    match MissionRow(numPlayers)
    case Some(row) =>
      if 1 <= missionNum <= 5 && IsTwoFailCell(row[missionNum - 1]) then
        TwoFailCellsMatchRule(numPlayers, missionNum);
        2
      else
        if 1 <= missionNum <= 5 then TwoFailCellsMatchRule(numPlayers, missionNum); 1 else 1
    case None => 1
  }

  /** `calcMissionVotes(votes)` for a match of `numPlayers` on mission
      `missionNum`: count the "succeed" and "fail" ballots, skip anything else
      (missing ballots included), then fail the mission on two fails, or on one
      fail unless the two-fail rule applies. */
  method CalcMissionVotes(numPlayers: int, missionNum: int, votes: seq<string>) returns (outcome: string)
    ensures outcome == Succeeded || outcome == Failed
    ensures outcome == Failed <==>
              multiset(votes)[Fail] >= 2 || (multiset(votes)[Fail] == 1 && !RequiresTwoFails(numPlayers, missionNum))
    ensures MinPlayers <= numPlayers <= MaxPlayers && 1 <= missionNum <= 5 ==>
              (outcome == Failed <==> multiset(votes)[Fail] >= FailsNeeded(numPlayers, missionNum))
  {
    var requiresTwoFails := false;
    if numPlayers >= 7 && missionNum == 4 {
      requiresTwoFails := true;
    }
    var countSucceed := 0;
    var countFail := 0;
    var i := 0;
    while i < |votes|
      invariant 0 <= i <= |votes|
      invariant countFail == multiset(votes[..i])[Fail]
      invariant countSucceed == multiset(votes[..i])[Succeed]
    {
      assert votes[..i + 1] == votes[..i] + [votes[i]];
      if votes[i] == Succeed {
        countSucceed := countSucceed + 1;
      } else if votes[i] == Fail {
        countFail := countFail + 1;
      }
      i := i + 1;
    }
    assert votes[..i] == votes;
    if countFail == 0 {
      outcome := Succeeded;
    } else if countFail == 1 && requiresTwoFails {
      outcome := Succeeded;
    } else {
      outcome := Failed;
    }
  }

  /** The ballots the count looks at, in order. */
  function Counted(votes: seq<string>): (r: seq<string>)
    ensures forall i :: 0 <= i < |r| ==> r[i] == Succeed || r[i] == Fail
    ensures |r| <= |votes|
  {
    if votes == [] then []
    else
      var k := |votes| - 1;
      Counted(votes[..k]) + (if votes[k] == Succeed || votes[k] == Fail then [votes[k]] else [])
  }

  /** Dropping every ballot other than "succeed" and "fail" keeps both counts,
      so such ballots never change the outcome. */
  lemma {:induction false} CountedKeepsCounts(votes: seq<string>)
    ensures multiset(Counted(votes))[Fail] == multiset(votes)[Fail]
    ensures multiset(Counted(votes))[Succeed] == multiset(votes)[Succeed]
  {
    if votes != [] {
      var k := |votes| - 1;
      CountedKeepsCounts(votes[..k]);
      assert votes == votes[..k] + [votes[k]];
    }
  }

  /** With one fail ballot the mission succeeds exactly on the starred cells of
      the mission table. */
  lemma SingleFailSurvivesOnlyStarredCells(numPlayers: int, missionNum: int, votes: seq<string>)
    requires MinPlayers <= numPlayers <= MaxPlayers && 1 <= missionNum <= 5
    requires multiset(votes)[Fail] == 1
    ensures MissionRow(numPlayers).Some?
    ensures multiset(votes)[Fail] < FailsNeeded(numPlayers, missionNum)
            <==> IsTwoFailCell(MissionRow(numPlayers).value[missionNum - 1])
  {
    TwoFailCellsMatchRule(numPlayers, missionNum);
  }
}
