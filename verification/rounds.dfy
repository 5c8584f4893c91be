/** The vote-history calls as a match makes them: the players are the seats
    in order, the mission index is `missionNum - 1` and the pick index
    `pickNum - 1`. A player without a history entry makes the source throw a
    TypeError, reported here as `None`. */
module Rounds {
  import opened Collections
  import opened Ledger
  import opened Match
  import opened Options
  import opened Setup
  import opened Dispatch

  /** The usernames of the seats, the keys the ledger is read through. */
  function Users(g: Game): (us: seq<string>)
    ensures |us| == |g.players|
  {
    Usernames(SeatsOf(g.players))
  }

  /** `VHCheckUndefined()`: every player gets the current cell, and only the
      ledger changes. */
  function VHCheckUndefined(g: Game): (r: Option<Game>)
    ensures r.None? <==> !HasUsers(g.voteHistory, Users(g))
    ensures r.Some? ==> r.value.(voteHistory := g.voteHistory) == g
    ensures r.Some? ==> AppendOnly(g.voteHistory, r.value.voteHistory)
    ensures r.Some? ==> forall i :: 0 <= i < |g.players| ==>
              CellAt(r.value.voteHistory, Users(g)[i], g.missionNum - 1, g.pickNum - 1).Some?
  {
    if !HasUsers(g.voteHistory, Users(g)) then None
    else
      CheckUndefinedCreatesCells(g.voteHistory, Users(g), g.missionNum - 1, g.pickNum - 1);
      Some(g.(voteHistory := CheckUndefined(g.voteHistory, Users(g), g.missionNum - 1, g.pickNum - 1)))
  }

  /** `VHUpdateTeamPick()`: the current cells record the proposed team and
      the leader seat; only the ledger changes, and only by appending. */
  function VHUpdateTeamPick(g: Game): (r: Option<Game>)
    ensures r.None? <==> !HasUsers(g.voteHistory, Users(g))
    ensures r.Some? ==> r.value.(voteHistory := g.voteHistory) == g
    ensures r.Some? ==> AppendOnly(g.voteHistory, r.value.voteHistory)
    ensures r.Some? ==> forall i :: 0 <= i < |g.players| ==>
              CellAt(r.value.voteHistory, Users(g)[i], g.missionNum - 1, g.pickNum - 1) ==
              Some(Prior(g.voteHistory, Users(g)[i], g.missionNum - 1, g.pickNum - 1)
                   + TagsFor(Users(g), PickTags(Users(g), g.proposedTeam, g.teamLeader), Users(g)[i]))
    ensures r.Some? && Distinct(Users(g)) ==> forall i :: 0 <= i < |g.players| ==>
              CellAt(r.value.voteHistory, Users(g)[i], g.missionNum - 1, g.pickNum - 1) ==
              Some(Prior(g.voteHistory, Users(g)[i], g.missionNum - 1, g.pickNum - 1)
                   + PickTags(Users(g), g.proposedTeam, g.teamLeader)[i])
  {
    if !HasUsers(g.voteHistory, Users(g)) then None
    else
      Some(g.(voteHistory := UpdateTeamPick(g.voteHistory, Users(g), g.proposedTeam, g.teamLeader,
                                            g.missionNum - 1, g.pickNum - 1)))
  }

  /** `VHUpdateTeamVotes()`: the current cells record each seat's ballot. */
  function VHUpdateTeamVotes(g: Game): (r: Option<Game>)
    ensures r.None? <==> !HasUsers(g.voteHistory, Users(g))
    ensures r.Some? ==> r.value.(voteHistory := g.voteHistory) == g
    ensures r.Some? ==> AppendOnly(g.voteHistory, r.value.voteHistory)
    ensures r.Some? ==> forall i :: 0 <= i < |g.players| ==>
              CellAt(r.value.voteHistory, Users(g)[i], g.missionNum - 1, g.pickNum - 1) ==
              Some(Prior(g.voteHistory, Users(g)[i], g.missionNum - 1, g.pickNum - 1)
                   + TagsFor(Users(g), VoteTags(g.votes, |g.players|), Users(g)[i]))
    ensures r.Some? && Distinct(Users(g)) ==> forall i :: 0 <= i < |g.players| ==>
              CellAt(r.value.voteHistory, Users(g)[i], g.missionNum - 1, g.pickNum - 1) ==
              Some(Prior(g.voteHistory, Users(g)[i], g.missionNum - 1, g.pickNum - 1) + "VH" + VoteText(g.votes, i))
  {
    if !HasUsers(g.voteHistory, Users(g)) then None
    else
      Some(g.(voteHistory := UpdateTeamVotes(g.voteHistory, Users(g), g.votes, g.missionNum - 1, g.pickNum - 1)))
  }

  /** In a match `startGame` opened, every player has a history entry with
      no cells yet. */
  lemma OpeningHistory(g: Game, sel: Selection)
    requires |g.players| > 0 && Opening(g, sel)
    ensures HasUsers(g.voteHistory, Users(g))
    ensures forall i :: 0 <= i < |g.players| ==> CellAt(g.voteHistory, Users(g)[i], 0, 0).None?
  {
    var us := Users(g);
    forall i | 0 <= i < |us|
      ensures us[i] in g.voteHistory && g.voteHistory[us[i]] == map[]
    {
      assert us[i] in g.usernames;
    }
  }

  /** So the calls do not throw, and the first check gives every player an
      empty cell for the first pick of the first mission. */
  lemma OpeningLedger(g: Game, sel: Selection)
    requires |g.players| > 0 && Opening(g, sel)
    ensures VHCheckUndefined(g).Some?
    ensures forall i :: 0 <= i < |g.players| ==> CellAt(VHCheckUndefined(g).value.voteHistory, Users(g)[i], 0, 0) == Some("")
  {
    OpeningHistory(g, sel);
    var us := Users(g);
    forall i | 0 <= i < |us|
      ensures CellAt(CheckUndefined(g.voteHistory, us, 0, 0), us[i], 0, 0) == Some("")
    {
      CheckUndefinedAt(g.voteHistory, us, 0, 0, us[i], 0, 0);
    }
  }

  /** In a match `startGame` opened, the first proposal writes exactly each
      player's pick tags into the first cell: the tags of all the seats the
      username holds, which are that seat's own tags when usernames differ. */
  lemma FirstPickCells(g: Game, sel: Selection)
    requires |g.players| > 0 && Opening(g, sel)
    ensures VHUpdateTeamPick(g).Some?
    ensures forall i :: 0 <= i < |g.players| ==>
              CellAt(VHUpdateTeamPick(g).value.voteHistory, Users(g)[i], 0, 0) ==
              Some(TagsFor(Users(g), PickTags(Users(g), g.proposedTeam, g.teamLeader), Users(g)[i]))
    ensures Distinct(Users(g)) ==> forall i :: 0 <= i < |g.players| ==>
              CellAt(VHUpdateTeamPick(g).value.voteHistory, Users(g)[i], 0, 0) ==
              Some(PickTags(Users(g), g.proposedTeam, g.teamLeader)[i])
  {
    FirstPickCell(g, sel, 0);
    var us, tags := Users(g), PickTags(Users(g), g.proposedTeam, g.teamLeader);
    var r := VHUpdateTeamPick(g).value.voteHistory;
    forall i | 0 <= i < |us|
      ensures CellAt(r, us[i], 0, 0) == Some(TagsFor(us, tags, us[i]))
      ensures Distinct(us) ==> CellAt(r, us[i], 0, 0) == Some(tags[i])
    {
      FirstPickCell(g, sel, i);
    }
  }

  /** The first cell of seat i's username after the first proposal. */
  lemma FirstPickCell(g: Game, sel: Selection, i: nat)
    requires |g.players| > 0 && Opening(g, sel) && i < |g.players|
    ensures VHUpdateTeamPick(g).Some?
    ensures CellAt(VHUpdateTeamPick(g).value.voteHistory, Users(g)[i], 0, 0) ==
            Some(TagsFor(Users(g), PickTags(Users(g), g.proposedTeam, g.teamLeader), Users(g)[i]))
    ensures Distinct(Users(g)) ==>
              CellAt(VHUpdateTeamPick(g).value.voteHistory, Users(g)[i], 0, 0) ==
              Some(PickTags(Users(g), g.proposedTeam, g.teamLeader)[i])
  {
    OpeningHistory(g, sel);
    var us, tags := Users(g), PickTags(Users(g), g.proposedTeam, g.teamLeader);
    assert Prior(g.voteHistory, us[i], 0, 0) == "";
    ConcatEmptyFront(TagsFor(us, tags, us[i]));
    TagsForSeats(us, tags);
  }

  /** A match `startGame` opened reports "Game in progress". */
  lemma OpeningStatus(g: Game, sel: Selection)
    requires |g.players| > 0 && Opening(g, sel)
    ensures GetStatus(g) == "Game in progress"
  {
  }
}
