/** What each client is sent about the match (`getGameData` for the players,
    `getGameDataForSpectators` for everyone else): the shared board, plus what
    the viewer may know about the hidden roles. Until the match is finished a
    player knows what their role showed them at the start and a spectator knows
    nothing; once it is finished everyone is shown every spy and every role. */
module Visibility {
  import opened Collections
  import opened Tables
  import opened Ledger
  import opened Match
  import opened Deal
  import opened Setup
  import opened Options
  import opened Shuffle

  /** `getAllSpies`: the usernames of the spy seats in seat order, or `false`
      (here `None`) before the match has started. */
  function AllSpies(g: Game): (r: Option<seq<string>>)
    ensures r.Some? <==> g.started
  {
    if g.started then Some(MembersOf(SeatsOf(g.players), Spy)) else None
  }

  /** `getRevealedRoles`: every seat's role in seat order, only once a started
      match is in the finished phase. */
  function RevealedRoles(g: Game): (r: Option<seq<string>>)
    ensures r.Some? <==> g.started && g.phase == FinishedPhase
  {
    if g.started && g.phase == FinishedPhase then Some(Roles(SeatsOf(g.players))) else None
  }

  /** The loop of `getAllSpies`: push each spy seat's username in turn. */
  method GetAllSpies(g: Game) returns (r: Option<seq<string>>)
    ensures r == AllSpies(g)
  {
    if !g.started {
      return None;
    }
    var ps := g.players;
    var spies: seq<string> := [];
    var i := 0;
    while i < |ps|
      invariant 0 <= i <= |ps|
      invariant spies == MembersOf(SeatsOf(ps[..i]), Spy)
    {
      SeatsOfPrefix(ps, i);
      if ps[i].alliance == Spy {
        spies := spies + [ps[i].username];
      }
      i := i + 1;
    }
    assert ps[..i] == ps;
    return Some(spies);
  }

  /** The seats of one more player are the seats so far and that player's. */
  lemma SeatsOfPrefix(ps: seq<Player>, i: nat)
    requires i < |ps|
    ensures var ss := SeatsOf(ps[..i + 1]);
      && ss[..i] == SeatsOf(ps[..i])
      && ss[i] == Seat(ps[i].username, ps[i].alliance, ps[i].role)
      && |ss| == i + 1
  {
  }

  /** The loop of `getRevealedRoles`: push every seat's role in turn. */
  method GetRevealedRoles(g: Game) returns (r: Option<seq<string>>)
    ensures r == RevealedRoles(g)
  {
    if !(g.started && g.phase == FinishedPhase) {
      return None;
    }
    var ps := g.players;
    var roles: seq<string> := [];
    var i := 0;
    while i < |ps|
      invariant 0 <= i <= |ps|
      invariant |roles| == i
      invariant forall k :: 0 <= k < i ==> roles[k] == ps[k].role
    {
      roles := roles + [ps[i].role];
      i := i + 1;
    }
    assert roles == Roles(SeatsOf(ps));
    return Some(roles);
  }

  /** A username is on the spy list exactly when a spy seat holds it, and the
      list is as long as there are spy seats. */
  lemma AllSpiesContents(g: Game, u: string)
    requires g.started
    ensures var spies := AllSpies(g).value;
      && (u in spies <==> exists i :: 0 <= i < |g.players| && g.players[i].alliance == Spy && g.players[i].username == u)
      && |spies| == multiset(Alliances(SeatsOf(g.players)))[Spy]
  {
    var ss := SeatsOf(g.players);
    MembersOfContents(ss, Spy, u);
    if exists i :: 0 <= i < |g.players| && g.players[i].alliance == Spy && g.players[i].username == u {
      var i :| 0 <= i < |g.players| && g.players[i].alliance == Spy && g.players[i].username == u;
      assert ss[i].alliance == Spy && ss[i].username == u;
    }
  }

  /** The part of the data every viewer is sent alike. */
  datatype Board = Board(
    missionNum: int,
    missionHistory: seq<string>,
    pickNum: int,
    teamLeader: int,
    hammer: int,
    phase: string,
    proposedTeam: seq<string>,
    numPlayersOnMission: Option<seq<string>>,
    votes: seq<string>,
    voteHistory: Ledger,
    winner: string)

  /** The data for player `i`: their seat, what they see, their buttons
      (undefined when the phase has no object), and the board. */
  datatype PlayerView = PlayerView(seat: Seat, see: See, buttons: Option<Buttons>, board: Board)

  /** The data for a spectator. */
  datatype SpectatorView = SpectatorView(see: See, buttons: Buttons, board: Board)

  /** The board as the game holds it; the mission sizes are the table row for
      the number of players. */
  function BoardOf(g: Game): (b: Board)
    ensures b.proposedTeam == g.proposedTeam
    ensures b.numPlayersOnMission == MissionRow(|g.players|)
    ensures b.votes == g.publicVotes
    ensures b.voteHistory == g.voteHistory
    ensures b.missionNum == g.missionNum && b.missionHistory == g.missionHistory && b.pickNum == g.pickNum
    ensures b.teamLeader == g.teamLeader && b.hammer == g.hammer && b.phase == g.phase && b.winner == g.winner
  {
    Board(g.missionNum, g.missionHistory, g.pickNum, g.teamLeader, g.hammer, g.phase, g.proposedTeam,
          MissionRow(|g.players|), g.publicVotes, g.voteHistory, g.winner)
  }

  /** `getClientButtonSettings(i)` for a player: the phase object's settings,
      undefined for a phase no object handles. */
  function PlayerButtons(g: Game, cat: Catalog, hooks: Hooks, i: int): Option<Buttons> {
    if g.phase in cat.commonPhases || g.phase in cat.specialPhases then Some(hooks.buttons(g.phase, g, i))
    else None
  }

  /** `getClientButtonSettings()` without a player: both buttons hidden,
      disabled and blank. */
  const SpectatorButtons: Buttons := Buttons(Button(true, true, ""), Button(true, true, ""))

  /** The full reveal a finished match shows. */
  function Reveal(g: Game): See {
    EndReveal(AllSpies(g), RevealedRoles(g))
  }

  /** `getGameData`: one view per player, or "Game hasn't started" (here
      `None`). */
  function PlayerViews(g: Game, cat: Catalog, hooks: Hooks): (r: Option<seq<PlayerView>>)
    ensures r.None? <==> !g.started
    ensures r.Some? ==> |r.value| == |g.players|
    ensures r.Some? ==> forall i :: 0 <= i < |g.players| ==>
              && r.value[i].seat == SeatsOf(g.players)[i]
              && r.value[i].buttons == PlayerButtons(g, cat, hooks, i)
              && (g.phase != FinishedPhase ==> r.value[i].see == g.players[i].see)
              && (g.phase == FinishedPhase ==>
                    r.value[i].see == EndReveal(Some(MembersOf(SeatsOf(g.players), Spy)), Some(Roles(SeatsOf(g.players)))))
              && (g.phase == FinishedPhase || g.phase == Assassination ==>
                    r.value[i].board == BoardOf(g).(proposedTeam := g.lastProposedTeam))
              && (g.phase != FinishedPhase && g.phase != Assassination ==> r.value[i].board == BoardOf(g))
  {
    if !g.started then None
    else
      var board := BoardOf(g);
      Some(seq(|g.players|, i requires 0 <= i < |g.players| =>
        var p := g.players[i];
        var seat := Seat(p.username, p.alliance, p.role);
        if g.phase == FinishedPhase then
          PlayerView(seat, Reveal(g), PlayerButtons(g, cat, hooks, i), board.(proposedTeam := g.lastProposedTeam))
        else if g.phase == Assassination then
          PlayerView(seat, p.see, PlayerButtons(g, cat, hooks, i), board.(proposedTeam := g.lastProposedTeam))
        else
          PlayerView(seat, p.see, PlayerButtons(g, cat, hooks, i), board)))
  }

  /** `getGameDataForSpectators`: nothing about the roles and no usable
      buttons; only a finished match adds the reveal and the last proposal. */
  function SpectatorViewOf(g: Game): (r: SpectatorView)
    ensures r.buttons.green == r.buttons.red == Button(true, true, "")
    ensures g.phase != FinishedPhase ==> r.see == RoleSee([], []) && r.board == BoardOf(g)
    ensures g.phase == FinishedPhase ==>
              r.see == EndReveal(AllSpies(g), RevealedRoles(g))
              && r.board == BoardOf(g).(proposedTeam := g.lastProposedTeam)
  {
    if g.phase == FinishedPhase then
      SpectatorView(Reveal(g), SpectatorButtons, BoardOf(g).(proposedTeam := g.lastProposedTeam))
    else SpectatorView(RoleSee([], []), SpectatorButtons, BoardOf(g))
  }

  /** Once a started match is finished, every player and every spectator is
      shown the same reveal and the same board. */
  lemma FinishedViewsAgree(g: Game, cat: Catalog, hooks: Hooks)
    requires g.started && g.phase == FinishedPhase
    ensures forall i :: 0 <= i < |g.players| ==>
              PlayerViews(g, cat, hooks).value[i].see == SpectatorViewOf(g).see
              && PlayerViews(g, cat, hooks).value[i].board == SpectatorViewOf(g).board
  {
  }

  /** During assassination the players are shown the last proposed team while
      spectators are still shown the current one. */
  lemma AssassinationViews(g: Game, cat: Catalog, hooks: Hooks)
    requires g.started && g.phase == Assassination
    ensures forall i :: 0 <= i < |g.players| ==>
              PlayerViews(g, cat, hooks).value[i].board.proposedTeam == g.lastProposedTeam
    ensures SpectatorViewOf(g).board.proposedTeam == g.proposedTeam
    ensures SpectatorViewOf(g).see == RoleSee([], [])
  {
  }

  /** Right after `startGame` (whose result satisfies `Opening` and
      `SeesFrozen`), each player is shown what their own role's file showed for
      the dealt seats, the spectators nothing, and everyone the mission sizes
      of the table row for the number of players. */
  lemma OpeningViews(g: Game, sel: Selection, cat: Catalog, hooks: Hooks)
    requires MinPlayers <= |g.players| <= MaxPlayers
    requires Opening(g, sel) && SeesFrozen(g, hooks)
    ensures var views := PlayerViews(g, cat, hooks).value;
      && (forall i :: 0 <= i < |views| ==>
            views[i].see == hooks.see(Lower(g.players[i].role), SeatsOf(g.players)))
      && SpectatorViewOf(g).see == RoleSee([], [])
      && BoardOf(g).numPlayersOnMission == Some(MissionTable[|g.players| - MinPlayers])
  {
  }

  /** Once a dealt match is over, the spy list names as many players as the
      template gives spies for that table size. */
  lemma RevealedSpyCount(g: Game)
    requires g.started && TemplateCounts(Alliances(SeatsOf(g.players)))
    ensures |AllSpies(g).value| == SpiesPerSize[|g.players| - MinPlayers]
  {
  }
}
