/** The state of one Avalon match as `game.js` keeps it on its room object,
    together with the pieces that live in modules outside this model: the
    role, card and phase catalogue and the behaviour behind their hooks. */
module Match {
  import opened Collections
  import opened Tables
  import opened Ledger

  const PickingTeam: string := "pickingTeam"
  const VotingTeam: string := "votingTeam"
  const VotingMission: string := "votingMission"
  const FinishedPhase: string := "finished"
  const Assassination: string := "assassination"

  /** What a player is shown about the others. During play it is what their
      role file's `see()` returned at the start (who they know as spies or as
      Merlin); once the match is over it is the full reveal, whose parts are
      JavaScript `false` (here `None`) when the game has not started. */
  datatype See =
    | RoleSee(spies: seq<string>, merlins: seq<string>)
    | EndReveal(allSpies: Option<seq<string>>, allRoles: Option<seq<string>>)

  /** One entry of `playersInGame`. */
  datatype Player = Player(username: string, alliance: Alliance, role: string, see: See)

  /** The seat data a role's `see()` reads. */
  datatype Seat = Seat(username: string, alliance: Alliance, role: string)

  datatype Game = Game(
    started: bool,
    finished: bool,
    frozen: bool,
    phase: string,
    players: seq<Player>,
    usernames: seq<string>,
    resistanceUsernames: seq<string>,
    spyUsernames: seq<string>,
    roleKeys: seq<string>,
    cardKeys: seq<string>,
    resRoles: seq<string>,
    spyRoles: seq<string>,
    teamLeader: int,
    hammer: int,
    missionNum: int,
    pickNum: int,
    missionHistory: seq<string>,
    proposedTeam: seq<string>,
    lastProposedTeam: seq<string>,
    votes: seq<string>,
    publicVotes: seq<string>,
    missionVotes: seq<string>,
    voteHistory: Ledger,
    winner: string)

  /** The values the `Game` constructor gives a new room's match fields. */
  function NewGame(): Game {
    Game(false, false, false, PickingTeam, [], [], [], [], [], [], [], [],
         0, 0, 0, 0, [], [], [], [], [], [], map[], "")
  }

  /** A role file: its alliance string, its display name, and whether it
      defines `checkSpecialMove`. */
  datatype RoleDef = RoleDef(alliance: string, role: string, hasSpecialMove: bool)

  /** A card file: whether it defines `checkSpecialMove`. */
  datatype CardDef = CardDef(hasSpecialMove: bool)

  /** The role, card and phase objects the room is built with, by key. */
  datatype Catalog = Catalog(
    roles: map<string, RoleDef>,
    cards: map<string, CardDef>,
    commonPhases: set<string>,
    specialPhases: set<string>)

  /** A client's game move: who sent it and what it carries. */
  datatype Move = Move(username: string, data: seq<string>)

  datatype Button = Button(hidden: bool, disabled: bool, setText: string)
  datatype Buttons = Buttons(green: Button, red: Button)

  /** The behaviour of the phase, role and card objects, which is not part of
      this model: each is an arbitrary function of its key and the game.
      A special-move check answers whether it claimed the move and returns the
      game as it left it; `finishGame` calls the checks with no move. */
  datatype Hooks = Hooks(
    commonPhaseMove: (string, Game, Move) -> Game,
    specialPhaseMove: (string, Game, Move) -> Game,
    roleSpecialMove: (string, Game, Option<Move>) -> (bool, Game),
    cardSpecialMove: (string, Game, Option<Move>) -> (bool, Game),
    see: (string, seq<Seat>) -> See,
    buttons: (string, Game, int) -> Buttons)

  /** The part of the room a start request reads and writes when it refuses. */
  datatype Lobby = Lobby(seated: seq<string>, canJoin: bool, playerLeftDuringReady: bool)

  /** The seat part of each player: who sits there, their alliance and role. */
  function SeatsOf(ps: seq<Player>): (r: seq<Seat>)
    ensures |r| == |ps|
    ensures forall i :: 0 <= i < |ps| ==> r[i] == Seat(ps[i].username, ps[i].alliance, ps[i].role)
  {
    seq(|ps|, i requires 0 <= i < |ps| => Seat(ps[i].username, ps[i].alliance, ps[i].role))
  }

  function Usernames(ss: seq<Seat>): (r: seq<string>)
    ensures |r| == |ss|
    ensures forall i :: 0 <= i < |ss| ==> r[i] == ss[i].username
  {
    seq(|ss|, i requires 0 <= i < |ss| => ss[i].username)
  }

  function Alliances(ss: seq<Seat>): (r: seq<Alliance>)
    ensures |r| == |ss|
    ensures forall i :: 0 <= i < |ss| ==> r[i] == ss[i].alliance
  {
    seq(|ss|, i requires 0 <= i < |ss| => ss[i].alliance)
  }

  function Roles(ss: seq<Seat>): (r: seq<string>)
    ensures |r| == |ss|
    ensures forall i :: 0 <= i < |ss| ==> r[i] == ss[i].role
  {
    seq(|ss|, i requires 0 <= i < |ss| => ss[i].role)
  }

  /** The usernames of the seats of alliance `a`, in seat order. */
  function MembersOf(ss: seq<Seat>, a: Alliance): (r: seq<string>)
    ensures |r| == multiset(Alliances(ss))[a]
  {
    if ss == [] then []
    else
      var k := |ss| - 1;
      assert Alliances(ss) == Alliances(ss[..k]) + [ss[k].alliance];
      MembersOf(ss[..k], a) + (if ss[k].alliance == a then [ss[k].username] else [])
  }

  /** A username appears among the members of `a` exactly when some seat of
      alliance `a` holds it. */
  lemma {:induction false} MembersOfContents(ss: seq<Seat>, a: Alliance, u: string)
    ensures u in MembersOf(ss, a) <==> exists i :: 0 <= i < |ss| && ss[i].alliance == a && ss[i].username == u
  {
    if ss != [] {
      var k := |ss| - 1;
      MembersOfContents(ss[..k], a, u);
      MembersOfLast(ss, a, u);
      SeatedLast(ss, a, u);
    }
  }

  lemma MembersOfLast(ss: seq<Seat>, a: Alliance, u: string)
    requires ss != []
    ensures var k := |ss| - 1;
      u in MembersOf(ss, a) <==> u in MembersOf(ss[..k], a) || (ss[k].alliance == a && ss[k].username == u)
  {
  }

  lemma SeatedLast(ss: seq<Seat>, a: Alliance, u: string)
    requires ss != []
    ensures var k := |ss| - 1;
      (exists i :: 0 <= i < |ss| && ss[i].alliance == a && ss[i].username == u) <==>
      (exists i :: 0 <= i < k && ss[..k][i].alliance == a && ss[..k][i].username == u)
        || (ss[k].alliance == a && ss[k].username == u)
  {
    var k := |ss| - 1;
    if exists i :: 0 <= i < |ss| && ss[i].alliance == a && ss[i].username == u {
      var i :| 0 <= i < |ss| && ss[i].alliance == a && ss[i].username == u;
      if i < k {
        assert ss[..k][i] == ss[i];
      }
    }
    if exists i :: 0 <= i < k && ss[..k][i].alliance == a && ss[..k][i].username == u {
      var i :| 0 <= i < k && ss[..k][i].alliance == a && ss[..k][i].username == u;
      assert ss[i] == ss[..k][i];
    }
  }
}
