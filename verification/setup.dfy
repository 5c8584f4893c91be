/** `startGame`: seat the players in a random order, deal alliances from the
    template and roles from the selected options, freeze what each player
    sees, and pick the first leader. Every `Math.random()` call is one entry of
    `rng`, consumed in the order the source makes them: n for the alliance
    order, n for the seating order, one per resistance seat and one per spy
    seat for the role orders, and one for the first leader. */
module Setup {
  import opened Collections
  import opened Tables
  import opened Shuffle
  import opened Ledger
  import opened Match
  import opened Leadership
  import opened Options
  import opened Deal

  datatype StartOutcome =
    | Refused(lobby: Lobby)
      /** The match started; `slots[i]` is the entry of its alliance's role list
          seat i was dealt, if any. */
    | Started(game: Game, slots: seq<Option<nat>>)
      /** A dealt role whose lower-cased name has no role file: `see()` on it is
          a TypeError, raised after the match was marked started. */
    | MissingRoleFile(role: string)

  /** The guard at the top of `startGame`. */
  predicate CanStart(lobby: Lobby) {
    MinPlayers <= |lobby.seated| <= MaxPlayers && !lobby.playerLeftDuringReady
  }

  /** The alliance of each seat: template entry perm[i] for a shuffled perm. */
  function DealAlliances(n: nat, rs: seq<Unit>): (a: seq<Alliance>)
    requires MinPlayers <= n <= MaxPlayers && |rs| == n
    ensures |a| == n
    ensures TemplateCounts(a)
  {
    var order := AssignmentOrder(n, rs);
    SelectPermutation(AllianceTemplate, order, n);
    TemplateSplit(n);
    Select(AllianceTemplate, order)
  }

  /** The dealt alliances are the first N template entries, rearranged. */
  lemma DealAlliancesRearranges(n: nat, rs: seq<Unit>)
    requires MinPlayers <= n <= MaxPlayers && |rs| == n
    ensures multiset(DealAlliances(n, rs)) == multiset(AllianceTemplate[..n])
  {
    SelectPermutation(AllianceTemplate, AssignmentOrder(n, rs), n);
  }

  /** The seated usernames in their shuffled order. */
  function SeatPlayers(seated: seq<string>, rs: seq<Unit>): (u: seq<string>)
    requires |rs| == |seated|
    ensures |u| == |seated|
    ensures multiset(u) == multiset(seated)
  {
    var order := AssignmentOrder(|seated|, rs);
    SelectPermutation(seated, order, |seated|);
    assert seated[..|seated|] == seated;
    Select(seated, order)
  }

  /** The first seat, in seat order, whose role has no role file. */
  function MissingRole(roles: seq<string>, cat: Catalog): (m: Option<string>)
    ensures m.None? <==> forall i :: 0 <= i < |roles| ==> Lower(roles[i]) in cat.roles
    ensures m.Some? ==> m.value in roles && Lower(m.value) !in cat.roles
    ensures m.Some? ==> exists i :: 0 <= i < |roles| && roles[i] == m.value && Lower(roles[i]) !in cat.roles
                                    && forall j :: 0 <= j < i ==> Lower(roles[j]) in cat.roles
  {
    if roles == [] then None
    else if Lower(roles[0]) !in cat.roles then Some(roles[0])
    else
      var m := MissingRole(roles[1..], cat);
      assert forall i :: 1 <= i < |roles| ==> roles[1..][i - 1] == roles[i];
      m
  }

  /** The vote history `startGame` seeds: an empty list for every player. */
  function EmptyLedger(usernames: seq<string>): (vh: Ledger)
    ensures vh.Keys == set u | u in usernames
    ensures forall u :: u in vh ==> vh[u] == map[]
  {
    map u | u in usernames :: map[]
  }

  /** An alliance's role list. */
  function PoolOf(a: Alliance, resRoles: seq<string>, spyRoles: seq<string>): (pool: seq<string>)
    ensures |pool| == CountOf(a, |resRoles|, |spyRoles|)
  {
    match a
    case Resistance => resRoles
    case Spy => spyRoles
  }

  /** As many spies as the template's first N entries hold, the rest resistance. */
  predicate TemplateCounts(alliances: seq<Alliance>) {
    var n := |alliances|;
    && MinPlayers <= n <= MaxPlayers
    && multiset(alliances)[Spy] == SpiesPerSize[n - MinPlayers]
    && multiset(alliances)[Resistance] == n - SpiesPerSize[n - MinPlayers]
  }

  /** Each seat has its slot's role from its own alliance's list or, without a
      slot, its alliance's name. */
  ghost predicate RoleFromSlot(seats: seq<Seat>, slots: seq<Option<nat>>, resRoles: seq<string>, spyRoles: seq<string>) {
    && |slots| == |seats|
    && (forall i :: 0 <= i < |slots| ==>
          match slots[i]
          case None => seats[i].role == AllianceName(seats[i].alliance)
          case Some(k) => k < |PoolOf(seats[i].alliance, resRoles, spyRoles)|
                          && seats[i].role == PoolOf(seats[i].alliance, resRoles, spyRoles)[k])
  }

  /** No two seats of an alliance hold the same slot. */
  ghost predicate SlotsUnshared(seats: seq<Seat>, slots: seq<Option<nat>>)
    requires |slots| == |seats|
  {
    forall i, j :: 0 <= i < j < |slots| && seats[i].alliance == seats[j].alliance && slots[i].Some? ==>
      slots[i] != slots[j]
  }

  /** Some seat of alliance `a` drew slot `k`. */
  ghost predicate Dealt(seats: seq<Seat>, slots: seq<Option<nat>>, a: Alliance, k: nat)
    requires |slots| == |seats|
  {
    exists i :: 0 <= i < |slots| && seats[i].alliance == a && slots[i] == Some(k)
  }

  /** When an alliance has at least as many seats as roles, all its roles are dealt. */
  ghost predicate PoolsCovered(seats: seq<Seat>, slots: seq<Option<nat>>, resRoles: seq<string>, spyRoles: seq<string>)
    requires |slots| == |seats|
  {
    forall a: Alliance, k: nat {:trigger Dealt(seats, slots, a, k)} ::
      k < |PoolOf(a, resRoles, spyRoles)| <= multiset(Alliances(seats))[a] ==> Dealt(seats, slots, a, k)
  }

  ghost predicate RolesDealt(seats: seq<Seat>, slots: seq<Option<nat>>, resRoles: seq<string>, spyRoles: seq<string>) {
    && RoleFromSlot(seats, slots, resRoles, spyRoles)
    && SlotsUnshared(seats, slots)
    && PoolsCovered(seats, slots, resRoles, spyRoles)
  }

  /** The seats and the slot each drew. */
  datatype Table = Table(seats: seq<Seat>, slots: seq<Option<nat>>)

  /** Every seat is resistance or spy. */
  lemma {:induction false} AllianceCounts(a: seq<Alliance>)
    ensures multiset(a)[Resistance] + multiset(a)[Spy] == |a|
  {
    if a != [] {
      var k := |a| - 1;
      assert a == a[..k] + [a[k]];
      assert multiset(a) == multiset(a[..k]) + multiset{a[k]};
      AllianceCounts(a[..k]);
      match a[k]
      case Resistance =>
        assert multiset(a)[Resistance] == multiset(a[..k])[Resistance] + 1;
        assert multiset(a)[Spy] == multiset(a[..k])[Spy];
      case Spy =>
        assert multiset(a)[Resistance] == multiset(a[..k])[Resistance];
        assert multiset(a)[Spy] == multiset(a[..k])[Spy] + 1;
    }
  }

  /** The two role orders of `startGame`. */
  datatype RoleOrders = RoleOrders(res: seq<nat>, spy: seq<nat>)

  /** One draw per resistance seat shuffles the resistance role order, then one
      draw per spy seat the spy role order. */
  function DrawRoleOrders(alliances: seq<Alliance>, rs: seq<Unit>): (o: RoleOrders)
    requires |rs| == |alliances|
    ensures IsPermutation(o.res, multiset(alliances)[Resistance]) && |o.res| == multiset(alliances)[Resistance]
    ensures IsPermutation(o.spy, multiset(alliances)[Spy]) && |o.spy| == multiset(alliances)[Spy]
  {
    var nRes := multiset(alliances)[Resistance];
    AllianceCounts(alliances);
    var res := AssignmentOrder(nRes, rs[0..nRes]);
    var spy := AssignmentOrder(|rs| - nRes, rs[nRes..|rs|]);
    PermutationLength(res, nRes);
    PermutationLength(spy, |rs| - nRes);
    RoleOrders(res, spy)
  }

  /** The seats `startGame` fills in: who sits where, their alliance, and the
      role their slot names. */
  function BuildSeats(usernames: seq<string>, alliances: seq<Alliance>, slots: seq<Option<nat>>,
                      res: seq<string>, spy: seq<string>): (seats: seq<Seat>)
    requires |usernames| == |alliances| == |slots|
    requires forall i :: 0 <= i < |slots| && slots[i].Some? ==> slots[i].value < CountOf(alliances[i], |res|, |spy|)
    ensures Usernames(seats) == usernames && Alliances(seats) == alliances
    ensures forall i :: 0 <= i < |seats| ==>
              (slots[i].Some? ==> slots[i].value < CountOf(alliances[i], |res|, |spy|))
              && seats[i].role == RoleName(alliances[i], slots[i], res, spy)
  {
    var n := |slots|;
    var seats := seq(n, i requires 0 <= i < n => Seat(usernames[i], alliances[i], RoleName(alliances[i], slots[i], res, spy)));
    assert Alliances(seats) == alliances;
    assert Usernames(seats) == usernames;
    seats
  }

  /** Everything `startGame` deals from its first 3N draws: the alliance order,
      the seating order and the two role orders. */
  function DealTable(seated: seq<string>, sel: Selection, rng: seq<Unit>): (t: Table)
    requires MinPlayers <= |seated| <= MaxPlayers && |rng| == 3 * |seated|
    ensures |t.seats| == |seated|
    ensures multiset(Usernames(t.seats)) == multiset(seated)
    ensures TemplateCounts(Alliances(t.seats))
    ensures RolesDealt(t.seats, t.slots, sel.resRoles, sel.spyRoles)
  {
    var n := |seated|;
    var alliances := DealAlliances(n, rng[0..n]);
    var usernames := SeatPlayers(seated, rng[n..2 * n]);
    var o := DrawRoleOrders(alliances, rng[2 * n..3 * n]);
    var t := DealRoles(usernames, alliances, o, sel);
    t
  }

  /** The role dealing loops of `startGame` and the seats they fill in. */
  function DealRoles(usernames: seq<string>, alliances: seq<Alliance>, o: RoleOrders, sel: Selection): (t: Table)
    requires |usernames| == |alliances|
    requires IsPermutation(o.res, multiset(alliances)[Resistance]) && |o.res| == multiset(alliances)[Resistance]
    requires IsPermutation(o.spy, multiset(alliances)[Spy]) && |o.spy| == multiset(alliances)[Spy]
    ensures Usernames(t.seats) == usernames && Alliances(t.seats) == alliances
    ensures RolesDealt(t.seats, t.slots, sel.resRoles, sel.spyRoles)
  {
    var res, spy := sel.resRoles, sel.spyRoles;
    var slots := DealSlots(alliances, o.res, o.spy, |res|, |spy|);
    DealSlotsSound(alliances, o.res, o.spy, |res|, |spy|);
    var seats := BuildSeats(usernames, alliances, slots, res, spy);
    RolesDealtFact(seats, slots, alliances, o.res, o.spy, res, spy);
    Table(seats, slots)
  }

  lemma RolesDealtFact(seats: seq<Seat>, slots: seq<Option<nat>>, alliances: seq<Alliance>, resPerm: seq<nat>,
                       spyPerm: seq<nat>, res: seq<string>, spy: seq<string>)
    requires |resPerm| == multiset(alliances)[Resistance] && |spyPerm| == multiset(alliances)[Spy]
    requires IsPermutation(resPerm, multiset(alliances)[Resistance])
    requires IsPermutation(spyPerm, multiset(alliances)[Spy])
    requires slots == DealSlots(alliances, resPerm, spyPerm, |res|, |spy|)
    requires Alliances(seats) == alliances
    requires forall i :: 0 <= i < |seats| ==>
               (slots[i].Some? ==> slots[i].value < CountOf(alliances[i], |res|, |spy|))
               && seats[i].role == RoleName(alliances[i], slots[i], res, spy)
    ensures RolesDealt(seats, slots, res, spy)
  {
    SlotsUnsharedFact(seats, slots, alliances, resPerm, spyPerm, res, spy);
    PoolsCoveredFact(seats, slots, alliances, resPerm, spyPerm, res, spy);
  }

  lemma SlotsUnsharedFact(seats: seq<Seat>, slots: seq<Option<nat>>, alliances: seq<Alliance>, resPerm: seq<nat>,
                          spyPerm: seq<nat>, res: seq<string>, spy: seq<string>)
    requires |resPerm| == multiset(alliances)[Resistance] && |spyPerm| == multiset(alliances)[Spy]
    requires IsPermutation(resPerm, multiset(alliances)[Resistance])
    requires IsPermutation(spyPerm, multiset(alliances)[Spy])
    requires slots == DealSlots(alliances, resPerm, spyPerm, |res|, |spy|)
    requires Alliances(seats) == alliances
    ensures |slots| == |seats|
    ensures SlotsUnshared(seats, slots)
  {
    DealSlotsSound(alliances, resPerm, spyPerm, |res|, |spy|);
  }

  lemma PoolsCoveredFact(seats: seq<Seat>, slots: seq<Option<nat>>, alliances: seq<Alliance>, resPerm: seq<nat>,
                         spyPerm: seq<nat>, res: seq<string>, spy: seq<string>)
    requires |resPerm| == multiset(alliances)[Resistance] && |spyPerm| == multiset(alliances)[Spy]
    requires IsPermutation(resPerm, multiset(alliances)[Resistance])
    requires IsPermutation(spyPerm, multiset(alliances)[Spy])
    requires slots == DealSlots(alliances, resPerm, spyPerm, |res|, |spy|)
    requires Alliances(seats) == alliances
    ensures |slots| == |seats|
    ensures PoolsCovered(seats, slots, res, spy)
  {
    forall a: Alliance, k: nat | k < |PoolOf(a, res, spy)| <= multiset(Alliances(seats))[a]
      ensures Dealt(seats, slots, a, k)
    {
      DealSlotsComplete(alliances, resPerm, spyPerm, |res|, |spy|, a, k);
      var i :| 0 <= i < |slots| && alliances[i] == a && slots[i] == Some(k);
      assert seats[i].alliance == a;
    }
  }

  /** The team lists `startGame` builds from the seats of each alliance are the
      members of that alliance in seat order. */
  lemma {:induction false} TeamListIsMembers(ss: seq<Seat>, a: Alliance)
    ensures InBounds(Positions(Alliances(ss), a), |ss|)
    ensures Select(Usernames(ss), Positions(Alliances(ss), a)) == MembersOf(ss, a)
  {
    if ss != [] {
      var k := |ss| - 1;
      var front := ss[..k];
      TeamListIsMembers(front, a);
      assert Alliances(front) == Alliances(ss)[..k];
      var pf := Positions(Alliances(front), a);
      assert Select(Usernames(ss), pf) == Select(Usernames(front), pf);
      if ss[k].alliance == a {
        SelectConcat(Usernames(ss), pf, [k]);
      }
    }
  }

  /** The start-of-match values: started, first mission and pick, a leader seat
      and the hammer four seats behind it, an empty history for every player,
      team lists in seat order, and the selected keys and role lists. */
  ghost predicate Opening(g: Game, sel: Selection)
    requires |g.players| > 0
  {
    var n := |g.players|;
    var seats := SeatsOf(g.players);
    && g.started && !g.finished && !g.frozen && g.phase == PickingTeam
    && g.missionNum == 1 && g.pickNum == 1 && g.missionHistory == []
    && 0 <= g.teamLeader < n && g.hammer == HammerSeat(g.teamLeader, n) && 0 <= g.hammer < n
    && g.usernames == Usernames(seats)
    && g.voteHistory.Keys == (set u | u in g.usernames)
    && (forall u :: u in g.voteHistory ==> g.voteHistory[u] == map[])
    && g.resistanceUsernames == MembersOf(seats, Resistance)
    && g.spyUsernames == MembersOf(seats, Spy)
    && g.roleKeys == sel.roleKeys && g.cardKeys == sel.cardKeys
    && g.resRoles == sel.resRoles && g.spyRoles == sel.spyRoles
    && g.proposedTeam == [] && g.votes == [] && g.winner == ""
  }

  /** What each player is shown comes from their own role's file, computed
      once from the dealt seats. */
  ghost predicate SeesFrozen(g: Game, hooks: Hooks) {
    forall i :: 0 <= i < |g.players| ==>
      g.players[i].see == hooks.see(Lower(g.players[i].role), SeatsOf(g.players))
  }

  /** The players of a new match: each seat with what its role's file shows. */
  function SeatedPlayers(seats: seq<Seat>, hooks: Hooks): (players: seq<Player>)
    ensures SeatsOf(players) == seats
    ensures forall i :: 0 <= i < |players| ==> players[i].see == hooks.see(Lower(seats[i].role), seats)
  {
    var n := |seats|;
    var players := seq(n, i requires 0 <= i < n =>
      Player(seats[i].username, seats[i].alliance, seats[i].role, hooks.see(Lower(seats[i].role), seats)));
    assert forall i :: 0 <= i < n ==> SeatsOf(players)[i] == seats[i];
    players
  }

  /** The match `startGame` leaves behind once every role file was found. */
  function Open(seats: seq<Seat>, sel: Selection, hooks: Hooks, leader: nat): (g: Game)
    requires MinPlayers <= |seats| && leader < |seats|
    ensures SeatsOf(g.players) == seats
    ensures g.resRoles == sel.resRoles && g.spyRoles == sel.spyRoles
    ensures Opening(g, sel)
    ensures SeesFrozen(g, hooks)
  {
    var n := |seats|;
    var players := SeatedPlayers(seats, hooks);
    var usernames := Usernames(seats);
    TeamListIsMembers(seats, Resistance);
    TeamListIsMembers(seats, Spy);
    var vh := EmptyLedger(usernames);
    var hammer := HammerSeat(leader, n);
    NewGame().(
      started := true,
      players := players,
      usernames := usernames,
      resistanceUsernames := Select(usernames, Positions(Alliances(seats), Resistance)),
      spyUsernames := Select(usernames, Positions(Alliances(seats), Spy)),
      roleKeys := sel.roleKeys,
      cardKeys := sel.cardKeys,
      resRoles := sel.resRoles,
      spyRoles := sel.spyRoles,
      teamLeader := leader,
      hammer := hammer,
      missionNum := 1,
      pickNum := 1,
      missionHistory := [],
      voteHistory := vh)
  }

  /** The end of `startGame` once the table is dealt: every dealt role's file
      must be found before the match opens. */
  function Launch(t: Table, sel: Selection, cat: Catalog, hooks: Hooks, leader: nat): (r: StartOutcome)
    requires MinPlayers <= |t.seats| && leader < |t.seats|
    ensures !r.Refused?
    ensures r.MissingRoleFile? ==> Lower(r.role) !in cat.roles && MissingRole(Roles(t.seats), cat) == Some(r.role)
    ensures r.Started? <==> forall i :: 0 <= i < |t.seats| ==> Lower(t.seats[i].role) in cat.roles
    ensures r.Started? ==>
              && SeatsOf(r.game.players) == t.seats && r.slots == t.slots
              && r.game.resRoles == sel.resRoles && r.game.spyRoles == sel.spyRoles
              && Opening(r.game, sel)
              && SeesFrozen(r.game, hooks)
              && (forall i :: 0 <= i < |t.seats| ==> Lower(t.seats[i].role) in cat.roles)
  {
    match MissingRole(Roles(t.seats), cat)
    case Some(role) => MissingRoleFile(role)
    case None =>
      assert forall i :: 0 <= i < |t.seats| ==> Roles(t.seats)[i] == t.seats[i].role;
      Started(Open(t.seats, sel, hooks, leader), t.slots)
  }

  /** `startGame(options)`. */
  function StartGame(lobby: Lobby, options: seq<Choice>, cat: Catalog, hooks: Hooks, rng: seq<Unit>): (r: StartOutcome)
    requires |rng| >= 3 * |lobby.seated| + 1
    ensures r.Refused? <==> !CanStart(lobby)
    ensures r.Refused? ==> r.lobby == lobby.(canJoin := true, playerLeftDuringReady := false)
    ensures r.MissingRoleFile? ==> Lower(r.role) !in cat.roles
    ensures CanStart(lobby) ==>
              var t := DealTable(lobby.seated, SplitOptions(options, cat), rng[0..3 * |lobby.seated|]);
              && (r.MissingRoleFile? ==> r.role in Roles(t.seats))
              && ((forall i :: 0 <= i < |t.seats| ==> Lower(t.seats[i].role) in cat.roles) ==> r.Started?)
    ensures r.Started? ==>
              var g := r.game;
              var seats := SeatsOf(g.players);
              && MinPlayers <= |seats| <= MaxPlayers
              && multiset(Usernames(seats)) == multiset(lobby.seated)
              && TemplateCounts(Alliances(seats))
              && RolesDealt(seats, r.slots, g.resRoles, g.spyRoles)
              && Opening(g, SplitOptions(options, cat))
              && SeesFrozen(g, hooks)
              && (forall i :: 0 <= i < |seats| ==> Lower(seats[i].role) in cat.roles)
  {
    var n := |lobby.seated|;
    if !CanStart(lobby) then Refused(lobby.(canJoin := true, playerLeftDuringReady := false))
    else
      var sel := SplitOptions(options, cat);
      var t := DealTable(lobby.seated, sel, rng[0..3 * n]);
      Launch(t, sel, cat, hooks, Draw(rng[3 * n], n))
  }
}
