/** How a move reaches the objects that act on it: `gameMove` routes it to
    the object of the current phase, then `checkRoleCardSpecialMoves` offers it
    to the roles and cards in play, roles first, until one claims it.
    `finishGame` makes the same offer with no move before it ends the match. */
module Dispatch {
  import opened Collections
  import opened Match

  /** An entry of the consultation order: a role or card object that defines
      `checkSpecialMove`, or a key with no object at all, where reading
      `checkSpecialMove` of `undefined` throws a TypeError. */
  datatype HookRef = RoleHook(key: string) | CardHook(key: string) | NoFile(key: string)

  /** How a consultation ended: a hook answered `true`, every hook answered
      something else, or a TypeError stopped it. */
  datatype Verdict = Claimed | Unclaimed | Crashed

  /** The end of a consultation: its verdict, the game as the hooks left it,
      and every hook called, in order, with whether it claimed the move. */
  datatype Run = Run(verdict: Verdict, game: Game, calls: seq<(HookRef, bool)>)

  /** The role loop's view of one key: skipped when the role's object has no
      `checkSpecialMove`. */
  function RoleRef(key: string, cat: Catalog): seq<HookRef> {
    if key !in cat.roles then [NoFile(key)]
    else if cat.roles[key].hasSpecialMove then [RoleHook(key)]
    else []
  }

  /** The card loop's view of one key, testing the card's own object. */
  function CardRef(key: string, cat: Catalog): seq<HookRef> {
    if key !in cat.cards then [NoFile(key)]
    else if cat.cards[key].hasSpecialMove then [CardHook(key)]
    else []
  }

  function RoleRefs(keys: seq<string>, cat: Catalog): (refs: seq<HookRef>)
    ensures forall i :: 0 <= i < |refs| ==> !refs[i].CardHook?
  {
    if keys == [] then [] else RoleRef(keys[0], cat) + RoleRefs(keys[1..], cat)
  }

  function CardRefs(keys: seq<string>, cat: Catalog): (refs: seq<HookRef>)
    ensures forall i :: 0 <= i < |refs| ==> !refs[i].RoleHook?
  {
    if keys == [] then [] else CardRef(keys[0], cat) + CardRefs(keys[1..], cat)
  }

  /** Every role key in play in order, then every card key in play in order. */
  function Consult(g: Game, cat: Catalog): seq<HookRef> {
    RoleRefs(g.roleKeys, cat) + CardRefs(g.cardKeys, cat)
  }

  /** Ask one hook; it answers and leaves the game as it wants. */
  function Ask(ref: HookRef, g: Game, hooks: Hooks, move: Option<Move>): (bool, Game) {
    match ref
    case RoleHook(key) => hooks.roleSpecialMove(key, g, move)
    case CardHook(key) => hooks.cardSpecialMove(key, g, move)
    case NoFile(_) => (false, g)
  }

  /** The reference consultation: ask the hooks in order, each seeing the game
      the previous one left, and stop at the first claim or missing object.
      The calls made are a prefix of `refs`; only the last can have claimed,
      and it did exactly when the verdict is a claim; a run without a claim
      or TypeError asked every hook. */
  function FirstClaim(refs: seq<HookRef>, g: Game, hooks: Hooks, move: Option<Move>): (r: Run)
    ensures |r.calls| <= |refs|
    ensures forall i :: 0 <= i < |r.calls| ==> r.calls[i].0 == refs[i] && !refs[i].NoFile?
    ensures forall i :: 0 <= i < |r.calls| ==>
              (r.calls[i].1 <==> r.verdict == Claimed && i == |r.calls| - 1)
    ensures r.verdict == Claimed ==> |r.calls| > 0
    ensures r.verdict == Unclaimed ==> |r.calls| == |refs|
    ensures r.verdict == Crashed ==> |r.calls| < |refs| && refs[|r.calls|].NoFile?
  {
    if refs == [] then Run(Unclaimed, g, [])
    else if refs[0].NoFile? then Run(Crashed, g, [])
    else
      var (claimed, g1) := Ask(refs[0], g, hooks, move);
      if claimed then Run(Claimed, g1, [(refs[0], true)])
      else
        var rest := FirstClaim(refs[1..], g1, hooks, move);
        rest.(calls := [(refs[0], false)] + rest.calls)
  }

  /** `checkRoleCardSpecialMoves` with the card loop testing each card's own
      object, as its comments intend. */
  function Dispatch(g: Game, cat: Catalog, hooks: Hooks, move: Option<Move>): Run {
    FirstClaim(Consult(g, cat), g, hooks, move)
  }

  /** Consulting a sequence that starts with `pre` asks `pre` first. */
  lemma {:induction false} FirstClaimSkip(ref: HookRef, rest: seq<HookRef>, g: Game, hooks: Hooks, move: Option<Move>)
    requires !ref.NoFile?
    ensures var (claimed, g1) := Ask(ref, g, hooks, move);
      var r := FirstClaim([ref] + rest, g, hooks, move);
      var s := FirstClaim(rest, g1, hooks, move);
      if claimed then r.verdict == Claimed && r.game == g1
      else r.verdict == s.verdict && r.game == s.game
  {
    assert ([ref] + rest)[1..] == rest;
  }

  /** No role hook is asked after a card hook. */
  lemma DispatchRolesFirst(g: Game, cat: Catalog, hooks: Hooks, move: Option<Move>)
    ensures var calls := Dispatch(g, cat, hooks, move).calls;
      forall i, j :: 0 <= i < j < |calls| && calls[i].0.CardHook? ==> !calls[j].0.RoleHook?
  {
    var roles, cards := RoleRefs(g.roleKeys, cat), CardRefs(g.cardKeys, cat);
    var calls := Dispatch(g, cat, hooks, move).calls;
    forall i, j | 0 <= i < j < |calls| && calls[i].0.CardHook?
      ensures !calls[j].0.RoleHook?
    {
      assert (roles + cards)[i] == calls[i].0;
      assert i >= |roles|;
      assert (roles + cards)[j] == cards[j - |roles|];
    }
  }

  /** The result of `checkRoleCardSpecialMoves` is `true` exactly when some
      hook it asked claimed the move. */
  lemma DispatchClaims(g: Game, cat: Catalog, hooks: Hooks, move: Option<Move>)
    ensures var r := Dispatch(g, cat, hooks, move);
      r.verdict == Claimed <==> exists i :: 0 <= i < |r.calls| && r.calls[i].1
  {
    var r := Dispatch(g, cat, hooks, move);
    if r.verdict == Claimed {
      assert r.calls[|r.calls| - 1].1;
    }
  }

  /** The role key loop of `checkRoleCardSpecialMoves` from key `i` on, then
      the card keys, agree with the reference. */
  lemma RoleRefsStep(keys: seq<string>, i: nat, cat: Catalog)
    requires i < |keys|
    ensures RoleRefs(keys[i..], cat) == RoleRef(keys[i], cat) + RoleRefs(keys[i + 1..], cat)
  {
    assert keys[i..][1..] == keys[i + 1..];
  }

  lemma CardRefsStep(keys: seq<string>, i: nat, cat: Catalog)
    requires i < |keys|
    ensures CardRefs(keys[i..], cat) == CardRef(keys[i], cat) + CardRefs(keys[i + 1..], cat)
  {
    assert keys[i..][1..] == keys[i + 1..];
  }

  /** The outcome a consultation of `refs` from game `g` reaches. */
  predicate Reaches(refs: seq<HookRef>, g: Game, hooks: Hooks, move: Option<Move>, verdict: Verdict, h: Game) {
    var r := FirstClaim(refs, g, hooks, move);
    r.verdict == verdict && r.game == h
  }

  /** One key of either loop: a skipped key changes nothing still to come; an
      asked hook either ends the consultation or hands on its game. */
  lemma LoopStep(one: seq<HookRef>, later: seq<HookRef>, tail: seq<HookRef>, g: Game, hooks: Hooks,
                 move: Option<Move>, verdict: Verdict, h: Game)
    requires one == [] || (|one| == 1 && !one[0].NoFile?)
    requires Reaches((one + later) + tail, g, hooks, move, verdict, h)
    ensures one == [] ==> Reaches(later + tail, g, hooks, move, verdict, h)
    ensures one != [] ==>
              var (claimed, g1) := Ask(one[0], g, hooks, move);
              if claimed then verdict == Claimed && h == g1
              else Reaches(later + tail, g1, hooks, move, verdict, h)
  {
    ConcatAssoc(one, later, tail);
    if one == [] {
      assert one + (later + tail) == later + tail;
    } else {
      FirstClaimSkip(one[0], later + tail, g, hooks, move);
      assert one == [one[0]];
    }
  }

  /** `checkRoleCardSpecialMoves`, with the card loop testing each card's own
      object. A TypeError is reported as the `Crashed` verdict together with
      the game at the time it was thrown. */
  method CheckRoleCardSpecialMoves(g: Game, cat: Catalog, hooks: Hooks, move: Option<Move>)
    returns (verdict: Verdict, h: Game)
    ensures verdict == Dispatch(g, cat, hooks, move).verdict
    ensures h == Dispatch(g, cat, hooks, move).game
  {
    ghost var run := Dispatch(g, cat, hooks, move);
    var done;
    done, verdict, h := RoleLoop(g.roleKeys, CardRefs(g.cardKeys, cat), g, cat, hooks, move, run.verdict, run.game);
    if !done {
      ConcatEmpty(CardRefs(g.cardKeys, cat));
      verdict, h := CardLoop(g.cardKeys, h, cat, hooks, move, run.verdict, run.game);
    }
  }

  /** The role loop: ask each role key's object in turn. It ends the
      consultation on a claim or a missing object; otherwise the card loop
      still has to reach the outcome. */
  method RoleLoop(keys: seq<string>, cards: seq<HookRef>, g: Game, cat: Catalog, hooks: Hooks, move: Option<Move>,
                  ghost verdict0: Verdict, ghost h0: Game)
    returns (done: bool, verdict: Verdict, h: Game)
    requires Reaches(RoleRefs(keys, cat) + cards, g, hooks, move, verdict0, h0)
    ensures done ==> verdict == verdict0 && h == h0
    ensures !done ==> Reaches(cards, h, hooks, move, verdict0, h0)
  {
    h := g;
    var i := 0;
    while i < |keys|
      invariant 0 <= i <= |keys|
      invariant Reaches(RoleRefs(keys[i..], cat) + cards, h, hooks, move, verdict0, h0)
    {
      RoleRefsStep(keys, i, cat);
      done, verdict, h := RoleStep(keys[i], RoleRefs(keys[i + 1..], cat), cards, h, cat, hooks, move, verdict0, h0);
      if done {
        return;
      }
      i := i + 1;
    }
    assert keys[i..] == [];
    ConcatEmptyFront(cards);
    return false, Unclaimed, h;
  }

  /** One pass of the role loop body: a key without a role object throws, a
      role object without `checkSpecialMove` is skipped, and otherwise its
      hook is asked and a claim ends the loop. */
  method RoleStep(key: string, later: seq<HookRef>, tail: seq<HookRef>, g: Game, cat: Catalog, hooks: Hooks,
                  move: Option<Move>, ghost verdict0: Verdict, ghost h0: Game)
    returns (done: bool, verdict: Verdict, h: Game)
    requires Reaches((RoleRef(key, cat) + later) + tail, g, hooks, move, verdict0, h0)
    ensures done ==> verdict == verdict0 && h == h0
    ensures !done ==> Reaches(later + tail, h, hooks, move, verdict0, h0)
  {
    if key !in cat.roles {
      assert ((RoleRef(key, cat) + later) + tail)[0] == NoFile(key);
      return true, Crashed, g;
    }
    LoopStep(RoleRef(key, cat), later, tail, g, hooks, move, verdict0, h0);
    if !cat.roles[key].hasSpecialMove {
      return false, Unclaimed, g;
    }
    var (claimed, h1) := hooks.roleSpecialMove(key, g, move);
    return claimed, if claimed then Claimed else Unclaimed, h1;
  }

  /** The card loop, testing each card's own object. */
  method CardLoop(keys: seq<string>, g: Game, cat: Catalog, hooks: Hooks, move: Option<Move>,
                  ghost verdict0: Verdict, ghost h0: Game)
    returns (verdict: Verdict, h: Game)
    requires Reaches(CardRefs(keys, cat) + [], g, hooks, move, verdict0, h0)
    ensures verdict == verdict0 && h == h0
  {
    h := g;
    var j := 0;
    while j < |keys|
      invariant 0 <= j <= |keys|
      invariant Reaches(CardRefs(keys[j..], cat) + [], h, hooks, move, verdict0, h0)
    {
      CardRefsStep(keys, j, cat);
      var done;
      done, verdict, h := CardStep(keys[j], CardRefs(keys[j + 1..], cat), h, cat, hooks, move, verdict0, h0);
      if done {
        return;
      }
      j := j + 1;
    }
    assert keys[j..] == [];
    return Unclaimed, h;
  }

  /** One pass of the card loop body, testing the card's own object. */
  method CardStep(key: string, later: seq<HookRef>, g: Game, cat: Catalog, hooks: Hooks,
                  move: Option<Move>, ghost verdict0: Verdict, ghost h0: Game)
    returns (done: bool, verdict: Verdict, h: Game)
    requires Reaches((CardRef(key, cat) + later) + [], g, hooks, move, verdict0, h0)
    ensures done ==> verdict == verdict0 && h == h0
    ensures !done ==> Reaches(later + [], h, hooks, move, verdict0, h0)
  {
    if key !in cat.cards {
      assert ((CardRef(key, cat) + later) + [])[0] == NoFile(key);
      return true, Crashed, g;
    }
    LoopStep(CardRef(key, cat), later, [], g, hooks, move, verdict0, h0);
    if !cat.cards[key].hasSpecialMove {
      return false, Unclaimed, g;
    }
    var (claimed, h1) := hooks.cardSpecialMove(key, g, move);
    return claimed, if claimed then Claimed else Unclaimed, h1;
  }

  /** The card loop as written: whether a card defines `checkSpecialMove` is
      read from `specialCards[roleKeysInPlay[i]]`, the object of the role key
      at the same index, while the hook called is the card's own. A missing
      object at either place throws, as does calling a hook the card's object
      does not define. */
  function CardLoopAsWritten(roleKeys: seq<string>, cardKeys: seq<string>, i: nat, cat: Catalog,
                             g: Game, hooks: Hooks, move: Option<Move>): (r: Run)
    ensures r.verdict == Claimed ==> |r.calls| > 0 && r.calls[|r.calls| - 1].1
    ensures forall k :: 0 <= k < |r.calls| ==> r.calls[k].0.CardHook?
    decreases |cardKeys| - i
  {
    if i >= |cardKeys| then Run(Unclaimed, g, [])
    else if i >= |roleKeys| || roleKeys[i] !in cat.cards then Run(Crashed, g, [])
    else if !cat.cards[roleKeys[i]].hasSpecialMove then CardLoopAsWritten(roleKeys, cardKeys, i + 1, cat, g, hooks, move)
    else if cardKeys[i] !in cat.cards || !cat.cards[cardKeys[i]].hasSpecialMove then Run(Crashed, g, [])
    else
      var (claimed, g1) := hooks.cardSpecialMove(cardKeys[i], g, move);
      if claimed then Run(Claimed, g1, [(CardHook(cardKeys[i]), true)])
      else
        var rest := CardLoopAsWritten(roleKeys, cardKeys, i + 1, cat, g1, hooks, move);
        rest.(calls := [(CardHook(cardKeys[i]), false)] + rest.calls)
  }

  /** `checkRoleCardSpecialMoves` as written: the role loop, then the card
      loop above when no role claimed the move. */
  function DispatchAsWritten(g: Game, cat: Catalog, hooks: Hooks, move: Option<Move>): (r: Run)
    ensures g.cardKeys == [] ==> r == Dispatch(g, cat, hooks, move)
  {
    var roles := FirstClaim(RoleRefs(g.roleKeys, cat), g, hooks, move);
    if roles.verdict != Unclaimed then
      assert g.cardKeys == [] ==> RoleRefs(g.roleKeys, cat) + CardRefs(g.cardKeys, cat) == RoleRefs(g.roleKeys, cat);
      roles
    else
      var cards := CardLoopAsWritten(g.roleKeys, g.cardKeys, 0, cat, roles.game, hooks, move);
      assert g.cardKeys == [] ==> RoleRefs(g.roleKeys, cat) + CardRefs(g.cardKeys, cat) == RoleRefs(g.roleKeys, cat);
      cards.(calls := roles.calls + cards.calls)
  }

  /** One role without a hook of its own and one card with a hook: the loop
      as written looks up the role's key among the cards and throws, where
      the intended loop asks the card. */
  lemma CardLoopAsWrittenCrashes(hooks: Hooks)
    ensures var cat := Catalog(map["merlin" := RoleDef("Resistance", "Merlin", false)],
                               map["lady" := CardDef(true)], {}, {});
      var g := NewGame().(roleKeys := ["merlin"], cardKeys := ["lady"]);
      && DispatchAsWritten(g, cat, hooks, None).verdict == Crashed
      && DispatchAsWritten(g, cat, hooks, None).calls == []
      && Dispatch(g, cat, hooks, None).verdict != Crashed
      && Dispatch(g, cat, hooks, None).calls[0].0 == CardHook("lady")
  {
    var cat := Catalog(map["merlin" := RoleDef("Resistance", "Merlin", false)], map["lady" := CardDef(true)], {}, {});
    var g := NewGame().(roleKeys := ["merlin"], cardKeys := ["lady"]);
    assert RoleRefs(g.roleKeys, cat) == [];
    assert CardRefs(g.cardKeys, cat) == [CardHook("lady")];
    assert Consult(g, cat) == [CardHook("lady")];
  }

  /** Where `gameMove` sends a move: the phase's object among the common
      phases, else among the special phases, else nowhere, with an alert to
      every socket ("ERROR LET ADMIN KNOW IF YOU SEE THIS"). */
  datatype Routed = Routed(game: Game, adminAlert: bool)

  function RoutePhase(g: Game, cat: Catalog, hooks: Hooks, m: Move): Routed {
    if g.phase in cat.commonPhases then Routed(hooks.commonPhaseMove(g.phase, g, m), false)
    else if g.phase in cat.specialPhases then Routed(hooks.specialPhaseMove(g.phase, g, m), false)
    else Routed(g, true)
  }

  datatype MoveOutcome = MoveOutcome(run: Run, adminAlert: bool)

  /** `gameMove(socket, data)`: route the move, then offer it to the roles and
      cards in play whatever the routing did. */
  function GameMove(g: Game, cat: Catalog, hooks: Hooks, m: Move): (r: MoveOutcome)
    ensures r.adminAlert <==> g.phase !in cat.commonPhases && g.phase !in cat.specialPhases
    ensures r.adminAlert ==> r.run == Dispatch(g, cat, hooks, Some(m))
    ensures g.phase in cat.commonPhases ==>
              r.run == Dispatch(hooks.commonPhaseMove(g.phase, g, m), cat, hooks, Some(m))
    ensures g.phase !in cat.commonPhases && g.phase in cat.specialPhases ==>
              r.run == Dispatch(hooks.specialPhaseMove(g.phase, g, m), cat, hooks, Some(m))
  {
    var routed := RoutePhase(g, cat, hooks, m);
    MoveOutcome(Dispatch(routed.game, cat, hooks, Some(m)), routed.adminAlert)
  }

  /** A phase listed as common is never handed to a special phase object. */
  lemma CommonPhaseWins(g: Game, cat: Catalog, hooks: Hooks, m: Move, other: (string, Game, Move) -> Game)
    requires g.phase in cat.commonPhases
    ensures GameMove(g, cat, hooks.(specialPhaseMove := other), m).run.game ==
            Dispatch(hooks.commonPhaseMove(g.phase, g, m), cat, hooks.(specialPhaseMove := other), Some(m)).game
  {
  }

  /** The winner names `finishGame` stores; any other argument keeps the
      current winner. */
  function WinnerAfter(toBeWinner: string, current: string): (w: string)
    ensures toBeWinner == "Resistance" ==> w == "resistance"
    ensures toBeWinner == "Spy" ==> w == "spies"
    ensures toBeWinner != "Resistance" && toBeWinner != "Spy" ==> w == current
  {
    if toBeWinner == "Resistance" then "resistance"
    else if toBeWinner == "Spy" then "spies"
    else current
  }

  /** What `finishGame` leaves: the game, whether it ran to the end, and the
      verdict of the consultation it made. */
  datatype Finish = Finish(game: Game, completed: bool, verdict: Verdict)

  /** `finishGame(toBeWinner)`, state part: enter the finished phase, let the
      roles and cards react with no move, and stop if one claimed, if one
      moved the phase elsewhere (an assassination, say) or on a TypeError;
      otherwise mark the match finished, record the winner and clear the
      votes. Database records and messages are not part of this. */
  function FinishGame(g: Game, toBeWinner: string, cat: Catalog, hooks: Hooks): (r: Finish)
    ensures var run := Dispatch(g.(phase := FinishedPhase), cat, hooks, None);
      && r.verdict == run.verdict
      && (r.completed <==> run.verdict == Unclaimed && run.game.phase == FinishedPhase)
      && (!r.completed ==> r.game == run.game)
      && (r.completed ==>
            && r.game.finished && r.game.phase == FinishedPhase
            && r.game.votes == [] && r.game.publicVotes == []
            && r.game.winner == WinnerAfter(toBeWinner, run.game.winner)
            && r.game.(finished := run.game.finished, winner := run.game.winner,
                       votes := run.game.votes, publicVotes := run.game.publicVotes) == run.game)
  {
    var run := Dispatch(g.(phase := FinishedPhase), cat, hooks, None);
    if run.verdict != Unclaimed || run.game.phase != FinishedPhase then Finish(run.game, false, run.verdict)
    else
      var h := run.game;
      Finish(h.(finished := true, winner := WinnerAfter(toBeWinner, h.winner), votes := [], publicVotes := []),
             true, run.verdict)
  }

  /** With no role or card hook in play the match always finishes, and the
      only changes are the phase, the flag, the winner and the votes. */
  lemma FinishWithoutHooks(g: Game, toBeWinner: string, cat: Catalog, hooks: Hooks)
    requires Consult(g, cat) == []
    ensures var r := FinishGame(g, toBeWinner, cat, hooks);
      && r.completed
      && r.game == g.(phase := FinishedPhase, finished := true, winner := WinnerAfter(toBeWinner, g.winner),
                      votes := [], publicVotes := [])
  {
    assert Consult(g.(phase := FinishedPhase), cat) == Consult(g, cat);
  }

  /** `getStatus`: a finished match reports so even when frozen, a frozen one
      before reporting play, and a started one before waiting. */
  function GetStatus(g: Game): (s: string)
    ensures s in {"Finished", "Frozen", "Game in progress", "Waiting"}
    ensures s == "Finished" <==> g.finished
    ensures s == "Frozen" <==> !g.finished && g.frozen
    ensures s == "Game in progress" <==> !g.finished && !g.frozen && g.started
  {
    if g.finished then "Finished"
    else if g.frozen then "Frozen"
    else if g.started then "Game in progress"
    else "Waiting"
  }

  /** A completed `finishGame` leaves a match whose status is "Finished". */
  lemma FinishedStatus(g: Game, toBeWinner: string, cat: Catalog, hooks: Hooks)
    requires FinishGame(g, toBeWinner, cat, hooks).completed
    ensures GetStatus(FinishGame(g, toBeWinner, cat, hooks).game) == "Finished"
  {
  }
}
