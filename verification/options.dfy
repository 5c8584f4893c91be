/** How `startGame` sorts the host's selected options into resistance roles,
    spy roles and cards. Options are the host's key/flag pairs in the order
    JavaScript enumerates them; only a flag that is exactly `true` selects. */
module Options {
  import opened Match

  type Choice = (string, bool)

  datatype Selection = Selection(
    resRoles: seq<string>,
    spyRoles: seq<string>,
    roleKeys: seq<string>,
    cardKeys: seq<string>)

  predicate Selected(options: seq<Choice>, key: string) {
    exists i :: 0 <= i < |options| && options[i] == (key, true)
  }

  /** The option loop of `startGame`: a selected key with a role file adds the
      role's name to its alliance's list (a file of any other alliance adds to
      neither) and the key to the roles in play; otherwise a selected key with
      a card file goes to the cards in play; an unknown key is skipped. */
  function SplitOptions(options: seq<Choice>, cat: Catalog): (s: Selection)
    ensures forall i :: 0 <= i < |s.roleKeys| ==> s.roleKeys[i] in cat.roles
    ensures forall i :: 0 <= i < |s.cardKeys| ==> s.cardKeys[i] in cat.cards && s.cardKeys[i] !in cat.roles
    ensures |s.resRoles| + |s.spyRoles| <= |s.roleKeys|
  {
    if options == [] then Selection([], [], [], [])
    else
      var k := |options| - 1;
      var s := SplitOptions(options[..k], cat);
      var key := options[k].0;
      if !options[k].1 then s
      else if key in cat.roles then
        var d := cat.roles[key];
        s.(resRoles := s.resRoles + (if d.alliance == "Resistance" then [d.role] else []),
           spyRoles := s.spyRoles + (if d.alliance == "Spy" then [d.role] else []),
           roleKeys := s.roleKeys + [key])
      else if key in cat.cards then s.(cardKeys := s.cardKeys + [key])
      else s
  }

  /** A key is a role in play exactly when it is selected and has a role file;
      it is a card in play exactly when it is selected, has a card file and no
      role file. A name is on an alliance's role list exactly when a selected
      role file of that alliance carries it. */
  lemma {:induction false} SplitOptionsContents(options: seq<Choice>, cat: Catalog, key: string, name: string)
    ensures key in SplitOptions(options, cat).roleKeys <==> Selected(options, key) && key in cat.roles
    ensures key in SplitOptions(options, cat).cardKeys <==>
              Selected(options, key) && key !in cat.roles && key in cat.cards
    ensures name in SplitOptions(options, cat).resRoles <==>
              exists i :: 0 <= i < |options| && options[i].1 && options[i].0 in cat.roles
                && cat.roles[options[i].0] == RoleDef("Resistance", name, cat.roles[options[i].0].hasSpecialMove)
    ensures name in SplitOptions(options, cat).spyRoles <==>
              exists i :: 0 <= i < |options| && options[i].1 && options[i].0 in cat.roles
                && cat.roles[options[i].0] == RoleDef("Spy", name, cat.roles[options[i].0].hasSpecialMove)
  {
    if options != [] {
      var k := |options| - 1;
      SplitOptionsContents(options[..k], cat, key, name);
      assert forall i :: 0 <= i < k ==> options[..k][i] == options[i];
      assert Selected(options, key) <==> Selected(options[..k], key) || options[k] == (key, true);
    }
  }

  /** Unselected and unknown options make no difference. */
  lemma {:induction false} IgnoredOptions(options: seq<Choice>, extra: Choice, cat: Catalog)
    requires !extra.1 || (extra.0 !in cat.roles && extra.0 !in cat.cards)
    ensures SplitOptions(options + [extra], cat) == SplitOptions(options, cat)
  {
    assert (options + [extra])[..|options|] == options;
  }
}
