/** The vote-history ledger: for every player, a sparse array of missions,
    each a sparse array of picks, each a string of space-separated tags.
    JavaScript's sparse arrays become maps from index to entry. */
module Ledger {
  import opened Collections

  type Picks = map<int, string>
  type Missions = map<int, Picks>
  type Ledger = map<string, Missions>

  /** The tag string at (user, mission index, pick index), if the cell exists. */
  function CellAt(vh: Ledger, u: string, mi: int, pi: int): Option<string> {
    if u in vh && mi in vh[u] && pi in vh[u][mi] then Some(vh[u][mi][pi]) else None
  }

  predicate HasUsers(vh: Ledger, users: seq<string>) {
    forall i :: 0 <= i < |users| ==> users[i] in vh
  }

  /** Nothing is removed from `a`: the same users and missions, and every
      cell of `a` is still present in `b`, its old text a prefix of the new. */
  ghost predicate AppendOnly(a: Ledger, b: Ledger) {
    && a.Keys == b.Keys
    && (forall u, mi :: u in a && mi in a[u] ==> mi in b[u])
    && (forall u, mi, pi :: CellAt(a, u, mi, pi).Some? ==>
          CellAt(b, u, mi, pi).Some? && CellAt(a, u, mi, pi).value <= CellAt(b, u, mi, pi).value)
  }

  /** Two ledgers with the same users, missions and cells are equal. */
  lemma LedgerExtensionality(a: Ledger, b: Ledger)
    requires a.Keys == b.Keys
    requires forall u :: u in a ==> a[u].Keys == b[u].Keys
    requires forall u, mi, pi :: CellAt(a, u, mi, pi) == CellAt(b, u, mi, pi)
    ensures a == b
  {
    forall u | u in a
      ensures a[u] == b[u]
    {
      forall mi | mi in a[u]
        ensures a[u][mi] == b[u][mi]
      {
        forall pi
          ensures pi in a[u][mi] <==> pi in b[u][mi]
        {
          assert CellAt(a, u, mi, pi) == CellAt(b, u, mi, pi);
        }
        forall pi | pi in a[u][mi]
          ensures a[u][mi][pi] == b[u][mi][pi]
        {
          assert CellAt(a, u, mi, pi) == CellAt(b, u, mi, pi);
        }
      }
    }
  }

  /** Same users, same missions per user and same picks per mission. */
  predicate SameShape(a: Ledger, b: Ledger) {
    && a.Keys == b.Keys
    && (forall u :: u in a ==> a[u].Keys == b[u].Keys)
    && (forall u, mi :: u in a && mi in a[u] ==> a[u][mi].Keys == b[u][mi].Keys)
  }

  /** The per-player body of `VHCheckUndefined`: create the mission array and
      the pick entry "" when they are undefined. */
  function EnsureCell(vh: Ledger, u: string, mi: int, pi: int): (r: Ledger)
    requires u in vh
    ensures r.Keys == vh.Keys
    ensures forall v :: v in r ==> r[v].Keys == vh[v].Keys + (if v == u then {mi} else {})
    ensures CellAt(r, u, mi, pi).Some?
  {
    var missions := vh[u];
    var picks := if mi in missions then missions[mi] else map[];
    vh[u := missions[mi := if pi in picks then picks else picks[pi := ""]]]
  }

  /** Only the requested cell can appear, and it appears empty. */
  lemma EnsureCellAt(vh: Ledger, u: string, mi: int, pi: int, v: string, m: int, p: int)
    requires u in vh
    ensures CellAt(EnsureCell(vh, u, mi, pi), v, m, p) ==
              if v == u && m == mi && p == pi && CellAt(vh, v, m, p).None? then Some("")
              else CellAt(vh, v, m, p)
  {
  }

  /** `VHCheckUndefined`: for each player in seat order, make sure the cell
      of the current mission and pick exists. */
  function CheckUndefined(vh: Ledger, users: seq<string>, mi: int, pi: int): (r: Ledger)
    requires HasUsers(vh, users)
    ensures r.Keys == vh.Keys
    ensures forall v, m :: v in r ==> (m in r[v] <==> m in vh[v] || (v in users && m == mi))
  {
    if users == [] then vh
    else
      var last := users[|users| - 1];
      var front := users[..|users| - 1];
      var r := EnsureCell(CheckUndefined(vh, front, mi, pi), last, mi, pi);
      assert forall v :: v in users <==> v in front || v == last by {
        forall v ensures v in users <==> v in front || v == last {
          InFront(users, v);
        }
      }
      r
  }

  /** Existing cells keep their text; the missing current cells of the listed
      players start as "". */
  lemma {:induction false} CheckUndefinedAt(vh: Ledger, users: seq<string>, mi: int, pi: int, v: string, m: int, p: int)
    requires HasUsers(vh, users)
    ensures CellAt(CheckUndefined(vh, users, mi, pi), v, m, p) ==
              if v in users && m == mi && p == pi && CellAt(vh, v, m, p).None? then Some("")
              else CellAt(vh, v, m, p)
  {
    if users != [] {
      var last := users[|users| - 1];
      var front := users[..|users| - 1];
      InFront(users, v);
      CheckUndefinedAt(vh, front, mi, pi, v, m, p);
      EnsureCellAt(CheckUndefined(vh, front, mi, pi), last, mi, pi, v, m, p);
    }
  }

  /** After `VHCheckUndefined` every listed player has the current cell, and
      no cell that existed before has changed. */
  lemma CheckUndefinedCreatesCells(vh: Ledger, users: seq<string>, mi: int, pi: int)
    requires HasUsers(vh, users)
    ensures var r := CheckUndefined(vh, users, mi, pi);
      && (forall i :: 0 <= i < |users| ==> CellAt(r, users[i], mi, pi).Some?)
      && (forall v, m, p :: CellAt(vh, v, m, p).Some? ==> CellAt(r, v, m, p) == CellAt(vh, v, m, p))
      && AppendOnly(vh, r)
  {
    var r := CheckUndefined(vh, users, mi, pi);
    forall v, m, p
      ensures CellAt(r, v, m, p) ==
                if v in users && m == mi && p == pi && CellAt(vh, v, m, p).None? then Some("")
                else CellAt(vh, v, m, p)
    {
      CheckUndefinedAt(vh, users, mi, pi, v, m, p);
    }
  }

  /** Running `VHCheckUndefined` a second time changes nothing. */
  lemma CheckUndefinedIdempotent(vh: Ledger, users: seq<string>, mi: int, pi: int)
    requires HasUsers(vh, users)
    ensures HasUsers(CheckUndefined(vh, users, mi, pi), users)
    ensures CheckUndefined(CheckUndefined(vh, users, mi, pi), users, mi, pi) == CheckUndefined(vh, users, mi, pi)
  {
    var r := CheckUndefined(vh, users, mi, pi);
    var r2 := CheckUndefined(r, users, mi, pi);
    forall v, m, p
      ensures CellAt(r2, v, m, p) == CellAt(r, v, m, p)
    {
      CheckUndefinedAt(vh, users, mi, pi, v, m, p);
      CheckUndefinedAt(r, users, mi, pi, v, m, p);
    }
    LedgerExtensionality(r2, r);
  }

  /** Add `tag` to the end of an existing cell. */
  function AppendAt(vh: Ledger, u: string, mi: int, pi: int, tag: string): (r: Ledger)
    requires CellAt(vh, u, mi, pi).Some?
    ensures SameShape(vh, r)
  {
    vh[u := vh[u][mi := vh[u][mi][pi := vh[u][mi][pi] + tag]]]
  }

  /** Only the chosen cell changes, and it grows by `tag`. */
  lemma AppendAtCell(vh: Ledger, u: string, mi: int, pi: int, tag: string, v: string, m: int, p: int)
    requires CellAt(vh, u, mi, pi).Some?
    ensures CellAt(AppendAt(vh, u, mi, pi, tag), v, m, p) ==
              if v == u && m == mi && p == pi then Some(CellAt(vh, v, m, p).value + tag)
              else CellAt(vh, v, m, p)
  {
  }

  /** The concatenation, in seat order, of the tags of every seat held by `u`. */
  function TagsFor(users: seq<string>, tags: seq<string>, u: string): string
    requires |tags| == |users|
  {
    if users == [] then ""
    else
      var k := |users| - 1;
      TagsFor(users[..k], tags[..k], u) + (if users[k] == u then tags[k] else "")
  }

  /** When no user holds two seats, a user's tags are those of their seat. */
  lemma {:induction false} TagsForDistinct(users: seq<string>, tags: seq<string>, i: nat)
    requires |tags| == |users| && Distinct(users) && i < |users|
    ensures TagsFor(users, tags, users[i]) == tags[i]
  {
    var k := |users| - 1;
    if i < k {
      TagsForDistinct(users[..k], tags[..k], i);
    } else {
      TagsForAbsent(users[..k], tags[..k], users[i]);
    }
  }

  lemma TagsForSeats(users: seq<string>, tags: seq<string>)
    requires |tags| == |users|
    ensures Distinct(users) ==> forall i :: 0 <= i < |users| ==> TagsFor(users, tags, users[i]) == tags[i]
  {
    if Distinct(users) {
      forall i | 0 <= i < |users|
        ensures TagsFor(users, tags, users[i]) == tags[i]
      {
        TagsForDistinct(users, tags, i);
      }
    }
  }

  lemma {:induction false} TagsForAbsent(users: seq<string>, tags: seq<string>, u: string)
    requires |tags| == |users| && u !in users
    ensures TagsFor(users, tags, u) == ""
  {
    if users != [] {
      var k := |users| - 1;
      TagsForAbsent(users[..k], tags[..k], u);
    }
  }

  /** Player i's loop step appends tags[i] to player i's current cell; the
      steps run in seat order. */
  function AppendEach(vh: Ledger, users: seq<string>, tags: seq<string>, mi: int, pi: int): (r: Ledger)
    requires |tags| == |users|
    requires forall i :: 0 <= i < |users| ==> CellAt(vh, users[i], mi, pi).Some?
    ensures SameShape(vh, r)
  {
    if users == [] then vh
    else
      var k := |users| - 1;
      var r := AppendEach(vh, users[..k], tags[..k], mi, pi);
      assert CellAt(vh, users[k], mi, pi).Some?;
      AppendAt(r, users[k], mi, pi, tags[k])
  }

  /** After the loop, the current cell of each user has grown by the tags of
      all of that user's seats (none, for a user without a seat), and no other
      cell has changed. */
  lemma {:induction false} AppendEachCell(vh: Ledger, users: seq<string>, tags: seq<string>, mi: int, pi: int,
                                          v: string, m: int, p: int)
    requires |tags| == |users|
    requires forall i :: 0 <= i < |users| ==> CellAt(vh, users[i], mi, pi).Some?
    ensures CellAt(AppendEach(vh, users, tags, mi, pi), v, m, p) == Grown(vh, v, m, p, mi, pi, TagsFor(users, tags, v))
  {
    if users == [] {
      if m == mi && p == pi && CellAt(vh, v, m, p).Some? {
        ConcatEmpty(CellAt(vh, v, m, p).value);
      }
    } else {
      var k := |users| - 1;
      AppendEachCell(vh, users[..k], tags[..k], mi, pi, v, m, p);
      AppendEachCellStep(vh, users, tags, mi, pi, v, m, p);
    }
  }

  /** Cell (v, m, p) of `vh` with `extra` appended when it is an existing
      cell at (mi, pi). */
  function Grown(vh: Ledger, v: string, m: int, p: int, mi: int, pi: int, extra: string): Option<string> {
    if m == mi && p == pi && CellAt(vh, v, m, p).Some? then Some(CellAt(vh, v, m, p).value + extra)
    else CellAt(vh, v, m, p)
  }

  lemma AppendEachCellStep(vh: Ledger, users: seq<string>, tags: seq<string>, mi: int, pi: int,
                           v: string, m: int, p: int)
    requires |tags| == |users| > 0
    requires forall i :: 0 <= i < |users| ==> CellAt(vh, users[i], mi, pi).Some?
    requires var k := |users| - 1;
      CellAt(AppendEach(vh, users[..k], tags[..k], mi, pi), v, m, p) ==
        Grown(vh, v, m, p, mi, pi, TagsFor(users[..k], tags[..k], v))
    ensures CellAt(AppendEach(vh, users, tags, mi, pi), v, m, p) == Grown(vh, v, m, p, mi, pi, TagsFor(users, tags, v))
  {
    var k := |users| - 1;
    var front, ft := users[..k], tags[..k];
    var r := AppendEach(vh, front, ft, mi, pi);
    assert CellAt(vh, users[k], mi, pi).Some?;
    AppendAtCell(r, users[k], mi, pi, tags[k], v, m, p);
    if m == mi && p == pi && CellAt(vh, v, m, p).Some? {
      var before, tf := CellAt(vh, v, m, p).value, TagsFor(front, ft, v);
      assert TagsFor(users, tags, v) == tf + (if users[k] == v then tags[k] else "");
      if users[k] == v {
        ConcatAssoc(before, tf, tags[k]);
      } else {
        ConcatEmpty(tf);
      }
    }
  }

  /** The tags `VHUpdateTeamPick` gives the player in seat i: "VHpicked " when
      on the proposed team, then "VHleader " when in the leader's seat. */
  function PickTags(users: seq<string>, team: seq<string>, leader: int): (tags: seq<string>)
    ensures |tags| == |users|
  {
    seq(|users|, i requires 0 <= i < |users| =>
      (if users[i] in team then "VHpicked " else "") + (if i == leader then "VHleader " else ""))
  }

  /** `votes[i]` as JavaScript turns it into text: a missing ballot reads "undefined". */
  function VoteText(votes: seq<string>, i: nat): string {
    if i < |votes| then votes[i] else "undefined"
  }

  /** The tags `VHUpdateTeamVotes` gives the player in seat i: "VH" and their ballot. */
  function VoteTags(votes: seq<string>, n: nat): (tags: seq<string>)
    ensures |tags| == n
  {
    seq(n, i requires 0 <= i < n => "VH" + VoteText(votes, i))
  }

  /** The text a cell holds once `VHCheckUndefined` has run. */
  function Prior(vh: Ledger, u: string, mi: int, pi: int): string {
    match CellAt(vh, u, mi, pi)
    case Some(t) => t
    case None => ""
  }

  /** `VHCheckUndefined` followed by one append per seat: the shape shared by
      `VHUpdateTeamPick` and `VHUpdateTeamVotes`. */
  function AppendToCurrent(vh: Ledger, users: seq<string>, tags: seq<string>, mi: int, pi: int): (r: Ledger)
    requires HasUsers(vh, users) && |tags| == |users|
    ensures AppendOnly(vh, r)
    ensures forall v, m, p :: !(v in users && m == mi && p == pi) ==> CellAt(r, v, m, p) == CellAt(vh, v, m, p)
    ensures forall i :: 0 <= i < |users| ==>
              CellAt(r, users[i], mi, pi) == Some(Prior(vh, users[i], mi, pi) + TagsFor(users, tags, users[i]))
    ensures Distinct(users) ==> forall i :: 0 <= i < |users| ==>
              CellAt(r, users[i], mi, pi) == Some(Prior(vh, users[i], mi, pi) + tags[i])
  {
    CheckUndefinedCreatesCells(vh, users, mi, pi);
    AppendToCurrentCells(vh, users, tags, mi, pi);
    AppendToCurrentGrows(vh, users, tags, mi, pi);
    AppendToCurrentSeats(vh, users, tags, mi, pi);
    AppendEach(CheckUndefined(vh, users, mi, pi), users, tags, mi, pi)
  }

  /** Nothing is removed by `VHCheckUndefined` and the loop. */
  lemma AppendToCurrentGrows(vh: Ledger, users: seq<string>, tags: seq<string>, mi: int, pi: int)
    requires HasUsers(vh, users) && |tags| == |users|
    requires forall i :: 0 <= i < |users| ==> CellAt(CheckUndefined(vh, users, mi, pi), users[i], mi, pi).Some?
    ensures AppendOnly(vh, AppendEach(CheckUndefined(vh, users, mi, pi), users, tags, mi, pi))
  {
    var c := CheckUndefined(vh, users, mi, pi);
    var r := AppendEach(c, users, tags, mi, pi);
    AppendToCurrentCells(vh, users, tags, mi, pi);
    forall u, m, p | CellAt(vh, u, m, p).Some?
      ensures CellAt(r, u, m, p).Some? && CellAt(vh, u, m, p).value <= CellAt(r, u, m, p).value
    {
      if u in users && m == mi && p == pi {
        assert Prior(vh, u, m, p) == CellAt(vh, u, m, p).value;
      }
    }
  }

  /** With one seat per user, each current cell grows by its seat's tags. */
  lemma AppendToCurrentSeats(vh: Ledger, users: seq<string>, tags: seq<string>, mi: int, pi: int)
    requires HasUsers(vh, users) && |tags| == |users|
    requires forall i :: 0 <= i < |users| ==> CellAt(CheckUndefined(vh, users, mi, pi), users[i], mi, pi).Some?
    ensures var r := AppendEach(CheckUndefined(vh, users, mi, pi), users, tags, mi, pi);
      Distinct(users) ==> forall i :: 0 <= i < |users| ==>
        CellAt(r, users[i], mi, pi) == Some(Prior(vh, users[i], mi, pi) + tags[i])
  {
    AppendToCurrentCells(vh, users, tags, mi, pi);
    TagsForSeats(users, tags);
  }

  /** Every cell after `VHCheckUndefined` and the loop: the current cells of
      the listed players are their old text (or "") followed by their tags. */
  lemma AppendToCurrentCells(vh: Ledger, users: seq<string>, tags: seq<string>, mi: int, pi: int)
    requires HasUsers(vh, users) && |tags| == |users|
    requires forall i :: 0 <= i < |users| ==> CellAt(CheckUndefined(vh, users, mi, pi), users[i], mi, pi).Some?
    ensures var r := AppendEach(CheckUndefined(vh, users, mi, pi), users, tags, mi, pi);
      forall v, m, p :: CellAt(r, v, m, p) ==
        if v in users && m == mi && p == pi then Some(Prior(vh, v, m, p) + TagsFor(users, tags, v))
        else CellAt(vh, v, m, p)
  {
    forall v, m, p
      ensures CellAt(AppendEach(CheckUndefined(vh, users, mi, pi), users, tags, mi, pi), v, m, p) ==
        if v in users && m == mi && p == pi then Some(Prior(vh, v, m, p) + TagsFor(users, tags, v))
        else CellAt(vh, v, m, p)
    {
      AppendToCurrentCell(vh, users, tags, mi, pi, v, m, p);
    }
  }

  lemma AppendToCurrentCell(vh: Ledger, users: seq<string>, tags: seq<string>, mi: int, pi: int,
                            v: string, m: int, p: int)
    requires HasUsers(vh, users) && |tags| == |users|
    requires forall i :: 0 <= i < |users| ==> CellAt(CheckUndefined(vh, users, mi, pi), users[i], mi, pi).Some?
    ensures CellAt(AppendEach(CheckUndefined(vh, users, mi, pi), users, tags, mi, pi), v, m, p) ==
              if v in users && m == mi && p == pi then Some(Prior(vh, v, m, p) + TagsFor(users, tags, v))
              else CellAt(vh, v, m, p)
  {
    var c := CheckUndefined(vh, users, mi, pi);
    CheckUndefinedAt(vh, users, mi, pi, v, m, p);
    AppendEachCell(c, users, tags, mi, pi, v, m, p);
    if v !in users && m == mi && p == pi && CellAt(vh, v, m, p).Some? {
      TagsForAbsent(users, tags, v);
      ConcatEmpty(CellAt(vh, v, m, p).value);
    }
  }

  /** `VHUpdateTeamPick`: only the current cell of each player grows; with
      distinct usernames it grows by exactly that player's pick tags. */
  function UpdateTeamPick(vh: Ledger, users: seq<string>, team: seq<string>, leader: int, mi: int, pi: int): (r: Ledger)
    requires HasUsers(vh, users)
    ensures AppendOnly(vh, r)
    ensures forall v, m, p :: !(v in users && m == mi && p == pi) ==> CellAt(r, v, m, p) == CellAt(vh, v, m, p)
    ensures forall i :: 0 <= i < |users| ==>
              CellAt(r, users[i], mi, pi) ==
              Some(Prior(vh, users[i], mi, pi) + TagsFor(users, PickTags(users, team, leader), users[i]))
    ensures Distinct(users) ==> forall i :: 0 <= i < |users| ==>
              CellAt(r, users[i], mi, pi) == Some(Prior(vh, users[i], mi, pi) + PickTags(users, team, leader)[i])
  {
    AppendToCurrent(vh, users, PickTags(users, team, leader), mi, pi)
  }

  /** `VHUpdateTeamVotes`: only the current cell of each player grows; with
      distinct usernames it grows by exactly "VH" and that player's ballot. */
  function UpdateTeamVotes(vh: Ledger, users: seq<string>, votes: seq<string>, mi: int, pi: int): (r: Ledger)
    requires HasUsers(vh, users)
    ensures AppendOnly(vh, r)
    ensures forall v, m, p :: !(v in users && m == mi && p == pi) ==> CellAt(r, v, m, p) == CellAt(vh, v, m, p)
    ensures forall i :: 0 <= i < |users| ==>
              CellAt(r, users[i], mi, pi) ==
              Some(Prior(vh, users[i], mi, pi) + TagsFor(users, VoteTags(votes, |users|), users[i]))
    ensures Distinct(users) ==> forall i :: 0 <= i < |users| ==>
              CellAt(r, users[i], mi, pi) == Some(Prior(vh, users[i], mi, pi) + "VH" + VoteText(votes, i))
  {
    VoteTagsText(vh, users, votes, mi, pi);
    AppendToCurrent(vh, users, VoteTags(votes, |users|), mi, pi)
  }

  lemma VoteTagsText(vh: Ledger, users: seq<string>, votes: seq<string>, mi: int, pi: int)
    ensures forall i :: 0 <= i < |users| ==>
      Prior(vh, users[i], mi, pi) + VoteTags(votes, |users|)[i] == Prior(vh, users[i], mi, pi) + "VH" + VoteText(votes, i)
  {
    forall i | 0 <= i < |users|
      ensures Prior(vh, users[i], mi, pi) + VoteTags(votes, |users|)[i] == Prior(vh, users[i], mi, pi) + "VH" + VoteText(votes, i)
    {
      var x, y := Prior(vh, users[i], mi, pi), VoteText(votes, i);
      assert VoteTags(votes, |users|)[i] == "VH" + y;
      ConcatAssoc(x, "VH", y);
    }
  }
}
