/** The constant tables of a match: the alliance template dealt over the
    seats and the per-player-count mission table, whose starred cells mark
    the missions that need two fail ballots. */
module Tables {
  import opened Collections

  datatype Alliance = Resistance | Spy

  /** The alliance string the game stores and shows ("Resistance" / "Spy"). */
  function AllianceName(a: Alliance): string {
    match a
    case Resistance => "Resistance"
    case Spy => "Spy"
  }

  const MinPlayers: nat := 5
  const MaxPlayers: nat := 10

  /** Alliance template: with N players the entries 0..N-1 are dealt. */
  const AllianceTemplate: seq<Alliance> :=
    [Resistance, Resistance, Resistance, Spy, Spy, Resistance, Spy, Resistance, Resistance, Spy]

  /** Team size per mission, one row per player count 5..10; a `*` marks a
      mission that fails only on two fail ballots. */
  const MissionTable: seq<seq<string>> := [
    ["2", "3", "2", "3", "3"],
    ["2", "3", "4", "3", "4"],
    ["2", "3", "3", "4*", "4"],
    ["3", "4", "4", "5*", "5"],
    ["3", "4", "4", "5*", "5"],
    ["3", "4", "4", "5*", "5"]
  ]

  /** `numPlayersOnMission[N - minPlayers]`: undefined outside 5..10 players. */
  function MissionRow(numPlayers: int): (row: Option<seq<string>>)
    ensures row.Some? <==> MinPlayers <= numPlayers <= MaxPlayers
    ensures row.Some? ==> |row.value| == 5
  {
    if MinPlayers <= numPlayers <= MaxPlayers then Some(MissionTable[numPlayers - MinPlayers]) else None
  }

  predicate IsTwoFailCell(cell: string) {
    |cell| > 0 && cell[|cell| - 1] == '*'
  }

  /** The rule `calcMissionVotes` applies: seven or more players and mission 4. */
  predicate RequiresTwoFails(numPlayers: int, missionNum: int) {
    numPlayers >= 7 && missionNum == 4
  }

  /** The starred cells of the mission table are exactly the missions the
      two-fail rule applies to. */
  lemma TwoFailCellsMatchRule(numPlayers: int, missionNum: int)
    requires MinPlayers <= numPlayers <= MaxPlayers && 1 <= missionNum <= 5
    ensures MissionRow(numPlayers).Some?
    ensures IsTwoFailCell(MissionRow(numPlayers).value[missionNum - 1])
            <==> RequiresTwoFails(numPlayers, missionNum)
  {
  }

  /** Number of spies dealt for each table size 5..10. */
  const SpiesPerSize: seq<nat> := [2, 2, 3, 3, 3, 4]

  /** Spies among the first k template entries, k = 0..10. */
  const SpiesInPrefix: seq<nat> := [0, 0, 0, 0, 1, 2, 2, 3, 3, 3, 4]

  lemma {:induction false} PrefixCounts(k: nat)
    requires k <= |AllianceTemplate|
    ensures multiset(AllianceTemplate[..k])[Spy] == SpiesInPrefix[k]
    ensures multiset(AllianceTemplate[..k])[Resistance] == k - SpiesInPrefix[k]
  {
    if k > 0 {
      var t := AllianceTemplate;
      PrefixCounts(k - 1);
      assert t[..k] == t[..k - 1] + [t[k - 1]];
      assert multiset(t[..k]) == multiset(t[..k - 1]) + multiset{t[k - 1]};
    }
  }

  /** The first N entries of the template hold 2, 2, 3, 3, 3, 4 spies for
      N = 5..10, and resistance members in every other entry. */
  lemma TemplateSplit(n: nat)
    requires MinPlayers <= n <= MaxPlayers
    ensures multiset(AllianceTemplate[..n])[Spy] == SpiesPerSize[n - MinPlayers]
    ensures multiset(AllianceTemplate[..n])[Resistance] == n - SpiesPerSize[n - MinPlayers]
  {
    PrefixCounts(n);
  }
}
