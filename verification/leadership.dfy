/** Who leads the current pick, and which seat holds the hammer (the fifth
    and last pick of a mission). */
module Leadership {
  import opened Match

  /** JavaScript's `%` by a positive divisor: the remainder takes the sign of
      the dividend, and agrees with the Euclidean one on non-negative dividends. */
  function JsRem(a: int, n: int): (r: int)
    requires n > 0
    ensures a >= 0 ==> r == a % n
    ensures -n < r < n
    ensures a <= 0 ==> r <= 0
  {
    if a >= 0 then a % n else -((-a) % n)
  }

  /** Euclidean division is unique: any split `q * n + r` with `0 <= r < n` is it. */
  lemma ModUnique(a: int, n: int, q: int, r: int)
    requires n > 0 && 0 <= r < n && a == q * n + r
    ensures a % n == r
  {
    var q0, r0 := a / n, a % n;
    assert a == q0 * n + r0;
    assert (q - q0) * n == r0 - r;
    if q > q0 {
      MulAtLeast(q - q0, n);
    } else if q < q0 {
      MulAtLeast(q0 - q, n);
    }
  }

  lemma MulAtLeast(d: int, n: int)
    requires d >= 1 && n > 0
    ensures d * n >= n
  {
  }

  /** The hammer seat `startGame` sets from the first leader of `n` players. */
  function HammerSeat(leader: int, n: int): (h: int)
    requires n > 0
    ensures 0 <= leader < n && n >= 4 ==> 0 <= h < n && h == (leader - 4) % n
  {
    HammerArithmetic(leader, n);
    JsRem(leader - 5 + 1 + n, n)
  }

  lemma HammerArithmetic(leader: int, n: int)
    requires n > 0
    ensures 0 <= leader < n && n >= 4 ==> (leader - 4 + n) % n == (leader - 4) % n
  {
    if 0 <= leader < n && n >= 4 {
      if leader >= 4 {
        ModUnique(leader - 4 + n, n, 1, leader - 4);
        ModUnique(leader - 4, n, 0, leader - 4);
      } else {
        ModUnique(leader - 4 + n, n, 0, leader - 4 + n);
        ModUnique(leader - 4, n, -1, leader - 4 + n);
      }
    }
  }

  /** `incrementTeamLeader`: the lead passes one seat backwards, wrapping from
      seat 0 to the last seat, and the pick number goes up by one. */
  function IncrementTeamLeader(g: Game): (r: Game)
    ensures r == g.(teamLeader := r.teamLeader, pickNum := g.pickNum + 1)
    ensures 0 <= g.teamLeader < |g.players| ==>
              0 <= r.teamLeader < |g.players| && r.teamLeader == (g.teamLeader - 1) % |g.players|
  {
    var leader := g.teamLeader - 1;
    g.(teamLeader := if leader < 0 then |g.players| - 1 else leader, pickNum := g.pickNum + 1)
  }

  /** `k` successive calls of `incrementTeamLeader`. */
  function Rotate(g: Game, k: nat): Game {
    if k == 0 then g else IncrementTeamLeader(Rotate(g, k - 1))
  }

  /** After `k` rotations the leader is `k` seats further back and `k` picks
      have been counted; nothing else has changed. */
  lemma {:induction false} RotateMoves(g: Game, k: nat)
    requires 0 <= g.teamLeader < |g.players|
    ensures var r := Rotate(g, k);
      && r == g.(teamLeader := r.teamLeader, pickNum := g.pickNum + k)
      && 0 <= r.teamLeader < |g.players|
      && r.teamLeader == (g.teamLeader - k) % |g.players|
  {
    if k > 0 {
      RotateMoves(g, k - 1);
      var n := |g.players|;
      var prev := Rotate(g, k - 1);
      assert (prev.teamLeader - 1) % n == (g.teamLeader - k) % n by {
        assert prev.teamLeader - 1 == (g.teamLeader - k + 1) % n - 1;
        ModShift(g.teamLeader - k + 1, n);
      }
    }
  }

  lemma ModShift(a: int, n: int)
    requires n > 0
    ensures (a % n - 1) % n == (a - 1) % n
  {
    var q, r := a / n, a % n;
    assert a == q * n + r;
    if r == 0 {
      ModUnique(a - 1, n, q - 1, n - 1);
      ModUnique(r - 1, n, -1, n - 1);
    } else {
      ModUnique(a - 1, n, q, r - 1);
      ModUnique(r - 1, n, 0, r - 1);
    }
  }

  /** Four passes of the lead from the first leader of a 5-10 player match end
      on the hammer seat, on the fifth pick. */
  lemma FourthRotationReachesHammer(g: Game)
    requires 5 <= |g.players| <= 10
    requires 0 <= g.teamLeader < |g.players|
    requires g.hammer == HammerSeat(g.teamLeader, |g.players|)
    requires g.pickNum == 1
    ensures Rotate(g, 4).teamLeader == g.hammer
    ensures Rotate(g, 4).pickNum == 5
  {
    RotateMoves(g, 4);
  }

  /** A full round of `n` passes gives the lead back to the seat it started at. */
  lemma FullRoundReturns(g: Game)
    requires 0 <= g.teamLeader < |g.players|
    ensures Rotate(g, |g.players|).teamLeader == g.teamLeader
  {
    var n := |g.players|;
    RotateMoves(g, n);
    ModUnique(g.teamLeader - n, n, -1, g.teamLeader);
  }
}
