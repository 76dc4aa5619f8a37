/**
 * Per-user, per-game statistics: the counter arithmetic of `updateStats`, the
 * all-zero record `getStats` returns for a missing row, and the `PUT` route's
 * type check on `won`.
 */
module UserStats {
  import opened Wrappers

  /** One `user_stats` row's counters. */
  datatype Stats = Stats(
    gamesPlayed: int,
    wins: int,
    currentStreak: int,
    maxStreak: int,
    duoPlayed: int,
    duoWins: int,
    totalAttempts: int)

  /** `getStats`: a missing row reads as all-zero counters. */
  function GetStats(row: Option<Stats>): (s: Stats)
    ensures row.Some? ==> s == row.value
    ensures row.None? ==> s.gamesPlayed == s.wins == s.currentStreak == s.maxStreak == 0
    ensures row.None? ==> s.duoPlayed == s.duoWins == s.totalAttempts == 0
  {
    if row.Some? then row.value else Stats(0, 0, 0, 0, 0, 0, 0)
  }

  function Max(a: int, b: int): int { if a >= b then a else b }

  /** The relations between counters that every reachable row satisfies. */
  predicate Consistent(s: Stats) {
    && 0 <= s.wins <= s.gamesPlayed
    && 0 <= s.duoWins <= s.duoPlayed <= s.gamesPlayed
    && s.duoWins <= s.wins
    && s.wins - s.duoWins <= s.gamesPlayed - s.duoPlayed
    && 0 <= s.currentStreak <= s.maxStreak <= s.wins
  }

  /** The new counters `updateStats` writes after one finished game; it keeps consistent counters consistent. */
  function UpdateStats(cur: Stats, won: bool, isDuo: bool, attempts: int): (next: Stats)
    ensures Consistent(cur) ==> Consistent(next)
  {
    var streak := if won then cur.currentStreak + 1 else 0;
    Stats(
      cur.gamesPlayed + 1,
      cur.wins + (if won then 1 else 0),
      streak,
      Max(cur.maxStreak, streak),
      cur.duoPlayed + (if isDuo then 1 else 0),
      cur.duoWins + (if isDuo && won then 1 else 0),
      cur.totalAttempts + attempts)
  }

  /** One finished game as the `PUT` body reports it. */
  datatype Outcome = Outcome(won: bool, isDuo: bool, attempts: int)

  /** The row after a history of games, starting from the missing row. */
  function Replay(h: seq<Outcome>): Stats {
    if |h| == 0 then GetStats(None)
    else
      var last := h[|h| - 1];
      UpdateStats(Replay(h[..|h| - 1]), last.won, last.isDuo, last.attempts)
  }

  function CountWins(h: seq<Outcome>): nat {
    if |h| == 0 then 0 else CountWins(h[..|h| - 1]) + (if h[|h| - 1].won then 1 else 0)
  }

  function CountDuo(h: seq<Outcome>): nat {
    if |h| == 0 then 0 else CountDuo(h[..|h| - 1]) + (if h[|h| - 1].isDuo then 1 else 0)
  }

  function CountDuoWins(h: seq<Outcome>): nat {
    if |h| == 0 then 0 else CountDuoWins(h[..|h| - 1]) + (if h[|h| - 1].isDuo && h[|h| - 1].won then 1 else 0)
  }

  function SumAttempts(h: seq<Outcome>): int {
    if |h| == 0 then 0 else SumAttempts(h[..|h| - 1]) + h[|h| - 1].attempts
  }

  /** Games i (inclusive) to j (exclusive) were all won. */
  predicate AllWon(h: seq<Outcome>, i: int, j: int)
    requires 0 <= i <= j <= |h|
  {
    forall k :: i <= k < j ==> h[k].won
  }

  /** A run of m consecutive wins starts at game i. */
  predicate RunAt(h: seq<Outcome>, i: int, m: int) {
    0 <= i && 0 <= m && i + m <= |h| && AllWon(h, i, i + m)
  }

  /** The counters of a replayed history are the counts and sums of that history. */
  lemma {:induction false} ReplayCounts(h: seq<Outcome>)
    ensures Replay(h).gamesPlayed == |h|
    ensures Replay(h).wins == CountWins(h)
    ensures Replay(h).duoPlayed == CountDuo(h)
    ensures Replay(h).duoWins == CountDuoWins(h)
    ensures Replay(h).totalAttempts == SumAttempts(h)
  {
    if |h| > 0 {
      ReplayCounts(h[..|h| - 1]);
    }
  }

  /** `current_streak` is the run of wins that ends the history. */
  lemma {:induction false} ReplayStreak(h: seq<Outcome>)
    ensures var s := Replay(h).currentStreak;
      && 0 <= s <= |h|
      && AllWon(h, |h| - s, |h|)
      && (s < |h| ==> !h[|h| - 1 - s].won)
  {
    if |h| > 0 {
      var front := h[..|h| - 1];
      ReplayStreak(front);
      if h[|h| - 1].won {
        var s := Replay(front).currentStreak;
        assert forall k :: |h| - 1 - s <= k < |h| - 1 ==> h[k] == front[k];
      }
    }
  }

  /** `max_streak` is the longest run of consecutive wins anywhere in the history. */
  lemma {:induction false} ReplayMaxStreak(h: seq<Outcome>)
    ensures var m := Replay(h).maxStreak;
      && 0 <= m <= |h|
      && (exists i :: RunAt(h, i, m))
      && (forall i, j :: 0 <= i <= j <= |h| && AllWon(h, i, j) ==> j - i <= m)
  {
    var m := Replay(h).maxStreak;
    if |h| == 0 {
      assert RunAt(h, 0, 0);
    } else {
      var front := h[..|h| - 1];
      ReplayMaxStreak(front);
      ReplayStreak(h);
      var s := Replay(h).currentStreak;
      var mf := Replay(front).maxStreak;
      if s > mf {
        assert RunAt(h, |h| - s, m);
      } else {
        var i :| RunAt(front, i, mf);
        assert RunAt(h, i, m);
      }
      forall i, j | 0 <= i <= j <= |h| && AllWon(h, i, j)
        ensures j - i <= m
      {
        if j < |h| {
          assert AllWon(front, i, j);
        }
      }
    }
  }

  /** A JSON request-body value. */
  datatype Json = JUndefined | JNull | JBool(b: bool) | JNumber(n: int) | JString(s: string)

  predicate JsonTruthy(v: Json) {
    match v
    case JUndefined => false
    case JNull => false
    case JBool(b) => b
    case JNumber(n) => n != 0
    case JString(s) => s != ""
  }

  datatype PutReply = BadRequest | Updated(stats: Stats)

  /**
   * `PUT /api/stats/:animeId`: a `won` that is not a boolean is a 400; otherwise
   * the row is updated with `isDuo || false` and `attempts || 0`.
   */
  function PutStats(row: Option<Stats>, won: Json, isDuo: Json, attempts: Option<int>): (r: PutReply)
    ensures r == BadRequest <==> !won.JBool?
    ensures r.Updated? ==> r.stats == UpdateStats(GetStats(row), won.b, JsonTruthy(isDuo), if attempts.Some? then attempts.value else 0)
  {
    if !won.JBool? then BadRequest
    else Updated(UpdateStats(GetStats(row), won.b, JsonTruthy(isDuo), if attempts.Some? then attempts.value else 0))
  }
}
