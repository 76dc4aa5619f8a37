/**
 * The duel countdown: the time left from the server's start time, when the
 * expiry callback fires, and how the time is displayed.
 */
module Timer {
  import opened JsText

  /** `Math.max(0, duration - (now - startTime))`. */
  function Remaining(startTime: int, duration: int, now: int): (t: int)
    ensures t >= 0
    ensures t == 0 <==> now - startTime >= duration
    ensures now >= startTime ==> t <= duration || duration < 0
    ensures t > 0 ==> t == duration - (now - startTime)
  {
    var elapsed := now - startTime;
    if duration - elapsed > 0 then duration - elapsed else 0
  }

  /** Time only runs down. */
  lemma RemainingMonotone(startTime: int, duration: int, now1: int, now2: int)
    requires now1 <= now2
    ensures Remaining(startTime, duration, now2) <= Remaining(startTime, duration, now1)
  {
  }

  /** The state of the component: the time shown. The props are the start time, the duration and whether an expiry callback is given. */
  datatype Tick = Tick(timeLeft: int, expire: bool)

  /**
   * One `updateTimer` run (immediately, then every 100 ms): nothing happens
   * without a start time or a duration; otherwise the time shown is the
   * remaining time, and the callback fires when it is 0.
   */
  function Update(timeLeft: int, startTime: int, duration: int, hasExpire: bool, now: int): (r: Tick)
    ensures startTime == 0 || duration == 0 ==> r == Tick(timeLeft, false)
    ensures startTime != 0 && duration != 0 ==> r.timeLeft == Remaining(startTime, duration, now)
    ensures r.expire <==> startTime != 0 && duration != 0 && hasExpire && now - startTime >= duration
  {
    if startTime == 0 || duration == 0 then Tick(timeLeft, false)
    else
      var remaining := Remaining(startTime, duration, now);
      Tick(remaining, remaining == 0 && hasExpire)
  }

  /** JavaScript's `%`, whose result takes the sign of the dividend. */
  function JsRem(a: int, b: int): (r: int)
    requires b > 0
    ensures a >= 0 ==> 0 <= r < b
    ensures a < 0 ==> -b < r <= 0
    ensures a >= 0 ==> r == a % b
  {
    if a >= 0 then a % b else -((-a) % b)
  }

  /** `Math.floor(t / 60000)`: Dafny's division by a positive number is already the floor. */
  function Minutes(t: int): int {
    t / 60000
  }

  /** `Math.floor((t % 60000) / 1000)`. */
  function Seconds(t: int): int {
    JsRem(t, 60000) / 1000
  }

  /** `timeLeft < 30000`. */
  predicate IsLowTime(t: int) {
    t < 30000
  }

  /** The minutes and seconds shown describe the time left to the second below. */
  lemma ClockReadsTime(t: int)
    requires t >= 0
    ensures 0 <= Seconds(t) <= 59 && Minutes(t) >= 0
    ensures Minutes(t) * 60000 + Seconds(t) * 1000 <= t < Minutes(t) * 60000 + Seconds(t) * 1000 + 1000
    ensures IsLowTime(t) <==> Minutes(t) == 0 && Seconds(t) < 30
  {
  }

  /** `seconds.toString().padStart(2, '0')`. */
  function Pad2(s: string): string {
    if |s| < 2 then seq(2 - |s|, _ => '0') + s else s
  }

  /** The display `minutes:ss`. */
  function Display(t: int): string {
    IntToString(Minutes(t)) + ":" + Pad2(IntToString(Seconds(t)))
  }

  /** The seconds always take two digits on screen. */
  lemma SecondsTwoDigits(t: int)
    requires t >= 0
    ensures |Pad2(IntToString(Seconds(t)))| == 2
  {
    ClockReadsTime(t);
    var s := Seconds(t);
    if s >= 10 {
      assert s / 10 < 10;
      assert |NatToString(s)| == |NatToString(s / 10)| + 1;
    }
  }

  /** Three minutes on the clock read "3:00". */
  lemma DisplayExample()
    ensures Display(180000) == "3:00"
  {
    assert Seconds(180000) == 0;
    assert Minutes(180000) == 3;
  }
}
