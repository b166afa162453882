/** The elapsed / remaining time shown next to the player's slider. Swift's
    `/` and `%` on `Int` truncate toward zero; Dafny's are Euclidean, so the
    Swift operators are spelled out here. */
module TimeFormat {

  /** Swift's `a / b` for a positive divisor: the quotient rounded toward
      zero, so `b * q` never lies beyond `a` on the far side from zero. */
  function SwiftDiv(a: int, b: int): (q: int)
    requires b > 0
    ensures a >= 0 ==> 0 <= b * q <= a < b * (q + 1)
    ensures a < 0 ==> b * (q - 1) < a <= b * q <= 0
  {
    if a >= 0 then
      FloorBounds(a, b);
      a / b
    else
      FloorBounds(-a, b);
      -((-a) / b)
  }

  /** Euclidean division of a non-negative number by a positive one. */
  lemma FloorBounds(x: nat, b: int)
    requires b > 0
    ensures 0 <= b * (x / b) <= x < b * (x / b + 1)
    ensures b * (-(x / b)) == -(b * (x / b))
    ensures b * (-(x / b) - 1) == -(b * (x / b + 1))
  {
    var q, r := x / b, x % b;
    assert x == b * q + r && 0 <= r < b;
    assert b * (q + 1) == b * q + b;
  }

  /** Swift's `a % b` for a positive divisor: the remainder takes the sign of `a`. */
  function SwiftRem(a: int, b: int): (r: int)
    requires b > 0
    ensures a == b * SwiftDiv(a, b) + r
    ensures a >= 0 ==> 0 <= r < b && r == a % b
    ensures a < 0 ==> -b < r <= 0 && r == -((-a) % b)
  {
    a - b * SwiftDiv(a, b)
  }

  /** `secondsToMinutesSeconds`: minutes and seconds within the hour. */
  function MinutesSeconds(seconds: int): (ms: (int, int))
    ensures seconds >= 0 ==> 0 <= ms.0 < 60 && 0 <= ms.1 < 60 && 60 * ms.0 + ms.1 == seconds % 3600
    ensures seconds < 0 ==> -60 < ms.0 <= 0 && -60 < ms.1 <= 0 && 60 * ms.0 + ms.1 == SwiftRem(seconds, 3600)
  {
    var inHour := SwiftRem(seconds, 3600);
    (SwiftDiv(inHour, 60), SwiftRem(inHour, 60))
  }

  /** The seconds a minutes/seconds pair stands for. */
  function ToSeconds(ms: (int, int)): int {
    60 * ms.0 + ms.1
  }

  /** Within the first hour, splitting and recombining gives back the input. */
  lemma SplitThenJoin(seconds: int)
    requires 0 <= seconds < 3600
    ensures ToSeconds(MinutesSeconds(seconds)) == seconds
  {
  }

  /** Any clock reading splits back into itself. */
  lemma JoinThenSplit(m: int, s: int)
    requires 0 <= m < 60 && 0 <= s < 60
    ensures MinutesSeconds(ToSeconds((m, s))) == (m, s)
  {
    var t := ToSeconds((m, s));
    assert 0 <= t < 3600;
    HourRemainder(t, 0, t);
    var ms := MinutesSeconds(t);
    assert 60 * ms.0 + ms.1 == t;
    UniqueSplit(ms.0, ms.1, m, s);
  }

  lemma UniqueSplit(m1: int, s1: int, m2: int, s2: int)
    requires 0 <= s1 < 60 && 0 <= s2 < 60
    requires 60 * m1 + s1 == 60 * m2 + s2
    ensures m1 == m2 && s1 == s2
  {
  }

  /** Whole hours are dropped: a non-negative time and the same time any
      number of hours later read the same. */
  lemma MinutesSecondsDropsHours(seconds: nat, hours: nat)
    ensures MinutesSeconds(seconds + 3600 * hours) == MinutesSeconds(seconds)
  {
    var x := seconds + 3600 * hours;
    var q, r := seconds / 3600, seconds % 3600;
    assert x == 3600 * (q + hours) + r;
    HourRemainder(x, q + hours, r);
    var a, b := MinutesSeconds(x), MinutesSeconds(seconds);
    UniqueSplit(a.0, a.1, b.0, b.1);
  }

  lemma HourRemainder(x: int, q: int, r: int)
    requires 0 <= r < 3600 && x == 3600 * q + r
    ensures x % 3600 == r
  {
  }
}
