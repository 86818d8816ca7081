/** Calendar days, in a zone that is a fixed number of seconds ahead of UTC. */
module Days {

  const DAY_SECONDS := 86400

  function Day(zone: int, sec: int): int {
    (sec + zone) / DAY_SECONDS
  }

  /** Day number d holds the seconds from midnight to midnight, local time. */
  lemma DayIsFromMidnight(zone: int, sec: int, d: int)
    ensures Day(zone, sec) == d <==> d * 86400 <= sec + zone < (d + 1) * 86400
  {
  }

  lemma DayIsMonotone(zone: int, a: int, b: int)
    requires a <= b
    ensures Day(zone, a) <= Day(zone, b)
    ensures b - a < DAY_SECONDS ==> Day(zone, b) <= Day(zone, a) + 1
  {
  }
}
