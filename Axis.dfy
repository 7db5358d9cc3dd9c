/** The time axis of the chart: the separator marks and the label text.

    Clock readings are whole ticks of 100 ns, ten million to the second.
    The text that renders a number of seconds is a parameter `secondsText`.
 */
module Axis {

  const TicksPerSecond: int := 10_000_000

  /** Distance between two neighbouring separators: ten seconds. */
  const SeparatorSpacing: int := 10 * TicksPerSecond

  /** The six separator marks, fifty seconds ago through `now`. */
  function Separators(now: int): (r: seq<int>)
    ensures |r| == 6
    ensures r[0] == now - 50 * TicksPerSecond && r[5] == now
    ensures forall i :: 0 <= i < 5 ==> r[i + 1] == r[i] + SeparatorSpacing
    ensures forall i, j :: 0 <= i < j < 6 ==> r[i] < r[j]
  {
    [ now - 50 * TicksPerSecond,
      now - 40 * TicksPerSecond,
      now - 30 * TicksPerSecond,
      now - 20 * TicksPerSecond,
      now - 10 * TicksPerSecond,
      now ]
  }

  /** The time between `date` and `now`, in seconds. */
  function ElapsedSeconds(now: int, date: int): real
  {
    (now - date) as real / TicksPerSecond as real
  }

  /** The label of a point stamped `date`, read at `now`. */
  function Formatter(now: int, date: int, secondsText: real -> string): (r: string)
    ensures r == "now" <==> now - date < TicksPerSecond
    ensures now - date >= TicksPerSecond ==>
      ElapsedSeconds(now, date) >= 1.0 && r == secondsText(ElapsedSeconds(now, date)) + "s ago"
  {
    var secsAgo := ElapsedSeconds(now, date);
    if secsAgo < 1.0 then "now" else secondsText(secsAgo) + "s ago"
  }

  /** A point five seconds old is labelled with the text for five seconds. */
  lemma FiveSecondsAgo(now: int, secondsText: real -> string)
    ensures Formatter(now, now - 5 * TicksPerSecond, secondsText) == secondsText(5.0) + "s ago"
  {
    assert ElapsedSeconds(now, now - 5 * TicksPerSecond) == 5.0;
  }

  /** The latest separator is labelled "now", the earliest one "50s ago". */
  lemma SeparatorLabels(now: int, secondsText: real -> string)
    ensures Formatter(now, Separators(now)[5], secondsText) == "now"
    ensures Formatter(now, Separators(now)[0], secondsText) == secondsText(50.0) + "s ago"
  {
    assert ElapsedSeconds(now, Separators(now)[0]) == 50.0;
  }
}
