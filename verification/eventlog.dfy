/** The bounded narration log: a sliding window over the most recent lines. */
module EventLog {

  const Capacity: nat := 4

  function Min(a: int, b: int): int {
    if a <= b then a else b
  }

  /** The last min(|s|, k) elements of s, in their original order. */
  function Last<T>(s: seq<T>, k: nat): (r: seq<T>)
    ensures |r| == Min(|s|, k)
  {
    s[|s| - Min(|s|, k)..]
  }

  /** Appends one line and, when the log then holds more than four lines, drops the oldest. */
  function AddLog(log: seq<string>, text: string): (r: seq<string>)
    ensures |r| > 0 && r[|r| - 1] == text
    ensures r[..|r| - 1] == (if |log| < Capacity then log else log[1..])
    ensures |log| <= Capacity ==> |r| <= Capacity
  {
    var grown := log + [text];
    if |grown| > Capacity then grown[1..] else grown
  }

  /** Appends a series of lines one after another, as repeated calls do. */
  function AddAll(log: seq<string>, texts: seq<string>): seq<string>
    decreases |texts|
  {
    if |texts| == 0 then log
    else AddLog(AddAll(log, texts[..|texts| - 1]), texts[|texts| - 1])
  }

  /** Adding a line to the window of a history gives the window of the longer history. */
  lemma AddLogKeepsWindow(history: seq<string>, text: string)
    ensures AddLog(Last(history, Capacity), text) == Last(history + [text], Capacity)
  {
  }

  /** From a log within capacity, any series of appends leaves exactly the last
      min(n, 4) lines of the whole history, oldest first. */
  lemma {:induction false} AddAllIsWindow(log: seq<string>, texts: seq<string>)
    requires |log| <= Capacity
    ensures AddAll(log, texts) == Last(log + texts, Capacity)
    ensures |AddAll(log, texts)| <= Capacity
    decreases |texts|
  {
    if |texts| == 0 {
      assert log + texts == log;
    } else {
      var front := texts[..|texts| - 1];
      var t := texts[|texts| - 1];
      AddAllIsWindow(log, front);
      AddLogKeepsWindow(log + front, t);
      assert log + front + [t] == log + texts;
    }
  }

  /** Five appends to an empty log keep only the last four, in order. */
  lemma FiveAppendsKeepLastFour(a: string, b: string, c: string, d: string, e: string)
    ensures AddAll([], [a, b, c, d, e]) == [b, c, d, e]
  {
    AddAllIsWindow([], [a, b, c, d, e]);
    assert [] + [a, b, c, d, e] == [a, b, c, d, e];
  }
}
