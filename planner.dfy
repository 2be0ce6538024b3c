/** The planner's one domain entity, `TimeEntry`, and the facts every entry shares. */
module Planner {
  import opened Text

  /** One scheduled item of the day planner: the checkbox state, the `HH:MM` times, the
      title (a link label or plain text), the link url or "", the sub-task lines under it
      and the calendar date it belongs to. */
  datatype TimeEntry = TimeEntry(
    completed: bool,
    startTime: string,
    endTime: string,
    title: string,
    link: string,
    subTasks: seq<string>,
    date: string)

  /** `\d{2}:\d{2}`: two digits, a colon, two digits (not checked to be a real time). */
  predicate IsClock(t: string) {
    |t| == 5 && IsDigit(t[0]) && IsDigit(t[1]) && t[2] == ':' && IsDigit(t[3]) && IsDigit(t[4])
  }

  /** The entries of one date, in the order they have in `entries`. */
  function WithDate(entries: seq<TimeEntry>, d: string): (r: seq<TimeEntry>)
    ensures forall e :: e in r <==> e in entries && e.date == d
    ensures |r| <= |entries|
  {
    if entries == [] then []
    else (if entries[0].date == d then [entries[0]] else []) + WithDate(entries[1..], d)
  }

  lemma {:induction false} WithDateConcat(xs: seq<TimeEntry>, ys: seq<TimeEntry>, d: string)
    ensures WithDate(xs + ys, d) == WithDate(xs, d) + WithDate(ys, d)
  {
    if xs != [] {
      WithDateConcat(xs[1..], ys, d);
      assert (xs + ys)[1..] == xs[1..] + ys;
    } else {
      assert xs + ys == ys;
    }
  }
}
