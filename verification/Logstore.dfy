/** The event log: appending, and reading the newest matching events through a bounded window. */
module Logstore {
  import opened Wrappers

  datatype Event = Event(time: int, kind: string, level: string, platform: string, message: string)

  datatype Query = Query(limit: int, kind: string, level: string, platform: string)

  /** One line of the log file. */
  datatype Line = Blank | Unparsable | Entry(event: Event)

  const DEFAULT_LIMIT: int := 200

  function LimitOf(q: Query): (limit: nat)
    ensures limit > 0
  {
    if q.limit <= 0 then DEFAULT_LIMIT else q.limit
  }

  predicate Matches(e: Event, q: Query) {
    && (q.kind != "" ==> e.kind == q.kind)
    && (q.level != "" ==> e.level == q.level)
    && (q.platform != "" ==> e.platform == q.platform)
  }

  // ---------------------------------------------------------------- the plain query

  /** The matching events of a log, oldest first. */
  function Matching(lines: seq<Line>, q: Query): seq<Event> {
    if lines == [] then []
    else
      var n := |lines| - 1;
      Matching(lines[..n], q) + if lines[n].Entry? && Matches(lines[n].event, q) then [lines[n].event] else []
  }

  function LastN(events: seq<Event>, n: nat): (last: seq<Event>)
    ensures |last| == if |events| > n then n else |events|
  {
    if |events| > n then events[|events| - n..] else events
  }

  function FirstN(events: seq<Event>, n: nat): seq<Event> {
    if |events| > n then events[..n] else events
  }

  function Reversed(events: seq<Event>): (r: seq<Event>)
    ensures |r| == |events|
    ensures forall i :: 0 <= i < |events| ==> r[i] == events[|events| - 1 - i]
  {
    seq(|events|, i requires 0 <= i < |events| => events[|events| - 1 - i])
  }

  /** Filter, take the last so many, newest first. */
  function Newest(lines: seq<Line>, q: Query): seq<Event> {
    Reversed(LastN(Matching(lines, q), LimitOf(q)))
  }

  lemma MatchingSnoc(lines: seq<Line>, line: Line, q: Query)
    ensures Matching(lines + [line], q)
      == Matching(lines, q) + if line.Entry? && Matches(line.event, q) then [line.event] else []
  {
    assert (lines + [line])[..|lines|] == lines;
  }

  /** A new matching event comes first and pushes out what no longer fits; any other line is invisible. */
  lemma NewestAfterAppend(lines: seq<Line>, line: Line, q: Query)
    ensures Newest(lines + [line], q) ==
      if line.Entry? && Matches(line.event, q) then FirstN([line.event] + Newest(lines, q), LimitOf(q))
      else Newest(lines, q)
  {
    MatchingSnoc(lines, line, q);
    var was, limit := Matching(lines, q), LimitOf(q);
    if line.Entry? && Matches(line.event, q) {
      var more := was + [line.event];
      assert Reversed(LastN(more, limit)) == FirstN([line.event] + Reversed(LastN(was, limit)), limit);
    } else {
      assert was + [] == was;
    }
  }

  /** For every query, this event now comes first if it matches, and nothing changes if it does not. */
  ghost predicate ShowsFirst(e: Event, before: seq<Line>, after: seq<Line>) {
    forall q :: Newest(after, q) ==
      if Matches(e, q) then FirstN([e] + Newest(before, q), LimitOf(q)) else Newest(before, q)
  }

  lemma AppendShowsFirst(lines: seq<Line>, e: Event)
    ensures ShowsFirst(e, lines, lines + [Entry(e)])
  {
    forall q
      ensures Newest(lines + [Entry(e)], q) ==
        if Matches(e, q) then FirstN([e] + Newest(lines, q), LimitOf(q)) else Newest(lines, q)
    {
      NewestAfterAppend(lines, Entry(e), q);
    }
  }

  /** Every event read is a matching line of the log, and they come newest first. */
  lemma {:induction false} NewestAreLogged(lines: seq<Line>, q: Query, e: Event)
    requires e in Matching(lines, q)
    ensures Matches(e, q) && Entry(e) in lines
  {
    var n := |lines| - 1;
    if e in Matching(lines[..n], q) {
      NewestAreLogged(lines[..n], q, e);
    }
  }

  /** The event agrees with each of kind, level and platform that the query sets. */
  predicate Agrees(e: Event, q: Query) {
    && (q.kind == "" || e.kind == q.kind)
    && (q.level == "" || e.level == q.level)
    && (q.platform == "" || e.platform == q.platform)
  }

  /** How many events of these lines agree with the query. */
  function CountAgreeing(lines: seq<Line>, q: Query): nat {
    if lines == [] then 0
    else
      var n := |lines| - 1;
      CountAgreeing(lines[..n], q) + if lines[n].Entry? && Agrees(lines[n].event, q) then 1 else 0
  }

  lemma {:induction false} MatchingByAge(lines: seq<Line>, q: Query, l: nat)
    requires l < |lines| && lines[l].Entry? && Agrees(lines[l].event, q)
    ensures CountAgreeing(lines[l + 1..], q) < |Matching(lines, q)|
    ensures Matching(lines, q)[|Matching(lines, q)| - 1 - CountAgreeing(lines[l + 1..], q)] == lines[l].event
  {
    var n := |lines| - 1;
    if l == n {
      assert lines[l + 1..] == [];
    } else {
      MatchingByAge(lines[..n], q, l);
      assert lines[..n][l + 1..] == lines[l + 1..][..n - l - 1] && lines[l + 1..][n - l - 1] == lines[n];
    }
  }

  lemma {:induction false} MatchingSize(lines: seq<Line>, q: Query)
    ensures |Matching(lines, q)| == CountAgreeing(lines, q)
  {
    if lines != [] {
      MatchingSize(lines[..|lines| - 1], q);
    }
  }

  /** The answer to a query, event by event: an event of the log that agrees with what the query sets is found
      at the place given by how many such events are newer, unless that reaches the limit; and there are no
      others. Without a positive limit, it is 200. */
  lemma {:induction false} AnswerByAge(lines: seq<Line>, q: Query)
    ensures var answer := Newest(lines, q);
      var limit := if q.limit > 0 then q.limit else 200;
      && |answer| == (if CountAgreeing(lines, q) < limit then CountAgreeing(lines, q) else limit)
      && (forall e :: e in answer ==> Agrees(e, q) && Entry(e) in lines)
      && (forall l :: 0 <= l < |lines| && lines[l].Entry? && Agrees(lines[l].event, q) ==>
            var newer := CountAgreeing(lines[l + 1..], q);
            newer < limit ==> newer < |answer| && answer[newer] == lines[l].event)
  {
    var all := Matching(lines, q);
    MatchingSize(lines, q);
    forall e | e in Newest(lines, q)
      ensures Agrees(e, q) && Entry(e) in lines
    {
      NewestAreLogged(lines, q, e);
    }
    forall l | 0 <= l < |lines| && lines[l].Entry? && Agrees(lines[l].event, q)
      ensures var newer := CountAgreeing(lines[l + 1..], q);
        newer < LimitOf(q) ==> newer < |Newest(lines, q)| && Newest(lines, q)[newer] == lines[l].event
    {
      MatchingByAge(lines, q, l);
    }
  }

  // ---------------------------------------------------------------- the bounded window

  /** One more event in the window: when it has grown past three times the limit, only the last limit stay. */
  function Window(events: seq<Event>, e: Event, limit: nat): (w: seq<Event>)
    requires limit > 0
    ensures |events| <= 3 * limit ==> |w| <= 3 * limit
  {
    var grown := events + [e];
    if |grown| > limit * 3 then grown[|grown| - limit..] else grown
  }

  /** Trimming never loses anything the answer needs. */
  lemma WindowKeepsLast(all: seq<Event>, events: seq<Event>, e: Event, limit: nat)
    requires limit > 0 && LastN(events, limit) == LastN(all, limit)
    ensures LastN(Window(events, e, limit), limit) == LastN(all + [e], limit)
  {
    var a, b := LastN(events, limit), LastN(all, limit);
    assert LastN(events + [e], limit) == LastN(a + [e], limit);
    assert LastN(all + [e], limit) == LastN(b + [e], limit);
    assert LastN(Window(events, e, limit), limit) == LastN(events + [e], limit);
  }

  /** The window once these lines are read. */
  function WindowAfter(lines: seq<Line>, q: Query): seq<Event> {
    if lines == [] then []
    else
      var n := |lines| - 1;
      var window := WindowAfter(lines[..n], q);
      if lines[n].Entry? && Matches(lines[n].event, q) then Window(window, lines[n].event, LimitOf(q)) else window
  }

  /** After every line the window holds at most three times the limit, and all that the answer needs. */
  lemma {:induction false} WindowIsEnough(lines: seq<Line>, q: Query)
    ensures |WindowAfter(lines, q)| <= 3 * LimitOf(q)
    ensures LastN(WindowAfter(lines, q), LimitOf(q)) == LastN(Matching(lines, q), LimitOf(q))
  {
    if lines != [] {
      var n := |lines| - 1;
      WindowIsEnough(lines[..n], q);
      if lines[n].Entry? && Matches(lines[n].event, q) {
        WindowKeepsLast(Matching(lines[..n], q), WindowAfter(lines[..n], q), lines[n].event, LimitOf(q));
      } else {
        assert Matching(lines, q) == Matching(lines[..n], q);
      }
    }
  }

  lemma WindowAfterSnoc(lines: seq<Line>, line: Line, q: Query)
    ensures WindowAfter(lines + [line], q) ==
      if line.Entry? && Matches(line.event, q) then Window(WindowAfter(lines, q), line.event, LimitOf(q))
      else WindowAfter(lines, q)
  {
    assert (lines + [line])[..|lines|] == lines;
  }

  lemma ReversedLast(events: seq<Event>, limit: nat)
    ensures FirstN(Reversed(events), limit) == Reversed(LastN(events, limit))
  {
  }

  // ---------------------------------------------------------------- the store

  class Store {
    var lines: seq<Line>

    constructor ()
      ensures lines == []
    {
      lines := [];
    }

    /** Appends one event; nothing is written when the file cannot be. */
    method Append(e: Event, writable: bool) returns (ok: bool)
      modifies this
      ensures ok == writable
      ensures lines == if ok then old(lines) + [Entry(e)] else old(lines)
      ensures ok ==> ShowsFirst(e, old(lines), lines)
    {
      if writable {
        lines := lines + [Entry(e)];
        AppendShowsFirst(old(lines), e);
      }
      return writable;
    }

    /** Appends with the missing time and level filled in; a failure to write is swallowed. */
    method Record(e: Event, now: int, writable: bool)
      modifies this
      ensures lines == if !writable then old(lines) else
        old(lines) + [Entry(e.(time := if e.time == 0 then now else e.time,
                               level := if e.level == "" then "info" else e.level))]
    {
      var stamped := e;
      if stamped.time == 0 {
        stamped := stamped.(time := now);
      }
      if stamped.level == "" {
        stamped := stamped.(level := "info");
      }
      var _ := Append(stamped, writable);
    }

    /** The newest matching events first, read off the bounded window of one pass over the log. */
    method Read(q: Query, readable: bool) returns (r: Result<seq<Event>>)
      ensures r.Ok? <==> readable
      ensures r.Ok? ==> r.value == Newest(lines, q)
      ensures r.Ok? ==> r.value == FirstN(Reversed(WindowAfter(lines, q)), LimitOf(q))
    {
      var limit := LimitOf(q);
      if !readable {
        return Err("open failed");
      }
      var events: seq<Event> := [];
      for i := 0 to |lines|
        invariant events == WindowAfter(lines[..i], q)
      {
        assert lines[..i + 1] == lines[..i] + [lines[i]];
        WindowAfterSnoc(lines[..i], lines[i], q);
        if lines[i].Entry? && Matches(lines[i].event, q) {
          events := events + [lines[i].event];
          if |events| > limit * 3 {
            events := events[|events| - limit..];
          }
        }
      }
      assert lines[..|lines|] == lines;
      WindowIsEnough(lines, q);
      ReversedLast(events, limit);
      events := Reversed(events);
      if |events| > limit {
        events := events[..limit];
      }
      return Ok(events);
    }

    /** Empties the log, unless the file cannot be written. */
    method Clear(writable: bool) returns (ok: bool)
      modifies this
      ensures ok == writable
      ensures lines == if ok then [] else old(lines)
      ensures ok ==> forall q :: Newest(lines, q) == []
    {
      if writable {
        lines := [];
      }
      return writable;
    }
  }
}
