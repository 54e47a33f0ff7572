/** The consumer that re-publishes row changes of the user table as user events, over one
    partition of the change topic. */
module UserCDC {
  import Sets
  import opened Wrappers

  // ---------- Records and what is emitted for them ----------

  /** A row of the user table: its id and all other columns. */
  datatype Row = Row(id: string, columns: string)

  datatype Record =
    | Tombstone                                  // null value, follows a delete
    | Undecodable
    | Change(op: string, after: Option<Row>)

  datatype Event = Created(row: Row) | Updated(row: Row)

  /** The event handed to the producer for a record, if any. */
  function Emission(r: Record): Option<Event> {
    if !r.Change? || r.after.None? then None
    else if r.op == "c" || r.op == "r" then Some(Created(r.after.value))
    else if r.op == "u" then Some(Updated(r.after.value))
    else None
  }

  /** The events for records a .. b - 1 of the log, in order. */
  function Events(log: seq<Record>, a: nat, b: nat): seq<Event>
    requires a <= b <= |log|
    decreases b
  {
    if a == b then []
    else
      var e := Emission(log[b - 1]);
      Events(log, a, b - 1) + if e.Some? then [e.value] else []
  }

  // ---------- The consumer as a state machine ----------

  /** A stretch of the log worked through without a gap. */
  datatype Span = Span(from: nat, to: nat)

  datatype Sys = Sys(
    position: nat,        // records handed out by the client
    next: nat,            // records dealt with
    committed: nat,       // the group's committed offset
    polled: bool,         // between a poll without errors and its commit
    emitted: seq<Event>,  // every call of the producer so far
    start: nat,           // where the present stretch began
    past: seq<Span>,      // the stretches before it
    high: nat,            // the furthest point ever reached
    skipped: set<nat>,    // every record some poll brought together with errors
    stale: set<nat>)      // of these, the ones not processed since

  datatype Step =
    | Poll(n: nat)            // no errors, n records
    | PollErrors              // errors, no records
    | PollMixed(n: nat)       // errors together with n records: none of them is processed
    | Process                 // one record of the batch
    | Commit(fails: bool)     // after the whole batch
    | Restart                 // at any moment; restart at the committed offset

  const START := Sys(0, 0, 0, false, [], 0, [], 0, {}, {})

  predicate Enabled(log: seq<Record>, s: Sys, step: Step) {
    s.next <= s.position <= |log| &&
    match step
    case Poll(n) => !s.polled && s.next == s.position && s.position + n <= |log|
    case PollErrors => !s.polled && s.next == s.position
    case PollMixed(n) => !s.polled && s.next == s.position && s.position + n <= |log|
    case Process => s.polled && s.next < s.position
    case Commit(_) => s.polled && s.next == s.position
    case Restart => true
  }

  function Max(a: nat, b: nat): nat {
    if a > b then a else b
  }

  function Apply(log: seq<Record>, s: Sys, step: Step): Sys
    requires Enabled(log, s, step)
  {
    match step
    case Poll(n) => s.(position := s.position + n, polled := true)
    case PollErrors => s
    case PollMixed(n) =>
      var to := s.position + n;
      var batch := Sets.Below(to) - Sets.Below(s.position);
      s.(position := to, next := to, start := to, past := Spans(s), high := Max(to, s.high),
         skipped := s.skipped + batch, stale := s.stale + batch)
    case Process =>
      var e := Emission(log[s.next]);
      s.(next := s.next + 1, high := Max(s.next + 1, s.high), stale := s.stale - {s.next},
         emitted := s.emitted + if e.Some? then [e.value] else [])
    case Commit(fails) => s.(polled := false, committed := if fails then s.committed else s.position)
    case Restart =>
      s.(position := s.committed, next := s.committed, polled := false, start := s.committed, past := Spans(s))
  }

  /** All stretches so far, the present one last. */
  function Spans(s: Sys): seq<Span> {
    s.past + [Span(s.start, s.next)]
  }

  predicate Possible(log: seq<Record>, s: Sys, steps: seq<Step>)
    decreases |steps|
  {
    steps == [] || (Enabled(log, s, steps[0]) && Possible(log, Apply(log, s, steps[0]), steps[1..]))
  }

  function Exec(log: seq<Record>, s: Sys, steps: seq<Step>): Sys
    requires Possible(log, s, steps)
    decreases |steps|
  {
    if steps == [] then s else Exec(log, Apply(log, s, steps[0]), steps[1..])
  }

  // ---------- What is emitted, and in which order ----------

  predicate Within(log: seq<Record>, span: Span) {
    span.from <= span.to <= |log|
  }

  /** The events of several stretches, one after the other. */
  function SpanEvents(log: seq<Record>, spans: seq<Span>): seq<Event>
    requires forall i :: 0 <= i < |spans| ==> Within(log, spans[i])
  {
    if spans == [] then []
    else
      var last := spans[|spans| - 1];
      assert Within(log, last);
      SpanEvents(log, spans[..|spans| - 1]) + Events(log, last.from, last.to)
  }

  /** Record i was processed in one of the stretches. */
  ghost predicate HandedOver(s: Sys, i: nat) {
    exists j :: 0 <= j < |Spans(s)| && Spans(s)[j].from <= i < Spans(s)[j].to
  }

  ghost predicate Shape(log: seq<Record>, s: Sys) {
    && s.start <= s.next <= s.position <= |log| && s.committed <= s.next <= s.high <= |log|
    && (!s.polled ==> s.next == s.position)
    && (forall j :: 0 <= j < |Spans(s)| ==> Within(log, Spans(s)[j]) && Spans(s)[j].to <= s.high)
    && s.emitted == SpanEvents(log, Spans(s))
    && (forall i :: 0 <= i < s.high ==> HandedOver(s, i) || i in s.skipped)
    && s.stale <= s.skipped && (forall i :: i in s.skipped ==> i < s.high)
  }

  lemma SpanEventsSnoc(log: seq<Record>, spans: seq<Span>, last: Span)
    requires Within(log, last) && forall i :: 0 <= i < |spans| ==> Within(log, spans[i])
    ensures SpanEvents(log, spans + [last]) == SpanEvents(log, spans) + Events(log, last.from, last.to)
  {
    assert (spans + [last])[..|spans|] == spans;
  }

  /** A restart and a poll with errors and records close the present stretch and begin an empty one. */
  lemma NewStretch(log: seq<Record>, s: Sys, s': Sys)
    requires Shape(log, s) && s'.past == Spans(s) && s'.start == s'.next <= s'.high && s.high <= s'.high <= |log|
    ensures forall j :: 0 <= j < |Spans(s')| ==> Within(log, Spans(s')[j]) && Spans(s')[j].to <= s'.high
    ensures SpanEvents(log, Spans(s')) == s.emitted
    ensures forall i: nat :: HandedOver(s', i) <==> HandedOver(s, i)
  {
    var empty := Span(s'.start, s'.next);
    SpanEventsSnoc(log, Spans(s), empty);
    assert Spans(s') == Spans(s) + [empty] && SpanEvents(log, Spans(s)) + [] == s.emitted;
    forall i: nat | HandedOver(s, i)
      ensures HandedOver(s', i)
    {
      var j :| 0 <= j < |Spans(s)| && Spans(s)[j].from <= i < Spans(s)[j].to;
      assert Spans(s')[j] == Spans(s)[j];
    }
  }

  /** The present stretch gets one record longer. */
  lemma SpansGrow(s: Sys, s': Sys)
    requires s'.past == s.past && s'.start == s.start <= s.next && s'.next == s.next + 1
    ensures Spans(s') == Spans(s)[|s.past| := Span(s.start, s.next + 1)]
    ensures Spans(s)[|s.past|] == Span(s.start, s.next)
    ensures forall i: nat :: HandedOver(s', i) <==> HandedOver(s, i) || i == s.next
  {
    assert forall j :: 0 <= j < |s.past| ==> Spans(s)[j] == Spans(s')[j];
    assert Spans(s')[|s.past|] == Span(s.start, s.next + 1);
    forall i: nat
      ensures HandedOver(s', i) <==> HandedOver(s, i) || i == s.next
    {
      if HandedOver(s, i) {
        var j :| 0 <= j < |Spans(s)| && Spans(s)[j].from <= i < Spans(s)[j].to;
        assert Spans(s')[j].from <= i < Spans(s')[j].to;
      }
      if HandedOver(s', i) && i != s.next {
        var j :| 0 <= j < |Spans(s')| && Spans(s')[j].from <= i < Spans(s')[j].to;
        assert Spans(s)[j].from <= i < Spans(s)[j].to;
      }
      assert Spans(s')[|s.past|].from <= s.next < Spans(s')[|s.past|].to;
    }
  }

  lemma LongerStretch(log: seq<Record>, past: seq<Span>, start: nat, next: nat)
    requires start <= next < |log| && forall j :: 0 <= j < |past| ==> Within(log, past[j])
    ensures var e := Emission(log[next]);
            SpanEvents(log, past + [Span(start, next + 1)]) ==
            SpanEvents(log, past + [Span(start, next)]) + if e.Some? then [e.value] else []
  {
    SpanEventsSnoc(log, past, Span(start, next));
    SpanEventsSnoc(log, past, Span(start, next + 1));
  }

  lemma SpansStayWithin(log: seq<Record>, s: Sys, j: nat)
    requires Shape(log, s) && Enabled(log, s, Process) && j < |Spans(Apply(log, s, Process))|
    ensures var s' := Apply(log, s, Process); Within(log, Spans(s')[j]) && Spans(s')[j].to <= s'.high
  {
    if j < |s.past| {
      assert Spans(s)[j] == s.past[j] == Spans(Apply(log, s, Process))[j];
    }
  }

  lemma ProcessKeepsShape(log: seq<Record>, s: Sys)
    requires Shape(log, s) && Enabled(log, s, Process)
    ensures Shape(log, Apply(log, s, Process))
  {
    var s' := Apply(log, s, Process);
    SpansGrow(s, s');
    forall j | 0 <= j < |Spans(s')|
      ensures Within(log, Spans(s')[j]) && Spans(s')[j].to <= s'.high
    {
      SpansStayWithin(log, s, j);
    }
    forall j | 0 <= j < |s.past|
      ensures Within(log, s.past[j])
    {
      assert s.past[j] == Spans(s)[j];
    }
    LongerStretch(log, s.past, s.start, s.next);
  }

  lemma MixedKeepsShape(log: seq<Record>, s: Sys, n: nat)
    requires Shape(log, s) && Enabled(log, s, PollMixed(n))
    ensures Shape(log, Apply(log, s, PollMixed(n)))
  {
    NewStretch(log, s, Apply(log, s, PollMixed(n)));
  }

  lemma StepKeepsShape(log: seq<Record>, s: Sys, step: Step)
    requires Shape(log, s) && Enabled(log, s, step)
    ensures Shape(log, Apply(log, s, step))
  {
    match step
    case Process => ProcessKeepsShape(log, s);
    case PollMixed(n) => MixedKeepsShape(log, s, n);
    case Restart => NewStretch(log, s, Apply(log, s, step));
    case _ =>
      var s' := Apply(log, s, step);
      assert Spans(s') == Spans(s);
      assert forall i :: HandedOver(s, i) ==> HandedOver(s', i);
  }

  // ---------- The replica ----------

  function Upsert(m: map<string, Row>, e: Event): map<string, Row> {
    m[e.row.id := e.row]
  }

  /** A replica that has applied the events in order. */
  function Fold(events: seq<Event>): map<string, Row> {
    if events == [] then map[] else Upsert(Fold(events[..|events| - 1]), events[|events| - 1])
  }

  /** The replica of the first n records, each applied once. */
  function Prefix(log: seq<Record>, n: nat): map<string, Row>
    requires n <= |log|
  {
    Fold(Events(log, 0, n))
  }

  predicate SameAt(a: map<string, Row>, b: map<string, Row>, id: string) {
    (id in a <==> id in b) && (id in a ==> a[id] == b[id])
  }

  predicate Concerns(r: Record, id: string) {
    Emission(r).Some? && Emission(r).value.row.id == id
  }

  ghost predicate Untouched(log: seq<Record>, a: nat, b: nat, id: string)
    requires b <= |log|
  {
    forall i :: a <= i < b ==> !Concerns(log[i], id)
  }

  lemma FoldSnoc(events: seq<Event>, e: Event)
    ensures Fold(events + [e]) == Upsert(Fold(events), e)
  {
    assert (events + [e])[..|events|] == events;
  }

  lemma PrefixGrows(log: seq<Record>, n: nat)
    requires n < |log|
    ensures var e := Emission(log[n]);
            Prefix(log, n + 1) == if e.Some? then Upsert(Prefix(log, n), e.value) else Prefix(log, n)
  {
    var e := Emission(log[n]);
    if e.Some? {
      FoldSnoc(Events(log, 0, n), e.value);
    } else {
      assert Events(log, 0, n + 1) == Events(log, 0, n) + [] == Events(log, 0, n);
    }
  }

  lemma UpsertElsewhere(m: map<string, Row>, e: Event, id: string)
    ensures if e.row.id == id then id in Upsert(m, e) && Upsert(m, e)[id] == e.row else SameAt(m, Upsert(m, e), id)
  {
  }

  lemma SameAtTransitive(a: map<string, Row>, b: map<string, Row>, c: map<string, Row>, id: string)
    requires SameAt(a, b, id) && SameAt(b, c, id)
    ensures SameAt(a, c, id)
  {
  }

  /** What one more record does to the replica of the log, at one id. */
  lemma PrefixGrowsAt(log: seq<Record>, n: nat, id: string)
    requires n < |log|
    ensures if Concerns(log[n], id) then
              id in Prefix(log, n + 1) && Prefix(log, n + 1)[id] == Emission(log[n]).value.row
            else SameAt(Prefix(log, n), Prefix(log, n + 1), id)
  {
    PrefixGrows(log, n);
    if Emission(log[n]).Some? {
      UpsertElsewhere(Prefix(log, n), Emission(log[n]).value, id);
    }
  }

  /** And what processing it does to the replica fed by the consumer. */
  lemma FoldGrowsAt(log: seq<Record>, s: Sys, id: string)
    requires Enabled(log, s, Process)
    ensures var r := Fold(Apply(log, s, Process).emitted);
            if Concerns(log[s.next], id) then id in r && r[id] == Emission(log[s.next]).value.row
            else SameAt(Fold(s.emitted), r, id)
  {
    var e := Emission(log[s.next]);
    if e.Some? {
      FoldSnoc(s.emitted, e.value);
      UpsertElsewhere(Fold(s.emitted), e.value, id);
    } else {
      assert s.emitted + [] == s.emitted;
    }
  }

  lemma {:induction false} UntouchedPrefix(log: seq<Record>, a: nat, b: nat, id: string)
    requires a <= b <= |log| && Untouched(log, a, b, id)
    ensures SameAt(Prefix(log, a), Prefix(log, b), id)
    decreases b
  {
    if a < b {
      UntouchedPrefix(log, a, b - 1, id);
      PrefixGrowsAt(log, b - 1, id);
      SameAtTransitive(Prefix(log, a), Prefix(log, b - 1), Prefix(log, b), id);
    }
  }

  /** The last record below n that concerns the id, if there is one, was processed and not skipped when the
      consumer last passed it. */
  ghost predicate Settled(log: seq<Record>, s: Sys, n: nat, id: string)
    requires n <= |log|
  {
    forall i :: 0 <= i < n && i in s.stale && Concerns(log[i], id) ==> !Untouched(log, i + 1, n, id)
  }

  /** An id not written between the committed offset and the furthest point is up to date there; one written
      since the committed offset is as of the record dealt with last; both if it is settled. */
  ghost predicate Converging(log: seq<Record>, s: Sys, id: string)
    requires s.next <= s.high <= |log|
  {
    ConvergingAtHigh(log, s, id) && ConvergingAtNext(log, s, id)
  }

  ghost predicate ConvergingAtHigh(log: seq<Record>, s: Sys, id: string)
    requires s.high <= |log|
  {
    Untouched(log, s.committed, s.high, id) && Settled(log, s, s.high, id) ==>
      SameAt(Fold(s.emitted), Prefix(log, s.high), id)
  }

  ghost predicate ConvergingAtNext(log: seq<Record>, s: Sys, id: string)
    requires s.next <= |log|
  {
    !Untouched(log, s.committed, s.next, id) && Settled(log, s, s.next, id) ==>
      SameAt(Fold(s.emitted), Prefix(log, s.next), id)
  }

  /** Records that do not concern the id unsettle nothing. */
  lemma SettledBefore(log: seq<Record>, s: Sys, s': Sys, n: nat, n': nat, id: string)
    requires n <= n' <= |log| && Untouched(log, n, n', id) && Settled(log, s', n', id)
    requires forall i :: 0 <= i < n && i in s.stale && Concerns(log[i], id) ==> i in s'.stale
    ensures Settled(log, s, n, id)
  {
    forall i | 0 <= i < n && i in s.stale && Concerns(log[i], id)
      ensures !Untouched(log, i + 1, n, id)
    {
      var j :| i + 1 <= j < n' && Concerns(log[j], id);
      assert j < n;
    }
  }

  lemma {:induction false} LastConcern(log: seq<Record>, a: nat, b: nat, id: string) returns (i: nat)
    requires a <= b <= |log| && !Untouched(log, a, b, id)
    ensures a <= i < b && Concerns(log[i], id) && Untouched(log, i + 1, b, id)
    decreases b
  {
    i := b - 1;
    if !Concerns(log[i], id) {
      i := LastConcern(log, a, b - 1, id);
    }
  }

  lemma SameAtStep(a: map<string, Row>, b: map<string, Row>, a': map<string, Row>, b': map<string, Row>, id: string)
    requires SameAt(a, b, id) && SameAt(a, a', id) && SameAt(b, b', id)
    ensures SameAt(a', b', id)
  {
  }

  /** A record that does not concern the id, processed. */
  lemma ProcessElsewhereAtNext(log: seq<Record>, s: Sys, id: string)
    requires Enabled(log, s, Process) && !Concerns(log[s.next], id) && ConvergingAtNext(log, s, id)
    ensures ConvergingAtNext(log, Apply(log, s, Process), id)
  {
    var s' := Apply(log, s, Process);
    if !Untouched(log, s.committed, s'.next, id) && Settled(log, s', s'.next, id) {
      SettledBefore(log, s, s', s.next, s'.next, id);
      PrefixGrowsAt(log, s.next, id);
      FoldGrowsAt(log, s, id);
      SameAtStep(Fold(s.emitted), Prefix(log, s.next), Fold(s'.emitted), Prefix(log, s'.next), id);
    }
  }

  lemma ProcessElsewhereAtHigh(log: seq<Record>, s: Sys, id: string)
    requires Enabled(log, s, Process) && s.next <= s.high <= |log|
    requires !Concerns(log[s.next], id) && ConvergingAtHigh(log, s, id)
    ensures ConvergingAtHigh(log, Apply(log, s, Process), id)
  {
    var s' := Apply(log, s, Process);
    if Untouched(log, s.committed, s'.high, id) && Settled(log, s', s'.high, id) {
      SettledBefore(log, s, s', s.high, s'.high, id);
      PrefixGrowsAt(log, s.next, id);
      FoldGrowsAt(log, s, id);
      SameAtStep(Fold(s.emitted), Prefix(log, s.high), Fold(s'.emitted), Prefix(log, s'.high), id);
    }
  }

  lemma ProcessConverges(log: seq<Record>, s: Sys, id: string)
    requires Enabled(log, s, Process) && s.committed <= s.next <= s.high <= |log| && Converging(log, s, id)
    ensures Converging(log, Apply(log, s, Process), id)
  {
    if Concerns(log[s.next], id) {
      PrefixGrowsAt(log, s.next, id);
      FoldGrowsAt(log, s, id);
      assert !Untouched(log, s.committed, Apply(log, s, Process).high, id);
    } else {
      ProcessElsewhereAtNext(log, s, id);
      ProcessElsewhereAtHigh(log, s, id);
    }
  }

  lemma CommitConverges(log: seq<Record>, s: Sys, fails: bool, id: string)
    requires Shape(log, s) && Enabled(log, s, Commit(fails)) && Converging(log, s, id)
    ensures Converging(log, Apply(log, s, Commit(fails)), id)
  {
    var s' := Apply(log, s, Commit(fails));
    assert Settled(log, s', s.high, id) <==> Settled(log, s, s.high, id);
    assert Settled(log, s', s.next, id) <==> Settled(log, s, s.next, id);
    if Untouched(log, s.position, s.high, id) && Settled(log, s, s.high, id) {
      UntouchedPrefix(log, s.position, s.high, id);
      SettledBefore(log, s, s, s.position, s.high, id);
      assert Untouched(log, s.committed, s.next, id) ==> Untouched(log, s.committed, s.high, id);
    }
  }

  /** A batch just skipped concerns no settled id. */
  lemma SettledSkip(log: seq<Record>, s: Sys, a: nat, b: nat, id: string)
    requires a <= b <= |log| && Settled(log, s, b, id) && forall i :: a <= i < b ==> i in s.stale
    ensures Untouched(log, a, b, id)
  {
    if !Untouched(log, a, b, id) {
      var _ := LastConcern(log, a, b, id);
    }
  }

  lemma MixedConverges(log: seq<Record>, s: Sys, n: nat, id: string)
    requires Shape(log, s) && Enabled(log, s, PollMixed(n)) && Converging(log, s, id)
    ensures s.position + n <= Apply(log, s, PollMixed(n)).high <= |log|
    ensures Converging(log, Apply(log, s, PollMixed(n)), id)
  {
    MixedAtNext(log, s, n, id);
    MixedAtHigh(log, s, n, id);
  }

  lemma MixedAtNext(log: seq<Record>, s: Sys, n: nat, id: string)
    requires Enabled(log, s, PollMixed(n)) && s.committed <= s.next <= s.high <= |log| && Converging(log, s, id)
    ensures ConvergingAtNext(log, Apply(log, s, PollMixed(n)), id)
  {
    var s', to := Apply(log, s, PollMixed(n)), s.position + n;
    if !Untouched(log, s.committed, to, id) && Settled(log, s', to, id) {
      assert forall i :: s.next <= i < to ==> i in s'.stale;
      SettledSkip(log, s', s.next, to, id);
      SettledBefore(log, s, s', s.next, to, id);
      UntouchedPrefix(log, s.next, to, id);
      assert !Untouched(log, s.committed, s.next, id);
    }
  }

  lemma MixedAtHigh(log: seq<Record>, s: Sys, n: nat, id: string)
    requires Enabled(log, s, PollMixed(n)) && s.committed <= s.next <= s.high <= |log| && Converging(log, s, id)
    ensures ConvergingAtHigh(log, Apply(log, s, PollMixed(n)), id)
  {
    var s' := Apply(log, s, PollMixed(n));
    if Untouched(log, s.committed, s'.high, id) && Settled(log, s', s'.high, id) {
      SettledBefore(log, s, s', s.high, s'.high, id);
      UntouchedPrefix(log, s.high, s'.high, id);
    }
  }

  lemma StepConverges(log: seq<Record>, s: Sys, step: Step, id: string)
    requires Shape(log, s) && Enabled(log, s, step) && Converging(log, s, id)
    ensures Shape(log, Apply(log, s, step)) && Converging(log, Apply(log, s, step), id)
  {
    StepKeepsShape(log, s, step);
    match step
    case PollMixed(n) => MixedConverges(log, s, n, id);
    case Process => ProcessConverges(log, s, id);
    case Commit(fails) => CommitConverges(log, s, fails, id);
    case _ =>
      assert Settled(log, Apply(log, s, step), s.high, id) <==> Settled(log, s, s.high, id);
      assert Settled(log, Apply(log, s, step), s.next, id) <==> Settled(log, s, s.next, id);
  }

  lemma StartHasShape(log: seq<Record>)
    ensures Shape(log, START)
  {
    assert Spans(START) == [Span(0, 0)];
    assert SpanEvents(log, Spans(START)) == Events(log, 0, 0) by {
      SpanEventsSnoc(log, [], Span(0, 0));
    }
  }

  /** What every run keeps: the shape, what was once skipped, and how far was committed. */
  lemma {:induction false} RunKeepsShape(log: seq<Record>, s: Sys, steps: seq<Step>)
    requires Shape(log, s) && Possible(log, s, steps)
    ensures var s' := Exec(log, s, steps);
            Shape(log, s') && s.skipped <= s'.skipped && s.committed <= s'.committed
    decreases |steps|
  {
    if steps != [] {
      StepKeepsShape(log, s, steps[0]);
      RunKeepsShape(log, Apply(log, s, steps[0]), steps[1..]);
    }
  }

  lemma Reached(log: seq<Record>, steps: seq<Step>)
    requires Possible(log, START, steps)
    ensures Shape(log, Exec(log, START, steps))
  {
    StartHasShape(log);
    RunKeepsShape(log, START, steps);
  }

  lemma {:induction false} RunConverges(log: seq<Record>, s: Sys, steps: seq<Step>, id: string)
    requires Shape(log, s) && Converging(log, s, id) && Possible(log, s, steps)
    ensures var s' := Exec(log, s, steps); Shape(log, s') && Converging(log, s', id)
    decreases |steps|
  {
    if steps != [] {
      StepConverges(log, s, steps[0], id);
      RunConverges(log, Apply(log, s, steps[0]), steps[1..], id);
    }
  }

  // ---------- Guarantees ----------

  /** In every run, with crashes at any moment, failed commits and every kind of poll: the committed offset
      never passes what was dealt with; everything below it was handed over or skipped; and the calls of
      the producer are the events of stretches of the log, each in log order without a gap. */
  lemma HandOffAtLeastOnce(log: seq<Record>, steps: seq<Step>)
    requires Possible(log, START, steps)
    ensures var s := Exec(log, START, steps);
            && s.committed <= s.next <= s.position <= |log|
            && (forall i :: 0 <= i < s.committed ==> HandedOver(s, i) || i in s.skipped)
            && (forall i :: 0 <= i < |log| && HandedOver(s, i) && Emission(log[i]).Some? ==>
                  Emission(log[i]).value in s.emitted)
            && (forall j :: 0 <= j < |Spans(s)| ==> Within(log, Spans(s)[j]))
            && s.emitted == SpanEvents(log, Spans(s))
  {
    Reached(log, steps);
    var s := Exec(log, START, steps);
    forall i | 0 <= i < |log| && HandedOver(s, i) && Emission(log[i]).Some?
      ensures Emission(log[i]).value in s.emitted
    {
      HandedOverIsEmitted(log, s, i);
    }
  }

  /** No poll of the run brings errors and records together. */
  predicate Clean(steps: seq<Step>) {
    forall i :: 0 <= i < |steps| ==> !steps[i].PollMixed?
  }

  lemma {:induction false} CleanRunSkipsNothing(log: seq<Record>, s: Sys, steps: seq<Step>)
    requires Possible(log, s, steps) && Clean(steps)
    ensures Exec(log, s, steps).skipped == s.skipped
    decreases |steps|
  {
    if steps != [] {
      CleanRunSkipsNothing(log, Apply(log, s, steps[0]), steps[1..]);
    }
  }

  /** In every run whose polls bring errors or records but not both, every record below the committed
      offset was handed over; indeed every record up to the furthest point, and no other. */
  lemma CleanHandOff(log: seq<Record>, steps: seq<Step>)
    requires Possible(log, START, steps) && Clean(steps)
    ensures var s := Exec(log, START, steps);
            s.committed <= s.high && forall i: nat :: HandedOver(s, i) <==> i < s.high
  {
    Reached(log, steps);
    CleanRunSkipsNothing(log, START, steps);
  }

  lemma {:induction false} InStretch(log: seq<Record>, a: nat, b: nat, i: nat)
    requires a <= i < b <= |log| && Emission(log[i]).Some?
    ensures Emission(log[i]).value in Events(log, a, b)
    decreases b
  {
    if i < b - 1 {
      InStretch(log, a, b - 1, i);
    }
  }

  lemma {:induction false} InSpans(log: seq<Record>, spans: seq<Span>, j: nat, e: Event)
    requires forall i :: 0 <= i < |spans| ==> Within(log, spans[i])
    requires j < |spans| && Within(log, spans[j]) && e in Events(log, spans[j].from, spans[j].to)
    ensures e in SpanEvents(log, spans)
    decreases |spans|
  {
    if j < |spans| - 1 {
      InSpans(log, spans[..|spans| - 1], j, e);
    }
  }

  lemma HandedOverIsEmitted(log: seq<Record>, s: Sys, i: nat)
    requires Shape(log, s) && i < |log| && HandedOver(s, i) && Emission(log[i]).Some?
    ensures Emission(log[i]).value in s.emitted
  {
    var j :| 0 <= j < |Spans(s)| && Spans(s)[j].from <= i < Spans(s)[j].to;
    assert Within(log, Spans(s)[j]);
    InStretch(log, Spans(s)[j].from, Spans(s)[j].to, i);
    InSpans(log, Spans(s), j, Emission(log[i]).value);
  }

  /** Whatever was replayed or skipped and in however many pieces: once the consumer is back at its furthest
      point, a replica that applied the emitted events in order agrees with one that applied each record of
      the log up to there once, at every id whose last record was processed, not skipped, when the consumer
      last passed it. So they are equal if everything skipped that emits was processed since, in particular
      if no poll brought errors and records together. */
  lemma ReplayConvergence(log: seq<Record>, steps: seq<Step>)
    requires Possible(log, START, steps)
    requires Exec(log, START, steps).next == Exec(log, START, steps).high
    ensures var s := Exec(log, START, steps);
            && s.high <= |log| && s.stale <= s.skipped
            && (forall id :: Settled(log, s, s.high, id) ==> SameAt(Fold(s.emitted), Prefix(log, s.high), id))
            && ((forall i :: 0 <= i < |log| && i in s.stale ==> Emission(log[i]).None?) ==>
                  Fold(s.emitted) == Prefix(log, s.high))
            && (Clean(steps) ==> Fold(s.emitted) == Prefix(log, s.high))
  {
    var s := Exec(log, START, steps);
    Reached(log, steps);
    forall id | Settled(log, s, s.high, id)
      ensures SameAt(Fold(s.emitted), Prefix(log, s.high), id)
    {
      StartHasShape(log);
      RunConverges(log, START, steps, id);
    }
    if Clean(steps) {
      CleanRunSkipsNothing(log, START, steps);
    }
    if forall i :: 0 <= i < |log| && i in s.stale ==> Emission(log[i]).None? {
      assert forall id :: Settled(log, s, s.high, id);
      SameEverywhere(Fold(s.emitted), Prefix(log, s.high));
    }
  }

  /** A creation, a snapshot row or an update that brings a row with the id. */
  predicate WritesRow(r: Record, id: string) {
    r.Change? && r.op in {"c", "r", "u"} && r.after.Some? && r.after.value.id == id
  }

  lemma {:induction false} PrefixHoldsLastRow(log: seq<Record>, n: nat, i: nat, id: string)
    requires LastWriter(log, n, i, id)
    ensures id in Prefix(log, n) && Prefix(log, n)[id] == log[i].after.value
    decreases n
  {
    PrefixGrowsAt(log, n - 1, id);
    if i < n - 1 {
      PrefixHoldsLastRow(log, n - 1, i, id);
    }
  }

  lemma {:induction false} PrefixLacksRow(log: seq<Record>, n: nat, id: string)
    requires n <= |log| && forall j :: 0 <= j < n ==> !WritesRow(log[j], id)
    ensures id !in Prefix(log, n)
    decreases n
  {
    if n > 0 {
      PrefixGrowsAt(log, n - 1, id);
      PrefixLacksRow(log, n - 1, id);
    }
  }

  /** Record i is the last below n that wrote a row for the id. */
  ghost predicate LastWriter(log: seq<Record>, n: nat, i: nat, id: string) {
    i < n <= |log| && WritesRow(log[i], id) && forall j :: i < j < n ==> !WritesRow(log[j], id)
  }

  lemma LastWriterSettles(log: seq<Record>, s: Sys, n: nat, i: nat, id: string)
    requires LastWriter(log, n, i, id) && i !in s.stale
    ensures Settled(log, s, n, id)
  {
    assert Concerns(log[i], id);
  }

  lemma NobodySettles(log: seq<Record>, s: Sys, n: nat, id: string)
    requires n <= |log| && forall j :: 0 <= j < n ==> !WritesRow(log[j], id)
    ensures Settled(log, s, n, id)
  {
  }

  /** Measured against the log itself: back at the furthest point the replica has nothing at an id that no record
      wrote a row for; and otherwise, if the last record that did was processed, not skipped, when the consumer
      last passed it, the replica has exactly that record's row. */
  lemma ReplicaHoldsLastRows(log: seq<Record>, steps: seq<Step>, id: string)
    requires Possible(log, START, steps)
    requires Exec(log, START, steps).next == Exec(log, START, steps).high
    ensures var s := Exec(log, START, steps); var replica := Fold(s.emitted);
            && s.high <= |log|
            && ((forall i :: 0 <= i < s.high ==> !WritesRow(log[i], id)) ==> id !in replica)
            && (forall i: nat :: LastWriter(log, s.high, i, id) && i !in s.stale ==>
                  id in replica && replica[id] == log[i].after.value)
  {
    ReplayConvergence(log, steps);
    RowsAtHigh(log, Exec(log, START, steps), id);
  }

  lemma RowsAtHigh(log: seq<Record>, s: Sys, id: string)
    requires s.high <= |log|
    requires Settled(log, s, s.high, id) ==> SameAt(Fold(s.emitted), Prefix(log, s.high), id)
    ensures (forall i :: 0 <= i < s.high ==> !WritesRow(log[i], id)) ==> id !in Fold(s.emitted)
    ensures forall i: nat :: LastWriter(log, s.high, i, id) && i !in s.stale ==>
              id in Fold(s.emitted) && Fold(s.emitted)[id] == log[i].after.value
  {
    if forall i :: 0 <= i < s.high ==> !WritesRow(log[i], id) {
      NobodySettles(log, s, s.high, id);
      PrefixLacksRow(log, s.high, id);
    }
    forall i: nat | LastWriter(log, s.high, i, id) && i !in s.stale
      ensures id in Fold(s.emitted) && Fold(s.emitted)[id] == log[i].after.value
    {
      LastWriterSettles(log, s, s.high, i, id);
      PrefixHoldsLastRow(log, s.high, i, id);
    }
  }

  lemma SameEverywhere(a: map<string, Row>, b: map<string, Row>)
    requires forall id :: SameAt(a, b, id)
    ensures a == b
  {
    assert forall id :: id in a ==> SameAt(a, b, id);
    assert forall id :: id in b ==> SameAt(a, b, id);
  }

  // ---------- Polls that bring errors and records together ----------

  /** One step hands over the record it processes and takes nothing back. */
  lemma StepHandsOver(log: seq<Record>, s: Sys, step: Step, i: nat)
    requires Shape(log, s) && Enabled(log, s, step)
    ensures HandedOver(Apply(log, s, step), i) <==> HandedOver(s, i) || (step.Process? && i == s.next)
  {
    var s' := Apply(log, s, step);
    match step
    case Process => SpansGrow(s, s');
    case PollMixed(_) => NewStretch(log, s, s');
    case Restart => NewStretch(log, s, s');
    case _ => assert Spans(s') == Spans(s);
  }

  /** What was handed over stays so; below the committed offset nothing is added any more, nor is below the
      present point as long as nothing restarts. */
  lemma {:induction false} HandOverOnwards(log: seq<Record>, s: Sys, steps: seq<Step>, i: nat)
    requires Shape(log, s) && Possible(log, s, steps)
    ensures var s' := Exec(log, s, steps);
            && (HandedOver(s, i) ==> HandedOver(s', i))
            && (i < s.committed || (i < s.next && Restart !in steps) ==> (HandedOver(s', i) <==> HandedOver(s, i)))
    decreases |steps|
  {
    if steps != [] {
      StepKeepsShape(log, s, steps[0]);
      StepHandsOver(log, s, steps[0], i);
      HandOverOnwards(log, Apply(log, s, steps[0]), steps[1..], i);
    }
  }

  /** Every record from a on and before b was handed over, and processed when the consumer last passed it. */
  ghost predicate CaughtUp(s: Sys, a: nat, b: nat) {
    forall i :: a <= i < b ==> HandedOver(s, i) && i !in s.stale
  }

  /** Nothing polled and nothing committed in between. */
  predicate SameOffsets(s: Sys, s': Sys) {
    s'.position == s.position && s'.committed == s.committed
  }

  /** Processes the next m records. */
  function Times(m: nat): seq<Step> {
    seq(m, _ => Process)
  }

  lemma {:induction false} Processing(log: seq<Record>, s: Sys, m: nat)
    requires Shape(log, s) && s.polled && s.next + m <= s.position
    ensures Possible(log, s, Times(m))
    ensures var s' := Exec(log, s, Times(m)); s'.stale <= s.stale && CaughtUp(s', s.next, s.next + m)
    ensures var s' := Exec(log, s, Times(m)); s'.next == s.next + m && s'.polled && SameOffsets(s, s')
    decreases m
  {
    if m > 0 {
      var s1 := Apply(log, s, Process);
      assert Times(m)[1..] == Times(m - 1);
      ProcessKeepsShape(log, s);
      StepHandsOver(log, s, Process, s.next);
      Processing(log, s1, m - 1);
      HandOverOnwards(log, s1, Times(m - 1), s.next);
    }
  }

  /** A restart, one poll without errors, and the processing of everything up to and including record i. */
  function Retry(s: Sys, i: nat): seq<Step>
    requires s.committed <= i
  {
    [Restart] + ([Poll(i + 1 - s.committed)] + Times(i + 1 - s.committed))
  }

  lemma FirstStep(log: seq<Record>, s: Sys, step: Step, rest: seq<Step>)
    requires Enabled(log, s, step) && Possible(log, Apply(log, s, step), rest)
    ensures Possible(log, s, [step] + rest) && Exec(log, s, [step] + rest) == Exec(log, Apply(log, s, step), rest)
  {
    assert ([step] + rest)[1..] == rest;
  }

  lemma RetryHandsOver(log: seq<Record>, s: Sys, i: nat) returns (s': Sys)
    requires Shape(log, s) && s.committed <= i < |log|
    ensures Possible(log, s, Retry(s, i)) && s' == Exec(log, s, Retry(s, i))
    ensures CaughtUp(s', s.committed, i + 1) && HandedOver(s', i)
  {
    var m := i + 1 - s.committed;
    var s1 := Restarted(log, s);
    s' := PollAndProcess(log, s1, m);
    FirstStep(log, s, Restart, [Poll(m)] + Times(m));
    CaughtUpAt(s', s.committed, i + 1, i);
  }

  lemma Restarted(log: seq<Record>, s: Sys) returns (s': Sys)
    requires Shape(log, s)
    ensures s' == Apply(log, s, Restart) && Shape(log, s') && !s'.polled
    ensures s'.next == s'.position == s'.committed == s.committed
  {
    StepKeepsShape(log, s, Restart);
    s' := Apply(log, s, Restart);
  }

  lemma CaughtUpAt(s: Sys, a: nat, b: nat, i: nat)
    requires CaughtUp(s, a, b) && a <= i < b
    ensures HandedOver(s, i)
  {
  }

  lemma PollAndProcess(log: seq<Record>, s: Sys, m: nat) returns (s': Sys)
    requires Shape(log, s) && Enabled(log, s, Poll(m))
    ensures Possible(log, s, [Poll(m)] + Times(m)) && s' == Exec(log, s, [Poll(m)] + Times(m))
    ensures CaughtUp(s', s.next, s.next + m)
    ensures s'.polled && s'.next == s'.position == s.position + m <= |log| && s'.committed == s.committed
  {
    StepKeepsShape(log, s, Poll(m));
    var s1 := Apply(log, s, Poll(m));
    Processing(log, s1, m);
    FirstStep(log, s, Poll(m), Times(m));
    s' := Exec(log, s1, Times(m));
  }

  /** The steps are possible and record i has been handed over after them. */
  ghost predicate Delivers(log: seq<Record>, s: Sys, steps: seq<Step>, i: nat) {
    Possible(log, s, steps) && HandedOver(Exec(log, s, steps), i)
  }

  lemma DeliverableFrom(log: seq<Record>, s: Sys, i: nat)
    requires Shape(log, s) && i < |log|
    ensures (exists more :: Delivers(log, s, more, i)) <==> HandedOver(s, i) || s.committed <= i
  {
    if HandedOver(s, i) {
      assert Delivers(log, s, [], i);
    } else if s.committed <= i {
      var _ := RetryHandsOver(log, s, i);
      assert Delivers(log, s, Retry(s, i), i);
    } else {
      forall more
        ensures !Delivers(log, s, more, i)
      {
        if Possible(log, s, more) {
          HandOverOnwards(log, s, more, i);
        }
      }
    }
  }

  /** In every run and for every record: some continuation hands it over, if that has not happened yet, if
      and only if it is not below the committed offset. So a restart offers it again as long as no commit
      has passed it. */
  lemma RecoverableExactly(log: seq<Record>, steps: seq<Step>, i: nat)
    requires Possible(log, START, steps) && i < |log|
    ensures var s := Exec(log, START, steps);
            (exists more :: Delivers(log, s, more, i)) <==> HandedOver(s, i) || s.committed <= i
  {
    Reached(log, steps);
    DeliverableFrom(log, Exec(log, START, steps), i);
  }

  /** The record emits something and the producer was never called for it. */
  ghost predicate Lost(log: seq<Record>, s: Sys, i: nat) {
    i < |log| && Emission(log[i]).Some? && !HandedOver(s, i)
  }

  /** In every run, what is lost below the committed offset is exactly what was skipped there, emits and is
      in no stretch; and that is lost for good. */
  lemma LostExactly(log: seq<Record>, steps: seq<Step>, more: seq<Step>, i: nat)
    requires Possible(log, START, steps) && Possible(log, Exec(log, START, steps), more)
    requires i < Exec(log, START, steps).committed <= |log|
    ensures var s := Exec(log, START, steps);
            && (Lost(log, s, i) <==> i in s.skipped && Emission(log[i]).Some? && !HandedOver(s, i))
            && (Lost(log, s, i) <==> Lost(log, Exec(log, s, more), i))
  {
    Reached(log, steps);
    HandOverOnwards(log, Exec(log, START, steps), more, i);
  }

  /** From s on: a poll with errors and n records, further steps without a restart, then a commit. */
  ghost predicate PassesBatch(log: seq<Record>, s: Sys, n: nat, between: seq<Step>) {
    && Enabled(log, s, PollMixed(n)) && Restart !in between
    && Possible(log, Apply(log, s, PollMixed(n)), between)
    && Enabled(log, Exec(log, Apply(log, s, PollMixed(n)), between), Commit(false))
  }

  function Passed(log: seq<Record>, s: Sys, n: nat, between: seq<Step>): Sys
    requires PassesBatch(log, s, n, between)
  {
    Apply(log, Exec(log, Apply(log, s, PollMixed(n)), between), Commit(false))
  }

  lemma PassingKeeps(log: seq<Record>, s: Sys, n: nat, between: seq<Step>, i: nat)
    requires Shape(log, s) && PassesBatch(log, s, n, between) && s.position <= i < s.position + n
    ensures var s' := Passed(log, s, n, between);
            Shape(log, s') && i < s'.committed && i in s'.skipped && (HandedOver(s', i) <==> HandedOver(s, i))
  {
    var s1 := Apply(log, s, PollMixed(n));
    StepHandsOver(log, s, PollMixed(n), i);
    MixedKeepsShape(log, s, n);
    RunKeepsShape(log, s1, between);
    StaysAhead(log, s1, between);
    HandOverOnwards(log, s1, between, i);
    StepHandsOver(log, Exec(log, s1, between), Commit(false), i);
    StepKeepsShape(log, Exec(log, s1, between), Commit(false));
  }

  /** A poll that brings errors together with n records skips them. Once a commit has succeeded without a
      restart in between, then in every continuation a record of that batch is handed over if and only if it
      had been before the poll; if all polls before were clean, that is if and only if it lay below the
      furthest point. */
  lemma MixedPollLosesExactly(log: seq<Record>, steps: seq<Step>, n: nat, between: seq<Step>, more: seq<Step>, i: nat)
    requires Possible(log, START, steps)
    requires PassesBatch(log, Exec(log, START, steps), n, between)
    requires Possible(log, Passed(log, Exec(log, START, steps), n, between), more)
    requires Exec(log, START, steps).position <= i < Exec(log, START, steps).position + n
    ensures var s := Exec(log, START, steps); var s' := Passed(log, s, n, between);
            && i < s'.committed && i in s'.skipped
            && (HandedOver(Exec(log, s', more), i) <==> HandedOver(s, i))
            && (Clean(steps) ==> (HandedOver(Exec(log, s', more), i) <==> i < s.high))
  {
    var s := Exec(log, START, steps);
    Reached(log, steps);
    PassingKeeps(log, s, n, between, i);
    HandOverOnwards(log, Passed(log, s, n, between), more, i);
    if Clean(steps) {
      CleanHandOff(log, steps);
    }
  }

  /** Without a restart the consumer never goes back. */
  lemma {:induction false} StaysAhead(log: seq<Record>, s: Sys, steps: seq<Step>)
    requires Shape(log, s) && Possible(log, s, steps) && Restart !in steps
    ensures s.next <= Exec(log, s, steps).next
    decreases |steps|
  {
    if steps != [] {
      StepKeepsShape(log, s, steps[0]);
      StaysAhead(log, Apply(log, s, steps[0]), steps[1..]);
    }
  }

  lemma OffersAgain(log: seq<Record>, s: Sys, n: nat, between: seq<Step>, i: nat)
    requires Shape(log, s) && Enabled(log, s, PollMixed(n)) && Commit(false) !in between
    requires Possible(log, Apply(log, s, PollMixed(n)), between) && s.position <= i < s.position + n
    ensures var s' := Exec(log, Apply(log, s, PollMixed(n)), between);
            && s'.committed == s.committed && i in s'.skipped
            && Delivers(log, s', Retry(s', i), i)
            && CaughtUp(Exec(log, s', Retry(s', i)), s.committed, i + 1)
  {
    var s1 := Apply(log, s, PollMixed(n));
    MixedKeepsShape(log, s, n);
    RunKeepsShape(log, s1, between);
    NothingCommitted(log, s1, between);
    var _ := RetryHandsOver(log, Exec(log, s1, between), i);
  }

  /** If instead the process restarts before any commit succeeded, the batch is offered again: one poll
      without errors and the processing of what it brings hand every record of it over, and none up to there
      counts as skipped any more. */
  lemma RestartOffersBatchAgain(log: seq<Record>, steps: seq<Step>, n: nat, between: seq<Step>, i: nat)
    requires Possible(log, START, steps)
    requires Enabled(log, Exec(log, START, steps), PollMixed(n)) && Commit(false) !in between
    requires Possible(log, Apply(log, Exec(log, START, steps), PollMixed(n)), between)
    requires Exec(log, START, steps).position <= i < Exec(log, START, steps).position + n
    ensures var s := Exec(log, START, steps);
            var s' := Exec(log, Apply(log, s, PollMixed(n)), between);
            && s'.committed == s.committed <= i && i in s'.skipped
            && Delivers(log, s', Retry(s', i), i)
            && CaughtUp(Exec(log, s', Retry(s', i)), s.committed, i + 1)
  {
    Reached(log, steps);
    OffersAgain(log, Exec(log, START, steps), n, between, i);
  }

  lemma {:induction false} NothingCommitted(log: seq<Record>, s: Sys, steps: seq<Step>)
    requires Possible(log, s, steps) && Commit(false) !in steps
    ensures Exec(log, s, steps).committed == s.committed
    decreases |steps|
  {
    if steps != [] {
      NothingCommitted(log, Apply(log, s, steps[0]), steps[1..]);
    }
  }

  /** A created user whose record arrives together with an error: the next commit passes the record, and no
      continuation ever calls the producer. */
  lemma OneUserLost(row: Row)
    ensures var log, steps := [Change("c", Some(row))], [PollMixed(1), Poll(0), Commit(false)];
            && Emission(log[0]) == Some(Created(row))
            && Possible(log, START, steps) && Exec(log, START, steps).committed == 1
            && forall more :: Possible(log, Exec(log, START, steps), more) ==>
                 Exec(log, Exec(log, START, steps), more).emitted == []
  {
    var log, steps := [Change("c", Some(row))], [PollMixed(1), Poll(0), Commit(false)];
    var s1 := Apply(log, START, PollMixed(1));
    var s2 := Apply(log, s1, Poll(0));
    var s3 := Apply(log, s2, Commit(false));
    FirstStep(log, s2, Commit(false), []);
    FirstStep(log, s1, Poll(0), [Commit(false)]);
    FirstStep(log, START, PollMixed(1), [Poll(0), Commit(false)]);
    assert steps == [PollMixed(1)] + ([Poll(0)] + ([Commit(false)] + []));
    assert Exec(log, START, steps) == Exec(log, s3, []) == s3;
    forall more | Possible(log, s3, more)
      ensures Exec(log, s3, more).emitted == []
    {
      NothingLeft(log, s3, more);
    }
  }

  /** Once the whole log is committed nothing more is emitted. */
  lemma {:induction false} NothingLeft(log: seq<Record>, s: Sys, steps: seq<Step>)
    requires s.committed == s.next == s.position == |log| && Possible(log, s, steps)
    ensures Exec(log, s, steps).emitted == s.emitted
    decreases |steps|
  {
    if steps != [] {
      NothingLeft(log, Apply(log, s, steps[0]), steps[1..]);
    }
  }

  // ---------- The consumer object ----------

  /** What one poll brings: errors, with n records or none; or n records and no errors, whose offsets are
      then committed or not. */
  datatype Fetch = Errors(n: nat) | Batch(n: nat, commitFails: bool)

  function Total(fetches: seq<Fetch>): nat {
    if fetches == [] then 0 else fetches[0].n + Total(fetches[1..])
  }

  /** The offset committed after the fetches: the position after the last one without errors whose commit went
      through, or else what it was. */
  function CommittedAfter(position: nat, committed: nat, fetches: seq<Fetch>): nat
    decreases |fetches|
  {
    if fetches == [] then committed
    else
      var f, to := fetches[0], position + fetches[0].n;
      CommittedAfter(to, if f.Batch? && !f.commitFails then to else committed, fetches[1..])
  }

  function Iteration(f: Fetch): seq<Step> {
    match f
    case Errors(n) => [if n == 0 then PollErrors else PollMixed(n)]
    case Batch(n, fails) => [Poll(n)] + Times(n) + [Commit(fails)]
  }

  function Iterations(fetches: seq<Fetch>): seq<Step> {
    if fetches == [] then [] else Iteration(fetches[0]) + Iterations(fetches[1..])
  }

  lemma {:induction false} OneMoreStep(log: seq<Record>, s: Sys, steps: seq<Step>, step: Step)
    requires Possible(log, s, steps) && Enabled(log, Exec(log, s, steps), step)
    ensures Possible(log, s, steps + [step])
    ensures Exec(log, s, steps + [step]) == Apply(log, Exec(log, s, steps), step)
    decreases |steps|
  {
    if steps == [] {
      assert ([] + [step])[1..] == [];
      assert steps + [step] == [step];
    } else {
      OneMoreStep(log, Apply(log, s, steps[0]), steps[1..], step);
      assert (steps + [step])[1..] == steps[1..] + [step];
    }
  }

  /** A poll without errors hands every record it brings over and then commits past all of them, unless the commit
      fails; polls with errors commit nothing. */
  lemma TurnCommits(log: seq<Record>, s: Sys, f: Fetch)
    requires Shape(log, s) && !s.polled && s.position + f.n <= |log|
    ensures Possible(log, s, Iteration(f))
    ensures var s' := Exec(log, s, Iteration(f));
            && s'.position == s'.next == s.position + f.n && !s'.polled
            && s'.committed == (if f.Batch? && !f.commitFails then s.position + f.n else s.committed)
            && (f.Batch? ==> CaughtUp(s', s.position, s.position + f.n))
            && (f.Errors? ==> s'.emitted == s.emitted)
  {
    match f
    case Errors(n) =>
      FirstStep(log, s, Iteration(f)[0], []);
    case Batch(n, fails) =>
      var s1 := PollAndProcess(log, s, n);
      OneMoreStep(log, s, [Poll(n)] + Times(n), Commit(fails));
      CommitKeepsUp(log, s1, fails, s.position, s.position + n);
  }

  lemma {:induction false} TimesOffsets(log: seq<Record>, s: Sys, m: nat)
    requires s.polled && s.next + m <= s.position <= |log|
    ensures Possible(log, s, Times(m))
    ensures var s' := Exec(log, s, Times(m)); s'.next == s.next + m && s'.polled && SameOffsets(s, s')
    decreases m
  {
    if m > 0 {
      assert Times(m)[1..] == Times(m - 1);
      TimesOffsets(log, Apply(log, s, Process), m - 1);
    }
  }

  /** The steps lead from s to s', between two polls. */
  predicate LeadsTo(log: seq<Record>, s: Sys, steps: seq<Step>, s': Sys) {
    Possible(log, s, steps) && Exec(log, s, steps) == s' && !s'.polled && s'.next == s'.position <= |log|
  }

  lemma ErrorsLead(log: seq<Record>, s: Sys, n: nat) returns (s': Sys)
    requires !s.polled && s.next == s.position && s.position + n <= |log|
    ensures LeadsTo(log, s, Iteration(Errors(n)), s')
    ensures s'.position == s.position + n && s'.committed == s.committed
  {
    var step := if n == 0 then PollErrors else PollMixed(n);
    FirstStep(log, s, step, []);
    s' := Apply(log, s, step);
    assert [step] + [] == Iteration(Errors(n));
  }

  lemma BatchLeads(log: seq<Record>, s: Sys, n: nat, fails: bool) returns (s': Sys)
    requires !s.polled && s.next == s.position && s.position + n <= |log|
    ensures LeadsTo(log, s, Iteration(Batch(n, fails)), s')
    ensures s'.position == s.position + n && s'.committed == if fails then s.committed else s.position + n
  {
    var s1 := Apply(log, s, Poll(n));
    TimesOffsets(log, s1, n);
    var s2 := Exec(log, s1, Times(n));
    FirstStep(log, s, Poll(n), Times(n));
    OneMoreStep(log, s, [Poll(n)] + Times(n), Commit(fails));
    s' := Apply(log, s2, Commit(fails));
  }

  lemma TurnLeads(log: seq<Record>, s: Sys, f: Fetch) returns (s': Sys)
    requires !s.polled && s.next == s.position && s.position + f.n <= |log|
    ensures LeadsTo(log, s, Iteration(f), s') && s'.position == s.position + f.n
    ensures s'.committed == if f.Batch? && !f.commitFails then s.position + f.n else s.committed
  {
    match f {
      case Errors(n) => s' := ErrorsLead(log, s, n);
      case Batch(n, fails) => s' := BatchLeads(log, s, n, fails);
    }
  }

  lemma LeadsOn(log: seq<Record>, s: Sys, a: seq<Step>, s1: Sys, b: seq<Step>, s': Sys)
    requires LeadsTo(log, s, a, s1) && LeadsTo(log, s1, b, s')
    ensures LeadsTo(log, s, a + b, s')
  {
    StepsCompose(log, s, a, b);
  }

  lemma {:induction false} IterationsUnfold(fetches: seq<Fetch>)
    requires fetches != []
    ensures Iterations(fetches) == Iteration(fetches[0]) + Iterations(fetches[1..])
    ensures Total(fetches) == fetches[0].n + Total(fetches[1..])
  {
  }

  lemma {:induction false} CommittedUnfolds(position: nat, committed: nat, fetches: seq<Fetch>)
    requires fetches != []
    ensures var f, to := fetches[0], position + fetches[0].n;
            CommittedAfter(position, committed, fetches) ==
            CommittedAfter(to, if f.Batch? && !f.commitFails then to else committed, fetches[1..])
  {
  }

  /** So in every run of the loop the offset committed is the position after the last poll without errors whose commit
      went through, and the position has moved past everything polled. */
  lemma {:induction false} RunCommits(log: seq<Record>, s: Sys, fetches: seq<Fetch>) returns (s': Sys)
    requires !s.polled && s.next == s.position && s.position + Total(fetches) <= |log|
    ensures LeadsTo(log, s, Iterations(fetches), s') && s'.position == s.position + Total(fetches)
    ensures s'.committed == CommittedAfter(s.position, s.committed, fetches)
    decreases |fetches|
  {
    if fetches == [] {
      s' := s;
    } else {
      var f, rest := fetches[0], fetches[1..];
      IterationsUnfold(fetches);
      CommittedUnfolds(s.position, s.committed, fetches);
      var s1 := TurnLeads(log, s, f);
      s' := RunCommits(log, s1, rest);
      LeadsOn(log, s, Iteration(f), s1, Iterations(rest), s');
    }
  }

  lemma {:induction false} StepsCompose(log: seq<Record>, s: Sys, a: seq<Step>, b: seq<Step>)
    requires Possible(log, s, a) && Possible(log, Exec(log, s, a), b)
    ensures Possible(log, s, a + b) && Exec(log, s, a + b) == Exec(log, Exec(log, s, a), b)
    decreases |a|
  {
    if a == [] {
      assert a + b == b;
    } else {
      StepsCompose(log, Apply(log, s, a[0]), a[1..], b);
      assert (a + b)[1..] == a[1..] + b;
    }
  }

  lemma {:induction false} LastCommitCounts(position: nat, committed: nat, fetches: seq<Fetch>)
    requires fetches != [] && fetches[|fetches| - 1].Batch? && !fetches[|fetches| - 1].commitFails
    ensures CommittedAfter(position, committed, fetches) == position + Total(fetches)
    decreases |fetches|
  {
    if |fetches| > 1 {
      var f, to := fetches[0], position + fetches[0].n;
      LastCommitCounts(to, if f.Batch? && !f.commitFails then to else committed, fetches[1..]);
    }
  }

  lemma CommitKeepsUp(log: seq<Record>, s: Sys, fails: bool, a: nat, b: nat)
    requires Enabled(log, s, Commit(fails)) && CaughtUp(s, a, b)
    ensures CaughtUp(Apply(log, s, Commit(fails)), a, b)
  {
    var s' := Apply(log, s, Commit(fails));
    assert Spans(s') == Spans(s);
    assert forall i: nat :: HandedOver(s, i) ==> HandedOver(s', i);
  }

  class UserCDCConsumer {
    const log: seq<Record>
    var position: nat
    var next: nat
    var committed: nat
    var emitted: seq<Event>
    ghost var polled: bool
    ghost var start: nat
    ghost var past: seq<Span>
    ghost var high: nat
    ghost var skipped: set<nat>
    ghost var stale: set<nat>

    ghost function State(): Sys
      reads this
    {
      Sys(position, next, committed, polled, emitted, start, past, high, skipped, stale)
    }

    constructor (log: seq<Record>)
      ensures this.log == log && State() == START
    {
      this.log, position, next, committed, emitted := log, 0, 0, 0, [];
      polled, start, past, high, skipped, stale := false, 0, [], 0, {}, {};
    }

    method ProcessRecord(r: Record)
      modifies this`emitted
      ensures r.Change? && r.op in {"c", "r"} && r.after.Some? ==> emitted == old(emitted) + [Created(r.after.value)]
      ensures r.Change? && r.op == "u" && r.after.Some? ==> emitted == old(emitted) + [Updated(r.after.value)]
      ensures !r.Change? || r.op !in {"c", "r", "u"} || r.after.None? ==> emitted == old(emitted)
    {
      if r.Tombstone? {
        return;
      }
      if r.Undecodable? {
        return;
      }
      if r.op == "c" || r.op == "r" {
        if r.after.None? {
          return;
        }
        emitted := emitted + [Created(r.after.value)];
      } else if r.op == "u" {
        if r.after.None? {
          return;
        }
        emitted := emitted + [Updated(r.after.value)];
      }
    }

    /** One turn of the loop per fetch: on errors on to the next poll, whatever came with them; otherwise
        every record in order, then the commit. */
    method Run(fetches: seq<Fetch>)
      requires !polled && next == position && position + Total(fetches) <= |log|
      modifies this
      ensures Possible(log, old(State()), Iterations(fetches))
      ensures State() == Exec(log, old(State()), Iterations(fetches))
      ensures !polled && next == position == old(position) + Total(fetches)
    {
      ghost var s0 := State();
      ghost var steps: seq<Step> := [];
      var rest := fetches;
      while rest != []
        invariant !polled && next == position && position + Total(rest) == old(position) + Total(fetches) <= |log|
        invariant Possible(log, s0, steps) && State() == Exec(log, s0, steps)
        invariant steps + Iterations(rest) == Iterations(fetches)
        decreases |rest|
      {
        Regroup(steps, Iteration(rest[0]), Iterations(rest[1..]));
        steps := Turn(rest[0], s0, steps);
        rest := rest[1..];
      }
      assert steps + [] == steps;
    }

    static lemma Regroup(a: seq<Step>, b: seq<Step>, c: seq<Step>)
      ensures a + (b + c) == a + b + c
    {
    }

    /** Goes on to the next poll, past what came with the errors. */
    method Skip(n: nat)
      requires !polled && next == position && position + n <= |log|
      modifies this
      ensures State() == Apply(log, old(State()), Iteration(Errors(n))[0])
    {
      if n > 0 {
        ghost var batch := Sets.Below(position + n) - Sets.Below(position);
        past, skipped, stale := past + [Span(start, next)], skipped + batch, stale + batch;
        position := position + n;
        next, start, high := position, position, Max(position, high);
      }
    }

    method Turn(f: Fetch, ghost s0: Sys, ghost before: seq<Step>) returns (ghost steps: seq<Step>)
      requires !polled && next == position && position + f.n <= |log|
      requires Possible(log, s0, before) && State() == Exec(log, s0, before)
      modifies this
      ensures steps == before + Iteration(f) && Possible(log, s0, steps) && State() == Exec(log, s0, steps)
      ensures !polled && next == position == old(position) + f.n
      ensures committed == if f.Batch? && !f.commitFails then position else old(committed)
    {
      if f.Errors? {
        OneMoreStep(log, s0, before, Iteration(f)[0]);
        Skip(f.n);
        return before + Iteration(f);
      }
      OneMoreStep(log, s0, before, Poll(f.n));
      position, polled := position + f.n, true;
      steps := EachRecord(f.n, s0, before + [Poll(f.n)]);
      OneMoreStep(log, s0, steps, Commit(f.commitFails));
      steps, polled := steps + [Commit(f.commitFails)], false;
      if !f.commitFails {
        committed := position;
      }
    }

    method EachRecord(n: nat, ghost s0: Sys, ghost before: seq<Step>) returns (ghost steps: seq<Step>)
      requires polled && next + n == position <= |log|
      requires Possible(log, s0, before) && State() == Exec(log, s0, before)
      modifies this`next, this`high, this`stale, this`emitted
      ensures steps == before + Times(n) && Possible(log, s0, steps) && State() == Exec(log, s0, steps)
      ensures next == position
    {
      steps := before;
      var k := 0;
      while k < n
        invariant 0 <= k <= n && next + (n - k) == position
        invariant steps == before + Times(k)
        invariant Possible(log, s0, steps) && State() == Exec(log, s0, steps)
      {
        OneMoreStep(log, s0, steps, Process);
        steps := steps + [Process];
        ProcessRecord(log[next]);
        stale := stale - {next};
        next := next + 1;
        high := Max(next, high);
        k := k + 1;
        assert Times(k) == Times(k - 1) + [Process];
      }
    }

    /** The process dies and a new one starts where the group last committed. */
    method Crash()
      requires next <= position <= |log|
      modifies this
      ensures State() == Apply(log, old(State()), Restart)
    {
      past, start, polled := Spans(State()), committed, false;
      position, next := committed, committed;
    }
  }
}
