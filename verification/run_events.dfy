/**
 Run events down-sampled per kind, and the alerts derived from them
 (src/runtime/agent_state_reader.py).
 */
module RunEvents {
  import opened Common

  /** Newest events kept per kind. */
  const SCAN: nat := 10
  /** Leading failures of a kind that raise an alert. */
  const STREAK: nat := 3
  /** Trailing lines of the event file that are looked at. */
  const TAIL: nat := 5000

  const NON_REPORT: set<string> := {"inbox", "tasks", "ops-alerts", "team-step", "team-tick", "milestone-mirror"}

  /** An event: its kind ("" if it has none), whether it failed, its timestamp if that parses. */
  datatype Event = Event(kind: string, failed: bool, ts: Option<int>)

  predicate Reportable(kind: string) {
    kind != "" && kind !in NON_REPORT
  }

  /** The events of one kind, in order. */
  function OfKind(events: seq<Event>, kind: string): (r: seq<Event>)
    ensures |r| <= |events|
  {
    if events == [] then []
    else OfKind(events[..|events| - 1], kind) + if events[|events| - 1].kind == kind then [events[|events| - 1]] else []
  }

  /** The events a down-sample keeps: those with fewer than `SCAN` newer ones of their kind. */
  function Sampled(events: seq<Event>): seq<Event> {
    if events == [] then []
    else
      var front, last := events[..|events| - 1], events[|events| - 1];
      Sampled(front) + if last.kind != "" && |OfKind(front, last.kind)| < SCAN then [last] else []
  }

  function NewestFirst(events: seq<Option<Event>>): seq<Event> {
    if events == [] then []
    else (if events[|events| - 1].Some? then [events[|events| - 1].value] else []) + NewestFirst(events[..|events| - 1])
  }

  function Tail(lines: seq<Option<Event>>): seq<Option<Event>> {
    if |lines| <= TAIL then lines else lines[|lines| - TAIL..]
  }

  function Count(seen: map<string, nat>, kind: string): nat {
    if kind in seen then seen[kind] else 0
  }

  function Min(a: nat, b: nat): nat {
    if a < b then a else b
  }

  lemma OfKindAppend(events: seq<Event>, e: Event, kind: string)
    ensures OfKind(events + [e], kind) == if e.kind == kind then OfKind(events, kind) + [e] else OfKind(events, kind)
  {
    assert (events + [e])[..|events + [e]| - 1] == events;
    assert OfKind(events, kind) + [] == OfKind(events, kind);
  }

  lemma SampledAppend(events: seq<Event>, e: Event)
    ensures Sampled(events + [e]) == Sampled(events) + if e.kind != "" && |OfKind(events, e.kind)| < SCAN then [e] else []
  {
    assert (events + [e])[..|events + [e]| - 1] == events;
  }

  /** The per-kind counters after some events. */
  ghost predicate Counted(seen: map<string, nat>, events: seq<Event>) {
    forall kind :: kind != "" ==> Count(seen, kind) == Min(|OfKind(events, kind)|, SCAN)
  }

  lemma CountedAppend(seen: map<string, nat>, events: seq<Event>, e: Event)
    requires Counted(seen, events) && e.kind != ""
    ensures Counted(if Count(seen, e.kind) < SCAN then seen[e.kind := Count(seen, e.kind) + 1] else seen, events + [e])
  {
    var seen' := if Count(seen, e.kind) < SCAN then seen[e.kind := Count(seen, e.kind) + 1] else seen;
    forall kind | kind != ""
      ensures Count(seen', kind) == Min(|OfKind(events + [e], kind)|, SCAN)
    {
      OfKindAppend(events, e, kind);
    }
  }

  lemma CountedSkip(seen: map<string, nat>, events: seq<Event>, e: Event)
    requires Counted(seen, events) && e.kind == ""
    ensures Counted(seen, events + [e])
  {
    forall kind | kind != ""
      ensures Count(seen, kind) == Min(|OfKind(events + [e], kind)|, SCAN)
    {
      OfKindAppend(events, e, kind);
    }
  }

  /** The per-kind counters and what was kept, after the events read so far. */
  ghost predicate Keeping(read: seq<Event>, perKind: map<string, nat>, kept: seq<Event>) {
    kept == Sampled(read) && Counted(perKind, read)
  }

  /** One event of the loop. */
  method KeepOne(ghost read: seq<Event>, e: Event, perKind: map<string, nat>, kept: seq<Event>)
    returns (perKind': map<string, nat>, kept': seq<Event>)
    requires Keeping(read, perKind, kept)
    ensures Keeping(read + [e], perKind', kept')
  {
    perKind', kept' := perKind, kept;
    SampledAppend(read, e);
    if e.kind == "" {
      CountedSkip(perKind, read, e);
      return;
    }
    CountedAppend(perKind, read, e);
    var n := Count(perKind, e.kind);
    if n < SCAN {
      perKind' := perKind[e.kind := n + 1];
      kept' := kept + [e];
    }
  }

  /** `_recent_events_per_kind`: newest first, unreadable lines and events without a kind skipped. */
  method RecentEventsPerKind(lines: seq<Option<Event>>) returns (kept: seq<Event>)
    ensures kept == Sampled(NewestFirst(Tail(lines)))
  {
    var recent := Tail(lines);
    var perKind: map<string, nat> := map[];
    ghost var read: seq<Event> := [];
    kept := [];
    var i := |recent|;
    assert recent[..|recent|] == recent && read + NewestFirst(recent) == NewestFirst(recent);
    while i > 0
      invariant 0 <= i <= |recent|
      invariant read + NewestFirst(recent[..i]) == NewestFirst(recent)
      invariant Keeping(read, perKind, kept)
    {
      i := i - 1;
      NewestStep(read, recent, i);
      if recent[i].Some? {
        perKind, kept := KeepOne(read, recent[i].value, perKind, kept);
        read := read + [recent[i].value];
      }
    }
    assert recent[..0] == [] && read + [] == read;
  }

  lemma NewestStep(read: seq<Event>, lines: seq<Option<Event>>, i: nat)
    requires i < |lines|
    ensures read + NewestFirst(lines[..i + 1]) ==
              (if lines[i].Some? then read + [lines[i].value] else read) + NewestFirst(lines[..i])
  {
    assert lines[..i + 1][..i] == lines[..i];
  }

  // ---------------------------------------------------------------------------------------
  // Failing kinds
  // ---------------------------------------------------------------------------------------

  predicate AllFailed(events: seq<Event>) {
    forall i :: 0 <= i < |events| ==> events[i].failed
  }

  /** The kind's newest `STREAK` events all failed. */
  predicate Failing(events: seq<Event>, kind: string) {
    Reportable(kind) && |OfKind(events, kind)| >= STREAK && AllFailed(OfKind(events, kind)[..STREAK])
  }

  /** The failing kinds, in the order in which their streaks complete. */
  function FailingList(events: seq<Event>): seq<string> {
    if events == [] then []
    else
      var front, kind := events[..|events| - 1], events[|events| - 1].kind;
      FailingList(front) + if Failing(events, kind) && |OfKind(events, kind)| == STREAK then [kind] else []
  }

  /** What the loop's `streak`, `broken` and `failing` say about one kind. */
  ghost predicate KindTracked(events: seq<Event>, streak: map<string, nat>, broken: set<string>, failing: seq<string>, kind: string) {
    && (kind in broken <==> !AllFailed(OfKind(events, kind)))
    && (kind !in broken ==> Count(streak, kind) == |OfKind(events, kind)|)
    && (kind in failing <==> Failing(events, kind))
  }

  /** ... and about the events read so far. */
  ghost predicate Tracked(events: seq<Event>, streak: map<string, nat>, broken: set<string>, failing: seq<string>) {
    && failing == FailingList(events)
    && forall kind :: Reportable(kind) ==> KindTracked(events, streak, broken, failing, kind)
  }

  /** Another kind's event changes nothing for this kind. */
  lemma OtherTracked(events: seq<Event>, e: Event, streak: map<string, nat>, broken: set<string>, failing: seq<string>,
                     streak': map<string, nat>, broken': set<string>, failing': seq<string>, kind: string)
    requires KindTracked(events, streak, broken, failing, kind) && kind != e.kind
    requires Count(streak', kind) == Count(streak, kind)
    requires (kind in broken' <==> kind in broken) && (kind in failing' <==> kind in failing)
    ensures KindTracked(events + [e], streak', broken', failing', kind)
  {
    OfKindAppend(events, e, kind);
    FailingOther(events, e, kind);
  }

  lemma FailingAppend(events: seq<Event>, e: Event)
    ensures FailingList(events + [e]) ==
              FailingList(events) + if Failing(events + [e], e.kind) && |OfKind(events + [e], e.kind)| == STREAK then [e.kind] else []
  {
    assert (events + [e])[..|events + [e]| - 1] == events;
  }

  lemma FailingOther(events: seq<Event>, e: Event, kind: string)
    requires kind != e.kind
    ensures Failing(events + [e], kind) <==> Failing(events, kind)
  {
    OfKindAppend(events, e, kind);
  }

  /** What one more event of a kind does to its streak. */
  lemma FailingSame(events: seq<Event>, e: Event)
    requires Reportable(e.kind)
    ensures var before, after := OfKind(events, e.kind), OfKind(events + [e], e.kind);
            && after == before + [e]
            && (AllFailed(after) <==> AllFailed(before) && e.failed)
            && (Failing(events + [e], e.kind) <==>
                  Failing(events, e.kind) || (AllFailed(after) && |after| == STREAK))
  {
    OfKindAppend(events, e, e.kind);
    var before := OfKind(events, e.kind);
    AllFailedAppend(before, e);
    if |before| >= STREAK {
      assert (before + [e])[..STREAK] == before[..STREAK];
    } else if |before| + 1 == STREAK {
      assert (before + [e])[..STREAK] == before + [e];
    }
  }

  lemma AllFailedAppend(events: seq<Event>, e: Event)
    ensures AllFailed(events + [e]) <==> AllFailed(events) && e.failed
  {
    if AllFailed(events + [e]) {
      assert forall i :: 0 <= i < |events| ==> (events + [e])[i] == events[i];
      assert (events + [e])[|events|] == e;
    }
  }

  lemma {:induction false} FailingListSpec(events: seq<Event>, kind: string)
    ensures kind in FailingList(events) <==> Failing(events, kind)
  {
    if events != [] {
      var front, e := events[..|events| - 1], events[|events| - 1];
      assert events == front + [e];
      FailingListSpec(front, kind);
      if kind != e.kind {
        FailingOther(front, e, kind);
      } else if Reportable(kind) {
        FailingSame(front, e);
      }
    }
  }

  /** No kind is listed twice. */
  lemma {:induction false} FailingListDistinct(events: seq<Event>)
    ensures NoDuplicates(FailingList(events))
  {
    if events != [] {
      var front, e := events[..|events| - 1], events[|events| - 1];
      assert events == front + [e];
      FailingListDistinct(front);
      FailingListSpec(front, e.kind);
      OfKindAppend(front, e, e.kind);
    }
  }

  /** At place `p`, going from the newest event back, the kind's leading streak is complete. */
  predicate Completes(events: seq<Event>, p: nat, kind: string) {
    p < |events| && events[p].kind == kind && |OfKind(events[..p + 1], kind)| == STREAK
  }

  /** The failing kinds are listed in the order in which their streaks complete. */
  lemma {:induction false} FailingInOrder(events: seq<Event>, i: nat, j: nat) returns (p: nat, q: nat)
    requires i < j < |FailingList(events)|
    ensures p < q && Completes(events, p, FailingList(events)[i]) && Completes(events, q, FailingList(events)[j])
  {
    var front, last := events[..|events| - 1], |events| - 1;
    if j < |FailingList(front)| {
      p, q := FailingInOrder(front, i, j);
      assert front[..p + 1] == events[..p + 1] && front[..q + 1] == events[..q + 1];
    } else {
      q := last;
      assert events[..q + 1] == events;
      p := FailingCompletes(front, i);
      assert front[..p + 1] == events[..p + 1];
    }
  }

  lemma {:induction false} FailingCompletes(events: seq<Event>, i: nat) returns (p: nat)
    requires i < |FailingList(events)|
    ensures Completes(events, p, FailingList(events)[i])
  {
    var front, last := events[..|events| - 1], |events| - 1;
    if i < |FailingList(front)| {
      p := FailingCompletes(front, i);
      assert front[..p + 1] == events[..p + 1];
    } else {
      p := last;
      assert events[..p + 1] == events;
    }
  }

  /** What is read of the file is its readable tail, the last line first. */
  lemma {:induction false} NewestComesFirst(lines: seq<Option<Event>>, i: nat, j: nat) returns (p: nat, q: nat)
    requires i < j < |NewestFirst(lines)|
    ensures q < p < |lines| && lines[p] == Some(NewestFirst(lines)[i]) && lines[q] == Some(NewestFirst(lines)[j])
  {
    var front, last := lines[..|lines| - 1], |lines| - 1;
    if lines[last].None? {
      assert [] + NewestFirst(front) == NewestFirst(front);
      p, q := NewestComesFirst(front, i, j);
    } else if i > 0 {
      p, q := NewestComesFirst(front, i - 1, j - 1);
    } else {
      p := last;
      q := ReadFrom(front, j - 1);
    }
  }

  lemma {:induction false} ReadFrom(lines: seq<Option<Event>>, j: nat) returns (q: nat)
    requires j < |NewestFirst(lines)|
    ensures q < |lines| && lines[q] == Some(NewestFirst(lines)[j])
  {
    var front, last := lines[..|lines| - 1], |lines| - 1;
    if lines[last].None? {
      assert [] + NewestFirst(front) == NewestFirst(front);
      q := ReadFrom(front, j);
    } else if j > 0 {
      q := ReadFrom(front, j - 1);
    } else {
      q := last;
    }
  }

  /** One event that the loop skips: not reportable, or of a kind already broken. */
  lemma TrackSkip(events: seq<Event>, e: Event, streak: map<string, nat>, broken: set<string>, failing: seq<string>)
    requires Tracked(events, streak, broken, failing) && (!Reportable(e.kind) || e.kind in broken)
    ensures Tracked(events + [e], streak, broken, failing)
  {
    FailingAppend(events, e);
    if Reportable(e.kind) {
      assert KindTracked(events, streak, broken, failing, e.kind);
      FailingSame(events, e);
    }
    forall kind | Reportable(kind) && kind != e.kind
      ensures KindTracked(events + [e], streak, broken, failing, kind)
    {
      OtherTracked(events, e, streak, broken, failing, streak, broken, failing, kind);
    }
  }

  lemma FailedOnce(events: seq<Event>, e: Event, streak: map<string, nat>, broken: set<string>, failing: seq<string>)
    requires KindTracked(events, streak, broken, failing, e.kind) && Reportable(e.kind) && e.kind !in broken && e.failed
    ensures var n := Count(streak, e.kind) + 1;
            && KindTracked(events + [e], streak[e.kind := n], broken,
                           if n >= STREAK && e.kind !in failing then failing + [e.kind] else failing, e.kind)
            && (n >= STREAK && e.kind !in failing <==> Failing(events + [e], e.kind) && |OfKind(events + [e], e.kind)| == STREAK)
  {
    FailingSame(events, e);
    FailingNow(events, e.kind);
    FailingNow(events + [e], e.kind);
  }

  /** While every event of a kind failed, it is failing once there are enough of them. */
  lemma FailingNow(events: seq<Event>, kind: string)
    requires Reportable(kind) && AllFailed(OfKind(events, kind))
    ensures Failing(events, kind) <==> |OfKind(events, kind)| >= STREAK
  {
  }

  lemma TrackFailure(events: seq<Event>, e: Event, streak: map<string, nat>, broken: set<string>, failing: seq<string>)
    requires Tracked(events, streak, broken, failing) && Reportable(e.kind) && e.kind !in broken && e.failed
    ensures var n := Count(streak, e.kind) + 1;
            Tracked(events + [e], streak[e.kind := n], broken,
                    if n >= STREAK && e.kind !in failing then failing + [e.kind] else failing)
  {
    var n := Count(streak, e.kind) + 1;
    var failing' := if n >= STREAK && e.kind !in failing then failing + [e.kind] else failing;
    FailingAppend(events, e);
    assert KindTracked(events, streak, broken, failing, e.kind);
    FailingSame(events, e);
    FailedOnce(events, e, streak, broken, failing);
    forall kind | Reportable(kind) && kind != e.kind
      ensures KindTracked(events + [e], streak[e.kind := n], broken, failing', kind)
    {
      OtherTracked(events, e, streak, broken, failing, streak[e.kind := n], broken, failing', kind);
    }
  }

  lemma TrackSuccess(events: seq<Event>, e: Event, streak: map<string, nat>, broken: set<string>, failing: seq<string>)
    requires Tracked(events, streak, broken, failing) && Reportable(e.kind) && e.kind !in broken && !e.failed
    ensures Tracked(events + [e], streak, broken + {e.kind}, failing)
  {
    FailingAppend(events, e);
    assert KindTracked(events, streak, broken, failing, e.kind);
    FailingSame(events, e);
    forall kind | Reportable(kind) && kind != e.kind
      ensures KindTracked(events + [e], streak, broken + {e.kind}, failing, kind)
    {
      OtherTracked(events, e, streak, broken, failing, streak, broken + {e.kind}, failing, kind);
    }
  }

  /** `_failing_kinds`. */
  method FailingKinds(events: seq<Event>) returns (failing: seq<string>)
    ensures failing == FailingList(events)
  {
    var streak: map<string, nat> := map[];
    var broken: set<string> := {};
    failing := [];
    for i := 0 to |events|
      invariant Tracked(events[..i], streak, broken, failing)
    {
      var e := events[i];
      assert events[..i + 1] == events[..i] + [e];
      if !Reportable(e.kind) || e.kind in broken {
        TrackSkip(events[..i], e, streak, broken, failing);
      } else if e.failed {
        TrackFailure(events[..i], e, streak, broken, failing);
        var n := Count(streak, e.kind) + 1;
        streak := streak[e.kind := n];
        if n >= STREAK && e.kind !in failing {
          failing := failing + [e.kind];
        }
      } else {
        TrackSuccess(events[..i], e, streak, broken, failing);
        broken := broken + {e.kind};
      }
    }
    assert events[..|events|] == events;
  }

  // ---------------------------------------------------------------------------------------
  // Down-sampling changes no alert
  // ---------------------------------------------------------------------------------------

  /** Per kind, the sample is the newest `SCAN` events. */
  lemma {:induction false} SampleOfKind(events: seq<Event>, kind: string)
    requires kind != ""
    ensures var all := OfKind(events, kind);
            OfKind(Sampled(events), kind) == if |all| <= SCAN then all else all[..SCAN]
  {
    if events != [] {
      var front, e := events[..|events| - 1], events[|events| - 1];
      assert events == front + [e];
      SampleOfKind(front, kind);
      SampledAppend(front, e);
      OfKindAppend(front, e, kind);
      if e.kind != "" && |OfKind(front, e.kind)| < SCAN {
        OfKindAppend(Sampled(front), e, kind);
      } else {
        assert Sampled(front) + [] == Sampled(front);
      }
    }
  }

  lemma SampleFailing(events: seq<Event>, kind: string)
    requires kind != ""
    ensures Failing(Sampled(events), kind) <==> Failing(events, kind)
  {
    SampleOfKind(events, kind);
    var all := OfKind(events, kind);
    if |all| > SCAN { assert all[..SCAN][..STREAK] == all[..STREAK]; }
  }

  /** The failing kinds of the sample are those of the full list, in the same order. */
  lemma {:induction false} SampleKeepsAlerts(events: seq<Event>)
    ensures FailingList(Sampled(events)) == FailingList(events)
  {
    if events != [] {
      var front, e := events[..|events| - 1], events[|events| - 1];
      assert events == front + [e];
      SampleKeepsAlerts(front);
      NextAlert(front, e);
    }
  }

  lemma NextAlert(front: seq<Event>, e: Event)
    requires FailingList(Sampled(front)) == FailingList(front)
    ensures FailingList(Sampled(front + [e])) == FailingList(front + [e])
  {
    SampledAppend(front, e);
    FailingAppend(front, e);
    OfKindAppend(front, e, e.kind);
    if e.kind != "" && |OfKind(front, e.kind)| < SCAN {
      FailingAppend(Sampled(front), e);
      SampleOfKind(front + [e], e.kind);
      SampleFailing(front + [e], e.kind);
    } else {
      assert Sampled(front) + [] == Sampled(front);
    }
  }

  // ---------------------------------------------------------------------------------------
  // The last run per kind
  // ---------------------------------------------------------------------------------------

  /** The first timestamp that parses. */
  function FirstTs(events: seq<Event>): Option<int> {
    if events == [] then None else if FirstTs(events[..|events| - 1]).Some? then FirstTs(events[..|events| - 1]) else events[|events| - 1].ts
  }

  /** The map holds each kind's newest timestamp that parses. */
  ghost predicate LastRuns(out: map<string, int>, events: seq<Event>) {
    forall kind :: LastRunOf(out, kind) == if kind == "" then None else FirstTs(OfKind(events, kind))
  }

  function LastRunOf(out: map<string, int>, kind: string): Option<int> {
    if kind in out then Some(out[kind]) else None
  }

  /** `_last_run_ts_by_kind`: the newest timestamp per kind, if any of its events has one. */
  method LastRunByKind(events: seq<Event>) returns (out: map<string, int>)
    ensures LastRuns(out, events)
  {
    out := map[];
    for i := 0 to |events|
      invariant LastRuns(out, events[..i])
    {
      var e := events[i];
      assert events[..i + 1] == events[..i] + [e];
      LastRunsStep(out, events[..i], e);
      if e.kind != "" && e.kind !in out && e.ts.Some? {
        out := out[e.kind := e.ts.value];
      }
    }
    assert events[..|events|] == events;
  }

  lemma LastRunsStep(out: map<string, int>, events: seq<Event>, e: Event)
    requires LastRuns(out, events)
    ensures LastRuns(if e.kind != "" && e.kind !in out && e.ts.Some? then out[e.kind := e.ts.value] else out, events + [e])
  {
    var out' := if e.kind != "" && e.kind !in out && e.ts.Some? then out[e.kind := e.ts.value] else out;
    forall kind
      ensures LastRunOf(out', kind) == if kind == "" then None else FirstTs(OfKind(events + [e], kind))
    {
      LastRunStep(out, out', events, e, kind);
    }
  }

  lemma LastRunStep(out: map<string, int>, out': map<string, int>, events: seq<Event>, e: Event, kind: string)
    requires LastRunOf(out, kind) == if kind == "" then None else FirstTs(OfKind(events, kind))
    requires out' == if e.kind != "" && e.kind !in out && e.ts.Some? then out[e.kind := e.ts.value] else out
    ensures LastRunOf(out', kind) == if kind == "" then None else FirstTs(OfKind(events + [e], kind))
  {
    OfKindAppend(events, e, kind);
    if kind == e.kind { TsAppend(events, e); }
  }

  lemma TsAppend(events: seq<Event>, e: Event)
    ensures var before := FirstTs(OfKind(events, e.kind));
            FirstTs(OfKind(events + [e], e.kind)) == if before.Some? then before else e.ts
  {
    OfKindAppend(events, e, e.kind);
    var all := OfKind(events, e.kind);
    assert (all + [e])[..|all + [e]| - 1] == all;
  }

  lemma {:induction false} FirstTsPrefix(events: seq<Event>, n: nat)
    requires n <= |events| && FirstTs(events[..n]).Some?
    ensures FirstTs(events) == FirstTs(events[..n])
  {
    if n < |events| {
      assert events[..|events| - 1][..n] == events[..n];
      FirstTsPrefix(events[..|events| - 1], n);
    } else {
      assert events[..n] == events;
    }
  }

  /**
   The sample gives a kind the same last run as the full list exactly when one of its newest
   `SCAN` events has a timestamp that parses, or none of its events has.
   */
  lemma SampleKeepsLastRunIff(events: seq<Event>, kind: string)
    requires kind != ""
    ensures var all := OfKind(events, kind);
            FirstTs(OfKind(Sampled(events), kind)) == FirstTs(all) <==>
              FirstTs(all).None? || FirstTs(if |all| <= SCAN then all else all[..SCAN]).Some?
  {
    SampleOfKind(events, kind);
    var all := OfKind(events, kind);
    if |all| > SCAN && FirstTs(all[..SCAN]).Some? { FirstTsPrefix(all, SCAN); }
    if |all| > SCAN && FirstTs(all).None? && FirstTs(all[..SCAN]).Some? { assert false; }
  }

  /** The sample shows when this kind last ran if anything does. */
  ghost predicate LastRunSampled(events: seq<Event>, kind: string) {
    var all := OfKind(events, kind);
    FirstTs(all).None? || FirstTs(if |all| <= SCAN then all else all[..SCAN]).Some?
  }

  /** The maps computed from the sample and from the full list are the same exactly if that holds of every kind. */
  lemma SampledMapIff(events: seq<Event>, sampled: map<string, int>, full: map<string, int>)
    requires LastRuns(sampled, Sampled(events)) && LastRuns(full, events)
    ensures sampled == full <==> forall kind :: kind != "" ==> LastRunSampled(events, kind)
  {
    forall kind | kind != ""
      ensures LastRunOf(sampled, kind) == LastRunOf(full, kind) <==> LastRunSampled(events, kind)
    {
      SampleKeepsLastRunIff(events, kind);
    }
    if forall kind :: kind != "" ==> LastRunSampled(events, kind) {
      forall kind
        ensures kind in sampled <==> kind in full
        ensures kind in sampled ==> sampled[kind] == full[kind]
      {
        assert LastRunOf(sampled, kind) == LastRunOf(full, kind);
      }
    }
  }

  /** Ten newer events of a kind whose timestamp cannot be read, and one older event whose can. */
  function Unreadable(kind: string): seq<Event> {
    seq(SCAN, _ => Event(kind, false, None)) + [Event(kind, false, Some(0))]
  }

  lemma {:induction false} OfOneKind(events: seq<Event>, kind: string)
    requires forall i :: 0 <= i < |events| ==> events[i].kind == kind
    ensures OfKind(events, kind) == events
  {
    if events != [] {
      OfOneKind(events[..|events| - 1], kind);
      assert events == events[..|events| - 1] + [events[|events| - 1]];
    }
  }

  lemma {:induction false} NoReadableTs(events: seq<Event>)
    requires forall i :: 0 <= i < |events| ==> events[i].ts.None?
    ensures FirstTs(events).None?
  {
    if events != [] { NoReadableTs(events[..|events| - 1]); }
  }

  /** The kind has run, and on the sample it looks as if it never had. */
  lemma LastRunLost(kind: string, sampled: map<string, int>, full: map<string, int>)
    requires kind != "" && LastRuns(sampled, Sampled(Unreadable(kind))) && LastRuns(full, Unreadable(kind))
    ensures kind in full && full[kind] == 0 && kind !in sampled
  {
    var events := Unreadable(kind);
    OfOneKind(events, kind);
    SampleOfKind(events, kind);
    NoReadableTs(events[..SCAN]);
    assert events[..|events| - 1] == events[..SCAN];
    assert LastRunOf(full, kind) == Some(0) && LastRunOf(sampled, kind) == None;
  }
}
