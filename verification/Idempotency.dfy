/** The processor's idempotency key: claimed by set-if-absent, overwritten by the final
    result, released by compare-and-delete. The key does not say who claimed it. */
module Idempotency {
  import opened Prelude

  /** `until` is the last moment at which the key still exists; `None`: it never expires. */
  datatype Entry = Entry(value: string, until: Option<int>)

  type Entries = map<string, Entry>

  function Deadline(ttl: nat, at: int): Option<int> {
    if ttl == 0 then None else Some(at + ttl)
  }

  predicate LiveEntry(e: Entry, at: int) {
    e.until.Some? ==> at <= e.until.value
  }

  predicate Live(es: Entries, trace: string, at: int) {
    trace in es && LiveEntry(es[trace], at)
  }

  function Started(es: Entries, trace: string, ttl: nat, at: int): (Entries, bool) {
    if trace == "" || Live(es, trace, at) then (es, false)
    else (es[trace := Entry(PROCESSING, Deadline(ttl, at))], true)
  }

  function Marked(es: Entries, trace: string, value: string, ttl: nat, at: int): Entries {
    if trace == "" then es else es[trace := Entry(value, Deadline(ttl, at))]
  }

  function Released(es: Entries, trace: string, at: int): Entries {
    if trace != "" && Live(es, trace, at) && es[trace].value == PROCESSING then es - {trace} else es
  }

  // ---------------------------------------------------------------------------
  // Claimants, interleaved
  // ---------------------------------------------------------------------------

  /** What a claimant was granted, and when: a trace, until its key expires. */
  datatype Claim = Claim(trace: string, since: int, until: Option<int>)

  /** `active`: the claimants that were granted a trace and have neither marked, released
      nor died; `grants` counts, per trace, how often it has been granted. */
  datatype State = State(now: int, entries: Entries, active: map<nat, Claim>, grants: map<string, nat>)

  /** `lost`: the request to the store failed, which the claimant only logs. */
  datatype Event =
    | TryStart(id: nat, trace: string, ttl: nat, at: int)
    | Mark(id: nat, value: string, ttl: nat, at: int, lost: bool)
    | Release(id: nat, at: int, lost: bool)
    | Die(id: nat, at: int)

  predicate Enabled(s: State, e: Event) {
    s.now <= e.at && (e.TryStart? <==> e.id !in s.active)
  }

  function Grants(s: State, trace: string): nat {
    if trace in s.grants then s.grants[trace] else 0
  }

  function Next(s: State, e: Event): State
    requires Enabled(s, e)
  {
    match e
    case TryStart(id, trace, ttl, at) =>
      var (entries, ok) := Started(s.entries, trace, ttl, at);
      if !ok then s.(now := at)
      else
        State(at, entries, s.active[id := Claim(trace, at, Deadline(ttl, at))], s.grants[trace := Grants(s, trace) + 1])
    case Mark(id, value, ttl, at, lost) =>
      s.(now := at, active := s.active - {id},
         entries := if lost then s.entries else Marked(s.entries, s.active[id].trace, value, ttl, at))
    case Release(id, at, lost) =>
      s.(now := at, active := s.active - {id},
         entries := if lost then s.entries else Released(s.entries, s.active[id].trace, at))
    case Die(id, at) => s.(now := at, active := s.active - {id})
  }

  ghost predicate Reaches(from: State, run: seq<Event>, to: State)
    decreases |run|
  {
    if run == [] then from == to
    else Enabled(from, run[0]) && Reaches(Next(from, run[0]), run[1..], to)
  }

  function Start(now: int): State {
    State(now, map[], map[], map[])
  }

  /** Nobody who is still at work has outlived the key it was granted. */
  ghost predicate Punctual(s: State, at: int) {
    forall id :: id in s.active && s.active[id].until.Some? ==> at <= s.active[id].until.value
  }

  ghost predicate AllPunctual(from: State, run: seq<Event>)
    decreases |run|
  {
    run != [] && Enabled(from, run[0]) ==> Punctual(from, run[0].at) && AllPunctual(Next(from, run[0]), run[1..])
  }

  // ---------------------------------------------------------------------------
  // At most one claimant
  // ---------------------------------------------------------------------------

  ghost predicate Exclusive(s: State) {
    && (forall id :: id in s.active ==>
          && s.active[id].trace in s.entries
          && s.entries[s.active[id].trace] == Entry(PROCESSING, s.active[id].until))
    && (forall i, j :: i in s.active && j in s.active && s.active[i].trace == s.active[j].trace ==> i == j)
    && (forall id :: id in s.active ==> s.active[id].trace != "")
  }

  lemma StepKeepsExclusive(s: State, e: Event)
    requires Exclusive(s) && Enabled(s, e) && Punctual(s, e.at)
    ensures Exclusive(Next(s, e))
  {
    hide Grants, Deadline;
    var s' := Next(s, e);
    if e.TryStart? && Started(s.entries, e.trace, e.ttl, e.at).1 {
      forall i | i in s.active
        ensures s.active[i].trace != e.trace
      {
        assert LiveEntry(s.entries[s.active[i].trace], e.at);
      }
    } else if !e.TryStart? {
      forall i | i in s'.active
        ensures s.active[i].trace != s.active[e.id].trace && s'.active[i] == s.active[i]
      {
      }
    }
  }

  /** If every claimant marks, releases or dies before its key expires, then in every
      interleaving at most one claimant is at work on a trace, and its key is there. */
  lemma {:induction false} AtMostOneActive(from: State, run: seq<Event>, to: State)
    requires Exclusive(from) && Reaches(from, run, to) && AllPunctual(from, run)
    ensures Exclusive(to)
    decreases |run|
  {
    if run != [] {
      StepKeepsExclusive(from, run[0]);
      AtMostOneActive(Next(from, run[0]), run[1..], to);
    }
  }

  /** Punctuality is needed of everyone: because the key does not name its owner, one
      claimant that outlives its key can release the claim of a punctual second one, and a
      third is then let in beside it. */
  lemma LateReleaseFreesAnothersClaim(trace: string, ttl: nat)
    requires trace != "" && ttl > 0
    ensures exists run, to :: Reaches(Start(0), run, to) && Punctual(to, to.now)
              && 2 in to.active && 3 in to.active && to.active[2].trace == to.active[3].trace == trace
  {
    var late := ttl + 1;
    var e1, e2 := TryStart(1, trace, ttl, 0), TryStart(2, trace, ttl, late);
    var e3, e4 := Release(1, late, false), TryStart(3, trace, ttl, late);
    var s0 := Start(0);
    var s1 := Next(s0, e1);
    var s2 := Next(s1, e2);
    var s3 := Next(s2, e3);
    var s4 := Next(s3, e4);
    assert Reaches(s4, [], s4);
    assert Reaches(s3, [e4], s4);
    assert Reaches(s2, [e3] + [e4], s4);
    assert Reaches(s1, [e2] + ([e3] + [e4]), s4);
    assert Reaches(s0, [e1] + ([e2] + ([e3] + [e4])), s4);
    assert s4.active.Keys == {2, 3};
  }

  // ---------------------------------------------------------------------------
  // How long a claimant may take
  // ---------------------------------------------------------------------------

  /** Everyone still at work was granted its trace no more than `work` ago. */
  ghost predicate Brief(s: State, at: int, work: nat) {
    forall id :: id in s.active ==> at <= s.active[id].since + work
  }

  /** All claims are made with one lifetime, and no claimant takes longer than `work`. */
  ghost predicate AllBrief(from: State, run: seq<Event>, ttl: nat, work: nat)
    decreases |run|
  {
    run != [] && Enabled(from, run[0]) ==>
      && Brief(from, run[0].at, work)
      && (run[0].TryStart? ==> run[0].ttl == ttl)
      && AllBrief(Next(from, run[0]), run[1..], ttl, work)
  }

  ghost predicate OneEach(s: State) {
    forall i, j :: i in s.active && j in s.active && s.active[i].trace == s.active[j].trace ==> i == j
  }

  ghost predicate AlwaysOneEach(ttl: nat, work: nat) {
    forall born: int, run, to :: Reaches(Start(born), run, to) && AllBrief(Start(born), run, ttl, work) ==> OneEach(to)
  }

  ghost predicate ClaimsOf(s: State, ttl: nat) {
    forall id :: id in s.active ==> s.active[id].until == Deadline(ttl, s.active[id].since)
  }

  lemma {:induction false} BriefIsPunctual(from: State, run: seq<Event>, to: State, ttl: nat, work: nat)
    requires ttl == 0 || work <= ttl
    requires ClaimsOf(from, ttl) && Reaches(from, run, to) && AllBrief(from, run, ttl, work)
    ensures AllPunctual(from, run)
    decreases |run|
  {
    if run != [] {
      BriefIsPunctual(Next(from, run[0]), run[1..], to, ttl, work);
    }
  }

  lemma TwoAtOnce(ttl: nat, work: nat)
    requires ttl != 0 && work > ttl
    ensures !AlwaysOneEach(ttl, work)
  {
    var e1, e2 := TryStart(1, "t", ttl, 0), TryStart(2, "t", ttl, ttl + 1);
    var s0 := Start(0);
    var s1 := Next(s0, e1);
    var s2 := Next(s1, e2);
    assert Reaches(s2, [], s2) && AllBrief(s2, [], ttl, work);
    assert Reaches(s1, [e2], s2) && AllBrief(s1, [e2], ttl, work);
    assert Reaches(s0, [e1] + [e2], s2) && AllBrief(s0, [e1] + [e2], ttl, work);
    assert 1 in s2.active && 2 in s2.active && s2.active[1].trace == s2.active[2].trace;
  }

  /** Where no claimant takes longer than `work`, at most one is at work on a trace in all
      interleavings exactly if claims never expire or outlive the work. */
  lemma AlwaysOneEachIff(ttl: nat, work: nat)
    ensures AlwaysOneEach(ttl, work) <==> ttl == 0 || work <= ttl
  {
    if ttl == 0 || work <= ttl {
      forall born: int, run, to | Reaches(Start(born), run, to) && AllBrief(Start(born), run, ttl, work)
        ensures OneEach(to)
      {
        BriefIsPunctual(Start(born), run, to, ttl, work);
        AtMostOneActive(Start(born), run, to);
      }
    } else {
      TwoAtOnce(ttl, work);
    }
  }

  // ---------------------------------------------------------------------------
  // Final results
  // ---------------------------------------------------------------------------

  /** A final result that stays at least until `end`. */
  predicate Final(es: Entries, trace: string, end: int) {
    trace in es && es[trace].value != PROCESSING && LiveEntry(es[trace], end)
  }

  /** Marks on the trace write results, to stay at least until `end`. */
  ghost predicate MarksLast(s: State, e: Event, trace: string, end: int) {
    e.Mark? && e.id in s.active && s.active[e.id].trace == trace ==>
      e.value != PROCESSING && LiveEntry(Entry(e.value, Deadline(e.ttl, e.at)), end)
  }

  ghost predicate AllMarksLast(from: State, run: seq<Event>, trace: string, end: int)
    decreases |run|
  {
    run != [] && Enabled(from, run[0]) ==>
      MarksLast(from, run[0], trace, end) && AllMarksLast(Next(from, run[0]), run[1..], trace, end)
  }

  lemma StepKeepsFinal(s: State, e: Event, trace: string, end: int)
    requires Enabled(s, e) && e.at <= end && Final(s.entries, trace, end) && MarksLast(s, e, trace, end)
    ensures Final(Next(s, e).entries, trace, end)
    ensures Grants(Next(s, e), trace) == Grants(s, trace)
    ensures s.now <= Next(s, e).now <= end
  {
  }

  /** However late claimants are and however they interleave: once a trace has a final
      result it keeps one, and nobody is granted the trace again, as long as the result was
      to stay. */
  lemma {:induction false} FinalResultBlocks(from: State, run: seq<Event>, to: State, trace: string, end: int)
    requires Reaches(from, run, to) && to.now <= end && from.now <= end
    requires Final(from.entries, trace, end) && AllMarksLast(from, run, trace, end)
    ensures Final(to.entries, trace, end)
    ensures Grants(to, trace) == Grants(from, trace)
    decreases |run|
  {
    if run != [] {
      TimePasses(Next(from, run[0]), run[1..], to);
      StepKeepsFinal(from, run[0], trace, end);
      FinalResultBlocks(Next(from, run[0]), run[1..], to, trace, end);
    }
  }

  lemma {:induction false} TimePasses(from: State, run: seq<Event>, to: State)
    requires Reaches(from, run, to)
    ensures from.now <= to.now
    decreases |run|
  {
    if run != [] {
      TimePasses(Next(from, run[0]), run[1..], to);
    }
  }

  // ---------------------------------------------------------------------------
  // One conclusion
  // ---------------------------------------------------------------------------

  predicate Concludes(s: State, e: Event, trace: string) {
    e.Mark? && e.id in s.active && s.active[e.id].trace == trace
  }

  /** How many claimants conclude the trace with a mark in a run. */
  ghost function Conclusions(from: State, run: seq<Event>, trace: string): nat
    decreases |run|
  {
    if run == [] || !Enabled(from, run[0]) then 0
    else (if Concludes(from, run[0], trace) then 1 else 0) + Conclusions(Next(from, run[0]), run[1..], trace)
  }

  /** No mark on the trace gets lost on its way to the store. */
  ghost predicate MarksArrive(from: State, run: seq<Event>, trace: string)
    decreases |run|
  {
    run != [] && Enabled(from, run[0]) ==>
      (Concludes(from, run[0], trace) ==> !run[0].lost) && MarksArrive(Next(from, run[0]), run[1..], trace)
  }

  ghost predicate NobodyOn(s: State, trace: string) {
    forall id :: id in s.active ==> s.active[id].trace != trace
  }

  lemma StepKeepsConcluded(s: State, e: Event, trace: string, end: int)
    requires Enabled(s, e) && e.at <= end && Final(s.entries, trace, end) && NobodyOn(s, trace)
    ensures Final(Next(s, e).entries, trace, end) && NobodyOn(Next(s, e), trace)
    ensures !Concludes(s, e, trace)
  {
  }

  lemma {:induction false} NoFurtherConclusion(from: State, run: seq<Event>, to: State, trace: string, end: int)
    requires Reaches(from, run, to) && to.now <= end
    requires Final(from.entries, trace, end) && NobodyOn(from, trace)
    ensures Conclusions(from, run, trace) == 0
    decreases |run|
  {
    if run != [] {
      TimePasses(Next(from, run[0]), run[1..], to);
      StepKeepsConcluded(from, run[0], trace, end);
      NoFurtherConclusion(Next(from, run[0]), run[1..], to, trace, end);
    }
  }

  lemma MarkConcludes(s: State, e: Event, trace: string, end: int)
    requires Exclusive(s) && Enabled(s, e) && Concludes(s, e, trace) && !e.lost && MarksLast(s, e, trace, end)
    ensures Final(Next(s, e).entries, trace, end) && NobodyOn(Next(s, e), trace)
  {
    assert s.active[e.id].trace != "";
  }

  /** If claimants are punctual and their marks arrive, then among any number of claimants
      for any number of deliveries, in every interleaving, at most one concludes the trace
      for as long as marks are to stay. */
  lemma {:induction false} AtMostOneConclusion(from: State, run: seq<Event>, to: State, trace: string, end: int)
    requires Exclusive(from) && Reaches(from, run, to) && to.now <= end
    requires AllPunctual(from, run) && MarksArrive(from, run, trace) && AllMarksLast(from, run, trace, end)
    ensures Conclusions(from, run, trace) <= 1
    decreases |run|
  {
    if run != [] {
      if Concludes(from, run[0], trace) {
        MarkConcludes(from, run[0], trace, end);
        NoFurtherConclusion(Next(from, run[0]), run[1..], to, trace, end);
      } else {
        StepKeepsExclusive(from, run[0]);
        AtMostOneConclusion(Next(from, run[0]), run[1..], to, trace, end);
      }
    }
  }

  /** Once the result has expired the trace can be claimed again: the store guards against
      a second processing only for the lifetime of its entries. */
  lemma ExpiredResultCanBeReclaimed(
    es: Entries, trace: string, value: string, ttl: nat, newTtl: nat, at: int, later: int)
    requires trace != ""
    ensures Started(Marked(es, trace, value, ttl, at), trace, newTtl, later).1 <==> ttl != 0 && later > at + ttl
  {
  }

  /** What a release removes is a claim in process, and it makes the trace claimable. */
  lemma ReleaseRemovesOnlyClaims(es: Entries, trace: string, at: int, ttl: nat, other: string)
    ensures var es' := Released(es, trace, at);
            && (other in es && (other != trace || es[other].value != PROCESSING) ==>
                  other in es' && es'[other] == es[other])
            && (trace != "" && (trace in es ==> es[trace].value == PROCESSING) ==> Started(es', trace, ttl, at).1)
  {
  }

  // ---------------------------------------------------------------------------
  // The store
  // ---------------------------------------------------------------------------

  class ProcessorStore {
    var entries: Entries

    constructor ()
      ensures entries == map[]
    {
      entries := map[];
    }

    method TryStart(traceID: string, ttl: nat, now: int) returns (ok: bool)
      modifies this
      ensures (entries, ok) == Started(old(entries), traceID, ttl, now)
    {
      if traceID == "" {
        return false;
      }
      ok := !(traceID in entries && (entries[traceID].until.None? || now <= entries[traceID].until.value));
      if ok {
        entries := entries[traceID := Entry(PROCESSING, Deadline(ttl, now))];
      }
    }

    method MarkSuccess(traceID: string, orderNo: string, ttl: nat, now: int)
      modifies this
      ensures entries == Marked(old(entries), traceID, orderNo, ttl, now)
    {
      if traceID == "" {
        return;
      }
      entries := entries[traceID := Entry(orderNo, Deadline(ttl, now))];
    }

    method MarkFail(traceID: string, reason: string, ttl: nat, now: int)
      modifies this
      ensures entries == Marked(old(entries), traceID, reason, ttl, now)
    {
      if traceID == "" {
        return;
      }
      entries := entries[traceID := Entry(reason, Deadline(ttl, now))];
    }

    method Release(traceID: string, now: int)
      modifies this
      ensures entries == Released(old(entries), traceID, now)
    {
      if traceID == "" {
        return;
      }
      if Live(entries, traceID, now) && entries[traceID].value == PROCESSING {
        entries := entries - {traceID};
      }
    }
  }

  /** How long a claim lasts. */
  const PROCESSING_TTL := 60_000 * MILLI
}
