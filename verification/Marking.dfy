/** The producer side: `enqueue_due` polls, slot markers with an expiry, and stream entries. Marking,
    appending and freeing are separate Redis commands, so that producers interleave between them. */
module Marking {
  import opened IsoTime
  import opened Schedule

  type Clock = nat

  const MARKER_RETENTION: Clock := 30 * 86_400_000
  const MAX_KEY := 256

  /** A marker key in Redis: which marking set it (history), and when it expires. */
  datatype Marker = Marker(mark: nat, until: Clock)

  /** A DEL that found a marker: the marking on whose account it was issued, and when. */
  datatype Drop = Drop(cause: nat, at: Clock)

  /** Everything that happened to one successful marking; a marking is known by its position. `appended` is
      the position of its stream entry, which went in at the time `added`; `dropped` is the DEL, by whichever
      producer, that removed its marker while it was unexpired. */
  datatype Mark = Mark(key: string, producer: nat, polled: Instant, payload: Payload,
                       at: Clock, until: Clock, appended: Option<nat>, added: Clock, dropped: Option<Drop>)

  datatype Producer =
    | Resting
    | Marked(mark: nat)     // SET NX succeeded; XADD next
    | Failed(mark: nat)     // XADD raised; DEL next

  /** `origins[i]` is the marking that appended stream entry i, if a poll did. */
  datatype State = State(markers: map<string, Marker>, marks: seq<Mark>, producers: map<nat, Producer>,
                         stream: seq<Payload>, origins: seq<Option<nat>>)

  const Empty := State(map[], [], map[], [], [])

  datatype Action =
    | Poll(p: nat, at: Instant)
    | Append(p: nat)
    | AppendFails(p: nat)        // XADD raises without effect
    | AppendLost(p: nat)         // XADD takes effect, but its reply is lost, which raises too
    | Free(p: nat)
    | Crash(p: nat)
    | Inject(payload: Payload)   // any other client of the stream

  type Definitions = nat -> Definition

  predicate Live(markers: map<string, Marker>, key: string, now: Clock) {
    key in markers && now < markers[key].until
  }

  function At(s: State, p: nat): Producer {
    if p in s.producers then s.producers[p] else Resting
  }

  function Moved(s: State, p: nat, pc: Producer): State {
    s.(producers := s.producers[p := pc])
  }

  predicate Enabled(s: State, a: Action) {
    match a
    case Poll(p, _) => At(s, p).Resting?
    case Append(p) => At(s, p).Marked?
    case AppendFails(p) => At(s, p).Marked?
    case AppendLost(p) => At(s, p).Marked?
    case Free(p) => At(s, p).Failed?
    case Crash(_) => true
    case Inject(_) => true
  }

  /** `enqueue_due` up to SET NX EX. */
  function PollStep(defs: Definitions, s: State, p: nat, at: Instant, now: Clock): State {
    match ProducerKey(defs(p), at)
    case None => s
    case Some(key) =>
      if |key| > MAX_KEY || Live(s.markers, key, now) then s
      else
        var until := now + MARKER_RETENTION;
        Moved(s, p, Marked(|s.marks|))
          .(markers := s.markers[key := Marker(|s.marks|, until)],
            marks := s.marks + [Mark(key, p, at, BuildPayload(defs(p), at), now, until, None, 0, None)])
  }

  function MarkOf(s: State, p: nat): nat {
    match At(s, p) case Resting => |s.marks| case Marked(m) => m case Failed(m) => m
  }

  /** XADD of a marking's payload takes effect. */
  function Appended(s: State, m: nat, now: Clock): State {
    if m >= |s.marks| then s
    else
      s.(stream := s.stream + [s.marks[m].payload], origins := s.origins + [Some(m)],
         marks := s.marks[m := s.marks[m].(appended := Some(|s.stream|), added := now)])
  }

  /** DEL of a marker key: it does not ask whose marker it is. */
  function Dropped(s: State, key: string, cause: nat, now: Clock): (t: State)
    ensures |t.marks| == |s.marks| && t.producers == s.producers && t.stream == s.stream && t.origins == s.origins
  {
    var t := s.(markers := s.markers - {key});
    if Live(s.markers, key, now) && s.markers[key].mark < |s.marks| then
      var m := s.markers[key].mark;
      t.(marks := s.marks[m := s.marks[m].(dropped := Some(Drop(cause, now)))])
    else t
  }

  function Step(defs: Definitions, s: State, a: Action, now: Clock): State
    requires Enabled(s, a)
  {
    match a
    case Poll(p, at) => PollStep(defs, s, p, at, now)
    case Append(p) => Moved(Appended(s, MarkOf(s, p), now), p, Resting)
    case AppendFails(p) => Moved(s, p, Failed(MarkOf(s, p)))
    case AppendLost(p) => Moved(Appended(s, MarkOf(s, p), now), p, Failed(MarkOf(s, p)))
    case Free(p) =>
      var m := MarkOf(s, p);
      if m >= |s.marks| then s else Moved(Dropped(s, s.marks[m].key, m, now), p, Resting)
    case Crash(p) => Moved(s, p, Resting)
    case Inject(payload) => s.(stream := s.stream + [payload], origins := s.origins + [None])
  }

  /** The step is taken while the producer's own marker is still unexpired. */
  predicate Timely(s: State, a: Action, now: Clock) {
    (a.Append? || a.AppendFails? || a.AppendLost? || a.Free?) && MarkOf(s, a.p) < |s.marks| ==> now < s.marks[MarkOf(s, a.p)].until
  }

  // ---------------------------------------------------------------- invariant

  predicate MarkOk(defs: Definitions, s: State, m: nat, now: Clock)
    requires m < |s.marks|
  {
    var k := s.marks[m];
    && k.at <= now && k.until == k.at + MARKER_RETENTION
    && ProducerKey(defs(k.producer), k.polled) == Some(k.key)
    && k.payload == BuildPayload(defs(k.producer), k.polled)
    && (k.appended.Some? ==> k.appended.value < |s.origins| && s.origins[k.appended.value] == Some(m))
    && (k.appended.Some? ==> k.at <= k.added <= now)
    && (k.dropped.Some? ==> k.dropped.value.cause <= m && s.marks[k.dropped.value.cause].key == k.key)
    && (k.dropped.Some? ==> k.at <= k.dropped.value.at <= now && k.dropped.value.at < k.until)
  }

  predicate ProducerOk(s: State, p: nat, pc: Producer) {
    !pc.Resting? ==>
      && pc.mark < |s.marks| && s.marks[pc.mark].producer == p
      && (pc.Marked? ==> s.marks[pc.mark].appended.None?)
  }

  predicate StreamOk(s: State) {
    && |s.origins| == |s.stream|
    && forall i :: 0 <= i < |s.stream| && s.origins[i].Some? ==>
         && s.origins[i].value < |s.marks| && s.marks[s.origins[i].value].appended == Some(i)
         && s.stream[i] == s.marks[s.origins[i].value].payload
  }

  /** A marker in Redis is that of its key's last marking, which no DEL has found. */
  predicate MarkersOk(s: State) {
    forall k <- s.markers ::
      var m := s.markers[k].mark;
      && m < |s.marks| && s.marks[m].key == k && s.markers[k].until == s.marks[m].until && s.marks[m].dropped.None?
      && forall n :: m < n < |s.marks| ==> s.marks[n].key != k
  }

  /** A marker stands until it expires or a DEL finds it; before that its key is not marked again. */
  predicate Standing(s: State, now: Clock) {
    && (forall m :: 0 <= m < |s.marks| && s.marks[m].dropped.None? && now < s.marks[m].until ==>
          s.marks[m].key in s.markers && s.markers[s.marks[m].key] == Marker(m, s.marks[m].until))
    && (forall m, n :: 0 <= m < n < |s.marks| && s.marks[m].key == s.marks[n].key ==> Over(s.marks[m], s.marks[n].at))
  }

  /** At this time the marking no longer guards its key. */
  predicate Over(k: Mark, at: Clock) {
    k.until <= at || (k.dropped.Some? && k.dropped.value.at <= at)
  }

  predicate Inv(defs: Definitions, s: State, now: Clock) {
    && (forall m :: 0 <= m < |s.marks| ==> MarkOk(defs, s, m, now))
    && (forall p <- s.producers :: ProducerOk(s, p, s.producers[p]))
    && StreamOk(s) && MarkersOk(s) && Standing(s, now)
  }

  /** With timely producers only a marking's own producer drops its marker, as its last act, and an entry
      goes in while its own marker is unexpired. */
  predicate TimelyOk(s: State) {
    && (forall m :: 0 <= m < |s.marks| && s.marks[m].dropped.Some? ==> s.marks[m].dropped.value.cause == m)
    && (forall p <- s.producers :: !s.producers[p].Resting? && s.producers[p].mark < |s.marks| ==> s.marks[s.producers[p].mark].dropped.None?)
    && (forall m :: 0 <= m < |s.marks| && s.marks[m].appended.Some? ==> s.marks[m].added < s.marks[m].until)
  }

  lemma StepMarkers(defs: Definitions, s: State, a: Action, now: Clock)
    requires MarkersOk(s) && Enabled(s, a)
    ensures MarkersOk(Step(defs, s, a, now))
  {
    hide ProducerKey, BuildPayload;
  }

  /** A DEL finds at most the last marking of its key. */
  lemma DroppedMarks(defs: Definitions, s: State, key: string, cause: nat, now: Clock, m: nat)
    requires Inv(defs, s, now) && cause < |s.marks| && s.marks[cause].key == key && m < |s.marks|
    ensures |Dropped(s, key, cause, now).marks| == |s.marks| && MarkOk(defs, Dropped(s, key, cause, now), m, now)
  {
    hide ProducerKey, BuildPayload, Standing;
    assert MarkOk(defs, s, m, now);
    if Live(s.markers, key, now) { assert MarkOk(defs, s, s.markers[key].mark, now); }
  }

  lemma StepMarks(defs: Definitions, s: State, a: Action, now: Clock, m: nat)
    requires Inv(defs, s, now) && Enabled(s, a) && m < |Step(defs, s, a, now).marks|
    ensures MarkOk(defs, Step(defs, s, a, now), m, now)
  {
    hide ProducerKey, BuildPayload, MarkersOk, Standing, Dropped;
    if m < |s.marks| { assert MarkOk(defs, s, m, now); }
    if a.Free? && MarkOf(s, a.p) < |s.marks| && m < |s.marks| {
      DroppedMarks(defs, s, s.marks[MarkOf(s, a.p)].key, MarkOf(s, a.p), now, m);
    }
  }

  lemma StepInv(defs: Definitions, s: State, a: Action, now: Clock)
    requires Inv(defs, s, now) && Enabled(s, a)
    ensures Inv(defs, Step(defs, s, a, now), now)
    ensures s.stream <= Step(defs, s, a, now).stream
  {
    hide ProducerKey, BuildPayload, MarkersOk, MarkOk, Standing;
    StepMarkers(defs, s, a, now);
    StepStanding(defs, s, a, now);
    forall m | 0 <= m < |Step(defs, s, a, now).marks|
      ensures MarkOk(defs, Step(defs, s, a, now), m, now)
    {
      StepMarks(defs, s, a, now, m);
    }
  }

  lemma StepStanding(defs: Definitions, s: State, a: Action, now: Clock)
    requires Inv(defs, s, now) && Enabled(s, a)
    ensures Standing(Step(defs, s, a, now), now)
  {
    hide ProducerKey, BuildPayload, StreamOk, Dropped, MarkOk, Standing, Appended;
    var t := Step(defs, s, a, now);
    match a
    case Poll(p, at) => PollStanding(defs, s, p, at, now);
    case Append(p) =>
      AppendedStanding(s, MarkOf(s, p), now);
      StandingSame(Appended(s, MarkOf(s, p), now), t, now);
    case AppendLost(p) =>
      AppendedStanding(s, MarkOf(s, p), now);
      StandingSame(Appended(s, MarkOf(s, p), now), t, now);
    case Free(p) =>
      var m := MarkOf(s, p);
      if m < |s.marks| {
        DroppedStanding(defs, s, s.marks[m].key, m, now);
        StandingSame(Dropped(s, s.marks[m].key, m, now), t, now);
      }
    case _ => StandingSame(s, t, now);
  }

  lemma StandingSame(s: State, t: State, now: Clock)
    requires Standing(s, now) && t.marks == s.marks && t.markers == s.markers
    ensures Standing(t, now)
  {}

  lemma PollStanding(defs: Definitions, s: State, p: nat, at: Instant, now: Clock)
    requires Inv(defs, s, now)
    ensures Standing(PollStep(defs, s, p, at, now), now)
  {
    hide ProducerKey, BuildPayload, StreamOk, MarkersOk;
    var t := PollStep(defs, s, p, at, now);
    if t.marks != s.marks {
      var k := t.marks[|s.marks|];
      forall m | 0 <= m < |s.marks| && s.marks[m].key == k.key
        ensures Over(s.marks[m], now)
      {
        assert MarkOk(defs, s, m, now);
      }
    }
  }

  lemma AppendedStanding(s: State, m: nat, now: Clock)
    requires Standing(s, now)
    ensures Standing(Appended(s, m, now), now)
  {}

  lemma DroppedStanding(defs: Definitions, s: State, key: string, cause: nat, now: Clock)
    requires Inv(defs, s, now)
    ensures Standing(Dropped(s, key, cause, now), now)
  {
    hide ProducerKey, BuildPayload, StreamOk;
    assert forall m :: 0 <= m < |s.marks| ==> MarkOk(defs, s, m, now);
  }

  lemma StepTimely(defs: Definitions, s: State, a: Action, now: Clock)
    requires Inv(defs, s, now) && TimelyOk(s) && Enabled(s, a) && Timely(s, a, now)
    ensures TimelyOk(Step(defs, s, a, now))
  {
    hide ProducerKey, BuildPayload, StreamOk, MarkOk, Dropped, MarkersOk, Standing;
    if a.Free? && MarkOf(s, a.p) < |s.marks| { FreeTimely(defs, s, a.p, now); }
  }

  /** A timely producer finds its own marker. */
  lemma FreeTimely(defs: Definitions, s: State, p: nat, now: Clock)
    requires Inv(defs, s, now) && TimelyOk(s) && Enabled(s, Free(p)) && Timely(s, Free(p), now) && MarkOf(s, p) < |s.marks|
    ensures TimelyOk(Step(defs, s, Free(p), now))
  {
    hide ProducerKey, BuildPayload, StreamOk, MarkOk, MarkersOk;
    var m := MarkOf(s, p);
    assert s.markers[s.marks[m].key] == Marker(m, s.marks[m].until);
  }

  lemma Later(defs: Definitions, s: State, now: Clock, now': Clock)
    requires Inv(defs, s, now) && now <= now'
    ensures Inv(defs, s, now')
  {
    hide ProducerKey, BuildPayload;
    forall m | 0 <= m < |s.marks|
      ensures MarkOk(defs, s, m, now')
    {
      assert MarkOk(defs, s, m, now);
    }
  }
}
