/**
  The in-memory session store: internal/session/memory.go.  Wall times are nanoseconds since Go's zero time; each
  call is given what `time.Now` answers inside it, which is a wall time and a reading of the monotonic clock.
*/
module Sessions {
  import opened Wrappers
  import opened Strings

  datatype Session = Session(
    id: string, subject: string, email: string, groups: seq<string>, roles: seq<string>, createdAt: int, expiresAt: int,
    accessToken: string)

  const MINUTE := 60 * 1_000_000_000

  /** The longest time.Duration: Sub saturates there. */
  const MAX_DURATION := 9223372036854775807

  /** Go's time.Time: only `time.Now` takes a reading of the monotonic clock. */
  datatype Time = Time(wall: int, mono: Option<int>)

  const ZERO_TIME := Time(0, None)

  /** By the monotonic clock when both times have read it, and by the wall clock otherwise. */
  function Sub(a: Time, b: Time): int {
    var d := if a.mono.Some? && b.mono.Some? then a.mono.value - b.mono.value else a.wall - b.wall;
    if d > MAX_DURATION then MAX_DURATION else if d < -MAX_DURATION - 1 then -MAX_DURATION - 1 else d
  }

  type Table = map<string, Session>

  /** The expiry comes from an ID token and has no monotonic reading, so wall times are compared. */
  predicate Expired(s: Session, now: Time) {
    now.wall > s.expiresAt
  }

  // ---------- the store, as values ----------

  datatype Memory = Memory(sessions: Table, lastGC: Time)

  function Sweep(m: Memory, now: Time): Memory {
    if Sub(now, m.lastGC) < MINUTE then m
    else Memory(map id | id in m.sessions && !Expired(m.sessions[id], now) :: m.sessions[id], now)
  }

  function Created(m: Memory, s: Session): Memory {
    m.(sessions := m.sessions[s.id := s])
  }

  function Deleted(m: Memory, id: string): Memory {
    m.(sessions := m.sessions - {id})
  }

  /** `Get` sweeps at one reading of the clock and tests expiry at a later one. */
  function Got(m: Memory, id: string, sweepAt: Time, testAt: Time): (Memory, Option<Session>) {
    var n := Sweep(m, sweepAt);
    if id !in n.sessions then (n, None)
    else if Expired(n.sessions[id], testAt) then (Deleted(n, id), None)
    else (n, Some(n.sessions[id]))
  }

  // ---------- the store, as an object ----------

  class MemoryStore {
    var sessions: Table
    var lastGC: Time

    constructor ()
      ensures View() == Memory(map[], ZERO_TIME)
    {
      sessions, lastGC := map[], ZERO_TIME;
    }

    function View(): Memory
      reads this
    {
      Memory(sessions, lastGC)
    }

    method Create(s: Session)
      modifies this
      ensures View() == Created(old(View()), s)
    {
      sessions := sessions[s.id := s];
    }

    method Get(id: string, sweepAt: Time, testAt: Time) returns (r: Option<Session>)
      modifies this
      ensures (View(), r) == Got(old(View()), id, sweepAt, testAt)
    {
      GcLocked(sweepAt);
      if id !in sessions { return None; }
      var s := sessions[id];
      if testAt.wall > s.expiresAt {
        sessions := sessions - {id};
        return None;
      }
      return Some(s);
    }

    method Delete(id: string)
      modifies this
      ensures View() == Deleted(old(View()), id)
    {
      sessions := sessions - {id};
    }

    /** Deletes while it iterates, in any order. */
    method GcLocked(now: Time)
      modifies this
      ensures View() == Sweep(old(View()), now)
    {
      if Sub(now, lastGC) < MINUTE { return; }
      lastGC := now;
      var todo := sessions.Keys;
      while todo != {}
        invariant todo <= old(sessions).Keys
        invariant sessions == map id | id in old(sessions) && (id in todo || !Expired(old(sessions)[id], now)) :: old(sessions)[id]
        invariant lastGC == now
        decreases todo
      {
        var id :| id in todo;
        if now.wall > sessions[id].expiresAt {
          sessions := sessions - {id};
        }
        todo := todo - {id};
      }
    }
  }

  // ---------- the ideal store ----------

  datatype Call =
    | Create(s: Session)
    | Get(id: string, sweepAt: Time, testAt: Time)
    | Delete(id: string)

  /** A map of everything created and not deleted, read through the clock. */
  function IdealGet(ideal: Table, id: string, now: Time): Option<Session> {
    if id in ideal && !Expired(ideal[id], now) then Some(ideal[id]) else None
  }

  function IdealAfter(ideal: Table, c: Call): Table {
    match c
    case Create(s) => ideal[s.id := s]
    case Delete(id) => ideal - {id}
    case Get(_, _, _) => ideal
  }

  function After(m: Memory, c: Call): Memory {
    match c
    case Create(s) => Created(m, s)
    case Delete(id) => Deleted(m, id)
    case Get(id, t, u) => Got(m, id, t, u).0
  }

  /** What the caller sees: the session for a Get, nothing otherwise. */
  function Answer(m: Memory, c: Call): Option<Session> {
    if c.Get? then Got(m, c.id, c.sweepAt, c.testAt).1 else None
  }

  function IdealAnswer(ideal: Table, c: Call): Option<Session> {
    if c.Get? then IdealGet(ideal, c.id, c.testAt) else None
  }

  /** The store holds the ideal content but for sessions that had expired by `clock`. */
  ghost predicate Refines(m: Memory, ideal: Table, clock: int) {
    (forall id :: id in m.sessions ==> id in ideal && ideal[id] == m.sessions[id]) &&
    (forall id :: id in ideal && id !in m.sessions ==> clock > ideal[id].expiresAt)
  }

  /** The wall times of a call come after `clock` and in order. */
  predicate InOrder(clock: int, c: Call) {
    c.Get? ==> clock <= c.sweepAt.wall <= c.testAt.wall
  }

  function ClockAfter(clock: int, c: Call): int {
    if c.Get? then c.testAt.wall else clock
  }

  lemma OneCallRefines(m: Memory, ideal: Table, clock: int, c: Call)
    requires Refines(m, ideal, clock) && InOrder(clock, c)
    ensures Answer(m, c) == IdealAnswer(ideal, c)
    ensures Refines(After(m, c), IdealAfter(ideal, c), ClockAfter(clock, c))
  {
  }

  ghost predicate AllInOrder(clock: int, cs: seq<Call>)
    decreases |cs|
  {
    cs != [] ==> InOrder(clock, cs[0]) && AllInOrder(ClockAfter(clock, cs[0]), cs[1..])
  }

  function Answers(m: Memory, cs: seq<Call>): seq<Option<Session>>
    decreases |cs|
  {
    if cs == [] then [] else [Answer(m, cs[0])] + Answers(After(m, cs[0]), cs[1..])
  }

  function IdealAnswers(ideal: Table, cs: seq<Call>): seq<Option<Session>>
    decreases |cs|
  {
    if cs == [] then [] else [IdealAnswer(ideal, cs[0])] + IdealAnswers(IdealAfter(ideal, cs[0]), cs[1..])
  }

  lemma {:induction false} RefinesAlong(m: Memory, ideal: Table, clock: int, cs: seq<Call>)
    requires Refines(m, ideal, clock) && AllInOrder(clock, cs)
    ensures Answers(m, cs) == IdealAnswers(ideal, cs)
    decreases |cs|
  {
    if cs != [] {
      OneCallRefines(m, ideal, clock, cs[0]);
      RefinesAlong(After(m, cs[0]), IdealAfter(ideal, cs[0]), ClockAfter(clock, cs[0]), cs[1..]);
    }
  }

  /** Sweeping is invisible: under a clock that never runs back, every series of calls is answered as the ideal map answers it. */
  lemma SweepingIsInvisible(clock: int, cs: seq<Call>)
    requires AllInOrder(clock, cs)
    ensures Answers(Memory(map[], ZERO_TIME), cs) == IdealAnswers(map[], cs)
  {
    RefinesAlong(Memory(map[], ZERO_TIME), map[], clock, cs);
  }

  /** A session created and neither replaced nor deleted comes back unchanged, roles included, until it expires. */
  lemma {:induction false} SessionComesBack(ideal: Table, s: Session, cs: seq<Call>, now: Time)
    requires s.id in ideal && ideal[s.id] == s
    requires forall i :: 0 <= i < |cs| ==> !(cs[i].Create? && cs[i].s.id == s.id) && !(cs[i].Delete? && cs[i].id == s.id)
    ensures IdealGet(IdealAfterAll(ideal, cs), s.id, now) == if now.wall > s.expiresAt then None else Some(s)
    decreases |cs|
  {
    if cs != [] {
      assert !(cs[0].Create? && cs[0].s.id == s.id) && !(cs[0].Delete? && cs[0].id == s.id);
      assert forall i :: 0 <= i < |cs[1..]| ==> cs[1..][i] == cs[i + 1];
      SessionComesBack(IdealAfter(ideal, cs[0]), s, cs[1..], now);
    }
  }

  function IdealAfterAll(ideal: Table, cs: seq<Call>): Table
    decreases |cs|
  {
    if cs == [] then ideal else IdealAfterAll(IdealAfter(ideal, cs[0]), cs[1..])
  }

  // ---------- exactly which clocks hide the sweep ----------

  function Reading(c: Call): seq<int> {
    if c.Get? then [c.testAt.wall] else []
  }

  /** What the wall clock read in the Gets of a series, when each reads it once. */
  function Readings(cs: seq<Call>): seq<int> {
    if cs == [] then [] else Reading(cs[0]) + Readings(cs[1..])
  }

  predicate OneReadingEach(cs: seq<Call>) {
    forall i :: 0 <= i < |cs| && cs[i].Get? ==> cs[i].sweepAt.wall == cs[i].testAt.wall
  }

  predicate NeverBack(ts: seq<int>) {
    forall i :: 0 < i < |ts| ==> ts[i - 1] <= ts[i]
  }

  /** Every series of calls in which the wall clock reads this, and the monotonic one whatever, is answered as the ideal map answers it. */
  ghost predicate Invisible(ts: seq<int>) {
    forall cs :: OneReadingEach(cs) && Readings(cs) == ts ==> Answers(Memory(map[], ZERO_TIME), cs) == IdealAnswers(map[], cs)
  }

  lemma {:induction false} OrderedReadings(clock: int, cs: seq<Call>)
    requires OneReadingEach(cs) && NeverBack([clock] + Readings(cs))
    ensures AllInOrder(clock, cs)
    decreases |cs|
  {
    if cs != [] {
      var rest := cs[1..];
      assert forall i :: 0 <= i < |rest| ==> rest[i] == cs[i + 1];
      if cs[0].Get? {
        var ts := [clock] + Readings(cs);
        assert Readings(cs) == [cs[0].testAt.wall] + Readings(rest);
        assert ts[1] == cs[0].testAt.wall && ts[1..] == [cs[0].testAt.wall] + Readings(rest);
        assert forall i :: 0 < i < |ts[1..]| ==> ts[1..][i] == ts[i + 1] && ts[1..][i - 1] == ts[i];
        assert ts[0] == clock && ts[1 - 1] <= ts[1];
      } else {
        assert Readings(cs) == Readings(rest);
      }
      OrderedReadings(ClockAfter(clock, cs[0]), rest);
    }
  }

  /** A Get at this wall time; the monotonic clock stands still. */
  function At(id: string, t: int): Call {
    Get(id, Time(t, Some(0)), Time(t, Some(0)))
  }

  /** Gets of one id at these times. */
  function Probes(id: string, ts: seq<int>): (cs: seq<Call>)
    ensures OneReadingEach(cs) && Readings(cs) == ts
  {
    if ts == [] then []
    else
      var cs := [At(id, ts[0])] + Probes(id, ts[1..]);
      assert cs[1..] == Probes(id, ts[1..]);
      cs
  }

  lemma ReadingsCons(c: Call, cs: seq<Call>)
    ensures Readings([c] + cs) == Reading(c) + Readings(cs)
  {
    assert ([c] + cs)[1..] == cs;
  }

  lemma {:induction false} ReadingsConcat(a: seq<Call>, b: seq<Call>)
    ensures Readings(a + b) == Readings(a) + Readings(b)
  {
    if a == [] {
      assert a + b == b;
    } else {
      var c, rest := a[0], a[1..];
      assert a + b == [c] + (rest + b);
      ReadingsCons(c, rest + b);
      ReadingsConcat(rest, b);
      Associate(Reading(c), Readings(rest), Readings(b));
    }
  }

  lemma {:induction false} AnswersConcat(m: Memory, a: seq<Call>, b: seq<Call>)
    ensures Answers(m, a + b) == Answers(m, a) + Answers(AfterAll(m, a), b)
    decreases |a|
  {
    if a == [] {
      assert a + b == b;
    } else {
      assert (a + b)[1..] == a[1..] + b;
      AnswersConcat(After(m, a[0]), a[1..], b);
    }
  }

  lemma {:induction false} IdealAnswersConcat(ideal: Table, a: seq<Call>, b: seq<Call>)
    ensures IdealAnswers(ideal, a + b) == IdealAnswers(ideal, a) + IdealAnswers(IdealAfterAll(ideal, a), b)
    decreases |a|
  {
    if a == [] {
      assert a + b == b;
    } else {
      assert (a + b)[1..] == a[1..] + b;
      IdealAnswersConcat(IdealAfter(ideal, a[0]), a[1..], b);
    }
  }

  lemma {:induction false} AnswersCount(m: Memory, ideal: Table, cs: seq<Call>)
    ensures |Answers(m, cs)| == |cs| == |IdealAnswers(ideal, cs)|
    decreases |cs|
  {
    if cs != [] {
      AnswersCount(After(m, cs[0]), IdealAfter(ideal, cs[0]), cs[1..]);
    }
  }

  /** A session that expires at `u`. */
  function Until(u: int): Session {
    Session("a", "", "", [], [], 0, u, "")
  }

  /** The step back, with the two Gets that show it. */
  function Shown(t: int, u: int): (cs: seq<Call>)
    ensures OneReadingEach(cs)
  {
    [Create(Until(u)), At("a", t), At("a", u)]
  }

  /** Whatever went before: a Get past the expiry throws the session away, and an earlier reading would still find it. */
  lemma BackStepShows(m: Memory, ideal: Table, t: int, u: int, rest: seq<Call>)
    requires u < t
    ensures Answers(m, Shown(t, u) + rest) != IdealAnswers(ideal, Shown(t, u) + rest)
  {
    var s := Until(u);
    var g, h := At("a", t), At("a", u);
    var cs := [Create(s), g, h] + rest;
    assert cs[1..] == [g, h] + rest && cs[1..][1..] == [h] + rest;
    var m1, i1 := After(m, Create(s)), IdealAfter(ideal, Create(s));
    var m2 := After(m1, g);
    assert "a" !in m2.sessions;
    AnswersCount(m, ideal, cs);
    AnswersCount(m1, i1, [g, h] + rest);
    AnswersCount(m2, i1, [h] + rest);
    assert Answers(m, cs)[2] == Answers(m1, cs[1..])[1] == Answers(m2, [h] + rest)[0] == None;
    assert IdealAnswers(ideal, cs)[2] == IdealAnswers(i1, cs[1..])[1] == IdealAnswers(i1, [h] + rest)[0] == Some(s);
  }

  lemma ShownReadings(t: int, u: int)
    ensures Readings(Shown(t, u)) == [t, u]
  {
    var g, h := At("a", t), At("a", u);
    ReadingsCons(h, []);
    ReadingsCons(g, [h]);
    ReadingsCons(Create(Until(u)), [g, h]);
    assert [h] + [] == [h] && [g] + [h] == [g, h] && [Create(Until(u))] + [g, h] == Shown(t, u);
  }

  lemma DiffersAfter(m: Memory, ideal: Table, before: seq<Call>, cs: seq<Call>)
    requires Answers(AfterAll(m, before), cs) != IdealAnswers(IdealAfterAll(ideal, before), cs)
    ensures Answers(m, before + cs) != IdealAnswers(ideal, before + cs)
  {
    AnswersConcat(m, before, cs);
    IdealAnswersConcat(ideal, before, cs);
    AnswersCount(m, ideal, before);
    var x, y := Answers(m, before + cs), IdealAnswers(ideal, before + cs);
    assert x[|before|..] == Answers(AfterAll(m, before), cs) && y[|before|..] == IdealAnswers(IdealAfterAll(ideal, before), cs);
  }

  /** The two Gets that show the step back, among Gets of another id at the other readings. */
  function Around(ts: seq<int>, i: nat): seq<Call>
    requires 0 < i < |ts|
  {
    Probes("b", ts[..i - 1]) + (Shown(ts[i - 1], ts[i]) + Probes("b", ts[i + 1..]))
  }

  lemma AroundReads(ts: seq<int>, i: nat)
    requires 0 < i < |ts|
    ensures Readings(Around(ts, i)) == ts
  {
    var t, u := ts[i - 1], ts[i];
    var before, rest := Probes("b", ts[..i - 1]), Probes("b", ts[i + 1..]);
    ShownReadings(t, u);
    ReadingsConcat(Shown(t, u), rest);
    ReadingsConcat(before, Shown(t, u) + rest);
    assert ts == ts[..i - 1] + ([t, u] + ts[i + 1..]);
  }

  lemma OneReadingConcat(a: seq<Call>, b: seq<Call>)
    requires OneReadingEach(a) && OneReadingEach(b)
    ensures OneReadingEach(a + b)
  {
  }

  lemma BackwardShows(ts: seq<int>, i: nat)
    requires 0 < i < |ts| && ts[i] < ts[i - 1]
    ensures !Invisible(ts)
  {
    var t, u := ts[i - 1], ts[i];
    var before, rest := Probes("b", ts[..i - 1]), Probes("b", ts[i + 1..]);
    AroundReads(ts, i);
    OneReadingConcat(Shown(t, u), rest);
    OneReadingConcat(before, Shown(t, u) + rest);
    BackStepShows(AfterAll(Memory(map[], ZERO_TIME), before), IdealAfterAll(map[], before), t, u, rest);
    DiffersAfter(Memory(map[], ZERO_TIME), map[], before, Shown(t, u) + rest);
  }

  /**
    The store is indistinguishable from the ideal map, over every series of calls in which the Gets read the clock
    like this, exactly when the wall clock never runs back from one Get to the next, whatever the monotonic clock does.
  */
  lemma InvisibleIff(ts: seq<int>)
    ensures Invisible(ts) <==> NeverBack(ts)
  {
    if NeverBack(ts) {
      forall cs | OneReadingEach(cs) && Readings(cs) == ts
        ensures Answers(Memory(map[], ZERO_TIME), cs) == IdealAnswers(map[], cs)
      {
        var clock := if ts == [] then 0 else ts[0];
        var all := [clock] + ts;
        forall i | 0 < i < |all|
          ensures all[i - 1] <= all[i]
        {
          if i > 1 { assert all[i - 1] == ts[i - 2] && all[i] == ts[i - 1]; }
        }
        OrderedReadings(clock, cs);
        SweepingIsInvisible(clock, cs);
      }
    } else {
      var i :| 0 < i < |ts| && !(ts[i - 1] <= ts[i]);
      BackwardShows(ts, i);
    }
  }

  // ---------- what the sweep bounds ----------

  /** When each held session was put in. */
  type Births = map<string, int>

  /** Every held session was put in after the last sweep, or had not expired by then. */
  ghost predicate Fresh(m: Memory, births: Births) {
    forall id :: id in m.sessions ==> id in births && (births[id] >= m.lastGC.wall || m.sessions[id].expiresAt >= m.lastGC.wall)
  }

  function BirthsAfter(births: Births, c: Call, clock: int): Births {
    if c.Create? then births[c.s.id := clock] else births
  }

  /**
    After any Get the last sweep is under a minute old, and every held session expires at or after it
    or was created since; other calls keep the second part.
  */
  lemma SweepBoundsWhatIsHeld(m: Memory, births: Births, clock: int, c: Call)
    requires Fresh(m, births) && m.lastGC.wall <= clock && InOrder(clock, c)
    ensures var n := After(m, c); Fresh(n, BirthsAfter(births, c, clock)) && n.lastGC.wall <= ClockAfter(clock, c)
    ensures c.Get? ==> After(m, c).lastGC.wall <= c.sweepAt.wall && Sub(c.sweepAt, After(m, c).lastGC) < MINUTE
  {
  }

  function AfterAll(m: Memory, cs: seq<Call>): Memory
    decreases |cs|
  {
    if cs == [] then m else AfterAll(After(m, cs[0]), cs[1..])
  }

  function BirthsAfterAll(births: Births, cs: seq<Call>, clock: int): Births
    decreases |cs|
  {
    if cs == [] then births else BirthsAfterAll(BirthsAfter(births, cs[0], clock), cs[1..], ClockAfter(clock, cs[0]))
  }

  /** The bound holds after every series of calls. */
  lemma {:induction false} SweepBoundsAlong(m: Memory, births: Births, clock: int, cs: seq<Call>)
    requires Fresh(m, births) && m.lastGC.wall <= clock && AllInOrder(clock, cs)
    ensures Fresh(AfterAll(m, cs), BirthsAfterAll(births, cs, clock))
    decreases |cs|
  {
    if cs != [] {
      SweepBoundsWhatIsHeld(m, births, clock, cs[0]);
      SweepBoundsAlong(After(m, cs[0]), BirthsAfter(births, cs[0], clock), ClockAfter(clock, cs[0]), cs[1..]);
    }
  }
}
