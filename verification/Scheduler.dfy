/** The autosync scheduler: a map of due times rebuilt from the configuration and the status table. */
module Scheduler {
  import opened Basics
  import opened Journal
  import opened Statuses

  /** Milliseconds since the zero time; the clock is past it, and 0 stands for "no time". */
  type Time = int

  const STAGGER := 5_000
  const RETRY_DELAY := 30_000
  const MINUTE := 60_000

  datatype Base = Base(name: string, path: Path, autoSync: bool, intervalMinutes: int)

  datatype Entry = Entry(snapshot: Base, due: Time, lastAttempt: Option<Time>, order: nat, blocked: bool)

  type Entries = map<Path, Entry>

  /** gitSchedulerInterval */
  predicate ValidInterval(minutes: int) {
    minutes == 5 || minutes == 15 || minutes == 30 || minutes == 60
  }

  /** gitScheduleBlocked; a base without a status row is blocked as well. */
  predicate Blocked(row: Option<Status>) {
    match row
    case None => true
    case Some(status) =>
      status.failures >= PAUSE_THRESHOLD
      || status.state in {StatusPaused, StatusConflict, StatusNeedsReconnect, StatusInitializing, StatusSyncing, StatusUnconfigured}
  }

  /** gitScheduleDue */
  function ScheduleDue(slot: Time, lastAttempt: Option<Time>, interval: int): (due: Time)
    ensures due >= slot && (lastAttempt.Some? ==> due >= lastAttempt.value + interval)
    ensures due == slot || (lastAttempt.Some? && due == lastAttempt.value + interval)
  {
    if lastAttempt.Some? && lastAttempt.value + interval > slot then lastAttempt.value + interval else slot
  }

  /** Not before the last recorded attempt has had its interval, and not at the zero time. */
  predicate Timely(e: Entry) {
    e.blocked || (ValidInterval(e.snapshot.intervalMinutes) && e.due > 0
                  && (e.lastAttempt.Some? ==> e.due >= e.lastAttempt.value + e.snapshot.intervalMinutes * MINUTE))
  }

  predicate Scheduled(entries: Entries) {
    forall path :: path in entries ==> entries[path].snapshot.path == path && Timely(entries[path])
  }

  // ---------------------------------------------------------------- rebuilding the schedule

  datatype Candidate = Candidate(snapshot: Base, row: Option<Status>, order: nat)

  /** The base wants to be synchronized automatically. */
  predicate Wanted(b: Base) {
    b.autoSync && ValidInterval(b.intervalMinutes)
  }

  function RowAt(statuses: StatusTable, path: Path): Option<Status> {
    if path in statuses then Some(statuses[path]) else None
  }

  /** The bases to schedule, with the status row each of them has and its place in the configuration. */
  function CandidatesOf(bases: seq<Base>, statuses: StatusTable): seq<Candidate> {
    if bases == [] then []
    else
      var order := |bases| - 1;
      var b := bases[order];
      CandidatesOf(bases[..order], statuses) + if Wanted(b) then [Candidate(b, RowAt(statuses, b.path), order)] else []
  }

  lemma {:induction false} CandidatesAreWanted(bases: seq<Base>, statuses: StatusTable)
    ensures forall c :: c in CandidatesOf(bases, statuses) ==>
                          c.snapshot in bases && Wanted(c.snapshot) && c.row == RowAt(statuses, c.snapshot.path)
    ensures forall b :: b in bases && Wanted(b) ==> exists c :: c in CandidatesOf(bases, statuses) && c.snapshot == b
  {
    if bases != [] {
      var order := |bases| - 1;
      CandidatesAreWanted(bases[..order], statuses);
      forall b | b in bases && Wanted(b)
        ensures exists c :: c in CandidatesOf(bases, statuses) && c.snapshot == b
      {
        if b in bases[..order] {
          var c :| c in CandidatesOf(bases[..order], statuses) && c.snapshot == b;
          assert c in CandidatesOf(bases, statuses);
        } else {
          assert Candidate(b, RowAt(statuses, b.path), order) in CandidatesOf(bases, statuses);
        }
      }
    }
  }

  function LastAttempt(c: Candidate): Option<Time> {
    if c.row.Some? then c.row.value.lastAttempt else None
  }

  /** The base keeps its place: it was scheduled with the same interval and the same last attempt. */
  predicate Unchanged(entries: Entries, c: Candidate) {
    var path := c.snapshot.path;
    path in entries && !entries[path].blocked && entries[path].snapshot.intervalMinutes == c.snapshot.intervalMinutes
    && entries[path].lastAttempt == LastAttempt(c)
  }

  function Eligible(candidates: seq<Candidate>): nat {
    if candidates == [] then 0
    else Eligible(candidates[..|candidates| - 1]) + if Blocked(candidates[|candidates| - 1].row) then 0 else 1
  }

  function NewEntry(entries: Entries, c: Candidate, slot: Time): Entry {
    if Blocked(c.row) then Entry(c.snapshot, 0, None, c.order, true)
    else if Unchanged(entries, c) then entries[c.snapshot.path].(snapshot := c.snapshot, order := c.order)
    else Entry(c.snapshot, ScheduleDue(slot, LastAttempt(c), c.snapshot.intervalMinutes * MINUTE), LastAttempt(c), c.order, false)
  }

  /** The schedule the candidates lead to; the k-th eligible one gets the k-th slot after the start. */
  function Rebuilt(entries: Entries, candidates: seq<Candidate>, start: Time): Entries {
    if candidates == [] then map[]
    else
      var c := candidates[|candidates| - 1];
      Rebuilt(entries, candidates[..|candidates| - 1], start)[c.snapshot.path := NewEntry(entries, c, start + Eligible(candidates) * STAGGER)]
  }

  /** What a rebuilt schedule is: exactly the candidate paths, blocked as their status says; an unchanged base
      keeps its due time, a new or changed one waits for a slot and for its interval. */
  lemma {:induction false} RebuiltIsScheduled(entries: Entries, candidates: seq<Candidate>, start: Time)
    requires Scheduled(entries) && start >= 0
    requires forall c :: c in candidates ==> ValidInterval(c.snapshot.intervalMinutes)
    ensures Scheduled(Rebuilt(entries, candidates, start))
    ensures forall path :: path in Rebuilt(entries, candidates, start) <==> exists c :: c in candidates && c.snapshot.path == path
    ensures forall path :: path in Rebuilt(entries, candidates, start) ==>
                             exists c, slot :: c in candidates && c.snapshot.path == path && start < slot
                                               && Rebuilt(entries, candidates, start)[path] == NewEntry(entries, c, slot)
  {
    if candidates != [] {
      var init, c := candidates[..|candidates| - 1], candidates[|candidates| - 1];
      assert candidates == init + [c];
      RebuiltIsScheduled(entries, init, start);
      var after := Rebuilt(entries, candidates, start);
      var slot := start + Eligible(candidates) * STAGGER;
      if !Blocked(c.row) {
        assert slot > start;
      } else {
        assert NewEntry(entries, c, slot) == NewEntry(entries, c, start + 1);
      }
      forall path | path in after
        ensures exists d, s :: d in candidates && d.snapshot.path == path && start < s && after[path] == NewEntry(entries, d, s)
      {
        if path == c.snapshot.path {
          assert after[path] == NewEntry(entries, c, if Blocked(c.row) then start + 1 else slot);
        } else {
          var d, s :| d in init && d.snapshot.path == path && start < s && Rebuilt(entries, init, start)[path] == NewEntry(entries, d, s);
          assert d in candidates;
        }
      }
    }
  }

  // ---------------------------------------------------------------- what the schedule says of a base

  /** The configuration asks for it, with an interval the settings offer. */
  ghost predicate Asks(b: Base) {
    b.autoSync && b.intervalMinutes in {5, 15, 30, 60}
  }

  /** It is ready, or has failed and may be tried again: the status is known, the budget not used up, and nothing
      is under way or waits for the user. */
  ghost predicate MayRun(statuses: StatusTable, path: Path) {
    path in statuses && statuses[path].failures < 5 && statuses[path].state in {StatusReady, StatusError}
  }

  /** To be scheduled, and the last such base of its path. */
  ghost predicate Scheduling(bases: seq<Base>, i: int) {
    0 <= i < |bases| && Asks(bases[i]) && forall j :: i < j < |bases| && Asks(bases[j]) ==> bases[j].path != bases[i].path
  }

  /** The bases up to this one that get a slot. */
  ghost function SlotsUpTo(bases: seq<Base>, statuses: StatusTable, i: int): set<int> {
    set k | 0 <= k <= i && k < |bases| && Asks(bases[k]) && MayRun(statuses, bases[k].path)
  }

  /** The entry of the i-th base: blocked unless it may run; due as before if it was scheduled with this interval and
      this last attempt, and otherwise in its slot, five seconds after the one before, or when the interval since
      the last attempt is over, whichever is later. */
  ghost predicate ScheduledAs(e: Entry, bases: seq<Base>, i: nat, statuses: StatusTable, entries: Entries, start: Time)
    requires i < |bases|
  {
    var path, minutes := bases[i].path, bases[i].intervalMinutes;
    && e.snapshot == bases[i] && e.order == i && (e.blocked <==> !MayRun(statuses, path))
    && (!e.blocked ==>
          var attempt, slot := statuses[path].lastAttempt, start + 5_000 * |SlotsUpTo(bases, statuses, i)|;
          e.lastAttempt == attempt
          && if path in entries && !entries[path].blocked && entries[path].snapshot.intervalMinutes == minutes && entries[path].lastAttempt == attempt
             then e.due == entries[path].due
             else e.due >= slot && (attempt.Some? ==> e.due >= attempt.value + 60_000 * minutes)
                  && (e.due == slot || (attempt.Some? && e.due == attempt.value + 60_000 * minutes)))
  }

  lemma BlockedExactly(statuses: StatusTable, path: Path)
    ensures Blocked(RowAt(statuses, path)) <==> !MayRun(statuses, path)
  {
    if path in statuses {
      match statuses[path].state
      case StatusReady =>
      case StatusError =>
      case StatusUnconfigured =>
      case StatusInitializing =>
      case StatusSyncing =>
      case StatusPaused =>
      case StatusConflict =>
      case StatusNeedsReconnect =>
    }
  }

  lemma WantedExactly(b: Base)
    ensures Wanted(b) <==> Asks(b)
  {}

  lemma {:induction false} SlotsAreCounted(bases: seq<Base>, statuses: StatusTable)
    ensures Eligible(CandidatesOf(bases, statuses)) == |SlotsUpTo(bases, statuses, |bases| - 1)|
  {
    if bases != [] {
      var last := |bases| - 1;
      var init, candidates := bases[..last], CandidatesOf(bases, statuses);
      SlotsAreCounted(init, statuses);
      BlockedExactly(statuses, bases[last].path);
      WantedExactly(bases[last]);
      if Wanted(bases[last]) {
        assert candidates[..|candidates| - 1] == CandidatesOf(init, statuses);
      } else {
        assert candidates == CandidatesOf(init, statuses);
      }
      assert SlotsUpTo(bases, statuses, last)
          == SlotsUpTo(init, statuses, last - 1) + if Wanted(bases[last]) && MayRun(statuses, bases[last].path) then {last} else {};
    } else {
      assert SlotsUpTo(bases, statuses, -1) == {};
    }
  }

  /** The last base of the list, if it is to be scheduled. */
  lemma LastIsScheduled(bases: seq<Base>, statuses: StatusTable, entries: Entries, start: Time)
    requires bases != [] && Asks(bases[|bases| - 1])
    ensures var i, rebuilt := |bases| - 1, Rebuilt(entries, CandidatesOf(bases, statuses), start);
            bases[i].path in rebuilt && ScheduledAs(rebuilt[bases[i].path], bases, i, statuses, entries, start)
  {
    SlotsAreCounted(bases, statuses);
    BlockedExactly(statuses, bases[|bases| - 1].path);
  }

  /** A base further on leaves the entries at other paths as they are. */
  lemma OthersStay(bases: seq<Base>, statuses: StatusTable, entries: Entries, start: Time, path: Path)
    requires bases != [] && (Asks(bases[|bases| - 1]) ==> bases[|bases| - 1].path != path)
    ensures var before, after := Rebuilt(entries, CandidatesOf(bases[..|bases| - 1], statuses), start), Rebuilt(entries, CandidatesOf(bases, statuses), start);
            (path in before <==> path in after) && (path in after ==> after[path] == before[path])
  {
    var last := |bases| - 1;
    var candidates := CandidatesOf(bases, statuses);
    if Wanted(bases[last]) {
      assert candidates[..|candidates| - 1] == CandidatesOf(bases[..last], statuses);
    } else {
      assert candidates == CandidatesOf(bases[..last], statuses);
    }
  }

  /** The entry of every base that is to be scheduled. */
  lemma {:induction false} ScheduleExactly(bases: seq<Base>, statuses: StatusTable, entries: Entries, start: Time, i: nat)
    requires Scheduling(bases, i)
    ensures var rebuilt := Rebuilt(entries, CandidatesOf(bases, statuses), start);
            bases[i].path in rebuilt && ScheduledAs(rebuilt[bases[i].path], bases, i, statuses, entries, start)
    decreases |bases|
  {
    var last := |bases| - 1;
    if i < last {
      var init := bases[..last];
      assert forall k :: 0 <= k < last ==> init[k] == bases[k];
      ScheduleExactly(init, statuses, entries, start, i);
      OthersStay(bases, statuses, entries, start, bases[i].path);
      assert SlotsUpTo(init, statuses, i) == SlotsUpTo(bases, statuses, i);
    } else {
      LastIsScheduled(bases, statuses, entries, start);
    }
  }

  // ---------------------------------------------------------------- the order of queueing

  /** Due time, then configuration order, then path. */
  predicate NotAfter(a: Entry, b: Entry) {
    a.due < b.due || (a.due == b.due && (a.order < b.order || (a.order == b.order && !StringLess(b.snapshot.path, a.snapshot.path))))
  }

  predicate InOrder(entries: seq<Entry>) {
    forall i, j :: 0 <= i < j < |entries| ==> NotAfter(entries[i], entries[j])
  }

  /** The one due first comes first; of two due at once, the one configured first; of two in one place, the one whose
      path is not the greater one. */
  lemma InOrderExactly(entries: seq<Entry>)
    ensures InOrder(entries) <==>
              forall i, j :: 0 <= i < j < |entries| ==>
                               && entries[i].due <= entries[j].due
                               && (entries[i].due == entries[j].due ==> entries[i].order <= entries[j].order)
                               && (entries[i].due == entries[j].due && entries[i].order == entries[j].order ==>
                                     !StringLess(entries[j].snapshot.path, entries[i].snapshot.path))
  {}

  lemma NotAfterIsOrder(a: Entry, b: Entry, c: Entry)
    ensures NotAfter(a, b) || NotAfter(b, a)
    ensures NotAfter(a, b) && NotAfter(b, c) ==> NotAfter(a, c)
  {
    StringLessIsOrder(a.snapshot.path, b.snapshot.path, c.snapshot.path);
  }

  /** Insertion into an ordered list. */
  function Insert(e: Entry, sorted: seq<Entry>): (r: seq<Entry>)
    ensures multiset(r) == multiset(sorted) + multiset{e}
  {
    if sorted == [] then [e]
    else if NotAfter(e, sorted[0]) then
      [e] + sorted
    else
      assert sorted == [sorted[0]] + sorted[1..];
      [sorted[0]] + Insert(e, sorted[1..])
  }

  lemma {:induction false} InsertKeepsOrder(e: Entry, sorted: seq<Entry>)
    requires InOrder(sorted)
    ensures InOrder(Insert(e, sorted))
  {
    var r := Insert(e, sorted);
    if sorted != [] && !NotAfter(e, sorted[0]) {
      InsertKeepsOrder(e, sorted[1..]);
      NotAfterIsOrder(e, sorted[0], sorted[0]);
      forall j | 1 <= j < |r|
        ensures NotAfter(r[0], r[j])
      {
        assert r[j] in multiset(r[1..]);
        assert r[1..] == Insert(e, sorted[1..]);
        assert r[j] == e || r[j] in sorted[1..];
      }
    } else if sorted != [] {
      forall j | 0 <= j < |sorted|
        ensures NotAfter(e, sorted[j])
      {
        NotAfterIsOrder(e, sorted[0], sorted[j]);
      }
    }
  }

  /** sort.Slice over the due entries. */
  method SortEntries(entries: seq<Entry>) returns (sorted: seq<Entry>)
    ensures InOrder(sorted) && multiset(sorted) == multiset(entries)
  {
    sorted := [];
    for k := 0 to |entries|
      invariant InOrder(sorted) && multiset(sorted) == multiset(entries[..k])
    {
      InsertKeepsOrder(entries[k], sorted);
      sorted := Insert(entries[k], sorted);
      assert entries[..k + 1] == entries[..k] + [entries[k]];
    }
    assert entries[..|entries|] == entries;
  }

  predicate IsDue(entries: Entries, path: Path, now: Time) {
    path in entries && !entries[path].blocked && entries[path].due <= now
  }

  /** The due entries, each once. */
  ghost predicate DueEntries(entries: Entries, due: seq<Entry>, now: Time) {
    && (forall k :: 0 <= k < |due| ==> IsDue(entries, due[k].snapshot.path, now) && entries[due[k].snapshot.path] == due[k])
    && (forall j, k :: 0 <= j < k < |due| ==> due[j].snapshot.path != due[k].snapshot.path)
    && (forall path :: IsDue(entries, path, now) ==> entries[path] in due)
  }

  /** What the manager answers when asked to queue a sync. */
  datatype QueueAnswer = SyncQueued | SyncRefused | ManagerClosed | Cancelled

  /** The distance from `now` to the earliest due time or metadata retry, and the retry delay if there is none. */
  ghost predicate DelayIsExact(entries: Entries, metadataRetry: Time, now: Time, delay: int) {
    || (delay == RETRY_DELAY && metadataRetry == 0 && forall path :: path in entries ==> entries[path].blocked)
    || exists at :: Earliest(entries, metadataRetry, at) && delay == if at <= now then 0 else at - now
  }

  ghost predicate Earliest(entries: Entries, metadataRetry: Time, at: Time) {
    && ((metadataRetry != 0 && at == metadataRetry) || exists path :: path in entries && !entries[path].blocked && entries[path].due == at)
    && (metadataRetry != 0 ==> at <= metadataRetry)
    && (forall path :: path in entries && !entries[path].blocked ==> at <= entries[path].due)
  }

  /** A schedule some of whose due entries have been put off, and nothing else changed. */
  ghost predicate PutOff(before: Entries, after: Entries, offered: seq<Entry>, now: Time) {
    && after.Keys == before.Keys
    && (forall k :: 0 <= k < |offered| ==> offered[k].snapshot.path in after && after[offered[k].snapshot.path].due > now)
    && (forall path :: path in after && (forall k :: 0 <= k < |offered| ==> offered[k].snapshot.path != path) ==>
                         after[path] == before[path])
  }

  /** The next due entry has not been touched yet, and putting it off extends the list. */
  lemma PutOffNext(before: Entries, after: Entries, due: seq<Entry>, k: nat, later: Time, now: Time)
    requires k < |due| && DueEntries(before, due, now) && PutOff(before, after, due[..k], now) && later > now
    ensures var e := due[k];
            && e.snapshot.path in after && after[e.snapshot.path] == e
            && PutOff(before, after[e.snapshot.path := after[e.snapshot.path].(due := later)], due[..k + 1], now)
  {
    var e := due[k];
    assert IsDue(before, e.snapshot.path, now) && before[e.snapshot.path] == e;
    assert forall i :: 0 <= i < k ==> due[..k][i] == due[i];
    assert after[e.snapshot.path] == e;
    assert due[..k + 1] == due[..k] + [e];
    PutOffOne(before, after, due[..k], e, after[e.snapshot.path].(due := later), now);
  }

  lemma PutOffOne(before: Entries, after: Entries, offered: seq<Entry>, e: Entry, put: Entry, now: Time)
    requires PutOff(before, after, offered, now) && e.snapshot.path in after && put.due > now
    ensures PutOff(before, after[e.snapshot.path := put], offered + [e], now)
  {
    var all := offered + [e];
    assert all[|offered|] == e && forall k :: 0 <= k < |offered| ==> all[k] == offered[k];
  }

  /** With everything due put off, nothing is due. */
  lemma NothingLeft(before: Entries, after: Entries, due: seq<Entry>, now: Time)
    requires Scheduled(before) && DueEntries(before, due, now) && PutOff(before, after, due, now)
    ensures forall path :: path in after && !after[path].blocked ==> after[path].due > now
  {
    forall path | path in after && !after[path].blocked
      ensures after[path].due > now
    {
      if IsDue(before, path, now) {
        var k :| 0 <= k < |due| && due[k] == before[path];
      } else if forall k :: 0 <= k < |due| ==> due[k].snapshot.path != path {
        assert after[path] == before[path];
      }
    }
  }

  /** What a reconciliation reads: the configured bases, if they can be listed, and the status rows. */
  datatype Metadata = Metadata(listed: bool, bases: seq<Base>, statuses: StatusTable, unreadable: set<Path>)

  /** Everything the schedule is made from can be read. */
  predicate Readable(m: Metadata) {
    m.listed && forall b :: b in m.bases && Wanted(b) ==> b.path !in m.unreadable
  }

  /** What ends a round of the scheduler's loop: a notification, or the timer. `asked` is the clock when the delay is
      computed, `now` when the event is handled, `read` and `later` around the reconciliation that follows. */
  datatype Event = Event(timer: bool, asked: Time, now: Time, read: Time, later: Time, metadata: Metadata)

  predicate AfterZero(e: Event) {
    e.asked > 0 && e.now > 0 && e.read > 0 && e.later > 0
  }

  /** One round: the schedule and the retry it starts with, the delay the timer is set to, the bases that are offered,
      the schedule after that, and whether the loop goes on. */
  datatype Round = Round(before: Entries, retry: Time, delay: int, visited: seq<Entry>, after: Entries, goOn: bool)

  /** What is due is offered in order, once each and not early, and put off; all of it, if the loop goes on. */
  ghost predicate OffersDue(before: Entries, after: Entries, visited: seq<Entry>, goOn: bool, now: Time) {
    && InOrder(visited) && (forall e :: e in visited ==> OnTime(e, now))
    && exists due, put :: DueEntries(before, due, now) && put <= visited <= due && PutOff(before, after, put, now) && (goOn ==> put == due)
  }

  /** The timer is set for what is due first, and only when it fires is anything offered. */
  ghost predicate RoundIsSound(r: Round, e: Event) {
    && r.delay >= 0 && DelayIsExact(r.before, r.retry, e.asked, r.delay)
    && if e.timer then OffersDue(r.before, r.after, r.visited, r.goOn, e.now) else r.visited == [] && r.after == r.before && r.goOn
  }

  /** What reconcileAndLog makes of a schedule: the one rebuilt from what was read, or the old one and a retry. */
  ghost predicate Reconciled(was: Entries, m: Metadata, at: Time, later: Time, entries: Entries, retry: Time) {
    && entries == (if Readable(m) then Rebuilt(was, CandidatesOf(m.bases, m.statuses), at) else was)
    && retry == (if Readable(m) then 0 else later + RETRY_DELAY)
  }

  /** What the scheduler is started with, and what happens to it. */
  datatype Course = Course(start: Entries, startedAt: Time, first: Metadata, later: Time, events: seq<Event>) {
    /** After these rounds, and the reconciliation that follows them, the loop is ready for another one. */
    ghost predicate Ready(rounds: seq<Round>, entries: Entries, retry: Time) {
      if rounds == [] then Reconciled(start, first, startedAt, later, entries, retry)
      else
        var k := |rounds| - 1;
        k < |events| && rounds[k].goOn
        && Reconciled(rounds[k].after, events[k].metadata, events[k].read, events[k].later, entries, retry)
    }

    /** Every round starts where its predecessor ended. */
    ghost predicate IsRun(rounds: seq<Round>)
      decreases |rounds|
    {
      rounds == []
      || (var k := |rounds| - 1;
          k < |events| && IsRun(rounds[..k]) && Ready(rounds[..k], rounds[k].before, rounds[k].retry) && RoundIsSound(rounds[k], events[k]))
    }
  }

  /** One more sound round is a longer run. */
  lemma RunGrows(course: Course, rounds: seq<Round>, r: Round)
    requires course.IsRun(rounds) && course.Ready(rounds, r.before, r.retry) && |rounds| < |course.events|
    requires RoundIsSound(r, course.events[|rounds|])
    ensures course.IsRun(rounds + [r])
  {
    assert (rounds + [r])[..|rounds|] == rounds;
  }

  predicate OnTime(e: Entry, now: Time) {
    e.due <= now && (e.lastAttempt.Some? ==> now >= e.lastAttempt.value + e.snapshot.intervalMinutes * MINUTE)
  }

  class GitScheduler {
    var entries: Entries
    var startedAt: Time
    var metadataRetry: Time
    var answers: seq<QueueAnswer>

    ghost predicate Valid()
      reads this
    {
      Scheduled(entries) && startedAt > 0 && metadataRetry >= 0
    }

    /** The manager is open and nobody cancels. */
    ghost predicate Answering()
      reads this
    {
      forall a :: a in answers ==> a == SyncQueued || a == SyncRefused
    }

    constructor (now: Time)
      requires now > 0
      ensures Valid() && entries == map[] && startedAt == now && metadataRetry == 0
    {
      entries, startedAt, metadataRetry, answers := map[], now, 0, [];
    }

    /** reconcile: a schedule for the bases as configured, or no change when the configuration or a status that is
        needed cannot be read. */
    method Reconcile(m: Metadata, now: Time, startup: bool) returns (ok: bool)
      requires Valid() && now > 0
      modifies this`entries
      ensures Valid()
      ensures ok <==> Readable(m)
      ensures entries == if ok then Rebuilt(old(entries), CandidatesOf(m.bases, m.statuses), if startup then startedAt else now)
                         else old(entries)
      ensures ok ==> forall path :: path in entries <==> exists b :: b in m.bases && Asks(b) && b.path == path
      ensures ok ==> forall path :: path in entries ==> (entries[path].blocked <==> !MayRun(m.statuses, path))
      ensures ok ==> forall path :: path in entries && !entries[path].blocked ==>
                                    path in m.statuses && entries[path].lastAttempt == m.statuses[path].lastAttempt
      ensures ok ==> forall i :: Scheduling(m.bases, i) ==>
                                   m.bases[i].path in entries
                                   && ScheduledAs(entries[m.bases[i].path], m.bases, i, m.statuses, old(entries), if startup then startedAt else now)
    {
      if !m.listed {
        return false;
      }
      var candidates;
      ok, candidates := CollectCandidates(m.bases, m.statuses, m.unreadable);
      if !ok {
        return;
      }
      var start := if startup then startedAt else now;
      CandidatesAreWanted(m.bases, m.statuses);
      RebuiltIsScheduled(entries, candidates, start);
      ghost var before := entries;
      var next := BuildSchedule(candidates, start);
      entries := next;
      forall i | Scheduling(m.bases, i)
        ensures m.bases[i].path in entries && ScheduledAs(entries[m.bases[i].path], m.bases, i, m.statuses, before, start)
      {
        ScheduleExactly(m.bases, m.statuses, before, start, i);
      }
      forall path | path in entries
        ensures exists c, slot :: c in candidates && c.snapshot.path == path && entries[path] == NewEntry(before, c, slot)
        ensures entries[path].blocked <==> !MayRun(m.statuses, path)
      {
        var c, slot :| c in candidates && c.snapshot.path == path && start < slot && Rebuilt(before, candidates, start)[path] == NewEntry(before, c, slot);
        BlockedExactly(m.statuses, path);
      }
    }

    /** reconcileAndLog: a failure is retried after a while, whatever is due; `later` is the clock after it. */
    method ReconcileAndLog(m: Metadata, now: Time, later: Time, startup: bool) returns (ok: bool)
      requires Valid() && now > 0 && later > 0
      modifies this`entries, this`metadataRetry
      ensures Valid()
      ensures ok <==> Readable(m)
      ensures metadataRetry == if ok then 0 else later + RETRY_DELAY
      ensures !ok ==> entries == old(entries)
      ensures ok ==> entries == Rebuilt(old(entries), CandidatesOf(m.bases, m.statuses), if startup then startedAt else now)
    {
      ok := Reconcile(m, now, startup);
      metadataRetry := if ok then 0 else later + RETRY_DELAY;
    }

    /** The first loop of reconcile. */
    method CollectCandidates(bases: seq<Base>, statuses: StatusTable, unreadable: set<Path>) returns (ok: bool, candidates: seq<Candidate>)
      ensures ok <==> forall b :: b in bases && Wanted(b) ==> b.path !in unreadable
      ensures ok ==> candidates == CandidatesOf(bases, statuses)
    {
      candidates := [];
      for order := 0 to |bases|
        invariant candidates == CandidatesOf(bases[..order], statuses)
        invariant forall i :: 0 <= i < order && Wanted(bases[i]) ==> bases[i].path !in unreadable
      {
        var snapshot := bases[order];
        assert bases[..order + 1][..order] == bases[..order];
        if snapshot.autoSync && ValidInterval(snapshot.intervalMinutes) {
          if snapshot.path in unreadable {
            return false, [];
          }
          candidates := candidates + [Candidate(snapshot, RowAt(statuses, snapshot.path), order)];
        }
      }
      assert bases[..|bases|] == bases;
      ok := true;
    }

    /** The second loop of reconcile. */
    method BuildSchedule(candidates: seq<Candidate>, start: Time) returns (next: Entries)
      ensures next == Rebuilt(entries, candidates, start)
    {
      next := map[];
      var eligible := 0;
      for k := 0 to |candidates|
        invariant next == Rebuilt(entries, candidates[..k], start) && eligible == Eligible(candidates[..k])
      {
        var c := candidates[k];
        assert candidates[..k + 1][..k] == candidates[..k];
        var path := c.snapshot.path;
        if Blocked(c.row) {
          next := next[path := Entry(c.snapshot, 0, None, c.order, true)];
        } else {
          eligible := eligible + 1;
          if Unchanged(entries, c) {
            next := next[path := entries[path].(snapshot := c.snapshot, order := c.order)];
          } else {
            var slot := start + eligible * STAGGER;
            next := next[path := Entry(c.snapshot, ScheduleDue(slot, LastAttempt(c), c.snapshot.intervalMinutes * MINUTE),
                                       LastAttempt(c), c.order, false)];
          }
        }
      }
      assert candidates[..|candidates|] == candidates;
    }

    /** nextDelay, whatever order the map is visited in. */
    method NextDelay(now: Time) returns (delay: int)
      requires Valid()
      ensures delay >= 0 && DelayIsExact(entries, metadataRetry, now, delay)
    {
      var due: Time := 0;
      var remaining := entries.Keys;
      while remaining != {}
        invariant remaining <= entries.Keys
        invariant due == 0 ==> forall path :: path in entries && path !in remaining ==> entries[path].blocked
        invariant due != 0 ==> exists path :: path in entries && !entries[path].blocked && entries[path].due == due
        invariant due != 0 ==> forall path :: path in entries && path !in remaining && !entries[path].blocked ==> due <= entries[path].due
        decreases |remaining|
      {
        var path :| path in remaining;
        var entry := entries[path];
        if !(entry.blocked || (due != 0 && !(entry.due < due))) {
          due := entry.due;
        }
        remaining := remaining - {path};
      }
      if metadataRetry != 0 && (due == 0 || metadataRetry < due) {
        due := metadataRetry;
      }
      if due == 0 {
        return RETRY_DELAY;
      }
      assert Earliest(entries, metadataRetry, due);
      delay := if !(due > now) then 0 else due - now;
    }

    method CollectDue(now: Time) returns (due: seq<Entry>)
      requires Valid()
      ensures DueEntries(entries, due, now)
    {
      due := [];
      var remaining := entries.Keys;
      while remaining != {}
        invariant remaining <= entries.Keys
        invariant forall k :: 0 <= k < |due| ==> due[k].snapshot.path !in remaining
                                                 && IsDue(entries, due[k].snapshot.path, now) && entries[due[k].snapshot.path] == due[k]
        invariant forall j, k :: 0 <= j < k < |due| ==> due[j].snapshot.path != due[k].snapshot.path
        invariant forall path :: IsDue(entries, path, now) && path !in remaining ==> entries[path] in due
        decreases |remaining|
      {
        var path :| path in remaining;
        if !entries[path].blocked && !(entries[path].due > now) {
          due := due + [entries[path]];
        }
        remaining := remaining - {path};
      }
    }

    lemma SortedDue(due: seq<Entry>, sorted: seq<Entry>, now: Time)
      requires DueEntries(entries, due, now) && multiset(sorted) == multiset(due)
      ensures DueEntries(entries, sorted, now)
    {
      forall e
        ensures e in sorted <==> e in due
      {
        assert e in multiset(sorted) <==> e in multiset(due);
      }
      forall k | 0 <= k < |sorted|
        ensures IsDue(entries, sorted[k].snapshot.path, now) && entries[sorted[k].snapshot.path] == sorted[k]
      {
        assert sorted[k] in due;
        var i :| 0 <= i < |due| && due[i] == sorted[k];
      }
      forall j, k | 0 <= j < k < |sorted|
        ensures sorted[j].snapshot.path != sorted[k].snapshot.path
      {
        assert sorted[j] in due && sorted[k] in due;
        if sorted[j].snapshot.path == sorted[k].snapshot.path {
          assert sorted[j] == sorted[k];
          assert sorted == sorted[..j] + [sorted[j]] + sorted[j + 1..k] + [sorted[k]] + sorted[k + 1..];
          assert multiset(sorted)[sorted[j]] >= 2;
          OnceEach(due, sorted[j]);
        }
      }
    }

    static lemma OnceEach(due: seq<Entry>, e: Entry)
      requires forall j, k :: 0 <= j < k < |due| ==> due[j] != due[k]
      ensures multiset(due)[e] <= 1
    {
      if e in due {
        var k :| 0 <= k < |due| && due[k] == e;
        assert due == due[..k] + [due[k]] + due[k + 1..];
        assert e !in due[..k] && e !in due[k + 1..];
      }
    }

    /** One base is offered to the manager; unless the manager is closed, it is due again later. */
    method Offer(e: Entry, now: Time) returns (answer: QueueAnswer)
      requires Valid() && now > 0 && IsDue(entries, e.snapshot.path, now)
      modifies this`entries, this`answers
      ensures Valid()
      ensures answer == (if old(answers) == [] then SyncQueued else old(answers)[0])
      ensures answers == if old(answers) == [] then [] else old(answers)[1..]
      ensures old(Answering()) ==> Answering() && (answer == SyncQueued || answer == SyncRefused)
      ensures answer == Cancelled || answer == ManagerClosed ==> entries == old(entries)
      ensures answer == SyncQueued || answer == SyncRefused ==>
                var path := e.snapshot.path;
                var due := now + if answer == SyncRefused then RETRY_DELAY else old(entries)[path].snapshot.intervalMinutes * MINUTE;
                entries == old(entries)[path := old(entries)[path].(due := due)] && due > now
    {
      assert answers != [] ==> answers[0] in answers;
      answer := if answers == [] then SyncQueued else answers[0];
      answers := if answers == [] then [] else answers[1..];
      assert forall a :: a in answers ==> a in old(answers);
      if answer == Cancelled || answer == ManagerClosed {
        return;
      }
      var path := e.snapshot.path;
      var current := entries[path];
      var due := if answer == SyncRefused then now + RETRY_DELAY else now + current.snapshot.intervalMinutes * MINUTE;
      entries := entries[path := current.(due := due)];
    }

    /** queueDue: each due base is offered once, in order; afterwards nothing is due any more. */
    method QueueDue(now: Time) returns (goOn: bool, visited: seq<Entry>)
      requires Valid() && now > 0
      modifies this`entries, this`answers
      ensures Valid()
      ensures old(Answering()) ==> goOn && Answering()
      ensures OffersDue(old(entries), entries, visited, goOn, now)
      ensures goOn ==> forall path :: path in entries && !entries[path].blocked ==> entries[path].due > now
    {
      var collected := CollectDue(now);
      var sorted := SortEntries(collected);
      SortedDue(collected, sorted, now);
      var put;
      goOn, put, visited := OfferAll(sorted, now);
      VisitedAreDue(old(entries), sorted, visited, now);
      if goOn {
        NothingLeft(old(entries), entries, sorted, now);
      }
      assert DueEntries(old(entries), sorted, now) && put <= visited <= sorted;
    }

    /** One round of the loop of queueDue. */
    method OfferAt(due: seq<Entry>, k: nat, now: Time, ghost before: Entries) returns (answer: QueueAnswer)
      requires Valid() && now > 0 && k < |due| && DueEntries(before, due, now) && PutOff(before, entries, due[..k], now)
      modifies this`entries, this`answers
      ensures Valid()
      ensures PutOff(before, entries, if answer == SyncQueued || answer == SyncRefused then due[..k + 1] else due[..k], now)
      ensures old(Answering()) ==> Answering() && (answer == SyncQueued || answer == SyncRefused)
    {
      PutOffNext(before, entries, due, k, now + RETRY_DELAY, now);
      PutOffNext(before, entries, due, k, now + due[k].snapshot.intervalMinutes * MINUTE, now);
      answer := Offer(due[k], now);
    }

    /** The loop of queueDue. */
    method OfferAll(due: seq<Entry>, now: Time) returns (goOn: bool, put: seq<Entry>, visited: seq<Entry>)
      requires Valid() && now > 0 && DueEntries(entries, due, now)
      modifies this`entries, this`answers
      ensures Valid() && PutOff(old(entries), entries, put, now)
      ensures put <= visited <= due && (goOn ==> put == due)
      ensures old(Answering()) ==> goOn && Answering()
    {
      for k := 0 to |due|
        invariant Valid() && PutOff(old(entries), entries, due[..k], now)
        invariant old(Answering()) ==> Answering()
      {
        var answer := OfferAt(due, k, now, old(entries));
        if answer == Cancelled {
          return false, due[..k], due[..k];
        }
        if answer == ManagerClosed {
          return false, due[..k], due[..k + 1];
        }
      }
      assert due[..|due|] == due;
      return true, due, due;
    }

    /** What is offered is due, and its interval since the last recorded attempt has passed. */
    static lemma VisitedAreDue(before: Entries, due: seq<Entry>, visited: seq<Entry>, now: Time)
      requires Scheduled(before) && DueEntries(before, due, now) && InOrder(due) && visited <= due
      ensures InOrder(visited)
      ensures forall e :: e in visited ==> OnTime(e, now)
    {
      forall e | e in visited
        ensures e.due <= now && Timely(e) && !e.blocked
      {
        var k :| 0 <= k < |visited| && visited[k] == e;
        assert visited[k] == due[k];
      }
    }

    /** One turn of the loop of run, up to its reconciliation. */
    method Turn(e: Event) returns (r: Round)
      requires Valid() && AfterZero(e)
      modifies this`entries, this`answers
      ensures Valid() && RoundIsSound(r, e)
      ensures r.before == old(entries) && r.retry == metadataRetry && r.after == entries
      ensures old(Answering()) ==> r.goOn && Answering()
    {
      var before := entries;
      var delay := NextDelay(e.asked);
      var goOn, visited := true, [];
      if e.timer {
        goOn, visited := QueueDue(e.now);
      }
      r := Round(before, metadataRetry, delay, visited, entries, goOn);
    }

    /** run: after the first reconciliation, turns until the manager is closed or cancelled or the events end. */
    method Run(first: Metadata, later: Time, events: seq<Event>) returns (rounds: seq<Round>)
      requires Valid() && later > 0 && forall e :: e in events ==> AfterZero(e)
      modifies this
      ensures Valid() && |rounds| <= |events|
      ensures Course(old(entries), old(startedAt), first, later, events).IsRun(rounds)
      ensures |rounds| < |events| ==> rounds != [] && !rounds[|rounds| - 1].goOn
      ensures old(Answering()) ==> |rounds| == |events|
    {
      rounds := [];
      ghost var course := Course(entries, startedAt, first, later, events);
      var ok := ReconcileAndLog(first, startedAt, later, true);
      for k := 0 to |events|
        invariant Valid() && |rounds| == k
        invariant course.IsRun(rounds) && course.Ready(rounds, entries, metadataRetry)
        invariant old(Answering()) ==> Answering()
      {
        var e := events[k];
        assert e in events;
        var r := Turn(e);
        RunGrows(course, rounds, r);
        rounds := rounds + [r];
        if !r.goOn {
          return;
        }
        ok := ReconcileAndLog(e.metadata, e.read, e.later, false);
      }
    }
  }
}
