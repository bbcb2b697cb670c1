/**
 * The per-email rate limiter of the audit handlers: a small state machine
 * over a per-identity log of request timestamps. A request is blocked when
 * three or more logged requests are strictly newer than 24 hours before
 * now; a blocked request writes nothing; an admitted request appends one
 * entry stamped with the current time; an uninitialised store, an email
 * the SDK rejects as a document id, a failing query or a failing write
 * all let the request through (fail open).
 */
module RateLimit {
  import opened Wrappers
  import opened Text

  /** One day in milliseconds, the unit of `Date.now()`. */
  const DayMs: int := 24 * 60 * 60 * 1000

  /** A request is blocked once this many logged requests fall in the window. */
  const Limit: nat := 3

  /** Timestamps of one identity's logged requests, in insertion order. */
  type Log = seq<int>

  /** The per-identity collections: identity to log. */
  type Store = map<string, Log>

  /** The store handle: missing when the database client never initialised. */
  datatype Db = Uninitialised | Ready(store: Store)

  /** Which store call throws during this check, if any. */
  datatype Fault = NoFault | QueryFails | AddFails

  /** Why an admitted request was let through; the last two are logged as failures. */
  datatype AllowReason = Recorded | NoStore | StoreError

  datatype Verdict = Blocked | Allowed(reason: AllowReason)

  datatype Checked = Checked(verdict: Verdict, db: Db)

  /** The document id the limiter asks for: the lower-cased email. */
  function Identity(email: string): string
  {
    ToLower(email)
  }

  /** `path.split("/")`: every part between slashes, empty parts included. */
  function SplitSlash(path: string): (parts: seq<string>)
    ensures |parts| >= 1
    ensures forall i :: 0 <= i < |parts| ==> '/' !in parts[i]
    decreases |path|
  {
    var head := BeforeFirst(path, '/');
    if |head| == |path| then [path]
    else [head] + SplitSlash(path[|head| + 1..])
  }

  /** Splitting at every slash and joining with slashes gives the path back. */
  lemma {:induction false} SplitSlashJoin(path: string)
    ensures Join(SplitSlash(path), "/") == path
    decreases |path|
  {
    var head := BeforeFirst(path, '/');
    if |head| < |path| {
      var rest := path[|head| + 1..];
      SplitSlashJoin(rest);
      assert ([head] + SplitSlash(rest))[1..] == SplitSlash(rest);
      assert path == head + "/" + rest;
    }
  }

  /** The parts that are not empty, in order. */
  function NonEmptyParts(parts: seq<string>): (r: seq<string>)
    ensures |r| <= |parts|
    ensures forall x :: x in r <==> x in parts && x != ""
  {
    if |parts| == 0 then []
    else (if parts[0] == "" then [] else [parts[0]]) + NonEmptyParts(parts[1..])
  }

  /**
   * The document that `collection("users").doc(id)` names in the Admin
   * SDK, as the path below `users`, or `None` when the call throws. It
   * throws for an empty id, for an id containing `//`, and for an id whose
   * non-empty parts are even in number, since `users` plus those parts
   * then names a collection. A leading or trailing slash is dropped.
   */
  function DocumentKey(id: string): (k: Option<string>)
    ensures k.Some? ==> id != "" && !Contains(id, "//")
  {
    if id == "" || Contains(id, "//") then None
    else
      var segs := NonEmptyParts(SplitSlash(id));
      if |segs| % 2 == 0 then None else Some(Join(segs, "/"))
  }

  /** The key of an email's log, or `None` when the SDK rejects its document id. */
  function Key(email: string): Option<string>
  {
    DocumentKey(Identity(email))
  }

  /** A non-empty id without a slash names its own document. */
  lemma PlainIdIsItsOwnKey(id: string)
    requires id != "" && '/' !in id
    ensures DocumentKey(id) == Some(id)
  {
    assert BeforeFirst(id, '/') == id;
    assert SplitSlash(id) == [id];
    assert [id][1..] == [];
    assert NonEmptyParts(SplitSlash(id)) == [id];
    forall i | 0 <= i <= |id| - 2
      ensures !OccursAt(id, "//", i)
    {
      assert id[i] in id;
    }
  }

  /** An id made of two slash-free parts names a collection, so the SDK rejects it. */
  lemma TwoPartIdRejected(a: string, b: string)
    requires a != "" && b != "" && '/' !in a && '/' !in b
    ensures DocumentKey(a + "/" + b) == None
  {
    var id := a + "/" + b;
    if !Contains(id, "//") {
      assert BeforeFirst(id, '/') == a by {
        assert id[..|a|] == a;
        BeforeFirstIs(id, '/', |a|);
      }
      assert id[|a| + 1..] == b;
      assert BeforeFirst(b, '/') == b;
      assert SplitSlash(id) == [a, b];
      assert [a, b][1..] == [b];
      assert [b][1..] == [];
      assert NonEmptyParts(SplitSlash(id)) == [a, b];
    }
  }

  /** The log of an identity; a collection never written to is empty. */
  function LogOf(store: Store, id: string): Log
  {
    if id in store then store[id] else []
  }

  /** The size of the query `timestamp > cutoff`. */
  function CountRecent(log: Log, cutoff: int): (n: nat)
    ensures n <= |log|
  {
    if |log| == 0 then 0
    else CountRecent(log[..|log| - 1], cutoff) + (if log[|log| - 1] > cutoff then 1 else 0)
  }

  /** Three distinct logged requests are strictly newer than `cutoff`. */
  predicate ThreeRecent(log: Log, cutoff: int)
  {
    exists i, j, k :: 0 <= i < j < k < |log| && log[i] > cutoff && log[j] > cutoff && log[k] > cutoff
  }

  lemma {:induction false} OneRecent(log: Log, cutoff: int)
    ensures CountRecent(log, cutoff) >= 1 <==> exists k :: 0 <= k < |log| && log[k] > cutoff
  {
    if |log| > 0 {
      var p := log[..|log| - 1];
      OneRecent(p, cutoff);
      if log[|log| - 1] <= cutoff {
        forall k | 0 <= k < |log| - 1
          ensures log[k] == p[k]
        {
        }
      }
    }
  }

  lemma {:induction false} TwoRecent(log: Log, cutoff: int)
    ensures CountRecent(log, cutoff) >= 2 <==>
      exists j, k :: 0 <= j < k < |log| && log[j] > cutoff && log[k] > cutoff
  {
    if |log| > 0 {
      var p := log[..|log| - 1];
      var last := |log| - 1;
      forall k | 0 <= k < last
        ensures log[k] == p[k]
      {
      }
      if log[last] > cutoff {
        OneRecent(p, cutoff);
        if CountRecent(log, cutoff) >= 2 {
          var j :| 0 <= j < |p| && p[j] > cutoff;
          assert log[j] > cutoff && log[last] > cutoff;
        }
      } else {
        TwoRecent(p, cutoff);
      }
    }
  }

  /** The count the source compares with 3 is at least 3 exactly when three distinct recent entries exist. */
  lemma {:induction false} CountIsThreeRecent(log: Log, cutoff: int)
    ensures CountRecent(log, cutoff) >= Limit <==> ThreeRecent(log, cutoff)
  {
    if |log| > 0 {
      var p := log[..|log| - 1];
      var last := |log| - 1;
      forall k | 0 <= k < last
        ensures log[k] == p[k]
      {
      }
      if log[last] > cutoff {
        TwoRecent(p, cutoff);
        if CountRecent(log, cutoff) >= Limit {
          var i, j :| 0 <= i < j < |p| && p[i] > cutoff && p[j] > cutoff;
          assert log[i] > cutoff && log[j] > cutoff && log[last] > cutoff;
        }
      } else {
        CountIsThreeRecent(p, cutoff);
      }
    }
  }

  /**
   * One call of the limiter at time `now` for the request's email (`None`
   * when the body carries none, which makes the lower-casing throw inside
   * the guarded block). A document id the SDK rejects throws inside the
   * same block. `fault` names the store call that throws.
   */
  function Check(db: Db, email: Option<string>, now: int, fault: Fault): (c: Checked)
    ensures db.Uninitialised? ==> c == Checked(Allowed(NoStore), db)
    ensures c.verdict.Blocked? <==>
      db.Ready? && email.Some? && Key(email.value).Some? && fault != QueryFails
      && ThreeRecent(LogOf(db.store, Key(email.value).value), now - DayMs)
    ensures c.verdict != Allowed(Recorded) ==> c.db == db
    ensures c.verdict == Allowed(Recorded) <==>
      db.Ready? && email.Some? && Key(email.value).Some? && fault == NoFault
      && !ThreeRecent(LogOf(db.store, Key(email.value).value), now - DayMs)
    ensures c.verdict == Allowed(Recorded) ==>
      var id := Key(email.value).value;
      c.db == Ready(db.store[id := LogOf(db.store, id) + [now]])
  {
    if db.Uninitialised? then Checked(Allowed(NoStore), db)
    else if email.None? || Key(email.value).None? || fault == QueryFails then Checked(Allowed(StoreError), db)
    else
      var id := Key(email.value).value;
      var log := LogOf(db.store, id);
      CountIsThreeRecent(log, now - DayMs);
      if CountRecent(log, now - DayMs) >= Limit then Checked(Blocked, db)
      else if fault == AddFails then Checked(Allowed(StoreError), db)
      else
        assert fault == NoFault;
        Checked(Allowed(Recorded), Ready(db.store[id := log + [now]]))
  }

  /** Case variants of one address share one quota. */
  lemma CaseVariantsShareQuota(db: Db, a: string, b: string, now: int, fault: Fault)
    requires ToLower(a) == ToLower(b)
    ensures Check(db, Some(a), now, fault) == Check(db, Some(b), now, fault)
  {
  }

  /**
   * An email whose document id the SDK rejects is let through as a store
   * error whatever its history: it is never blocked and never logged.
   */
  lemma RejectedIdNeverLimited(db: Db, email: string, now: int, fault: Fault)
    requires Key(email).None?
    ensures var c := Check(db, Some(email), now, fault);
      c.verdict.Allowed? && c.verdict != Allowed(Recorded) && c.db == db
  {
  }

  /** An admitted, recorded request adds exactly one entry, to its own identity only. */
  lemma RecordedAddsOneEntry(db: Db, email: string, now: int, fault: Fault)
    requires Check(db, Some(email), now, fault).verdict == Allowed(Recorded)
    ensures var after := Check(db, Some(email), now, fault).db;
      var id := Key(email).value;
      after.Ready? && db.Ready?
      && |LogOf(after.store, id)| == |LogOf(db.store, id)| + 1
      && LogOf(after.store, id)[|LogOf(db.store, id)|] == now
      && forall other :: other != id ==> LogOf(after.store, other) == LogOf(db.store, other)
  {
  }

  // ---------------------------------------------------------------------
  // Sequential calls: at most three logged requests in any 24-hour window
  // ---------------------------------------------------------------------

  predicate Sorted(log: Log)
  {
    forall i, j :: 0 <= i < j < |log| ==> log[i] <= log[j]
  }

  /** Every entry is at least a day after the entry three places before it. */
  predicate Spaced(log: Log)
  {
    forall i :: 0 <= i && i + 3 < |log| ==> log[i] + DayMs <= log[i + 3]
  }

  predicate NotAfter(log: Log, clock: int)
  {
    forall i :: 0 <= i < |log| ==> log[i] <= clock
  }

  predicate LogInv(log: Log, clock: int)
  {
    Sorted(log) && Spaced(log) && NotAfter(log, clock)
  }

  /** Every identity's log is well formed and no entry lies after `clock`. */
  predicate StoreInv(db: Db, clock: int)
  {
    db.Ready? ==> forall id :: id in db.store ==> LogInv(db.store[id], clock)
  }

  /** A sorted log whose third-last entry is recent has three recent entries. */
  lemma LastThreeRecent(log: Log, cutoff: int)
    requires Sorted(log) && |log| >= 3 && log[|log| - 3] > cutoff
    ensures ThreeRecent(log, cutoff)
  {
    var n := |log|;
    assert log[n - 3] > cutoff && log[n - 2] > cutoff && log[n - 1] > cutoff;
  }

  /** One check at a time no earlier than the store's entries keeps the store well formed. */
  lemma CheckKeepsInv(db: Db, email: Option<string>, now: int, fault: Fault, clock: int)
    requires StoreInv(db, clock) && clock <= now
    ensures StoreInv(Check(db, email, now, fault).db, now)
  {
    var c := Check(db, email, now, fault);
    if c.verdict == Allowed(Recorded) {
      var id := Key(email.value).value;
      var log := LogOf(db.store, id);
      var log' := log + [now];
      assert LogInv(log, clock);
      if |log| >= 3 && log[|log| - 3] > now - DayMs {
        LastThreeRecent(log, now - DayMs);
      }
      assert Sorted(log');
      assert Spaced(log') by {
        forall i | 0 <= i && i + 3 < |log'|
          ensures log'[i] + DayMs <= log'[i + 3]
        {
          if i + 3 < |log| {
            assert log'[i] == log[i] && log'[i + 3] == log[i + 3];
          } else {
            assert i == |log| - 3;
          }
        }
      }
      assert LogInv(log', now);
    }
    forall id | c.db.Ready? && id in c.db.store
      ensures LogInv(c.db.store[id], now)
    {
      if c.verdict != Allowed(Recorded) || id != Key(email.value).value {
        assert LogInv(db.store[id], clock);
      }
    }
  }

  /** A request as the limiter sees it. */
  datatype Request = Request(email: Option<string>, now: int, fault: Fault)

  /** The store after checking the requests one after another. */
  function Run(db: Db, reqs: seq<Request>): Db
    decreases |reqs|
  {
    if |reqs| == 0 then db
    else Run(Check(db, reqs[0].email, reqs[0].now, reqs[0].fault).db, reqs[1..])
  }

  /** Request times never go backwards and none precedes `clock`. */
  predicate Chronological(reqs: seq<Request>, clock: int)
  {
    (forall i :: 0 <= i < |reqs| ==> clock <= reqs[i].now)
    && forall i, j :: 0 <= i < j < |reqs| ==> reqs[i].now <= reqs[j].now
  }

  lemma {:induction false} RunKeepsInv(db: Db, reqs: seq<Request>, clock: int)
    requires StoreInv(db, clock) && Chronological(reqs, clock)
    ensures Run(db, reqs).Ready? ==> forall id :: id in Run(db, reqs).store ==>
      Sorted(Run(db, reqs).store[id]) && Spaced(Run(db, reqs).store[id])
    decreases |reqs|
  {
    if |reqs| == 0 {
      if db.Ready? {
        forall id | id in db.store
          ensures Sorted(db.store[id]) && Spaced(db.store[id])
        {
          assert LogInv(db.store[id], clock);
        }
      }
    } else {
      var r := reqs[0];
      CheckKeepsInv(db, r.email, r.now, r.fault, clock);
      RunKeepsInv(Check(db, r.email, r.now, r.fault).db, reqs[1..], r.now);
    }
  }

  /** Logged requests with `t - DayMs < e <= t`. */
  function CountWindow(log: Log, t: int): (n: nat)
    ensures n <= |log|
  {
    if |log| == 0 then 0
    else
      var last := if t - DayMs < log[|log| - 1] <= t then 1 else 0;
      CountWindow(log[..|log| - 1], t) + last
  }

  lemma {:induction false} CountWindowAppend(a: Log, b: Log, t: int)
    ensures CountWindow(a + b, t) == CountWindow(a, t) + CountWindow(b, t)
    decreases |b|
  {
    if |b| == 0 {
      assert a + b == a;
    } else {
      assert (a + b)[..|a + b| - 1] == a + b[..|b| - 1];
      CountWindowAppend(a, b[..|b| - 1], t);
    }
  }

  lemma {:induction false} CountWindowNone(log: Log, t: int)
    requires forall i :: 0 <= i < |log| ==> log[i] <= t - DayMs
    ensures CountWindow(log, t) == 0
  {
    if |log| > 0 {
      CountWindowNone(log[..|log| - 1], t);
    }
  }

  /** In a sorted, spaced log, everything before the last three entries lies a day or more before the last one. */
  lemma OlderEntriesOutsideWindow(log: Log, t: int)
    requires Sorted(log) && Spaced(log) && |log| > 3 && log[|log| - 1] <= t
    ensures forall i :: 0 <= i < |log| - 3 ==> log[i] <= t - DayMs
  {
    var n := |log|;
    assert log[n - 4] + DayMs <= log[n - 1];
    forall i | 0 <= i < n - 3
      ensures log[i] <= t - DayMs
    {
      assert log[i] <= log[n - 4];
    }
  }

  lemma DropLastKeepsOrder(log: Log)
    requires Sorted(log) && Spaced(log) && |log| > 0
    ensures Sorted(log[..|log| - 1]) && Spaced(log[..|log| - 1])
  {
  }

  /** A sorted, spaced log never has more than three entries in one 24-hour window. */
  lemma {:induction false} AtMostThreePerWindow(log: Log, t: int)
    requires Sorted(log) && Spaced(log)
    ensures CountWindow(log, t) <= Limit
    decreases |log|
  {
    var n := |log|;
    if n > 3 {
      if log[n - 1] > t {
        var p := log[..n - 1];
        DropLastKeepsOrder(log);
        AtMostThreePerWindow(p, t);
      } else {
        var older := log[..n - 3];
        var last3 := log[n - 3..];
        assert log == older + last3;
        CountWindowAppend(older, last3, t);
        OlderEntriesOutsideWindow(log, t);
        assert forall i :: 0 <= i < |older| ==> older[i] == log[i];
        CountWindowNone(older, t);
      }
    }
  }

  /**
   * Sequential requests with a clock that never goes backwards, starting
   * from an empty store, leave at most three logged requests per identity
   * in every 24-hour window. Requests let through by a store failure are
   * not logged and so are not counted.
   */
  lemma AtMostThreeLoggedPerDay(reqs: seq<Request>, clock: int, id: string, t: int)
    requires Chronological(reqs, clock)
    requires Run(Ready(map[]), reqs).Ready?
    ensures CountWindow(LogOf(Run(Ready(map[]), reqs).store, id), t) <= Limit
  {
    RunKeepsInv(Ready(map[]), reqs, clock);
    var store := Run(Ready(map[]), reqs).store;
    if id in store {
      AtMostThreePerWindow(store[id], t);
    }
  }
}
