/**
 The per-user recent-request window: a map of bounded buffers standing for the last
 requests of an unbounded log.
 */
module RecentWindow {
  import opened Protocol

  const CAP := 100

  type Recent = map<UserId, seq<LiveRequest>>

  // A log entry: who the request was for, and the row recorded.
  datatype Entry = Entry(user: UserId, request: LiveRequest)

  function BufferOf(recent: Recent, user: UserId): seq<LiveRequest> {
    if user in recent then recent[user] else []
  }

  function LastN<T>(xs: seq<T>, n: nat): seq<T> {
    if |xs| > n then xs[|xs| - n..] else xs
  }

  // recordRequest: append, then cut the buffer back to its last CAP rows.
  function Record(recent: Recent, user: UserId, request: LiveRequest): Recent {
    recent[user := LastN(BufferOf(recent, user) + [request], CAP)]
  }

  // The user's rows are the new one and, before it, as many of the newest as there is room
  // for among 100; no other user's rows have changed.
  ghost predicate Gains(before: Recent, after: Recent, user: UserId, row: LiveRequest) {
    var rows, rows' := BufferOf(before, user), BufferOf(after, user);
    && rows' == (if |rows| < 100 then rows else rows[|rows| - 99..]) + [row]
    && forall other | other != user :: BufferOf(after, other) == BufferOf(before, other)
  }

  lemma RecordGains(recent: Recent, user: UserId, row: LiveRequest)
    ensures Gains(recent, Record(recent, user, row), user, row)
  {
    var rows := BufferOf(recent, user);
    var drop := if |rows| + 1 > CAP then |rows| + 1 - CAP else 0;
    assert (rows + [row])[drop..] == rows[drop..] + [row];
  }

  // All of one user's rows in an unbounded log, oldest first.
  function RowsOf(log: seq<Entry>, user: UserId): seq<LiveRequest> {
    if log == [] then []
    else
      var rest := RowsOf(log[..|log| - 1], user);
      var last := log[|log| - 1];
      if last.user == user then rest + [last.request] else rest
  }

  ghost predicate Mirrors(recent: Recent, log: seq<Entry>) {
    forall user :: BufferOf(recent, user) == LastN(RowsOf(log, user), CAP)
  }

  lemma RecordMirrors(recent: Recent, log: seq<Entry>, user: UserId, request: LiveRequest)
    requires Mirrors(recent, log)
    ensures Mirrors(Record(recent, user, request), log + [Entry(user, request)])
  {
    var log' := log + [Entry(user, request)];
    assert log'[..|log|] == log;
    forall u ensures BufferOf(Record(recent, user, request), u) == LastN(RowsOf(log', u), CAP) {
      assert BufferOf(recent, u) == LastN(RowsOf(log, u), CAP);
      assert RowsOf(log', u) == RowsOf(log, u) + (if u == user then [request] else []);
    }
  }

  // The map after a run of recordRequest calls, starting empty.
  function RecordAll(log: seq<Entry>): Recent {
    if log == [] then map[]
    else
      var last := log[|log| - 1];
      Record(RecordAll(log[..|log| - 1]), last.user, last.request)
  }

  function Min(a: int, b: int): int { if a < b then a else b }

  function Max(a: int, b: int): int { if a < b then b else a }

  // What the portal should see of a user's rows, oldest first: the newest `limit` of them
  // but never more than `bound`, newest first.
  ghost predicate IsNewest(rows: seq<LiveRequest>, limit: int, bound: nat, out: seq<LiveRequest>) {
    && (limit <= 0 ==> out == [])
    && (limit > 0 ==>
          |out| == if |rows| <= limit && |rows| <= bound then |rows| else if limit <= bound then limit else bound)
    && |out| <= |rows|
    && forall i | 0 <= i < |out| :: out[i] == rows[|rows| - 1 - i]
  }

  // RecentRequests, over the bounded buffer.
  function Reported(recent: Recent, user: UserId, limit: int): seq<LiveRequest> {
    var buf := BufferOf(recent, user);
    seq(Max(0, Min(limit, |buf|)), i requires 0 <= i < Max(0, Min(limit, |buf|)) => buf[|buf| - 1 - i])
  }

  // Reading the last 100 rows backwards shows the newest rows.
  lemma SuffixShowsNewest(rows: seq<LiveRequest>, buf: seq<LiveRequest>, limit: int, out: seq<LiveRequest>)
    requires |buf| == (if |rows| < 100 then |rows| else 100) && buf == rows[|rows| - |buf|..]
    requires |out| == Max(0, Min(limit, |buf|)) && forall i | 0 <= i < |out| :: out[i] == buf[|buf| - 1 - i]
    ensures IsNewest(rows, limit, 100, out)
  {}

  lemma MirrorReportsNewest(recent: Recent, log: seq<Entry>, user: UserId, limit: int)
    requires Mirrors(recent, log)
    ensures IsNewest(RowsOf(log, user), limit, 100, Reported(recent, user, limit))
  {
    var rows, buf := RowsOf(log, user), BufferOf(recent, user);
    assert buf == LastN(rows, CAP);
    SuffixShowsNewest(rows, buf, limit, Reported(recent, user, limit));
  }

  lemma {:induction false} RecordAllMirrors(log: seq<Entry>)
    ensures Mirrors(RecordAll(log), log)
  {
    if log != [] {
      var last := log[|log| - 1];
      RecordAllMirrors(log[..|log| - 1]);
      RecordMirrors(RecordAll(log[..|log| - 1]), log[..|log| - 1], last.user, last.request);
      assert log[..|log| - 1] + [Entry(last.user, last.request)] == log;
    }
  }

  // Whatever the interleaving of records for any users, the bounded window answers every
  // query with the newest rows of the unbounded log.
  lemma WindowRefinesLog(log: seq<Entry>, user: UserId, limit: int)
    ensures IsNewest(RowsOf(log, user), limit, 100, Reported(RecordAll(log), user, limit))
  {
    RecordAllMirrors(log);
    MirrorReportsNewest(RecordAll(log), log, user, limit);
  }

  // A user's rows of a longer log: the new entry's row comes last, if it is the user's.
  lemma RowsOfSnoc(log: seq<Entry>, entry: Entry, user: UserId)
    ensures RowsOf([], user) == []
    ensures RowsOf(log + [entry], user) == RowsOf(log, user) + if entry.user == user then [entry.request] else []
  {
    assert (log + [entry])[..|log|] == log;
  }

  // A record leaves every other user's answers as they were.
  lemma OtherWindowsUntouched(recent: Recent, user: UserId, request: LiveRequest, other: UserId, limit: int)
    requires other != user
    ensures Reported(Record(recent, user, request), other, limit) == Reported(recent, other, limit)
  {}
}
