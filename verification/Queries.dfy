/** ORDER BY as the database carries it out: what the row order of each query guarantees. */
module Queries {
  import opened Domain
  import opened Tables

  // ---- logs of a job, by attempt; rows with equal attempts keep their insertion order ----

  function InsertByAttempt(rows: seq<LogRow>, row: LogRow): seq<LogRow> {
    if rows == [] || rows[|rows| - 1].attempt <= row.attempt then rows + [row]
    else InsertByAttempt(rows[..|rows| - 1], row) + [rows[|rows| - 1]]
  }

  /** SELECT ... WHERE job_id = j ORDER BY attempt ASC, over the first n rows. */
  function LogsByAttempt(logs: seq<LogRow>, n: nat, j: JobId): seq<LogRow>
    requires n <= |logs|
  {
    if n == 0 then []
    else if logs[n - 1].jobId == j then InsertByAttempt(LogsByAttempt(logs, n - 1, j), logs[n - 1])
    else LogsByAttempt(logs, n - 1, j)
  }

  /** Index of the row that comes last. */
  function LastAmong(logs: seq<LogRow>, n: nat, j: JobId): (k: Option<int>)
    requires n <= |logs|
    ensures k.Some? ==> 0 <= k.value < n && logs[k.value].jobId == j
  {
    if n == 0 then None
    else
      var k := LastAmong(logs, n - 1, j);
      if logs[n - 1].jobId == j && (k.None? || logs[k.value].attempt <= logs[n - 1].attempt) then Some(n - 1) else k
  }

  function LatestOf(logs: seq<LogRow>, j: JobId): (k: Option<int>)
    ensures k.Some? ==> 0 <= k.value < |logs| && logs[k.value].jobId == j
  {
    LastAmong(logs, |logs|, j)
  }

  ghost predicate SortedByAttempt(rows: seq<LogRow>) {
    forall a, b | 0 <= a < b < |rows| :: rows[a].attempt <= rows[b].attempt
  }

  lemma {:induction false} InsertMembers(rows: seq<LogRow>, row: LogRow)
    ensures |InsertByAttempt(rows, row)| == |rows| + 1
    ensures forall x :: x in InsertByAttempt(rows, row) <==> x == row || x in rows
  {
    if rows != [] && rows[|rows| - 1].attempt > row.attempt {
      var front, last := rows[..|rows| - 1], rows[|rows| - 1];
      InsertMembers(front, row);
      assert rows == front + [last];
    }
  }

  lemma {:induction false} InsertKeepsOrder(rows: seq<LogRow>, row: LogRow)
    requires SortedByAttempt(rows)
    ensures var r := InsertByAttempt(rows, row);
            && SortedByAttempt(r) && r != []
            && r[|r| - 1] == if rows == [] || rows[|rows| - 1].attempt <= row.attempt
                             then row else rows[|rows| - 1]
  {
    if rows != [] && rows[|rows| - 1].attempt > row.attempt {
      var front, last := rows[..|rows| - 1], rows[|rows| - 1];
      InsertKeepsOrder(front, row);
      InsertMembers(front, row);
      var r := InsertByAttempt(front, row);
      forall a | 0 <= a < |r|
        ensures r[a].attempt <= last.attempt
      {
        assert r[a] in r;
      }
    }
  }

  /** The query lists the logs of j and no others. */
  lemma {:induction false} LogsByAttemptMembers(logs: seq<LogRow>, n: nat, j: JobId)
    requires n <= |logs|
    ensures forall x :: x in LogsByAttempt(logs, n, j) <==> x.jobId == j && x in logs[..n]
  {
    if n > 0 {
      LogsByAttemptMembers(logs, n - 1, j);
      assert logs[..n] == logs[..n - 1] + [logs[n - 1]];
      InsertMembers(LogsByAttempt(logs, n - 1, j), logs[n - 1]);
    }
  }

  /** They come by attempt, and the last one is the row LatestOf names. */
  lemma {:induction false} LogsByAttemptOrder(logs: seq<LogRow>, n: nat, j: JobId)
    requires n <= |logs|
    ensures var rows, last := LogsByAttempt(logs, n, j), LastAmong(logs, n, j);
            && SortedByAttempt(rows)
            && (rows == [] <==> last.None?)
            && (rows != [] ==> rows[|rows| - 1] == logs[last.value])
  {
    if n > 0 {
      LogsByAttemptOrder(logs, n - 1, j);
      var rows := LogsByAttempt(logs, n - 1, j);
      if logs[n - 1].jobId == j {
        assert LogsByAttempt(logs, n, j) == InsertByAttempt(rows, logs[n - 1]);
        InsertKeepsOrder(rows, logs[n - 1]);
      } else {
        assert LogsByAttempt(logs, n, j) == rows;
      }
    }
  }

  lemma {:induction false} LastAmongIsGreatest(logs: seq<LogRow>, n: nat, j: JobId)
    requires n <= |logs|
    ensures var k := LastAmong(logs, n, j);
            && (k.None? ==> forall i | 0 <= i < n :: logs[i].jobId != j)
            && (k.Some? ==> forall i | 0 <= i < n && logs[i].jobId == j :: logs[i].attempt <= logs[k.value].attempt)
  {
    if n > 0 {
      LastAmongIsGreatest(logs, n - 1, j);
    }
  }

  /** The stable order is one of the orders the protocol allows. */
  lemma {:induction false} LatestOfIsLatest(logs: seq<LogRow>, j: JobId)
    ensures LatestIs(logs, j, LatestOf(logs, j))
  {
    LastAmongIsGreatest(logs, |logs|, j);
  }

  /** LatestOf reads only the rows of j. */
  lemma {:induction false} LatestFrame(a: seq<LogRow>, b: seq<LogRow>, n: nat, j: JobId)
    requires |a| == |b| && n <= |a|
    requires forall k | 0 <= k < |a| :: a[k].jobId == b[k].jobId && a[k].attempt == b[k].attempt
    ensures LastAmong(a, n, j) == LastAmong(b, n, j)
  {
    if n > 0 {
      LatestFrame(a, b, n - 1, j);
    }
  }

  // ---- jobs ----

  /** LIKE folds the case of ASCII letters only. */
  function Fold(c: char): char {
    if 'A' <= c <= 'Z' then (c as int + 32) as char else c
  }

  /** text LIKE pattern: '%' stands for any text, '_' for any one character. */
  predicate Like(pattern: string, text: string)
    decreases |pattern| + |text|
  {
    if pattern == "" then text == ""
    else if pattern[0] == '%' then Like(pattern[1..], text) || (text != "" && Like(pattern, text[1..]))
    else text != "" && (pattern[0] == '_' || Fold(pattern[0]) == Fold(text[0])) && Like(pattern[1..], text[1..])
  }

  predicate SearchHits(row: JobRow, search: string) {
    var pattern := "%" + search + "%";
    search == "" || Like(pattern, row.payload) || Like(pattern, row.errorMessage) || Like(pattern, row.jobType)
  }

  predicate Matches(row: JobRow, queue: string, status: Option<JobStatus>, search: string) {
    (queue == "" || row.queue == queue) && (status.None? || row.status == status.value) && SearchHits(row, search)
  }

  /** The same character, or the same ASCII letter in the other case. */
  predicate SameLetter(a: char, b: char) {
    a == b || ('A' <= a <= 'Z' && b as int - a as int == 32) || ('A' <= b <= 'Z' && a as int - b as int == 32)
  }

  predicate SameButForCase(a: string, b: string) {
    |a| == |b| && forall i | 0 <= i < |a| :: SameLetter(a[i], b[i])
  }

  /** A search finds every row with the searched text, in any case, somewhere in one of its three texts. */
  lemma {:induction false} ContainedTextIsFound(search: string, front: string, hit: string, back: string)
    requires SameButForCase(search, hit)
    ensures Like("%" + search + "%", front + hit + back)
    decreases |front|
  {
    var pattern, text := "%" + search + "%", front + hit + back;
    if front == "" {
      StartsLike(search, hit, back);
      assert pattern[1..] == search + "%" && text == hit + back;
    } else {
      ContainedTextIsFound(search, front[1..], hit, back);
      assert text[1..] == front[1..] + hit + back;
    }
  }

  lemma {:induction false} StartsLike(search: string, hit: string, back: string)
    requires SameButForCase(search, hit)
    ensures Like(search + "%", hit + back)
    decreases |hit|
  {
    var pattern, text := search + "%", hit + back;
    if hit == "" {
      AnyTextIsLike(back);
      assert pattern == "%" && text == back;
    } else {
      StartsLike(search[1..], hit[1..], back);
      assert pattern[1..] == search[1..] + "%" && text[1..] == hit[1..] + back;
      if search[0] == '%' {
        AnyStartIsLike(pattern, text);
      }
    }
  }

  /** A '%' may stand for the first character of the text. */
  lemma {:induction false} AnyStartIsLike(pattern: string, text: string)
    requires pattern != "" && pattern[0] == '%' && text != "" && Like(pattern[1..], text[1..])
    ensures Like(pattern, text)
  {
    assert Like(pattern, text[1..]);
  }

  lemma {:induction false} AnyTextIsLike(text: string)
    ensures Like("%", text)
    decreases |text|
  {
    if text != "" {
      AnyTextIsLike(text[1..]);
    } else {
      assert "%"[1..] == "";
    }
  }

  // ---- what a search without wildcards finds ----

  predicate NoWildcard(search: string) {
    '%' !in search && '_' !in search
  }

  /** The text has the searched one at position i, in any case. */
  predicate FoundAt(search: string, text: string, i: int) {
    0 <= i <= |text| - |search| && SameButForCase(search, text[i..i + |search|])
  }

  lemma {:induction false} LikeStarts(search: string, text: string)
    requires NoWildcard(search) && Like(search + "%", text)
    ensures FoundAt(search, text, 0)
  {
    var pattern := search + "%";
    if search != "" {
      assert pattern[0] == search[0] && pattern[1..] == search[1..] + "%";
      LikeStarts(search[1..], text[1..]);
      forall i | 0 <= i < |search|
        ensures SameLetter(search[i], text[i])
      {
        if i > 0 {
          assert SameLetter(search[1..][i - 1], text[1..][..|search| - 1][i - 1]);
        }
      }
    }
  }

  lemma {:induction false} LikeFinds(search: string, text: string) returns (i: nat)
    requires NoWildcard(search) && Like("%" + search + "%", text)
    ensures FoundAt(search, text, i)
    decreases |text|
  {
    var pattern := "%" + search + "%";
    assert pattern[1..] == search + "%";
    if Like(search + "%", text) {
      LikeStarts(search, text);
      i := 0;
    } else {
      var k := LikeFinds(search, text[1..]);
      i := k + 1;
      assert text[1..][k..k + |search|] == text[i..i + |search|];
    }
  }

  /** Without wildcards a search matches exactly the texts that contain the searched one, in any case. */
  lemma {:induction false} LikeMeansContained(search: string, text: string)
    requires NoWildcard(search)
    ensures Like("%" + search + "%", text) <==> exists i :: FoundAt(search, text, i)
  {
    if Like("%" + search + "%", text) {
      var i := LikeFinds(search, text);
    }
    if i :| FoundAt(search, text, i) {
      var n := i + |search|;
      ContainedTextIsFound(search, text[..i], text[i..n], text[n..]);
      assert text == text[..i] + text[i..n] + text[n..];
    }
  }

  /** a precedes b in ORDER BY priority DESC, created_at DESC. */
  predicate ListedBefore(a: JobRow, b: JobRow) {
    a.priority > b.priority || (a.priority == b.priority && a.createdAt > b.createdAt)
  }

  function Matching(jobs: map<JobId, JobRow>, queue: string, status: Option<JobStatus>, search: string): set<JobId> {
    set j | j in jobs && Matches(jobs[j], queue, status, search)
  }

  /** ids is what the listing query may return under LIMIT `limit` (no limit when it is not positive). */
  ghost predicate IsListing(jobs: map<JobId, JobRow>, queue: string, status: Option<JobStatus>, search: string,
                            limit: int, ids: seq<JobId>)
  {
    && (forall i | 0 <= i < |ids| :: ids[i] in Matching(jobs, queue, status, search))
    && (forall i, n | 0 <= i < n < |ids| :: ids[i] != ids[n] && !ListedBefore(jobs[ids[n]], jobs[ids[i]]))
    && (limit > 0 ==> |ids| <= limit)
    && (forall j | j in Matching(jobs, queue, status, search) && j !in ids ::
          limit > 0 && |ids| == limit && forall i | 0 <= i < |ids| :: !ListedBefore(jobs[j], jobs[ids[i]]))
  }

  /** The columns the listing filters on: the search looks at payload, error message and type. */
  ghost predicate Wanted(row: JobRow, queue: string, status: Option<JobStatus>, search: string) {
    && (queue == "" || row.queue == queue) && (status.None? || row.status == status.value)
    && (search == "" || (exists i :: FoundAt(search, row.payload, i))
        || (exists i :: FoundAt(search, row.errorMessage, i)) || (exists i :: FoundAt(search, row.jobType, i)))
  }

  /**
    A listing shows the wanted rows, each once, by falling priority and then by falling creation time. What it
    leaves out was cut off by the limit and comes after everything shown.
    */
  lemma {:induction false} ListingByColumns(jobs: map<JobId, JobRow>, queue: string, status: Option<JobStatus>,
                                            search: string, limit: int, ids: seq<JobId>)
    requires IsListing(jobs, queue, status, search, limit, ids) && NoWildcard(search)
    ensures forall i | 0 <= i < |ids| :: ids[i] in jobs && Wanted(jobs[ids[i]], queue, status, search)
    ensures forall i, n | 0 <= i < n < |ids| ::
              && ids[i] in jobs && ids[n] in jobs && ids[i] != ids[n]
              && jobs[ids[i]].priority >= jobs[ids[n]].priority
              && (jobs[ids[i]].priority == jobs[ids[n]].priority ==> jobs[ids[i]].createdAt >= jobs[ids[n]].createdAt)
    ensures limit > 0 ==> |ids| <= limit
    ensures forall j | j in jobs && Wanted(jobs[j], queue, status, search) && j !in ids ::
              && limit > 0 && |ids| == limit
              && forall i | 0 <= i < |ids| ::
                   && ids[i] in jobs && jobs[ids[i]].priority >= jobs[j].priority
                   && (jobs[ids[i]].priority == jobs[j].priority ==> jobs[ids[i]].createdAt >= jobs[j].createdAt)
  {
    forall j | j in jobs
      ensures j in Matching(jobs, queue, status, search) <==> Wanted(jobs[j], queue, status, search)
    {
      WantedIsMatched(jobs[j], queue, status, search);
    }
  }

  lemma {:induction false} WantedIsMatched(row: JobRow, queue: string, status: Option<JobStatus>, search: string)
    requires NoWildcard(search)
    ensures Matches(row, queue, status, search) <==> Wanted(row, queue, status, search)
  {
    LikeMeansContained(search, row.payload);
    LikeMeansContained(search, row.errorMessage);
    LikeMeansContained(search, row.jobType);
  }

  lemma {:induction false} FirstListed(jobs: map<JobId, JobRow>, some: set<JobId>) returns (j: JobId)
    requires some != {} && forall i | i in some :: i in jobs
    ensures j in some && forall i | i in some :: !ListedBefore(jobs[i], jobs[j])
    decreases |some|
  {
    j :| j in some;
    if some - {j} != {} {
      var i := FirstListed(jobs, some - {j});
      if ListedBefore(jobs[i], jobs[j]) {
        j := i;
      }
    }
  }

  lemma {:induction false} FirstToAcquire(jobs: map<JobId, JobRow>, some: set<JobId>) returns (j: JobId)
    requires some != {} && forall i | i in some :: i in jobs
    ensures j in some && forall i | i in some :: !Precedes(jobs[i], jobs[j])
    decreases |some|
  {
    j :| j in some;
    if some - {j} != {} {
      var i := FirstToAcquire(jobs, some - {j});
      if Precedes(jobs[i], jobs[j]) {
        j := i;
      }
    }
  }

  /** With few enough rows the limit hides nothing. */
  lemma {:induction false} ListingIsComplete(jobs: map<JobId, JobRow>, queue: string, status: Option<JobStatus>,
                                             search: string, limit: int, ids: seq<JobId>, j: JobId)
    requires IsListing(jobs, queue, status, search, limit, ids)
    requires limit <= 0 || |Matching(jobs, queue, status, search)| <= limit
    requires j in Matching(jobs, queue, status, search)
    ensures j in ids
  {
    if j !in ids {
      DistinctFit(ids, Matching(jobs, queue, status, search) - {j});
    }
  }

  lemma {:induction false} DistinctFit(ids: seq<JobId>, all: set<JobId>)
    requires forall i | 0 <= i < |ids| :: ids[i] in all
    requires forall i, n | 0 <= i < n < |ids| :: ids[i] != ids[n]
    ensures |ids| <= |all|
    decreases |ids|
  {
    if ids != [] {
      var front, last := ids[..|ids| - 1], ids[|ids| - 1];
      DistinctFit(front, all - {last});
    }
  }
}
