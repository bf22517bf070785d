// backend/src/services/AuthService.js login and LoginAttemptRepository.js: the
// sliding-window lockout, with logins one at a time.
module Lockout {
  import opened Wrappers
  import opened Grouping

  const MAX_FAILURES := 5
  const WINDOW_SECONDS := 900

  datatype Attempt = Attempt(user: string, success: bool, at: int)

  datatype LoginError = Locked | BadPassword | Unavailable

  predicate Failed(row: Attempt, user: string, since: int)
  {
    row.user == user && !row.success && row.at >= since
  }

  /** SELECT COUNT(*) ... attempted_at >= since. */
  function CountSince(rows: seq<Attempt>, user: string, since: int): nat
  {
    if rows == [] then 0
    else CountSince(rows[..|rows| - 1], user, since) + if Failed(rows[|rows| - 1], user, since) then 1 else 0
  }

  /** DELETE ... WHERE user_id = ? AND success = 0. */
  function Cleared(rows: seq<Attempt>, user: string): seq<Attempt>
  {
    Bucket((row: Attempt) => row.user == user && !row.success, rows, false)
  }

  /** One login of a known user: the count is taken at `checked`, a row is written at `recorded`, and either
      write may fail. The password is right or it is not. */
  datatype Login = Login(user: string, checked: int, recorded: int, valid: bool, recordFails: bool, clearFails: bool)

  function Outcome(rows: seq<Attempt>, l: Login): Result<string, LoginError>
  {
    if CountSince(rows, l.user, l.checked - WINDOW_SECONDS) >= MAX_FAILURES then Err(Locked)
    else if l.recordFails then Err(Unavailable)
    else if !l.valid then Err(BadPassword)
    else if l.clearFails then Err(Unavailable)
    else Ok(l.user)
  }

  function RowsAfter(rows: seq<Attempt>, l: Login): seq<Attempt>
  {
    if CountSince(rows, l.user, l.checked - WINDOW_SECONDS) >= MAX_FAILURES || l.recordFails then rows
    else
      var rows' := rows + [Attempt(l.user, l.valid, l.recorded)];
      if l.valid && !l.clearFails then Cleared(rows', l.user) else rows'
  }

  class LoginAttemptRepository {
    var rows: seq<Attempt>

    constructor ()
      ensures rows == []
    {
      rows := [];
    }

    method Record(user: string, success: bool, now: int, fails: bool) returns (ok: bool)
      modifies this
      ensures ok == !fails
      ensures rows == if fails then old(rows) else old(rows) + [Attempt(user, success, now)]
    {
      ok := !fails;
      if ok {
        rows := rows + [Attempt(user, success, now)];
      }
    }

    method CountRecentFailures(user: string, windowSeconds: int, now: int) returns (n: nat)
      ensures n == CountSince(rows, user, now - windowSeconds)
    {
      n := CountSince(rows, user, now - windowSeconds);
    }

    method ClearFailures(user: string, fails: bool) returns (ok: bool)
      modifies this
      ensures ok == !fails
      ensures rows == if fails then old(rows) else Cleared(old(rows), user)
    {
      ok := !fails;
      if ok {
        rows := Cleared(rows, user);
      }
    }
  }

  class AuthService {
    const attempts: LoginAttemptRepository

    constructor (attempts: LoginAttemptRepository)
      ensures this.attempts == attempts
    {
      this.attempts := attempts;
    }

    method LogIn(l: Login) returns (r: Result<string, LoginError>)
      modifies attempts
      ensures r == Outcome(old(attempts.rows), l) && attempts.rows == RowsAfter(old(attempts.rows), l)
      ensures r.Ok? ==> l.valid && r.value == l.user
      ensures r == Err(BadPassword) ==>
                !l.valid && attempts.rows == old(attempts.rows) + [Attempt(l.user, false, l.recorded)]
      ensures r.Ok? ==> attempts.rows == Cleared(old(attempts.rows) + [Attempt(l.user, true, l.recorded)], l.user)
      ensures r == Err(Locked) ==> attempts.rows == old(attempts.rows)
    {
      var failures := attempts.CountRecentFailures(l.user, WINDOW_SECONDS, l.checked);
      if failures >= MAX_FAILURES {
        return Err(Locked);
      }
      if !l.valid {
        var noted := attempts.Record(l.user, false, l.recorded, l.recordFails);
        return Err(if noted then BadPassword else Unavailable);
      }
      var noted := attempts.Record(l.user, true, l.recorded, l.recordFails);
      if !noted {
        return Err(Unavailable);
      }
      var cleared := attempts.ClearFailures(l.user, l.clearFails);
      r := if cleared then Ok(l.user) else Err(Unavailable);
    }
  }

  // ----- runs of logins -----

  function Rows(logins: seq<Login>): seq<Attempt>
  {
    if logins == [] then [] else RowsAfter(Rows(logins[..|logins| - 1]), logins[|logins| - 1])
  }

  function OutcomeAt(logins: seq<Login>, i: nat): Result<string, LoginError>
    requires i < |logins|
  {
    Outcome(Rows(logins[..i]), logins[i])
  }

  /** Each login finishes after it began; the next begins no earlier than that. */
  ghost predicate OneAtATime(logins: seq<Login>)
  {
    && (forall i :: 0 <= i < |logins| ==> logins[i].checked <= logins[i].recorded)
    && (forall i, j :: 0 <= i < j < |logins| ==> logins[i].recorded <= logins[j].checked)
  }

  /** The i-th login was a wrong password, and was recorded. */
  predicate RecordedFailure(logins: seq<Login>, i: nat, user: string)
    requires i < |logins|
  {
    logins[i].user == user && OutcomeAt(logins, i) == Err(BadPassword)
  }

  predicate Granted(logins: seq<Login>, i: nat, user: string)
    requires i < |logins|
  {
    logins[i].user == user && OutcomeAt(logins, i).Ok?
  }

  /** Recorded failures of the user among logins i..j. */
  function Failures(logins: seq<Login>, i: nat, j: nat, user: string): nat
    requires i <= j <= |logins|
    decreases j - i
  {
    if i == j then 0 else Failures(logins, i, j - 1, user) + if RecordedFailure(logins, j - 1, user) then 1 else 0
  }

  lemma {:induction false} ClearingCounts(rows: seq<Attempt>, cleared: string, user: string, since: int)
    ensures CountSince(Cleared(rows, cleared), user, since)
         == if user == cleared then 0 else CountSince(rows, user, since)
  {
    if rows != [] {
      var init, last := rows[..|rows| - 1], rows[|rows| - 1];
      ClearingCounts(init, cleared, user, since);
      if last.user != cleared || last.success {
        assert Cleared(rows, cleared)[..|Cleared(rows, cleared)| - 1] == Cleared(init, cleared);
      }
    }
  }

  /** What one login does to the count of any user since any time. */
  lemma CountAfter(rows: seq<Attempt>, l: Login, user: string, since: int)
    ensures CountSince(RowsAfter(rows, l), user, since) ==
              if user == l.user && Outcome(rows, l).Ok? then 0
              else CountSince(rows, user, since)
                   + (if user == l.user && Outcome(rows, l) == Err(BadPassword) && l.recorded >= since then 1 else 0)
  {
    var rows' := rows + [Attempt(l.user, l.valid, l.recorded)];
    assert rows'[..|rows|] == rows;
    ClearingCounts(rows', l.user, user, since);
  }

  /** While nobody logs in as the user, the table counts at least the failures recorded meanwhile. */
  lemma {:induction false} TableCountsFailures(logins: seq<Login>, i: nat, j: nat, user: string, since: int)
    requires i <= j <= |logins|
    requires forall k :: i <= k < j ==> !Granted(logins, k, user) && logins[k].recorded >= since
    ensures CountSince(Rows(logins[..j]), user, since) >= Failures(logins, i, j, user)
    decreases j - i
  {
    if i < j {
      hide Outcome, RowsAfter;
      TableCountsFailures(logins, i, j - 1, user, since);
      assert logins[..j][..j - 1] == logins[..j - 1];
      CountAfter(Rows(logins[..j - 1]), logins[j - 1], user, since);
    }
  }

  /** No stretch of logins within 900 seconds in which the user does not get in holds more than five recorded
      wrong passwords for that user, whoever else logs in meanwhile. */
  lemma {:induction false} AtMostFiveFailures(logins: seq<Login>, i: nat, j: nat, user: string, start: int)
    requires OneAtATime(logins) && i <= j <= |logins|
    requires forall k :: i <= k < j ==> start <= logins[k].recorded <= start + 900
    requires forall k :: i <= k < j ==> !Granted(logins, k, user)
    ensures Failures(logins, i, j, user) <= 5
    decreases j - i
  {
    if i < j {
      hide Rows, CountSince;
      AtMostFiveFailures(logins, i, j - 1, user, start);
      if RecordedFailure(logins, j - 1, user) {
        TableCountsFailures(logins, i, j - 1, user, start);
        FewerSince(Rows(logins[..j - 1]), user, start, logins[j - 1].checked - WINDOW_SECONDS);
      }
    }
  }

  lemma {:induction false} FewerSince(rows: seq<Attempt>, user: string, since: int, earlier: int)
    requires earlier <= since
    ensures CountSince(rows, user, since) <= CountSince(rows, user, earlier)
  {
    if rows != [] {
      FewerSince(rows[..|rows| - 1], user, since, earlier);
    }
  }

  /** The table holds no failure but the recorded ones. */
  lemma {:induction false} OldFailuresDoNotCount(logins: seq<Login>, n: nat, user: string, since: int)
    requires n <= |logins|
    requires forall k :: 0 <= k < n && RecordedFailure(logins, k, user) ==> logins[k].recorded < since
    ensures CountSince(Rows(logins[..n]), user, since) == 0
  {
    if n > 0 {
      hide Outcome, RowsAfter;
      OldFailuresDoNotCount(logins, n - 1, user, since);
      assert logins[..n][..n - 1] == logins[..n - 1];
      CountAfter(Rows(logins[..n - 1]), logins[n - 1], user, since);
    }
  }

  /** 901 seconds after the last recorded failure the account is open again, however many attempts were turned
      away in between. */
  lemma OpenAgain(logins: seq<Login>, n: nat)
    requires n < |logins|
    requires forall k :: 0 <= k < n && RecordedFailure(logins, k, logins[n].user) ==>
               logins[n].checked >= logins[k].recorded + 901
    ensures OutcomeAt(logins, n) != Err(Locked)
  {
    OldFailuresDoNotCount(logins, n, logins[n].user, logins[n].checked - WINDOW_SECONDS);
  }

  /** An attempt made while locked, and an attempt as somebody else, leave the user's count as it was. */
  lemma LockedAttemptsDoNotExtend(logins: seq<Login>, n: nat, user: string, since: int)
    requires n < |logins| && (OutcomeAt(logins, n) == Err(Locked) || logins[n].user != user)
    ensures CountSince(Rows(logins[..n + 1]), user, since) == CountSince(Rows(logins[..n]), user, since)
  {
    hide RowsAfter;
    assert logins[..n + 1][..n] == logins[..n];
    CountAfter(Rows(logins[..n]), logins[n], user, since);
  }

  /** How many logins there were up to and with the last successful one of the user. */
  ghost function LastGrant(logins: seq<Login>, n: nat, user: string): (g: nat)
    requires n <= |logins|
    ensures g <= n && forall k :: g <= k < n ==> !Granted(logins, k, user)
    ensures g > 0 ==> Granted(logins, g - 1, user)
  {
    if n == 0 || Granted(logins, n - 1, user) then n else LastGrant(logins, n - 1, user)
  }

  ghost function FailuresSince(logins: seq<Login>, i: nat, j: nat, user: string, since: int): nat
    requires i <= j <= |logins|
    decreases j - i
  {
    if i == j then 0
    else FailuresSince(logins, i, j - 1, user, since)
         + (if RecordedFailure(logins, j - 1, user) && logins[j - 1].recorded >= since then 1 else 0)
  }

  lemma {:induction false} CountIsFailuresSinceGrant(logins: seq<Login>, n: nat, user: string, since: int)
    requires n <= |logins|
    ensures CountSince(Rows(logins[..n]), user, since)
         == FailuresSince(logins, LastGrant(logins, n, user), n, user, since)
  {
    hide Outcome, RowsAfter;
    if n > 0 {
      CountIsFailuresSinceGrant(logins, n - 1, user, since);
      LastRow(logins, n);
      hide Rows;
      CountAfter(Rows(logins[..n - 1]), logins[n - 1], user, since);
    }
  }

  lemma LastRow(logins: seq<Login>, n: nat)
    requires 0 < n <= |logins|
    ensures Rows(logins[..n]) == RowsAfter(Rows(logins[..n - 1]), logins[n - 1])
  {
    assert logins[..n][..n - 1] == logins[..n - 1];
  }

  /** Past the lock a login gets in exactly with the right password and both writes done, and is a recorded failure
      exactly with a wrong one and the row written. */
  lemma OnlyTheRightPassword(logins: seq<Login>, n: nat)
    requires n < |logins| && OutcomeAt(logins, n) != Err(Locked)
    ensures var l := logins[n];
            && (OutcomeAt(logins, n).Ok? <==> l.valid && !l.recordFails && !l.clearFails)
            && (RecordedFailure(logins, n, l.user) <==> !l.valid && !l.recordFails)
  {
    hide Rows, CountSince;
  }

  /** A successful login deletes that user's failures and no other row. */
  lemma ClearedExactly(rows: seq<Attempt>, user: string, row: Attempt)
    ensures row in Cleared(rows, user) <==> row in rows && (row.user != user || row.success)
  {
    BucketMembers((r: Attempt) => r.user == user && !r.success, rows, false, row);
  }

  /** Exactly when an attempt is turned away: five failures recorded since the user last got in, all of them
      within the 900 seconds before the attempt. */
  lemma {:induction false} LockedExactlyWhen(logins: seq<Login>, n: nat)
    requires n < |logins|
    ensures var user := logins[n].user;
            OutcomeAt(logins, n) == Err(Locked) <==>
            FailuresSince(logins, LastGrant(logins, n, user), n, user, logins[n].checked - 900) >= 5
  {
    hide Rows, CountSince, LastGrant, FailuresSince;
    CountIsFailuresSinceGrant(logins, n, logins[n].user, logins[n].checked - WINDOW_SECONDS);
  }
}
