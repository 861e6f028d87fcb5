/** PointServiceImpl: the append-only point log and the point policies.

    A user's balance is the balance of that user's newest log. A new log's balance is the
    previous balance plus the delta, computed in Java `int` arithmetic, so it wraps around at
    32 bits; a user with no log starts from the delta itself. */
module PointService {
  import opened Common

  /** A Java `int`. */
  newtype int32 = x: int | -0x8000_0000 <= x < 0x8000_0000

  /** Java `int` addition keeps the low 32 bits, read as two's complement. */
  function Wrap32(x: int): (r: int32)
    ensures -0x8000_0000 <= x < 0x8000_0000 ==> r as int == x
  {
    ((x + 0x8000_0000) % 0x1_0000_0000 - 0x8000_0000) as int32
  }

  /** The wrapped value differs from the exact one by a multiple of 2^32. */
  lemma Wrap32Congruent(x: int)
    ensures (Wrap32(x) as int - x) % 0x1_0000_0000 == 0
  {
  }

  /** Wrapping after every addition is wrapping once at the end. */
  lemma Wrap32Add(a: int, b: int)
    ensures Wrap32(Wrap32(a) as int + b) == Wrap32(a + b)
  {
    Wrap32Congruent(a);
    var k := (Wrap32(a) as int - a) / 0x1_0000_0000;
    assert Wrap32(a) as int == a + k * 0x1_0000_0000;
    ModShift(a + b + 0x8000_0000, k);
  }

  lemma ModShift(x: int, k: int)
    ensures (x + k * 0x1_0000_0000) % 0x1_0000_0000 == x % 0x1_0000_0000
  {
  }

  datatype PointLog = PointLog(id: int, createdAt: int, inquiry: string, delta: int32, userId: int, balance: int32)

  datatype PointPolicy = PointPolicy(id: int, name: string, point: int32, rate: real, deleted: bool)

  datatype PointError = UserNotFound | PointPolicyNotFound

  /** pointLogRepository.findLastByUserId: the user's newest log. */
  function LastOf(logs: seq<PointLog>, userId: int): (r: Option<PointLog>)
    ensures r.Some? ==> r.value in logs && r.value.userId == userId
    ensures r.None? <==> forall i :: 0 <= i < |logs| ==> logs[i].userId != userId
    ensures r.Some? ==>
              exists i :: 0 <= i < |logs| && logs[i] == r.value && forall j :: i < j < |logs| ==> logs[j].userId != userId
  {
    if logs == [] then None
    else if logs[|logs| - 1].userId == userId then Some(logs[|logs| - 1])
    else
      var prefix := logs[..|logs| - 1];
      var r := LastOf(prefix, userId);
      assert r.Some? ==>
               exists i :: 0 <= i < |logs| && logs[i] == r.value && forall j :: i < j < |logs| ==> logs[j].userId != userId
      by {
        if r.Some? {
          var i :| 0 <= i < |prefix| && prefix[i] == r.value && forall j :: i < j < |prefix| ==> prefix[j].userId != userId;
          assert logs[i] == r.value;
          forall j | i < j < |logs| ensures logs[j].userId != userId {
            if j < |prefix| { assert prefix[j] == logs[j]; }
          }
        }
      }
      assert r.None? <==> forall i :: 0 <= i < |logs| ==> logs[i].userId != userId by {
        assert forall i :: 0 <= i < |prefix| ==> prefix[i] == logs[i];
      }
      r
  }

  /** The balance a new log of `delta` gets. */
  function NextBalance(logs: seq<PointLog>, userId: int, delta: int32): (r: int32)
    ensures LastOf(logs, userId).None? ==> r == delta
    ensures LastOf(logs, userId).Some? && -0x8000_0000 <= LastOf(logs, userId).value.balance as int + delta as int < 0x8000_0000 ==>
              r as int == LastOf(logs, userId).value.balance as int + delta as int
  {
    match LastOf(logs, userId)
    case None => delta
    case Some(last) => Wrap32(last.balance as int + delta as int)
  }

  /** A user's balance: that of the newest log, 0 before any. */
  function Balance(logs: seq<PointLog>, userId: int): int32 {
    match LastOf(logs, userId)
    case None => 0
    case Some(last) => last.balance
  }

  /** Every log's balance was computed from the logs before it. */
  ghost predicate Chained(logs: seq<PointLog>) {
    forall i :: 0 <= i < |logs| ==> logs[i].balance == NextBalance(logs[..i], logs[i].userId, logs[i].delta)
  }

  /** The deltas of a user's logs, oldest first. */
  function DeltasOf(logs: seq<PointLog>, userId: int): seq<int32> {
    if logs == [] then []
    else DeltasOf(logs[..|logs| - 1], userId) +
         if logs[|logs| - 1].userId == userId then [logs[|logs| - 1].delta] else []
  }

  function Sum(s: seq<int32>): int {
    if s == [] then 0 else Sum(s[..|s| - 1]) + s[|s| - 1] as int
  }

  lemma {:induction false} NoLogNoDeltas(logs: seq<PointLog>, userId: int)
    requires LastOf(logs, userId).None?
    ensures DeltasOf(logs, userId) == []
  {
    if logs != [] {
      NoLogNoDeltas(logs[..|logs| - 1], userId);
    }
  }

  /** The balance of every user is the sum of that user's deltas, wrapped to 32 bits; when that
      sum fits in an `int`, the balance is the sum itself. */
  lemma {:induction false} BalanceIsSumOfDeltas(logs: seq<PointLog>, userId: int)
    requires Chained(logs)
    ensures Balance(logs, userId) == Wrap32(Sum(DeltasOf(logs, userId)))
    ensures -0x8000_0000 <= Sum(DeltasOf(logs, userId)) < 0x8000_0000 ==> Balance(logs, userId) as int == Sum(DeltasOf(logs, userId))
  {
    if logs != [] {
      ChainedPrefix(logs);
      BalanceIsSumOfDeltas(logs[..|logs| - 1], userId);
      if logs[|logs| - 1].userId == userId {
        OwnLogStep(logs, userId);
      } else {
        OtherLogStep(logs, userId);
      }
    }
  }

  lemma ChainedPrefix(logs: seq<PointLog>)
    requires logs != [] && Chained(logs)
    ensures Chained(logs[..|logs| - 1])
  {
    var prefix := logs[..|logs| - 1];
    forall i | 0 <= i < |prefix|
      ensures prefix[i].balance == NextBalance(prefix[..i], prefix[i].userId, prefix[i].delta)
    {
      assert prefix[..i] == logs[..i];
    }
  }

  /** The induction step for a log of the user itself. */
  lemma OwnLogStep(logs: seq<PointLog>, userId: int)
    requires logs != [] && Chained(logs) && logs[|logs| - 1].userId == userId
    requires Balance(logs[..|logs| - 1], userId) == Wrap32(Sum(DeltasOf(logs[..|logs| - 1], userId)))
    ensures Balance(logs, userId) == Wrap32(Sum(DeltasOf(logs, userId)))
  {
    var prefix, last := logs[..|logs| - 1], logs[|logs| - 1];
    assert last.balance == NextBalance(prefix, userId, last.delta);
    var ds := DeltasOf(prefix, userId);
    assert DeltasOf(logs, userId) == ds + [last.delta];
    assert (ds + [last.delta])[..|ds|] == ds;
    var before, total := Sum(ds), Sum(DeltasOf(logs, userId));
    assert total == before + last.delta as int;
    assert Balance(logs, userId) == last.balance;
    if LastOf(prefix, userId).None? {
      NoLogNoDeltas(prefix, userId);
      assert total == last.delta as int;
    } else {
      var previous := LastOf(prefix, userId).value;
      assert Balance(prefix, userId) == previous.balance;
      ChainStep(last.balance, previous.balance, before, total, last.delta);
    }
  }

  /** The induction step for a log of another user. */
  lemma OtherLogStep(logs: seq<PointLog>, userId: int)
    requires logs != [] && logs[|logs| - 1].userId != userId
    requires Balance(logs[..|logs| - 1], userId) == Wrap32(Sum(DeltasOf(logs[..|logs| - 1], userId)))
    ensures Balance(logs, userId) == Wrap32(Sum(DeltasOf(logs, userId)))
  {
    var prefix := logs[..|logs| - 1];
    assert DeltasOf(logs, userId) == DeltasOf(prefix, userId);
    assert Balance(logs, userId) == Balance(prefix, userId);
  }

  /** Adding a delta to a wrapped running sum is wrapping the extended sum. */
  lemma ChainStep(balance: int32, previous: int32, before: int, total: int, delta: int32)
    requires balance == Wrap32(previous as int + delta as int)
    requires previous == Wrap32(before)
    requires total == before + delta as int
    ensures balance == Wrap32(total)
  {
    Wrap32Add(before, delta as int);
  }

  /** Appending a log computed by NextBalance keeps the log chained. */
  lemma ChainedAppend(logs: seq<PointLog>, log: PointLog)
    requires Chained(logs)
    requires log.balance == NextBalance(logs, log.userId, log.delta)
    ensures Chained(logs + [log])
  {
    var all := logs + [log];
    forall i | 0 <= i < |all|
      ensures all[i].balance == NextBalance(all[..i], all[i].userId, all[i].delta)
    {
      if i < |logs| {
        assert all[..i] == logs[..i];
      } else {
        assert all[..i] == logs;
      }
    }
  }

  /** A new log moves exactly its own user's balance, to the wrapped sum of the old balance and
      the delta, and leaves every other user's balance as it was. */
  lemma AppendMovesOneBalance(logs: seq<PointLog>, log: PointLog, userId: int)
    requires log.balance == NextBalance(logs, log.userId, log.delta)
    ensures Balance(logs + [log], userId) ==
              if userId == log.userId then Wrap32(Balance(logs, userId) as int + log.delta as int)
              else Balance(logs, userId)
  {
    var all := logs + [log];
    assert all[..|all| - 1] == logs;
  }

  class PointLedger {
    /** The ids of the registered users. */
    var users: set<int>
    var logs: seq<PointLog>
    var policies: map<int, PointPolicy>
    var nextLogId: int

    ghost predicate Valid()
      reads this
    {
      Chained(logs) && forall i :: 0 <= i < |logs| ==> logs[i].id < nextLogId
    }

    constructor (users: set<int>, policies: map<int, PointPolicy>)
      ensures Valid()
      ensures this.users == users && this.policies == policies && logs == []
    {
      this.users, this.policies := users, policies;
      logs := [];
      nextLogId := 1;
    }

    /** createPointLogWithDelta(long, ...): an unknown user is refused with nothing saved;
        otherwise one log is appended with the delta, the user and the chained balance. */
    method CreatePointLogWithDelta(userId: int, inquiry: string, delta: int32, now: int)
      returns (r: Result<PointLog, PointError>)
      requires Valid()
      modifies this`logs, this`nextLogId
      ensures Valid()
      ensures userId !in users <==> r == Err(UserNotFound)
      ensures r.Err? ==> logs == old(logs)
      ensures r.Ok? ==>
                && logs == old(logs) + [r.value]
                && r.value.userId == userId && r.value.delta == delta && r.value.inquiry == inquiry
                && r.value.createdAt == now
                && r.value.balance == NextBalance(old(logs), userId, delta)
    {
      if userId !in users {
        return Err(UserNotFound);
      }
      var last := LastOf(logs, userId);
      var balance: int32;
      if last.None? {
        balance := delta;
      } else {
        balance := Wrap32(last.value.balance as int + delta as int);
      }
      var log := PointLog(nextLogId, now, inquiry, delta, userId, balance);
      ChainedAppend(logs, log);
      logs := logs + [log];
      nextLogId := nextLogId + 1;
      r := Ok(log);
    }

    /** createPointLogWithDelta(User, ...): the same, for the user's id. */
    method CreatePointLogForUser(user: int, inquiry: string, delta: int32, now: int)
      returns (r: Result<PointLog, PointError>)
      requires Valid()
      modifies this`logs, this`nextLogId
      ensures Valid()
      ensures user !in users <==> r == Err(UserNotFound)
      ensures r.Err? ==> logs == old(logs)
      ensures r.Ok? ==>
                && logs == old(logs) + [r.value]
                && r.value.userId == user && r.value.delta == delta && r.value.inquiry == inquiry
                && r.value.createdAt == now
                && r.value.balance == NextBalance(old(logs), user, delta)
    {
      r := CreatePointLogWithDelta(user, inquiry, delta, now);
    }

    /** updatePointPolicy: an existing policy gets the new point and rate, nothing else of it
        changes; an unknown id is refused. */
    method UpdatePointPolicy(id: int, point: int32, rate: real) returns (failure: Option<PointError>)
      modifies this`policies
      ensures id !in old(policies) <==> failure == Some(PointPolicyNotFound)
      ensures failure.Some? ==> policies == old(policies)
      ensures failure.None? ==> policies == old(policies)[id := old(policies)[id].(point := point, rate := rate)]
    {
      if id !in policies {
        return Some(PointPolicyNotFound);
      }
      var policy := policies[id];
      policies := policies[id := policy.(point := point, rate := rate)];
      failure := None;
    }

    /** deletePointPolicy: an existing policy is marked deleted and stays in the table; an
        unknown id is refused. */
    method DeletePointPolicy(id: int) returns (failure: Option<PointError>)
      modifies this`policies
      ensures id !in old(policies) <==> failure == Some(PointPolicyNotFound)
      ensures failure.Some? ==> policies == old(policies)
      ensures failure.None? ==> policies == old(policies)[id := old(policies)[id].(deleted := true)]
    {
      if id !in policies {
        return Some(PointPolicyNotFound);
      }
      var policy := policies[id];
      policies := policies[id := policy.(deleted := true)];
      failure := None;
    }
  }
}
