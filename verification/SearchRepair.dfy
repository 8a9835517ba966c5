/** Repair of search logs that missed billing: per token, the auth logs and the request logs are both
    sorted by time and paired in order; one pair too far apart, or unequal counts, skips the token. */
module SearchRepair {
  import opened Wrappers
  import Sorting

  const MAX_LOG_SKEW_SECS := 30

  datatype AuthLog = AuthLog(id: int, tokenId: string, createdAt: int, businessCredits: Option<int>,
                             billingState: string)

  datatype RequestLog = RequestLog(id: int, tokenId: string, createdAt: int, credits: int)

  datatype Candidate = Candidate(authLogId: int, requestLogId: int, tokenId: string, createdAt: int, credits: int)

  datatype SkipReason = CountsDiffer | SkewTooLarge(authLogId: int, requestLogId: int, skew: int)

  datatype SkippedToken = SkippedToken(tokenId: string, authLogCount: nat, requestLogCount: nat, reason: SkipReason)

  function Abs(x: int): nat {
    if x < 0 then -x else x
  }

  // ---- Order ------------------------------------------------------------------------------------

  predicate AuthOrder(a: AuthLog, b: AuthLog) {
    a.createdAt < b.createdAt || (a.createdAt == b.createdAt && a.id <= b.id)
  }

  predicate RequestOrder(a: RequestLog, b: RequestLog) {
    a.createdAt < b.createdAt || (a.createdAt == b.createdAt && a.id <= b.id)
  }

  function AuthInOrder(logs: seq<AuthLog>): (r: seq<AuthLog>)
    ensures Sorting.Sorted(AuthOrder, r) && multiset(r) == multiset(logs) && |r| == |logs|
  {
    assert Sorting.TotalPreorder(AuthOrder);
    Sorting.SortByKeeps(AuthOrder, logs);
    Sorting.SortBy(AuthOrder, logs)
  }

  function RequestsInOrder(logs: seq<RequestLog>): (r: seq<RequestLog>)
    ensures Sorting.Sorted(RequestOrder, r) && multiset(r) == multiset(logs) && |r| == |logs|
  {
    assert Sorting.TotalPreorder(RequestOrder);
    Sorting.SortByKeeps(RequestOrder, logs);
    Sorting.SortBy(RequestOrder, logs)
  }

  // ---- Sorted pairing is bottleneck-optimal -----------------------------------------------------

  ghost predicate Ascending<T>(time: T -> int, s: seq<T>) {
    forall i, j :: 0 <= i < j < |s| ==> time(s[i]) <= time(s[j])
  }

  /** How many entries are at `x` or later. */
  ghost function CountFrom<T>(time: T -> int, s: seq<T>, x: int): nat {
    if s == [] then 0 else (if time(s[0]) >= x then 1 else 0) + CountFrom(time, s[1..], x)
  }

  lemma {:induction false} CountFromConcat<T>(time: T -> int, s: seq<T>, t: seq<T>, x: int)
    ensures CountFrom(time, s + t, x) == CountFrom(time, s, x) + CountFrom(time, t, x)
  {
    if s == [] {
      assert s + t == t;
    } else {
      assert (s + t)[1..] == s[1..] + t;
      CountFromConcat(time, s[1..], t, x);
    }
  }

  ghost function Without<T>(s: seq<T>, k: nat): (r: seq<T>)
    requires k < |s|
    ensures multiset(r) == multiset(s) - multiset{s[k]}
  {
    assert s == s[..k] + [s[k]] + s[k + 1..];
    s[..k] + s[k + 1..]
  }

  lemma CountFromWithout<T>(time: T -> int, s: seq<T>, k: nat, x: int)
    requires k < |s|
    ensures CountFrom(time, s, x) == (if time(s[k]) >= x then 1 else 0) + CountFrom(time, Without(s, k), x)
  {
    CountFromConcat(time, s[..k], s[k..], x);
    CountFromConcat(time, s[..k], s[k + 1..], x);
    assert s == s[..k] + s[k..] && s[k..][1..] == s[k + 1..];
  }

  /** Reordering keeps the counts. */
  lemma {:induction false} CountFromPermutation<T>(time: T -> int, s: seq<T>, t: seq<T>, x: int)
    requires multiset(s) == multiset(t)
    ensures CountFrom(time, s, x) == CountFrom(time, t, x)
  {
    if s == [] {
      assert |multiset(t)| == 0;
    } else {
      assert s[0] in multiset(s);
      var k :| 0 <= k < |t| && t[k] == s[0];
      CountFromWithout(time, s, 0, x);
      CountFromWithout(time, t, k, x);
      CountFromPermutation(time, Without(s, 0), Without(t, k), x);
    }
  }

  lemma {:induction false} CountFromBounds<T>(time: T -> int, s: seq<T>, x: int)
    ensures CountFrom(time, s, x) <= |s|
    ensures (forall i :: 0 <= i < |s| ==> time(s[i]) >= x) ==> CountFrom(time, s, x) == |s|
    ensures (forall i :: 0 <= i < |s| ==> time(s[i]) < x) ==> CountFrom(time, s, x) == 0
  {
    if s != [] { CountFromBounds(time, s[1..], x); }
  }

  /** Partners at most `d` apart: whoever is late on the left is late, up to `d`, on the right. */
  lemma {:induction false} CountFromPartners<A, B>(ta: A -> int, tb: B -> int, a: seq<A>, b: seq<B>, d: int, x: int)
    requires |a| == |b| && forall i :: 0 <= i < |a| ==> ta(a[i]) - tb(b[i]) <= d
    ensures CountFrom(ta, a, x) <= CountFrom(tb, b, x - d)
  {
    if a != [] { CountFromPartners(ta, tb, a[1..], b[1..], d, x); }
  }

  /** In ascending order, how many entries are at `x` or later tells on which side of `x` entry `i` is. */
  lemma CountFromAscending<T>(time: T -> int, s: seq<T>, i: nat, x: int)
    requires Ascending(time, s) && i < |s|
    ensures time(s[i]) >= x <==> CountFrom(time, s, x) >= |s| - i
  {
    hide CountFrom, Ascending;
    OrderAround(time, s, i);
    if time(s[i]) >= x {
      assert s == s[..i] + s[i..];
      CountFromConcat(time, s[..i], s[i..], x);
      CountFromBounds(time, s[i..], x);
    } else {
      assert s == s[..i + 1] + s[i + 1..];
      CountFromConcat(time, s[..i + 1], s[i + 1..], x);
      CountFromBounds(time, s[..i + 1], x);
      CountFromBounds(time, s[i + 1..], x);
    }
  }

  lemma OrderAround<T>(time: T -> int, s: seq<T>, i: nat)
    requires Ascending(time, s) && i < |s|
    ensures var late := s[i..]; forall j :: 0 <= j < |late| ==> time(s[i]) <= time(late[j])
    ensures var early := s[..i + 1]; forall j :: 0 <= j < |early| ==> time(early[j]) <= time(s[i])
  {
  }

  /** If some pairing keeps every left entry at most `d` behind its partner, so does the sorted pairing. */
  lemma SortedPairingIsTight<A, B>(ta: A -> int, tb: B -> int, a: seq<A>, b: seq<B>, p: seq<A>, q: seq<B>, d: int,
                                   i: nat)
    requires Ascending(ta, a) && Ascending(tb, b) && |a| == |b| && i < |a|
    requires multiset(p) == multiset(a) && multiset(q) == multiset(b)
    requires |p| == |q| && forall k :: 0 <= k < |p| ==> ta(p[k]) - tb(q[k]) <= d
    ensures ta(a[i]) - tb(b[i]) <= d
  {
    hide Ascending, CountFrom;
    var x := ta(a[i]);
    CountFromPermutation(ta, p, a, x);
    CountFromPermutation(tb, q, b, x - d);
    CountFromPartners(ta, tb, p, q, d, x);
    CountFromAscending(ta, a, i, x);
    CountFromAscending(tb, b, i, x - d);
  }

  // ---- One token --------------------------------------------------------------------------------

  /** The order of the logs is that of their times, then of their ids. */
  lemma OrderOfLogs(auths: seq<AuthLog>, requests: seq<RequestLog>)
    ensures var a := AuthInOrder(auths);
            forall i, j :: 0 <= i < j < |a| ==>
              a[i].createdAt < a[j].createdAt || (a[i].createdAt == a[j].createdAt && a[i].id <= a[j].id)
    ensures var r := RequestsInOrder(requests);
            forall i, j :: 0 <= i < j < |r| ==>
              r[i].createdAt < r[j].createdAt || (r[i].createdAt == r[j].createdAt && r[i].id <= r[j].id)
  {
    var a, r := AuthInOrder(auths), RequestsInOrder(requests);
    assert forall i, j :: 0 <= i < j < |a| ==> AuthOrder(a[i], a[j]);
    assert forall i, j :: 0 <= i < j < |r| ==> RequestOrder(r[i], r[j]);
  }

  function AuthTime(a: AuthLog): int { a.createdAt }

  function RequestTime(r: RequestLog): int { r.createdAt }

  /** `p` and `q` list all the logs, each once; position by position they form a one-to-one pairing. */
  ghost predicate IsPairing(auths: seq<AuthLog>, requests: seq<RequestLog>, p: seq<AuthLog>, q: seq<RequestLog>) {
    |p| == |q| && multiset(p) == multiset(auths) && multiset(q) == multiset(requests)
  }

  predicate WithinSkew(a: AuthLog, r: RequestLog) {
    Abs(a.createdAt - r.createdAt) <= MAX_LOG_SKEW_SECS
  }

  ghost predicate AllWithinSkew(p: seq<AuthLog>, q: seq<RequestLog>)
    requires |p| == |q|
  {
    forall i :: 0 <= i < |p| ==> WithinSkew(p[i], q[i])
  }

  /** Some one-to-one pairing of the logs keeps every pair within the allowed skew. */
  ghost predicate Pairable(auths: seq<AuthLog>, requests: seq<RequestLog>) {
    exists p, q :: IsPairing(auths, requests, p, q) && AllWithinSkew(p, q)
  }

  /** Sorting both sides loses nothing: the sorted pairing is within the skew as soon as any pairing is. */
  lemma SortedPairingDecides(auths: seq<AuthLog>, requests: seq<RequestLog>)
    requires |auths| == |requests|
    ensures AllWithinSkew(AuthInOrder(auths), RequestsInOrder(requests)) <==> Pairable(auths, requests)
  {
    hide Ascending, WithinSkew, AuthOrder, RequestOrder;
    var a, b := AuthInOrder(auths), RequestsInOrder(requests);
    assert IsPairing(auths, requests, a, b);
    if Pairable(auths, requests) {
      var p, q :| IsPairing(auths, requests, p, q) && AllWithinSkew(p, q);
      SortedIsAscending(auths, requests);
      assert |a| == |p| && |b| == |q|;
      forall i | 0 <= i < |a| ensures WithinSkew(a[i], b[i]) {
        SortedPairIsClose(a, b, p, q, i);
      }
    }
  }

  lemma SortedPairIsClose(a: seq<AuthLog>, b: seq<RequestLog>, p: seq<AuthLog>, q: seq<RequestLog>, i: nat)
    requires Ascending(AuthTime, a) && Ascending(RequestTime, b) && |a| == |b| == |p| == |q| && i < |a|
    requires multiset(p) == multiset(a) && multiset(q) == multiset(b) && AllWithinSkew(p, q)
    ensures WithinSkew(a[i], b[i])
  {
    forall k | 0 <= k < |p|
      ensures AuthTime(p[k]) - RequestTime(q[k]) <= MAX_LOG_SKEW_SECS
      ensures RequestTime(q[k]) - AuthTime(p[k]) <= MAX_LOG_SKEW_SECS
    {
      assert WithinSkew(p[k], q[k]);
    }
    hide Ascending;
    SortedPairingIsTight(AuthTime, RequestTime, a, b, p, q, MAX_LOG_SKEW_SECS, i);
    SortedPairingIsTight(RequestTime, AuthTime, b, a, q, p, MAX_LOG_SKEW_SECS, i);
  }

  lemma SortedIsAscending(auths: seq<AuthLog>, requests: seq<RequestLog>)
    ensures Ascending(AuthTime, AuthInOrder(auths))
    ensures Ascending(RequestTime, RequestsInOrder(requests))
  {
    var a, b := AuthInOrder(auths), RequestsInOrder(requests);
    forall i, j | 0 <= i < j < |a| ensures AuthTime(a[i]) <= AuthTime(a[j]) { assert AuthOrder(a[i], a[j]); }
    forall i, j | 0 <= i < j < |b| ensures RequestTime(b[i]) <= RequestTime(b[j]) { assert RequestOrder(b[i], b[j]); }
  }

  predicate Unbilled(a: AuthLog) {
    a.businessCredits.None? && a.billingState == "none"
  }

  function CandidateOf(a: AuthLog, r: RequestLog, tokenId: string): Candidate {
    Candidate(a.id, r.id, tokenId, a.createdAt, r.credits)
  }

  /** The unbilled logs of a pairing, in order, each with the credits of its partner. */
  ghost function Repairs(p: seq<AuthLog>, q: seq<RequestLog>, tokenId: string): seq<Candidate>
    requires |p| <= |q|
  {
    if p == [] then []
    else
      var n := |p| - 1;
      Repairs(p[..n], q, tokenId) + if Unbilled(p[n]) then [CandidateOf(p[n], q[n], tokenId)] else []
  }

  /** Pair `i` is the first that is too far apart. */
  predicate IsFirstSkewed(a: seq<AuthLog>, b: seq<RequestLog>, i: nat) {
    i < |a| && i < |b| && !WithinSkew(a[i], b[i]) && forall k :: 0 <= k < i && k < |b| ==> WithinSkew(a[k], b[k])
  }

  /** What is decided for one token: all its unbilled logs are repaired, or none, and the reason is given. A
      token is skipped for skew exactly when its logs are equally many and no pairing at all is close; the reason
      names the first sorted pair that is too far apart. */
  ghost predicate IsOutcome(tokenId: string, auths: seq<AuthLog>, requests: seq<RequestLog>,
                            candidates: seq<Candidate>, skipped: Option<SkippedToken>) {
    match skipped
    case Some(s) =>
      && candidates == []
      && s.tokenId == tokenId && s.authLogCount == |auths| && s.requestLogCount == |requests|
      && (s.reason.CountsDiffer? <==> |auths| != |requests|)
      && (s.reason.SkewTooLarge? <==> |auths| == |requests| && !Pairable(auths, requests))
      && (s.reason.SkewTooLarge? ==>
            var a, b := AuthInOrder(auths), RequestsInOrder(requests);
            exists i: nat :: IsFirstSkewed(a, b, i) &&
              s.reason == SkewTooLarge(a[i].id, b[i].id, Abs(a[i].createdAt - b[i].createdAt)))
    case None =>
      && |auths| == |requests| && Pairable(auths, requests)
      && candidates == Repairs(AuthInOrder(auths), RequestsInOrder(requests), tokenId)
  }

  method RepairToken(tokenId: string, auths: seq<AuthLog>, requests: seq<RequestLog>)
    returns (candidates: seq<Candidate>, skipped: Option<SkippedToken>)
    ensures IsOutcome(tokenId, auths, requests, candidates, skipped)
  {
    hide IsOutcome, Repairs, WithinSkew;
    var a, b := AuthInOrder(auths), RequestsInOrder(requests);
    if |a| != |b| {
      SkippedForCounts(tokenId, auths, requests);
      return [], Some(SkippedToken(tokenId, |a|, |b|, CountsDiffer));
    }
    candidates := [];
    NoRepairs(a, b, tokenId);
    for i := 0 to |a|
      invariant forall k :: 0 <= k < i ==> WithinSkew(a[k], b[k])
      invariant candidates == Repairs(a[..i], b, tokenId)
    {
      var skew := Abs(a[i].createdAt - b[i].createdAt);
      RepairsOneMore(a, b, i, tokenId);
      if skew > MAX_LOG_SKEW_SECS {
        SkippedForSkew(tokenId, auths, requests, i);
        return [], Some(SkippedToken(tokenId, |a|, |b|, SkewTooLarge(a[i].id, b[i].id, skew)));
      }
      if Unbilled(a[i]) {
        candidates := candidates + [CandidateOf(a[i], b[i], tokenId)];
      }
    }
    assert a[..|a|] == a;
    skipped := None;
    AllRepaired(tokenId, auths, requests);
  }

  lemma NoRepairs(a: seq<AuthLog>, b: seq<RequestLog>, tokenId: string)
    ensures Repairs(a[..0], b, tokenId) == []
  {
  }

  lemma RepairsOneMore(a: seq<AuthLog>, b: seq<RequestLog>, i: nat, tokenId: string)
    requires i < |a| <= |b|
    ensures Repairs(a[..i + 1], b, tokenId) == Repairs(a[..i], b, tokenId) +
            if Unbilled(a[i]) then [CandidateOf(a[i], b[i], tokenId)] else []
    ensures WithinSkew(a[i], b[i]) <==> Abs(a[i].createdAt - b[i].createdAt) <= MAX_LOG_SKEW_SECS
  {
    assert a[..i + 1][..i] == a[..i];
  }

  lemma SkippedForCounts(tokenId: string, auths: seq<AuthLog>, requests: seq<RequestLog>)
    requires |auths| != |requests|
    ensures IsOutcome(tokenId, auths, requests, [], Some(SkippedToken(tokenId, |auths|, |requests|, CountsDiffer)))
  {
  }

  lemma SkippedForSkew(tokenId: string, auths: seq<AuthLog>, requests: seq<RequestLog>, i: nat)
    requires |auths| == |requests| && i < |auths|
    requires var a, b := AuthInOrder(auths), RequestsInOrder(requests);
             !WithinSkew(a[i], b[i]) && forall k :: 0 <= k < i ==> WithinSkew(a[k], b[k])
    ensures var a, b := AuthInOrder(auths), RequestsInOrder(requests);
            IsOutcome(tokenId, auths, requests, [],
                      Some(SkippedToken(tokenId, |auths|, |requests|,
                                        SkewTooLarge(a[i].id, b[i].id, Abs(a[i].createdAt - b[i].createdAt)))))
  {
    hide Pairable, Repairs;
    SortedPairingDecides(auths, requests);
    assert IsFirstSkewed(AuthInOrder(auths), RequestsInOrder(requests), i);
  }

  lemma AllRepaired(tokenId: string, auths: seq<AuthLog>, requests: seq<RequestLog>)
    requires |auths| == |requests|
    requires var a, b := AuthInOrder(auths), RequestsInOrder(requests); forall k :: 0 <= k < |a| ==>
             WithinSkew(a[k], b[k])
    ensures IsOutcome(tokenId, auths, requests, Repairs(AuthInOrder(auths), RequestsInOrder(requests), tokenId), None)
  {
    hide Pairable, Repairs, WithinSkew;
    SortedPairingDecides(auths, requests);
  }

  /** A repaired token gains a candidate for exactly its unbilled logs, in their own pairs. */
  lemma {:induction false} RepairsAreTheUnbilledPairs(p: seq<AuthLog>, q: seq<RequestLog>, tokenId: string)
    requires |p| <= |q|
    ensures forall i :: 0 <= i < |p| && Unbilled(p[i]) ==> CandidateOf(p[i], q[i], tokenId) in Repairs(p, q, tokenId)
    ensures forall c :: c in Repairs(p, q, tokenId) ==>
              exists i :: 0 <= i < |p| && Unbilled(p[i]) && c == CandidateOf(p[i], q[i], tokenId)
  {
    if p != [] {
      var n := |p| - 1;
      RepairsAreTheUnbilledPairs(p[..n], q, tokenId);
      forall c | c in Repairs(p, q, tokenId)
        ensures exists i :: 0 <= i < |p| && Unbilled(p[i]) && c == CandidateOf(p[i], q[i], tokenId)
      {
        if c in Repairs(p[..n], q, tokenId) {
          var i :| 0 <= i < n && Unbilled(p[..n][i]) && c == CandidateOf(p[..n][i], q[i], tokenId);
          assert p[i] == p[..n][i];
        } else {
          assert Unbilled(p[n]) && c == CandidateOf(p[n], q[n], tokenId);
        }
      }
    }
  }

  // ---- All tokens -------------------------------------------------------------------------------

  function AuthsOf(logs: seq<AuthLog>, tokenId: string): seq<AuthLog> {
    if logs == [] then []
    else
      var n := |logs| - 1;
      AuthsOf(logs[..n], tokenId) + if logs[n].tokenId == tokenId then [logs[n]] else []
  }

  function RequestsOf(logs: seq<RequestLog>, tokenId: string): seq<RequestLog> {
    if logs == [] then []
    else
      var n := |logs| - 1;
      RequestsOf(logs[..n], tokenId) + if logs[n].tokenId == tokenId then [logs[n]] else []
  }

  ghost function CandidatesOf(candidates: seq<Candidate>, tokenId: string): seq<Candidate> {
    if candidates == [] then []
    else
      var n := |candidates| - 1;
      CandidatesOf(candidates[..n], tokenId) + if candidates[n].tokenId == tokenId then [candidates[n]] else []
  }

  lemma {:induction false} CandidatesOfConcat(s: seq<Candidate>, t: seq<Candidate>, tokenId: string)
    ensures CandidatesOf(s + t, tokenId) == CandidatesOf(s, tokenId) + CandidatesOf(t, tokenId)
  {
    if t == [] {
      assert s + t == s;
    } else {
      var n := |t| - 1;
      assert (s + t)[..|s| + n] == s + t[..n];
      CandidatesOfConcat(s, t[..n], tokenId);
    }
  }

  lemma {:induction false} RepairsBelongToToken(p: seq<AuthLog>, q: seq<RequestLog>, tokenId: string, other: string)
    requires |p| <= |q|
    ensures CandidatesOf(Repairs(p, q, tokenId), other) == if other == tokenId then Repairs(p, q, tokenId) else []
  {
    if p != [] {
      var n := |p| - 1;
      RepairsBelongToToken(p[..n], q, tokenId, other);
      var c := CandidateOf(p[n], q[n], tokenId);
      CandidatesOfConcat(Repairs(p[..n], q, tokenId), [c], other);
      assert [c][..0] == [];
      assert CandidatesOf([c], other) == if other == tokenId then [c] else [];
      assert Repairs(p[..n], q, tokenId) + [] == Repairs(p[..n], q, tokenId);
    }
  }

  /** A token is repairable when its logs are equally many and some pairing keeps every pair close. */
  ghost predicate Repairable(auths: seq<AuthLog>, requests: seq<RequestLog>, tokenId: string) {
    var a, r := AuthsOf(auths, tokenId), RequestsOf(requests, tokenId);
    |a| == |r| && Pairable(a, r)
  }

  /** What the repair owes one token. */
  ghost function Due(auths: seq<AuthLog>, requests: seq<RequestLog>, tokenId: string): seq<Candidate> {
    if Repairable(auths, requests, tokenId) then
      Repairs(AuthInOrder(AuthsOf(auths, tokenId)), RequestsInOrder(RequestsOf(requests, tokenId)), tokenId)
    else []
  }

  /** In terms of the logs: a token gets candidates only if it has as many auth logs as request logs and each of them,
      in the order of time, is at most 30 seconds from its partner; then exactly for its auth logs without credits in
      the billing state none, each with the credits of its partner. */
  lemma DueExactly(auths: seq<AuthLog>, requests: seq<RequestLog>, tokenId: string, c: Candidate)
    ensures var a, r := AuthInOrder(AuthsOf(auths, tokenId)), RequestsInOrder(RequestsOf(requests, tokenId));
            c in Due(auths, requests, tokenId) <==>
              && |a| == |r| && (forall i :: 0 <= i < |a| ==> -30 <= a[i].createdAt - r[i].createdAt <= 30)
              && exists i :: 0 <= i < |a| && a[i].businessCredits == None && a[i].billingState == "none" &&
                   c == Candidate(a[i].id, r[i].id, tokenId, a[i].createdAt, r[i].credits)
  {
    hide Pairable, Repairs, AuthsOf, RequestsOf;
    var a, r := AuthInOrder(AuthsOf(auths, tokenId)), RequestsInOrder(RequestsOf(requests, tokenId));
    if |a| == |r| {
      SortedPairingDecides(AuthsOf(auths, tokenId), RequestsOf(requests, tokenId));
      RepairsAreTheUnbilledPairs(a, r, tokenId);
      hide AuthInOrder, RequestsInOrder;
      forall i | 0 <= i < |a| ensures WithinSkew(a[i], r[i]) <==> -30 <= a[i].createdAt - r[i].createdAt <= 30 {
      }
    }
  }

  method GroupAuths(logs: seq<AuthLog>) returns (byToken: map<string, seq<AuthLog>>)
    ensures forall t :: AuthsOf(logs, t) == if t in byToken then byToken[t] else []
  {
    byToken := map[];
    for i := 0 to |logs|
      invariant forall t :: AuthsOf(logs[..i], t) == if t in byToken then byToken[t] else []
    {
      assert logs[..i + 1][..i] == logs[..i];
      var t := logs[i].tokenId;
      byToken := byToken[t := (if t in byToken then byToken[t] else []) + [logs[i]]];
    }
    assert logs[..|logs|] == logs;
  }

  method GroupRequests(logs: seq<RequestLog>) returns (byToken: map<string, seq<RequestLog>>)
    ensures forall t :: RequestsOf(logs, t) == if t in byToken then byToken[t] else []
  {
    byToken := map[];
    for i := 0 to |logs|
      invariant forall t :: RequestsOf(logs[..i], t) == if t in byToken then byToken[t] else []
    {
      assert logs[..i + 1][..i] == logs[..i];
      var t := logs[i].tokenId;
      byToken := byToken[t := (if t in byToken then byToken[t] else []) + [logs[i]]];
    }
    assert logs[..|logs|] == logs;
  }

  ghost predicate IsSkipped(skipped: seq<SkippedToken>, tokenId: string) {
    exists s :: s in skipped && s.tokenId == tokenId
  }

  /** The tokens listed in `done` have got what they are due, or are reported as skipped; no others. */
  ghost predicate Decided(auths: seq<AuthLog>, requests: seq<RequestLog>, done: seq<string>,
                          candidates: seq<Candidate>, skipped: seq<SkippedToken>) {
    && (forall t :: CandidatesOf(candidates, t) == if t in done then Due(auths, requests, t) else [])
    && (forall t :: IsSkipped(skipped, t) <==> t in done && !Repairable(auths, requests, t))
  }

  /** Every token is decided on its own: it gets all it is due, and it is reported as skipped exactly when
      it is not repairable. */
  method BuildCandidates(auths: seq<AuthLog>, requests: seq<RequestLog>)
    returns (candidates: seq<Candidate>, skipped: seq<SkippedToken>)
    ensures forall t :: CandidatesOf(candidates, t) == Due(auths, requests, t)
    ensures forall t :: IsSkipped(skipped, t) <==> !Repairable(auths, requests, t)
  {
    hide Repairable, Due, CandidatesOf, Decided, IsOutcome, IsSkipped;
    var authByToken := GroupAuths(auths);
    var requestByToken := GroupRequests(requests);
    var tokenIds := Sorting.InAnyOrder(authByToken.Keys + requestByToken.Keys);
    candidates, skipped := [], [];
    NothingDecided(auths, requests);
    for i := 0 to |tokenIds|
      invariant Decided(auths, requests, tokenIds[..i], candidates, skipped)
    {
      var t := tokenIds[i];
      var cs, skip := RepairToken(t, if t in authByToken then authByToken[t] else [],
                                  if t in requestByToken then requestByToken[t] else []);
      assert t !in tokenIds[..i];
      assert tokenIds[..i + 1] == tokenIds[..i] + [t];
      DecideOneMore(auths, requests, tokenIds[..i], candidates, skipped, t, cs, skip);
      candidates := candidates + cs;
      skipped := skipped + if skip.Some? then [skip.value] else [];
    }
    assert tokenIds[..|tokenIds|] == tokenIds;
    forall t | t !in tokenIds ensures AuthsOf(auths, t) == [] && RequestsOf(requests, t) == [] {
    }
    AllDecided(auths, requests, tokenIds, candidates, skipped);
  }

  lemma NothingDecided(auths: seq<AuthLog>, requests: seq<RequestLog>)
    ensures Decided(auths, requests, [], [], [])
  {
  }

  lemma DecideOneMore(auths: seq<AuthLog>, requests: seq<RequestLog>, done: seq<string>, candidates: seq<Candidate>,
                      skipped: seq<SkippedToken>, t: string, cs: seq<Candidate>, skip: Option<SkippedToken>)
    requires Decided(auths, requests, done, candidates, skipped) && t !in done
    requires IsOutcome(t, AuthsOf(auths, t), RequestsOf(requests, t), cs, skip)
    ensures Decided(auths, requests, done + [t], candidates + cs, skipped + if skip.Some? then [skip.value] else [])
  {
    hide Due, Repairable, IsOutcome, IsSkipped, CandidatesOf;
    TokenIsDecided(auths, requests, t, cs, skip);
    forall u ensures CandidatesOf(candidates + cs, u) == if u in done + [t] then Due(auths, requests, u) else [] {
      CandidatesOfConcat(candidates, cs, u);
    }
    if skip.Some? {
      forall u ensures IsSkipped(skipped + [skip.value], u) <==> IsSkipped(skipped, u) || u == skip.value.tokenId {
        SkippedOneMore(skipped, skip.value, u);
      }
    } else {
      assert skipped + [] == skipped;
    }
  }

  lemma SkippedOneMore(skipped: seq<SkippedToken>, s: SkippedToken, u: string)
    ensures IsSkipped(skipped + [s], u) <==> IsSkipped(skipped, u) || u == s.tokenId
  {
    assert s in skipped + [s];
    if x :| x in skipped && x.tokenId == u { assert x in skipped + [s]; }
  }

  lemma AllDecided(auths: seq<AuthLog>, requests: seq<RequestLog>, done: seq<string>, candidates: seq<Candidate>,
                   skipped: seq<SkippedToken>)
    requires Decided(auths, requests, done, candidates, skipped)
    requires forall t :: t !in done ==> AuthsOf(auths, t) == [] && RequestsOf(requests, t) == []
    ensures forall t :: CandidatesOf(candidates, t) == Due(auths, requests, t)
    ensures forall t :: IsSkipped(skipped, t) <==> !Repairable(auths, requests, t)
  {
    forall t | t !in done ensures Repairable(auths, requests, t) && Due(auths, requests, t) == [] {
      UnseenTokenIsRepairable(auths, requests, t);
    }
  }

  lemma TokenIsDecided(auths: seq<AuthLog>, requests: seq<RequestLog>, t: string, cs: seq<Candidate>,
                       skip: Option<SkippedToken>)
    requires IsOutcome(t, AuthsOf(auths, t), RequestsOf(requests, t), cs, skip)
    ensures skip.Some? ==> skip.value.tokenId == t
    ensures skip.Some? <==> !Repairable(auths, requests, t)
    ensures cs == Due(auths, requests, t)
    ensures forall u :: CandidatesOf(cs, u) == if u == t then cs else []
  {
    forall u ensures CandidatesOf(cs, u) == if u == t then cs else [] {
      if skip.None? {
        RepairsBelongToToken(AuthInOrder(AuthsOf(auths, t)), RequestsInOrder(RequestsOf(requests, t)), t, u);
      }
    }
  }

  lemma UnseenTokenIsRepairable(auths: seq<AuthLog>, requests: seq<RequestLog>, t: string)
    requires AuthsOf(auths, t) == [] && RequestsOf(requests, t) == []
    ensures Repairable(auths, requests, t) && Due(auths, requests, t) == []
  {
    assert IsPairing([], [], [], []) && AllWithinSkew([], []);
  }
}
