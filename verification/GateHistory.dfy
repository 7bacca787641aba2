/** The gate seen from outside: its decisions along a history, without its keys or its reference. */
module GateHistory {
  import opened Collections
  import opened AdmissionGate

  /** The i-th visit was admitted and its token has not left before the n-th visit. */
  ghost predicate Stays(h: seq<Visit>, decisions: seq<bool>, n: nat, i: nat)
    requires n <= |h| == |decisions|
  {
    && i < n && h[i].Entering? && decisions[i]
    && forall j :: i < j < n && h[j].Leaving? ==> h[j].token != h[i].token
  }

  /** The tokens admitted less than 10000 ms before `now` that have not left. */
  ghost function Holders(h: seq<Visit>, decisions: seq<bool>, n: nat, now: Millis): set<Token>
    requires n <= |h| == |decisions|
  {
    set i: nat | i < n && Stays(h, decisions, n, i) && now < h[i].at + 10000 :: h[i].token
  }

  ghost predicate Admitted(h: seq<Visit>, decisions: seq<bool>, n: nat, i: nat)
    requires n <= |h| == |decisions|
  {
    i < n && h[i].Entering? && decisions[i]
  }

  // ---------- the reference read off the history ----------

  lemma {:induction false} LogAfterLast(limits: Limits, log: Log, h: seq<Visit>, v: Visit)
    ensures LogAfter(limits, log, h + [v]) == LogStep(limits, LogAfter(limits, log, h), v)
    decreases |h|
  {
    if h == [] {
      assert h + [v] == [v];
      assert LogAfter(limits, LogStep(limits, log, v), [v][1..]) == LogStep(limits, log, v);
    } else {
      assert (h + [v])[0] == h[0] && (h + [v])[1..] == h[1..] + [v];
      LogAfterLast(limits, LogStep(limits, log, h[0]), h[1..], v);
    }
  }

  lemma {:induction false} LogDecisionAt(limits: Limits, log: Log, h: seq<Visit>, i: nat)
    requires i < |h|
    ensures |LogDecisions(limits, log, h)| == |h|
    ensures LogDecisions(limits, log, h)[i] == (h[i].Entering? && LogAdmits(limits, LogAfter(limits, log, h[..i]), h[i].at))
    decreases |h|
  {
    if i > 0 {
      LogDecisionAt(limits, LogStep(limits, log, h[0]), h[1..], i - 1);
      assert h[..i][0] == h[0] && h[..i][1..] == h[1..][..i - 1];
    } else {
      assert h[..0] == [];
      if |h| > 1 { LogDecisionAt(limits, LogStep(limits, log, h[0]), h[1..], 0); }
    }
  }

  ghost predicate EnteredMeans(log: Log, h: seq<Visit>, decisions: seq<bool>, n: nat)
    requires n <= |h| == |decisions|
  {
    && (forall i: nat :: Stays(h, decisions, n, i) ==> h[i].token in log.entered && h[i].at <= log.entered[h[i].token])
    && (forall t :: t in log.entered ==> exists i: nat :: Stays(h, decisions, n, i) && h[i].token == t && h[i].at == log.entered[t])
  }

  ghost predicate LastMeans(log: Log, h: seq<Visit>, decisions: seq<bool>, n: nat)
    requires n <= |h| == |decisions|
  {
    && (forall i: nat :: Admitted(h, decisions, n, i) ==> log.last.Some? && h[i].at <= log.last.value)
    && (log.last.Some? ==> exists i: nat :: Admitted(h, decisions, n, i) && h[i].at == log.last.value)
  }

  lemma StaysOn(h: seq<Visit>, decisions: seq<bool>, n: nat, i: nat)
    requires n < |h| == |decisions| && i < n
    ensures Stays(h, decisions, n + 1, i) <==> Stays(h, decisions, n, i) && !(h[n].Leaving? && h[n].token == h[i].token)
  {
  }

  lemma EnteredOn(limits: Limits, log: Log, h: seq<Visit>, decisions: seq<bool>, n: nat)
    requires n < |h| == |decisions| && EnteredMeans(log, h, decisions, n)
    requires decisions[n] == (h[n].Entering? && LogAdmits(limits, log, h[n].at))
    requires forall i :: 0 <= i < n ==> h[i].at <= h[n].at
    ensures EnteredMeans(LogStep(limits, log, h[n]), h, decisions, n + 1)
  {
    var after := LogStep(limits, log, h[n]);
    forall i: nat | Stays(h, decisions, n + 1, i)
      ensures h[i].token in after.entered && h[i].at <= after.entered[h[i].token]
    {
      if i < n { StaysOn(h, decisions, n, i); }
    }
    forall t | t in after.entered
      ensures exists i: nat :: Stays(h, decisions, n + 1, i) && h[i].token == t && h[i].at == after.entered[t]
    {
      if decisions[n] && t == h[n].token {
        assert Stays(h, decisions, n + 1, n);
      } else {
        var i: nat :| Stays(h, decisions, n, i) && h[i].token == t && h[i].at == log.entered[t];
        StaysOn(h, decisions, n, i);
      }
    }
  }

  lemma LastOn(limits: Limits, log: Log, h: seq<Visit>, decisions: seq<bool>, n: nat)
    requires n < |h| == |decisions| && LastMeans(log, h, decisions, n)
    requires decisions[n] == (h[n].Entering? && LogAdmits(limits, log, h[n].at))
    requires forall i :: 0 <= i < n ==> h[i].at <= h[n].at
    ensures LastMeans(LogStep(limits, log, h[n]), h, decisions, n + 1)
  {
    var after := LogStep(limits, log, h[n]);
    forall i: nat | Admitted(h, decisions, n + 1, i) ensures after.last.Some? && h[i].at <= after.last.value {
      assert i < n ==> Admitted(h, decisions, n, i);
    }
    if decisions[n] {
      assert Admitted(h, decisions, n + 1, n);
    } else if log.last.Some? {
      var i: nat :| Admitted(h, decisions, n, i) && h[i].at == log.last.value;
      assert Admitted(h, decisions, n + 1, i);
    }
  }

  lemma {:induction false} Sorted(h: seq<Visit>, i: nat, j: nat)
    requires Chronological(h, 0) && i <= j < |h|
    ensures h[i].at <= h[j].at
    decreases j - i
  {
    if i < j { Sorted(h, i, j - 1); }
  }

  ghost predicate Means(limits: Limits, h: seq<Visit>, decisions: seq<bool>, n: nat)
    requires n <= |h| == |decisions|
  {
    EnteredMeans(LogAfter(limits, NOTHING, h[..n]), h, decisions, n) && LastMeans(LogAfter(limits, NOTHING, h[..n]), h, decisions, n)
  }

  /** The decisions are those of the reference. */
  lemma DecisionAt(limits: Limits, h: seq<Visit>, n: nat)
    requires Chronological(h, 0) && n < |h|
    ensures |Decisions(limits, EMPTY, h)| == |h|
    ensures Decisions(limits, EMPTY, h)[n] == (h[n].Entering? && LogAdmits(limits, LogAfter(limits, NOTHING, h[..n]), h[n].at))
  {
    GateRefinesLog(limits, h);
    LogDecisionAt(limits, NOTHING, h, n);
  }

  lemma MeansOn(limits: Limits, h: seq<Visit>, decisions: seq<bool>, n: nat)
    requires Chronological(h, 0) && n < |h| == |decisions| && Means(limits, h, decisions, n)
    requires decisions[n] == (h[n].Entering? && LogAdmits(limits, LogAfter(limits, NOTHING, h[..n]), h[n].at))
    ensures Means(limits, h, decisions, n + 1)
  {
    forall i | 0 <= i < n ensures h[i].at <= h[n].at { Sorted(h, i, n); }
    EnteredOn(limits, LogAfter(limits, NOTHING, h[..n]), h, decisions, n);
    LastOn(limits, LogAfter(limits, NOTHING, h[..n]), h, decisions, n);
    LogAfterLast(limits, NOTHING, h[..n], h[n]);
    assert h[..n + 1] == h[..n] + [h[n]];
  }

  lemma DecisionCount(limits: Limits, r: Redis, h: seq<Visit>)
    ensures |Decisions(limits, r, h)| == |h|
    decreases |h|
  {
    if h != [] { DecisionCount(limits, Step(limits, r, h[0]), h[1..]); }
  }

  lemma {:induction false} LogMeans(limits: Limits, h: seq<Visit>, n: nat)
    requires Chronological(h, 0) && n <= |h|
    ensures |Decisions(limits, EMPTY, h)| == |h| && Means(limits, h, Decisions(limits, EMPTY, h), n)
  {
    DecisionCount(limits, EMPTY, h);
    if n == 0 {
      assert h[..0] == [];
    } else {
      LogMeans(limits, h, n - 1);
      DecisionAt(limits, h, n - 1);
      MeansOn(limits, h, Decisions(limits, EMPTY, h), n - 1);
    }
  }

  lemma HoldersAreInside(log: Log, h: seq<Visit>, decisions: seq<bool>, n: nat, now: Millis)
    requires n <= |h| == |decisions| && EnteredMeans(log, h, decisions, n)
    ensures Holders(h, decisions, n, now) == Inside(log, now)
  {
    forall t ensures t in Holders(h, decisions, n, now) <==> t in Inside(log, now) {
      if t in Inside(log, now) {
        var i: nat :| Stays(h, decisions, n, i) && h[i].token == t && h[i].at == log.entered[t];
      }
    }
  }

  // ---------- the bounds ----------

  /** After any history, at any later time, at most `permits` tokens that were admitted less than
      10000 ms ago have not left. */
  lemma PermitsNeverExceeded(limits: Limits, h: seq<Visit>, now: Millis)
    requires Chronological(h, 0) && (h != [] ==> h[|h| - 1].at <= now)
    ensures |Decisions(limits, EMPTY, h)| == |h|
    ensures |Holders(h, Decisions(limits, EMPTY, h), |h|, now)| <= if limits.permits > 0 then limits.permits else 0
  {
    LogMeans(limits, h, |h|);
    assert h[..|h|] == h;
    HoldersAreInside(LogAfter(limits, NOTHING, h), h, Decisions(limits, EMPTY, h), |h|, now);
    InsideNeverExceeded(limits, h, now);
  }

  /** No admission before the n-th visit is closer to it than ceil(1000 / rate) ms. */
  ghost predicate Paced(limits: Limits, h: seq<Visit>, decisions: seq<bool>, n: nat)
    requires n < |h| == |decisions|
  {
    limits.rate > 0 ==> forall i: nat :: Admitted(h, decisions, n, i) ==> h[i].at + Interval(limits.rate) <= h[n].at
  }

  /** A request is admitted exactly when fewer than `permits` tokens were admitted less than
      10000 ms ago and have not left, and, with a rate, the last admission is long enough ago. */
  lemma AdmittedExactlyWhen(limits: Limits, h: seq<Visit>, n: nat)
    requires Chronological(h, 0) && n < |h| && h[n].Entering?
    ensures var decisions := Decisions(limits, EMPTY, h);
            && |decisions| == |h|
            && (decisions[n] <==> |Holders(h, decisions, n, h[n].at)| < limits.permits && Paced(limits, h, decisions, n))
  {
    LogMeans(limits, h, n);
    DecisionAt(limits, h, n);
    HoldersAreInside(LogAfter(limits, NOTHING, h[..n]), h, Decisions(limits, EMPTY, h), n, h[n].at);
  }

  /** The permit key outlives the permits by a second and the rate key its time: a key vanishes
      11000 ms after the last admission, or one second after the next admission is allowed. */
  lemma KeysVanish(limits: Limits, r: Redis, token: Token, now: Millis, later: Millis)
    requires Admits(limits, r, now) && now <= later
    ensures var q := Enter(limits, r, token, now);
            && (Present(q, later).holders == (if later <= now + 11000 then q.holders else map[]))
            && token in q.holders
            && (limits.rate > 0 ==>
                 Present(q, later).next == if later <= now + Interval(limits.rate) + 1000 then Some(now + Interval(limits.rate)) else None)
  {
  }
}
