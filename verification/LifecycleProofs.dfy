/** What every step of the finding lifecycle keeps, for every policy and every result. */
module LifecycleProofs {
  import opened Order
  import opened Evidence
  import opened Pipeline
  import opened Lifecycle

  // ---------------------------------------------------------------- replaying transitions

  /** What a reader of the transition log can reconstruct. */
  datatype Ledger = Ledger(ids: set<string>, retired: set<string>)

  /** What each kind of transition says about its finding at the moment it is emitted. */
  predicate Legal(l: Ledger, t: Transition) {
    match t.kind
    case New => t.finding !in l.ids && t.finding !in l.retired
    case Reappeared => t.finding in l.ids || t.finding in l.retired
    case _ => t.finding in l.ids
  }

  function Replay(l: Ledger, t: Transition): (r: Ledger) {
    match t.kind
    case New => Ledger(l.ids + {t.finding}, l.retired - {t.finding})
    case Reappeared => Ledger(l.ids + {t.finding}, l.retired - {t.finding})
    case Recovered => Ledger(l.ids - {t.finding}, l.retired + {t.finding})
    case Removed => Ledger(l.ids - {t.finding}, l.retired + {t.finding})
    case _ => l
  }

  function ReplayAll(l: Ledger, ts: seq<Transition>): (r: Ledger)
    decreases |ts|
  {
    if ts == [] then l else Replay(ReplayAll(l, ts[..|ts| - 1]), ts[|ts| - 1])
  }

  predicate LegalAll(l: Ledger, ts: seq<Transition>)
    decreases |ts|
  {
    ts == [] || (LegalAll(l, ts[..|ts| - 1]) && Legal(ReplayAll(l, ts[..|ts| - 1]), ts[|ts| - 1]))
  }

  lemma ReplayPush(l: Ledger, ts: seq<Transition>, t: Transition)
    ensures ReplayAll(l, ts + [t]) == Replay(ReplayAll(l, ts), t)
    ensures LegalAll(l, ts + [t]) <==> LegalAll(l, ts) && Legal(ReplayAll(l, ts), t)
  {
    assert (ts + [t])[..|ts|] == ts;
  }

  lemma {:induction false} ReplayConcat(l: Ledger, a: seq<Transition>, b: seq<Transition>)
    ensures ReplayAll(l, a + b) == ReplayAll(ReplayAll(l, a), b)
    ensures LegalAll(l, a + b) <==> LegalAll(l, a) && LegalAll(ReplayAll(l, a), b)
    decreases |b|
  {
    if b == [] {
      assert a + b == a;
    } else {
      var n := |b| - 1;
      ReplayConcat(l, a, b[..n]);
      assert a + b == (a + b[..n]) + [b[n]];
      ReplayPush(l, a + b[..n], b[n]);
    }
  }

  // ---------------------------------------------------------------- well-formed snapshots

  /** Findings are stored under their identifier, and nothing is both present and retired. */
  ghost predicate Wf(s: Snapshot) {
    && (forall id :: id in s.findings ==> s.findings[id].id == id)
    && s.findings.Keys !! s.retired.Keys
  }

  function Larger(a: nat, b: nat): (r: nat) { if a >= b then a else b }

  function LedgerOf(s: Snapshot): (r: Ledger) { Ledger(s.findings.Keys, s.retired.Keys) }

  // ---------------------------------------------------------------- the scan

  /** What the scan has kept since it started from ledger `l` with `size` findings. */
  ghost predicate ScanOk(job: Job, l: Ledger, size: nat, s: Scan) {
    && (forall id :: id in s.findings ==> s.findings[id].id == id)
    && s.findings.Keys !! s.retired.Keys
    && LegalAll(l, s.transitions)
    && ReplayAll(l, s.transitions) == Ledger(s.findings.Keys, s.retired.Keys)
    && |s.findings| <= Larger(size, job.maxFindings)
  }

  function Announced(job: Job, now: Time, o: Observation, f: Finding, s: Scan): (r: seq<Transition>) {
    Note(s.transitions, now, f.id, Change(Previous(s.findings, f.id), f.id in s.retired, Dress(job, o, f).severity))
  }

  lemma AcceptFindings(job: Job, now: Time, o: Observation, f: Finding, admission: Admission, s: Scan)
    ensures var r := Accept(job, now, o, f, admission, s);
      && r.current == s.current + {f.id} && r.clear == s.clear && r.transitions == Announced(job, now, o, f, s)
      && f.id in r.findings && r.findings[f.id].id == f.id && r.findings[f.id].clearCount == 0
      && (forall id :: id != f.id ==> (id in r.findings <==> id in s.findings))
      && (forall id :: id in s.findings && id != f.id ==> r.findings[id] == s.findings[id])
      && r.retired == s.retired - {f.id}
  {
    hide Change, Note, Dress;
  }

  predicate Fits(job: Job, f: Finding, s: Scan) { f.id in s.findings || |s.findings| < job.maxFindings }

  /** The findings after a report, whatever it does. */
  lemma ReportFindings(z: Sizes, job: Job, now: Time, o: Observation, prior: Option<Observation>, f: Finding, s: Scan)
    ensures var r := Report(z, job, now, o, prior, f, s);
      && r.current == s.current + {f.id} && r.clear == s.clear
      && (!Fits(job, f, s) ==> r.findings == s.findings && r.retired == s.retired && r.transitions == s.transitions && r.capped)
      && (Fits(job, f, s) ==>
            && r.transitions == Announced(job, now, o, f, s)
            && f.id in r.findings && r.findings[f.id].id == f.id && r.findings[f.id].clearCount == 0
            && (forall id :: id != f.id ==> (id in r.findings <==> id in s.findings))
            && (forall id :: id in s.findings && id != f.id ==> r.findings[id] == s.findings[id])
            && r.retired == s.retired - {f.id})
  {
    hide Accept, Announced, Admit, Capture;
    var previous := Previous(s.findings, f.id);
    var admission := Admit(z, Capture(job, o, prior, previous), previous, s.remaining);
    AcceptFindings(job, now, o, f, admission, s);
  }

  lemma InsertSize(m: map<string, Finding>, r: map<string, Finding>, id: string, size: nat, cap: nat)
    requires r.Keys == m.Keys + {id} && |m| <= Larger(size, cap) && (id in m || |m| < cap)
    ensures |r| <= Larger(size, cap)
  {
    assert |r| == |r.Keys| && |m| == |m.Keys|;
    if id in m {
      assert m.Keys + {id} == m.Keys;
    }
  }

  /** The transition of a stored report moves the ledger exactly as the maps moved. */
  lemma NoteOk(l: Ledger, now: Time, id: string, ts: seq<Transition>,
      findings: map<string, Finding>, retired: map<string, Transition>, severity: Severity)
    requires LegalAll(l, ts) && ReplayAll(l, ts) == Ledger(findings.Keys, retired.Keys) && findings.Keys !! retired.Keys
    ensures var after := Note(ts, now, id, Change(Previous(findings, id), id in retired, severity));
      LegalAll(l, after) && ReplayAll(l, after) == Ledger(findings.Keys + {id}, retired.Keys - {id})
  {
    hide ReplayAll, LegalAll;
    var kind := Change(Previous(findings, id), id in retired, severity);
    if kind.Some? {
      ReplayPush(l, ts, Transition(now, id, kind.value));
    }
    assert id in findings ==> findings.Keys + {id} == findings.Keys && retired.Keys - {id} == retired.Keys;
  }

  lemma ReportOk(z: Sizes, job: Job, now: Time, o: Observation, prior: Option<Observation>, f: Finding, l: Ledger, size: nat, s: Scan)
    requires ScanOk(job, l, size, s)
    ensures ScanOk(job, l, size, Report(z, job, now, o, prior, f, s))
  {
    hide ReplayAll, LegalAll, Report, Dress, Note, Change;
    ReportFindings(z, job, now, o, prior, f, s);
    var r := Report(z, job, now, o, prior, f, s);
    if Fits(job, f, s) {
      KeysGrow(s.findings, r.findings, f.id);
      InsertSize(s.findings, r.findings, f.id, size, job.maxFindings);
      NoteOk(l, now, f.id, s.transitions, s.findings, s.retired, Dress(job, o, f).severity);
    }
  }

  lemma KeysGrow(m: map<string, Finding>, r: map<string, Finding>, id: string)
    requires id in r && forall k :: k != id ==> (k in r <==> k in m)
    ensures r.Keys == m.Keys + {id}
  {
  }

  lemma {:induction false} ReportAllOk(z: Sizes, job: Job, now: Time, o: Observation, prior: Option<Observation>, fs: seq<Finding>,
      l: Ledger, size: nat, s: Scan)
    requires ScanOk(job, l, size, s)
    ensures ScanOk(job, l, size, ReportAll(z, job, now, o, prior, fs, s))
    decreases |fs|
  {
    if fs != [] {
      ReportOk(z, job, now, o, prior, fs[0], l, size, s);
      ReportAllOk(z, job, now, o, prior, fs[1..], l, size, Report(z, job, now, o, prior, fs[0], s));
    }
  }

  lemma {:induction false} AssessAllOk(z: Sizes, job: Job, policy: Policy, now: Time, complete: set<string>, previous: Option<CheckResult>,
                    i: nat, obs: seq<Observation>, l: Ledger, size: nat, s: Scan)
    requires i <= |obs| && ScanOk(job, l, size, s)
    ensures ScanOk(job, l, size, AssessAll(z, job, policy, now, complete, previous, i, obs, s))
    decreases |obs| - i
  {
    if i < |obs| {
      var e := Evaluate(job, policy, previous, i, obs[i]);
      ReportAllOk(z, job, now, obs[i], Prior(previous, obs[i].resource), e.findings, l, size, Rate(job, complete, obs[i], e, s));
      AssessAllOk(z, job, policy, now, complete, previous, i + 1, obs, l, size,
                  Assess(z, job, policy, now, complete, previous, i, obs[i], s));
    }
  }

  lemma ScannedOk(z: Sizes, s: Snapshot, x: Input)
    requires Wf(s)
    ensures ScanOk(x.job, LedgerOf(s), |s.findings|, Scanned(z, s, x))
  {
    hide AssessAll, Validity, Bounded, CompleteIds, Stored;
    AssessAllOk(z, x.job, x.policy, x.now, CompleteIds(Validity(z, s, x).operations), Stored(s.results, x.job.key),
                0, Bounded(z, s, x).observations, LedgerOf(s), |s.findings|, InitialScan(z, s, x));
  }

  // ---------------------------------------------------------------- settling

  function RemovedIds(removed: seq<(string, Kind)>): (r: set<string>) {
    set i | 0 <= i < |removed| :: removed[i].0
  }

  lemma RemovedPush(removed: seq<(string, Kind)>, id: string, kind: Kind)
    ensures RemovedIds(removed + [(id, kind)]) == RemovedIds(removed) + {id}
  {
    var grown := removed + [(id, kind)];
    assert grown[|removed|].0 == id;
    assert forall i :: 0 <= i < |removed| ==> grown[i] == removed[i];
  }

  /** The log accounts for the findings marked for removal although they are still stored. */
  ghost predicate SettleOk(l: Ledger, findings: set<string>, retired: set<string>, todo: set<string>, s: Settling) {
    && s.findings.Keys == findings
    && (forall id :: id in s.findings ==> s.findings[id].id == id)
    && LegalAll(l, s.transitions)
    && ReplayAll(l, s.transitions) == Ledger(findings - RemovedIds(s.removed), retired + RemovedIds(s.removed))
    && RemovedIds(s.removed) !! todo
    && RemovedIds(s.removed) <= findings
  }

  /** A visit marks the finding as recovered or removed, or announces nothing. */
  ghost predicate Marks(now: Time, id: string, s: Settling, r: Settling) {
    && r.findings.Keys == s.findings.Keys
    && (forall k :: k in s.findings ==> r.findings[k].id == s.findings[k].id)
    && ((r.transitions == s.transitions && r.removed == s.removed)
        || exists kind: Kind :: MarksAs(now, id, s, r, kind))
  }

  ghost predicate MarksAs(now: Time, id: string, s: Settling, r: Settling, kind: Kind) {
    && (kind.Recovered? || kind.Removed?)
    && r.transitions == s.transitions + [Transition(now, id, kind)] && r.removed == s.removed + [(id, kind)]
  }

  lemma SettleOneMarks(job: Job, now: Time, x: Facts, id: string, s: Settling)
    requires id in s.findings
    ensures Marks(now, id, s, SettleOne(job, now, x, id, s))
  {
    hide ClearTime, AbsentNow, AbsenceTime, ConfirmationKey, Confirm;
    var r := SettleOne(job, now, x, id, s);
    if r.transitions != s.transitions {
      var kind := r.transitions[|s.transitions|].kind;
      assert MarksAs(now, id, s, r, kind);
    }
  }

  lemma MarkedOk(now: Time, id: string, l: Ledger, findings: set<string>, retired: set<string>,
                 todo: set<string>, s: Settling, r: Settling, kind: Kind)
    requires SettleOk(l, findings, retired, todo, s) && id in todo && id in findings && findings !! retired
    requires Marks(now, id, s, r) && MarksAs(now, id, s, r, kind)
    ensures SettleOk(l, findings, retired, todo - {id}, r)
  {
    hide LegalAll, RemovedIds;
    ReplayPush(l, s.transitions, Transition(now, id, kind));
    RemovedPush(s.removed, id, kind);
    var gone := RemovedIds(s.removed);
    assert findings - gone - {id} == findings - (gone + {id});
    assert retired + gone + {id} == retired + (gone + {id});
  }

  lemma SettleOneOk(job: Job, now: Time, x: Facts, id: string, l: Ledger, findings: set<string>, retired: set<string>,
                    todo: set<string>, s: Settling)
    requires SettleOk(l, findings, retired, todo, s) && id in todo && id in findings && findings !! retired
    ensures SettleOk(l, findings, retired, todo - {id}, SettleOne(job, now, x, id, s))
  {
    hide LegalAll, RemovedIds, ReplayAll, SettleOne;
    SettleOneMarks(job, now, x, id, s);
    var r := SettleOne(job, now, x, id, s);
    if kind: Kind :| MarksAs(now, id, s, r, kind) {
      MarkedOk(now, id, l, findings, retired, todo, s, r, kind);
    }
  }

  function SetOf(ids: seq<string>): (r: set<string>) { set id | id in ids }

  lemma {:induction false} SettleAllOk(job: Job, now: Time, x: Facts,
      ids: seq<string>, l: Ledger, findings: set<string>, retired: set<string>, s: Settling)
    requires SettleOk(l, findings, retired, SetOf(ids), s) && findings !! retired
    requires forall i :: 0 <= i < |ids| ==> ids[i] in findings
    requires forall i, j :: 0 <= i < j < |ids| ==> ids[i] != ids[j]
    ensures SettleOk(l, findings, retired, {}, SettleAll(job, now, x, ids, s))
    decreases |ids|
  {
    if ids != [] {
      assert ids == [ids[0]] + ids[1..];
      assert SetOf(ids[1..]) == SetOf(ids) - {ids[0]};
      SettleOneOk(job, now, x, ids[0], l, findings, retired, SetOf(ids), s);
      SettleAllOk(job, now, x, ids[1..], l, findings, retired, SettleOne(job, now, x, ids[0], s));
    } else {
      assert SetOf(ids) == {};
    }
  }

  lemma SettleStart(l: Ledger, scan: Scan, confirmations: map<string, Confirmation>, todo: set<string>)
    requires forall id :: id in scan.findings ==> scan.findings[id].id == id
    requires LegalAll(l, scan.transitions) && ReplayAll(l, scan.transitions) == Ledger(scan.findings.Keys, scan.retired.Keys)
    ensures SettleOk(l, scan.findings.Keys, scan.retired.Keys, todo,
                     Settling(scan.findings, confirmations, scan.transitions, []))
  {
    hide ReplayAll, LegalAll, RemovedIds;
    NoRemovedIds(scan.findings.Keys, scan.retired.Keys);
  }

  lemma NoRemovedIds(a: set<string>, b: set<string>)
    ensures RemovedIds([]) == {} && a - RemovedIds([]) == a && b + RemovedIds([]) == b
  {
  }

  lemma SettledOk(z: Sizes, s: Snapshot, x: Input)
    requires Wf(s)
    ensures SettleOk(LedgerOf(s), Scanned(z, s, x).findings.Keys, Scanned(z, s, x).retired.Keys, {}, Settled(z, s, x))
  {
    hide Scanned, FactsOf, SettleAll, SettleOk, SetOf, Less;
    ScannedOk(z, s, x);
    var scan := Scanned(z, s, x);
    assert scan.findings.Keys !! scan.retired.Keys;
    SettleStart(LedgerOf(s), scan, s.confirmations, SetOf(Keys(scan.findings.Keys)));
    SettleAllOk(x.job, x.now, FactsOf(z, s, x), Keys(scan.findings.Keys), LedgerOf(s), scan.findings.Keys, scan.retired.Keys,
                Settling(scan.findings, s.confirmations, scan.transitions, []));
  }

  // ---------------------------------------------------------------- retirement

  lemma {:induction false} RetireOk(now: Time, removed: seq<(string, Kind)>, s: Retiring)
    ensures Retire(now, removed, s).findings == s.findings - RemovedIds(removed)
    ensures Retire(now, removed, s).retired.Keys == s.retired.Keys + RemovedIds(removed)
    decreases |removed|
  {
    if removed == [] {
      assert RemovedIds(removed) == {};
      assert s.findings - {} == s.findings;
    } else {
      var (id, kind) := removed[0];
      assert removed == [removed[0]] + removed[1..];
      assert RemovedIds(removed) == {id} + RemovedIds(removed[1..]) by {
        forall k | k in RemovedIds(removed)
          ensures k in {id} + RemovedIds(removed[1..])
        {
          var i :| 0 <= i < |removed| && removed[i].0 == k;
          if i > 0 {
            assert removed[1..][i - 1].0 == k;
          }
        }
      }
      RetireOk(now, removed[1..], Retiring(s.findings - {id}, Forget(s.confirmations, id), s.retired[id := Transition(now, id, kind)]));
    }
  }

  lemma AgesFacts(retired: map<string, Transition>, a: (Time, string), b: (Time, string))
    requires a in Ages(retired) && b in Ages(retired)
    ensures a.1 in retired && (a.1 == b.1 ==> a == b)
  {
  }

  lemma TrimOk(retired: map<string, Transition>, limit: nat)
    ensures Trim(retired, limit).Keys <= retired.Keys
    ensures |Trim(retired, limit)| <= limit
  {
    hide Ages, Sorted, Less;
    OlderStrictTotal();
    var sorted := Sorted(Ages(retired), Older);
    var excess := SatSub(|retired|, limit);
    var gone := set i | 0 <= i < excess :: sorted[i].1;
    forall i, j | 0 <= i < j < |sorted|
      ensures sorted[i].1 != sorted[j].1 && sorted[i].1 in retired.Keys
    {
      assert sorted[i] in sorted && sorted[j] in sorted;
      AgesFacts(retired, sorted[i], sorted[j]);
    }
    forall k | k in gone
      ensures k in retired.Keys
    {
      var i :| 0 <= i < excess && sorted[i].1 == k;
      assert sorted[i] in sorted;
      AgesFacts(retired, sorted[i], sorted[i]);
    }
    GoneCount(sorted, excess);
    TrimCount(retired, gone);
  }

  lemma TrimCount(retired: map<string, Transition>, gone: set<string>)
    requires gone <= retired.Keys
    ensures (retired - gone).Keys <= retired.Keys && |retired - gone| == |retired| - |gone|
  {
    assert (retired - gone).Keys == retired.Keys - gone;
    assert |retired - gone| == |(retired - gone).Keys|;
    assert |retired| == |retired.Keys|;
  }

  /** The first `n` identifiers of a list whose identifiers differ are `n` in number. */
  lemma {:induction false} GoneCount(sorted: seq<(Time, string)>, n: nat)
    requires n <= |sorted|
    requires forall i, j :: 0 <= i < j < |sorted| ==> sorted[i].1 != sorted[j].1
    ensures |set i | 0 <= i < n :: sorted[i].1| == n
  {
    if n > 0 {
      GoneCount(sorted, n - 1);
      var fewer := set i | 0 <= i < n - 1 :: sorted[i].1;
      assert (set i | 0 <= i < n :: sorted[i].1) == fewer + {sorted[n - 1].1};
    }
  }

  // ---------------------------------------------------------------- expiry

  lemma {:induction false} StaleNotes(l: Ledger, ts: seq<Transition>)
    requires forall i :: 0 <= i < |ts| ==> ts[i].kind == WentStale && ts[i].finding in l.ids
    ensures LegalAll(l, ts) && ReplayAll(l, ts) == l
    decreases |ts|
  {
    if ts != [] {
      StaleNotes(l, ts[..|ts| - 1]);
    }
  }

  lemma {:induction false} ExpireNotesStale(findings: map<string, Finding>, ids: seq<string>, freshness: nat, now: Time)
    requires forall i :: 0 <= i < |ids| ==> ids[i] in findings
    requires forall id :: id in findings ==> findings[id].id == id
    ensures forall t :: t in ExpireNotes(findings, ids, freshness, now) ==> t.kind == WentStale && t.finding in findings
  {
    if ids != [] {
      ExpireNotesStale(findings, ids[1..], freshness, now);
    }
  }

  lemma ExpiredOk(l: Ledger, s: Snapshot, freshness: nat, now: Time)
    requires (forall id :: id in s.findings ==> s.findings[id].id == id) && s.findings.Keys <= l.ids
    ensures LegalAll(l, Expired(s, freshness, now)) && ReplayAll(l, Expired(s, freshness, now)) == l
  {
    hide Less, ExpireNotes;
    ExpireNotesStale(s.findings, Keys(s.findings.Keys), freshness, now);
    StaleNotes(l, Expired(s, freshness, now));
  }

  // ---------------------------------------------------------------- the step replays

  lemma RetiredOk(z: Sizes, s: Snapshot, x: Input)
    requires Wf(s)
    ensures var l := ReplayAll(LedgerOf(s), Settled(z, s, x).transitions);
      && l == Ledger(Retired(z, s, x).findings.Keys, Retired(z, s, x).retired.Keys)
      && LegalAll(LedgerOf(s), Settled(z, s, x).transitions)
      && (forall id :: id in Retired(z, s, x).findings ==> Retired(z, s, x).findings[id].id == id)
      && Retired(z, s, x).findings.Keys !! Retired(z, s, x).retired.Keys
      && |Retired(z, s, x).findings| <= Larger(|s.findings|, x.job.maxFindings)
  {
    hide Scanned, Settled, Retire, ReplayAll, LegalAll, RemovedIds;
    ScannedOk(z, s, x);
    SettledOk(z, s, x);
    var scan := Scanned(z, s, x);
    var t := Settled(z, s, x);
    RetireOk(x.now, t.removed, Retiring(t.findings, t.confirmations, scan.retired));
    FewerFindings(t.findings, RemovedIds(t.removed), scan.findings);
  }

  lemma FewerFindings(m: map<string, Finding>, gone: set<string>, n: map<string, Finding>)
    requires m.Keys == n.Keys
    ensures (m - gone).Keys == m.Keys - gone && |m - gone| <= |n|
  {
    assert (m - gone).Keys == m.Keys - gone;
    assert m.Keys == (m.Keys - gone) + (m.Keys * gone);
    assert |m.Keys| == |m.Keys - gone| + |m.Keys * gone|;
    assert |m - gone| == |(m - gone).Keys| && |n| == |n.Keys|;
  }

  lemma ReplacedOk(z: Sizes, s: Snapshot, x: Input)
    requires Wf(s)
    ensures Wf(Replaced(z, s, x))
    ensures LegalAll(LedgerOf(s), Settled(z, s, x).transitions)
    ensures ReplayAll(LedgerOf(s), Settled(z, s, x).transitions).ids == Replaced(z, s, x).findings.Keys
    ensures Replaced(z, s, x).retired.Keys <= ReplayAll(LedgerOf(s), Settled(z, s, x).transitions).retired
    ensures |Replaced(z, s, x).findings| <= Larger(|s.findings|, x.job.maxFindings)
    ensures |Replaced(z, s, x).retired| <= x.job.maxFindings
  {
    hide Retired, Settled, Trim, Final, Scanned, Downgrade, AllResources, ReplayAll, LegalAll;
    RetiredOk(z, s, x);
    TrimOk(Retired(z, s, x).retired, x.job.maxFindings);
  }

  lemma ExpireKeepsWf(s: Snapshot, freshness: nat, now: Time)
    requires Wf(s)
    ensures Wf(ExpireSnapshot(s, freshness, now))
    ensures ExpireSnapshot(s, freshness, now).findings.Keys == s.findings.Keys
    ensures |ExpireSnapshot(s, freshness, now).findings| == |s.findings|
  {
    hide ExpireResult, IsOutdated, Limit, Expires;
    var r := ExpireSnapshot(s, freshness, now);
    assert r.findings.Keys == s.findings.Keys;
    assert |r.findings| == |r.findings.Keys| && |s.findings| == |s.findings.Keys|;
  }

  /**
    Replaying the transitions one application emits, expiry included, over the old finding
    identifiers yields exactly the new ones; each transition says the truth about its finding
    when it is emitted; and the bounds on findings and retired entries hold.
   */
  lemma StepReplays(z: Sizes, s: Snapshot, x: Input)
    requires Wf(s)
    ensures Wf(Step(z, s, x))
    ensures LegalAll(LedgerOf(s), Emitted(z, s, x))
    ensures ReplayAll(LedgerOf(s), Emitted(z, s, x)).ids == Step(z, s, x).findings.Keys
    ensures Step(z, s, x).retired.Keys <= ReplayAll(LedgerOf(s), Emitted(z, s, x)).retired
    ensures |Step(z, s, x).findings| <= Larger(|s.findings|, x.job.maxFindings)
    ensures |Step(z, s, x).retired| <= x.job.maxFindings
  {
    hide Replaced, Settled, Expired, ReplayAll, LegalAll;
    ReplacedOk(z, s, x);
    var mid := Replaced(z, s, x);
    var l := ReplayAll(LedgerOf(s), Settled(z, s, x).transitions);
    ExpiredOk(l, mid, x.job.freshness, x.now);
    ReplayConcat(LedgerOf(s), Settled(z, s, x).transitions, Expired(mid, x.job.freshness, x.now));
    ExpireKeepsWf(mid, x.job.freshness, x.now);
    assert Step(z, s, x).retired == mid.retired;
  }

  lemma {:induction false} ReplayIds(a: Ledger, b: Ledger, ts: seq<Transition>)
    requires a.ids == b.ids
    ensures ReplayAll(a, ts).ids == ReplayAll(b, ts).ids
    decreases |ts|
  {
    if ts != [] {
      ReplayIds(a, b, ts[..|ts| - 1]);
    }
  }

  /** The same for an application with its nested flow step: the two logs concatenate, the bounds combine. */
  lemma ApplyReplays(z: Sizes, s: Snapshot, x: Input, flow: Input)
    requires Wf(s)
    ensures var mid := Step(z, s, x); var r := Step(z, mid, flow);
      && Wf(r)
      && ReplayAll(LedgerOf(s), Emitted(z, s, x) + Emitted(z, mid, flow)).ids == r.findings.Keys
      && LegalAll(LedgerOf(s), Emitted(z, s, x)) && LegalAll(LedgerOf(mid), Emitted(z, mid, flow))
      && |r.findings| <= Larger(|s.findings|, Larger(x.job.maxFindings, flow.job.maxFindings))
      && |r.retired| <= flow.job.maxFindings
  {
    hide Step, Emitted, ReplayAll, LegalAll, Wf;
    var mid := Step(z, s, x);
    StepReplays(z, s, x);
    StepReplays(z, mid, flow);
    ReplayConcat(LedgerOf(s), Emitted(z, s, x), Emitted(z, mid, flow));
    ReplayIds(ReplayAll(LedgerOf(s), Emitted(z, s, x)), LedgerOf(mid), Emitted(z, mid, flow));
  }

  // ---------------------------------------------------------------- the finding cap

  lemma {:induction false} NoSettling(job: Job, now: Time, x: Facts, ids: seq<string>, s: Settling)
    requires forall i :: 0 <= i < |ids| ==> ids[i] in s.findings
    requires x.clear == map[] && CompleteIds(x.operations) == {}
    ensures SettleAll(job, now, x, ids, s).findings == s.findings
    ensures SettleAll(job, now, x, ids, s).transitions == s.transitions
    ensures SettleAll(job, now, x, ids, s).removed == s.removed
    decreases |ids|
  {
    if ids != [] {
      NoSettlingOne(job, now, x, ids[0], s);
      NoSettling(job, now, x, ids[1..], SettleOne(job, now, x, ids[0], s));
    }
  }

  lemma NoSettlingOne(job: Job, now: Time, x: Facts, id: string, s: Settling)
    requires id in s.findings && x.clear == map[] && CompleteIds(x.operations) == {}
    ensures var r := SettleOne(job, now, x, id, s);
      r.findings == s.findings && r.transitions == s.transitions && r.removed == s.removed
  {
    var f := s.findings[id];
    assert f.evidence != [] ==> f.evidence[0] !in CompleteIds(x.operations);
  }

  lemma DegradedIncomplete(ops: seq<Operation>)
    ensures CompleteIds(Degrade(ops, Truncated)) == {}
  {
  }

  /**
    If the finding cap is hit anywhere in the scan, the whole result clears nothing and removes
    nothing, whatever the order of its observations.
   */
  lemma CapBlocksSettling(z: Sizes, s: Snapshot, x: Input)
    requires Scanned(z, s, x).capped
    ensures Settled(z, s, x).removed == [] && Settled(z, s, x).transitions == Scanned(z, s, x).transitions
    ensures Retired(z, s, x).findings == Scanned(z, s, x).findings
  {
    hide Scanned, SettleAll, CompleteIds, Degrade, Less;
    DegradedIncomplete(Bounded(z, s, x).operations);
    var facts := FactsOf(z, s, x);
    assert CompleteIds(facts.operations) == {};
    NoClear(Scanned(z, s, x).clear);
    var scan := Scanned(z, s, x);
    NoSettling(x.job, x.now, facts, Keys(scan.findings.Keys), Settling(scan.findings, s.confirmations, scan.transitions, []));
  }

  lemma NoClear(clear: map<string, Reading>)
    ensures RetainClear(clear, {}) == map[]
  {
  }

  // ---------------------------------------------------------------- health needs complete coverage

  lemma {:induction false} DowngradeOk(obs: seq<Observation>, complete: set<string>, health: map<string, Health>)
    ensures var r := Downgrade(obs, complete, health);
      && r.Keys == health.Keys
      && (forall k :: k in health ==> r[k] == health[k] || r[k] == Unknown)
      && (forall i :: 0 <= i < |obs| && obs[i].operation !in complete && obs[i].resource in r ==> !Clears(r[obs[i].resource]))
    decreases |obs|
  {
    if obs != [] {
      var o := obs[0];
      var next := if o.operation !in complete && o.resource in health && Clears(health[o.resource])
                  then health[o.resource := Unknown] else health;
      DowngradeOk(obs[1..], complete, next);
      var r := Downgrade(obs, complete, health);
      assert next.Keys == health.Keys;
      forall i | 0 <= i < |obs| && obs[i].operation !in complete && obs[i].resource in r
        ensures !Clears(r[obs[i].resource])
      {
        if i > 0 {
          assert obs[1..][i - 1] == obs[i];
        }
      }
    }
  }

  /**
    A resource seen under an operation without complete coverage is neither healthy nor
    expectedly inactive once the step is done, whatever was rated before or elsewhere.
   */
  lemma IncompleteNeverHealthy(z: Sizes, s: Snapshot, x: Input, i: nat)
    requires i < |Final(z, s, x).observations|
    requires Final(z, s, x).observations[i].operation !in CompleteIds(Final(z, s, x).operations)
    requires Final(z, s, x).observations[i].resource in Step(z, s, x).health
    ensures !Clears(Step(z, s, x).health[Final(z, s, x).observations[i].resource])
  {
    hide Final, Scanned, Retired, Trim, IsOutdated, Limit, ExpireResult, Expires, AllResources;
    var final := Final(z, s, x);
    DowngradeOk(final.observations, CompleteIds(final.operations), Scanned(z, s, x).health);
  }

  /** Coverage granted by the stored result was collected as such. */
  lemma StoredCoverage(z: Sizes, s: Snapshot, x: Input)
    ensures NoMoreComplete(x.collected.operations, Final(z, s, x).operations)
  {
    hide Prepared, Scanned, SumResults, SumAssets, Stored, Listed;
    CoverageOnlyDegrades(z, x.job, Stored(s.results, x.job.key), Listed(s.findings), SumResults(z, s.results - {x.job.key}),
                         x.correlate, x.collected, x.now);
    var a := Validity(z, s, x).operations;
    var b := Bounded(z, s, x).operations;
    assert NoMoreComplete(a, b);
    assert NoMoreComplete(b, Final(z, s, x).operations);
    DegradedTrans(x.collected.operations, a, b);
    DegradedTrans(x.collected.operations, b, Final(z, s, x).operations);
  }

  // ---------------------------------------------------------------- diagnostic bytes

  lemma {:induction false} SumWithout(z: Sizes, m: map<string, Finding>, k: string)
    requires k in m
    ensures SumFindings(z, m) == FindingBytes(z, m[k]) + SumFindings(z, m - {k})
    decreases |m|
  {
    var j :| j in m && SumFindings(z, m) == FindingBytes(z, m[j]) + SumFindings(z, m - {j});
    if j != k {
      SumWithout(z, m - {j}, k);
      SumWithout(z, m - {k}, j);
      assert m - {j} - {k} == m - {k} - {j};
    }
  }

  lemma SumUpdate(z: Sizes, m: map<string, Finding>, k: string, f: Finding)
    ensures SumFindings(z, m[k := f]) + (if k in m then FindingBytes(z, m[k]) else 0) == SumFindings(z, m) + FindingBytes(z, f)
  {
    SumWithout(z, m[k := f], k);
    if k in m {
      SumWithout(z, m, k);
      assert m[k := f] - {k} == m - {k};
    } else {
      assert m[k := f] - {k} == m;
    }
  }

  lemma {:induction false} SumSame(z: Sizes, m: map<string, Finding>, n: map<string, Finding>)
    requires m.Keys == n.Keys && forall k :: k in m ==> FindingBytes(z, m[k]) == FindingBytes(z, n[k])
    ensures SumFindings(z, m) == SumFindings(z, n)
    decreases |m|
  {
    if m == map[] {
      assert n == map[];
    } else {
      var k :| k in m;
      SumWithout(z, m, k);
      SumWithout(z, n, k);
      SumSame(z, m - {k}, n - {k});
    }
  }

  lemma {:induction false} SumFewer(z: Sizes, m: map<string, Finding>, gone: set<string>)
    ensures SumFindings(z, m - gone) <= SumFindings(z, m)
    decreases |m|
  {
    hide SumFindings;
    if k :| k in m && k in gone {
      SumWithout(z, m, k);
      SumFewer(z, m - {k}, gone);
      assert m - {k} - gone == m - gone;
    } else {
      assert m - gone == m;
    }
  }

  lemma ReportBytes(z: Sizes, job: Job, now: Time, o: Observation, prior: Option<Observation>, f: Finding, s: Scan)
    ensures SumFindings(z, Report(z, job, now, o, prior, f, s).findings) + Report(z, job, now, o, prior, f, s).remaining
         <= SumFindings(z, s.findings) + s.remaining
  {
    hide SumFindings, Change, Note;
    var previous := Previous(s.findings, f.id);
    var admission := Admit(z, Capture(job, o, prior, previous), previous, s.remaining);
    var dressed := Dress(job, o, f).(diagnostic := admission.diagnostic);
    SumUpdate(z, s.findings, f.id, dressed);
  }

  lemma {:induction false} ReportAllBytes(z: Sizes, job: Job, now: Time, o: Observation, prior: Option<Observation>, fs: seq<Finding>, s: Scan)
    ensures SumFindings(z, ReportAll(z, job, now, o, prior, fs, s).findings) + ReportAll(z, job, now, o, prior, fs, s).remaining
         <= SumFindings(z, s.findings) + s.remaining
    decreases |fs|
  {
    hide SumFindings, Report;
    if fs != [] {
      ReportBytes(z, job, now, o, prior, fs[0], s);
      ReportAllBytes(z, job, now, o, prior, fs[1..], Report(z, job, now, o, prior, fs[0], s));
    }
  }

  lemma {:induction false} AssessAllBytes(z: Sizes, job: Job, policy: Policy, now: Time, complete: set<string>, previous: Option<CheckResult>,
                                          i: nat, obs: seq<Observation>, s: Scan)
    requires i <= |obs|
    ensures var r := AssessAll(z, job, policy, now, complete, previous, i, obs, s);
      SumFindings(z, r.findings) + r.remaining <= SumFindings(z, s.findings) + s.remaining
    decreases |obs| - i
  {
    hide SumFindings, ReportAll, Evaluate;
    if i < |obs| {
      var e := Evaluate(job, policy, previous, i, obs[i]);
      ReportAllBytes(z, job, now, obs[i], Prior(previous, obs[i].resource), e.findings, Rate(job, complete, obs[i], e, s));
      AssessAllBytes(z, job, policy, now, complete, previous, i + 1, obs, Assess(z, job, policy, now, complete, previous, i, obs[i], s));
    }
  }

  lemma {:induction false} SettleBytes(z: Sizes, job: Job, now: Time, x: Facts, ids: seq<string>, s: Settling)
    requires forall i :: 0 <= i < |ids| ==> ids[i] in s.findings
    ensures forall k :: k in s.findings ==>
      SettleAll(job, now, x, ids, s).findings[k].diagnostic == s.findings[k].diagnostic
    decreases |ids|
  {
    if ids != [] {
      SettleBytes(z, job, now, x, ids[1..], SettleOne(job, now, x, ids[0], s));
      var next := SettleOne(job, now, x, ids[0], s);
      forall k | k in s.findings
        ensures next.findings[k].diagnostic == s.findings[k].diagnostic
      {
      }
    }
  }

  /** The retained diagnostics never exceed the larger of their old total and a quarter of memory. */
  lemma DiagnosticBytesBounded(z: Sizes, s: Snapshot, x: Input)
    ensures SumFindings(z, Step(z, s, x).findings) <= Larger(SumFindings(z, s.findings), x.job.memoryBytes / 4)
  {
    ScannedBytes(z, s, x);
    SettledBytes(z, s, x);
    ExpiredBytes(z, Replaced(z, s, x), x.job.freshness, x.now);
  }

  lemma ScannedBytes(z: Sizes, s: Snapshot, x: Input)
    ensures SumFindings(z, Scanned(z, s, x).findings) <= Larger(SumFindings(z, s.findings), x.job.memoryBytes / 4)
  {
    hide SumFindings, AssessAll, Validity, Bounded, CompleteIds;
    AssessAllBytes(z, x.job, x.policy, x.now, CompleteIds(Validity(z, s, x).operations), Stored(s.results, x.job.key),
                   0, Bounded(z, s, x).observations, InitialScan(z, s, x));
  }

  lemma SettledBytes(z: Sizes, s: Snapshot, x: Input)
    ensures SumFindings(z, Replaced(z, s, x).findings) <= SumFindings(z, Scanned(z, s, x).findings)
  {
    hide SumFindings, Scanned, SettleAll, FactsOf, Retire, Less, Final, Trim, Downgrade;
    var scan := Scanned(z, s, x);
    var t := Settled(z, s, x);
    SettleBytes(z, x.job, x.now, FactsOf(z, s, x), Keys(scan.findings.Keys),
                Settling(scan.findings, s.confirmations, scan.transitions, []));
    SumSame(z, t.findings, scan.findings);
    RetireOk(x.now, t.removed, Retiring(t.findings, t.confirmations, scan.retired));
    SumFewer(z, t.findings, RemovedIds(t.removed));
  }

  lemma ExpiredBytes(z: Sizes, s: Snapshot, freshness: nat, now: Time)
    ensures SumFindings(z, ExpireSnapshot(s, freshness, now).findings) == SumFindings(z, s.findings)
  {
    hide SumFindings, ExpireResult, IsOutdated, Limit, Expires;
    SumSame(z, ExpireSnapshot(s, freshness, now).findings, s.findings);
  }
}
