/** When an evaluation takes a sample, said of the history of evaluations alone. */
module FlowsHistory {
  import opened Order
  import opened Flows
  import opened FlowsProofs

  /**
    A judged evaluation takes its sample when that is later than the samples taken for the stage
    since its record was last lost; without any, when fewer than the allowed stages have one.
   */
  ghost predicate Accepted(events: seq<Event>, i: nat, key: string)
    requires i < |events|
    decreases i, 2
  {
    && events[i].Read? && events[i].x.key == key && Judged(events[i].x)
    && if Held(events, i, key)
       then forall k :: 0 <= k < i && Stands(events, k, i, key) ==> SampledAt(events[k]) < SampledAt(events[i])
       else |HeldSet(events, i)| < events[i].x.limit
  }

  function SampledAt(e: Event): (t: Time) { if e.Read? && Judged(e.x) then Flows.At(e.x) else 0 }

  function KeyOf(e: Event): (k: string) { if e.Read? then e.x.key else "" }

  /** The sample of `k` was taken and the record of its stage has not been lost since. */
  ghost predicate Stands(events: seq<Event>, k: nat, n: nat, key: string)
    requires k < n <= |events|
    decreases k, 3
  {
    Accepted(events, k, key) && forall j :: k < j < n ==> !Loses(events, j, key)
  }

  ghost predicate Held(events: seq<Event>, n: nat, key: string)
    requires n <= |events|
    decreases n, 1
  {
    exists k :: 0 <= k < n && Stands(events, k, n, key)
  }

  ghost function HeldSet(events: seq<Event>, n: nat): (r: set<string>)
    requires n <= |events|
    decreases n, 1
  {
    set k | 0 <= k < n && Stands(events, k, n, KeyOf(events[k])) :: KeyOf(events[k])
  }

  /** The records are of exactly the stages with a standing sample, at its latest time. */
  ghost predicate Mirrors(events: seq<Event>, n: nat, key: string)
    requires n <= |events|
  {
    && (key in RecordsAt(events, n) <==> Held(events, n, key))
    && (key in RecordsAt(events, n) ==>
          && (forall k :: 0 <= k < n && Stands(events, k, n, key) ==> SampledAt(events[k]) <= RecordsAt(events, n)[key].lastSeen)
          && exists k :: 0 <= k < n && Stands(events, k, n, key) && SampledAt(events[k]) == RecordsAt(events, n)[key].lastSeen)
  }

  lemma HeldKeys(events: seq<Event>, n: nat)
    requires n <= |events| && forall key :: Mirrors(events, n, key)
    ensures HeldSet(events, n) == RecordsAt(events, n).Keys
  {
    hide RecordsAt, Stands;
    forall key
      ensures key in HeldSet(events, n) <==> Held(events, n, key)
    {
      assert Mirrors(events, n, key);
      if Held(events, n, key) {
        var k :| 0 <= k < n && Stands(events, k, n, key);
        StandsKey(events, k, n, key);
        assert KeyOf(events[k]) == key;
      }
    }
    forall key
      ensures key in HeldSet(events, n) <==> key in RecordsAt(events, n)
    {
      assert Mirrors(events, n, key);
    }
  }

  lemma StandsKey(events: seq<Event>, k: nat, n: nat, key: string)
    requires k < n <= |events| && Stands(events, k, n, key)
    ensures KeyOf(events[k]) == key
  {
  }

  lemma TakesWhenMirrored(events: seq<Event>, n: nat, key: string)
    requires n < |events| && forall k :: Mirrors(events, n, k)
    ensures Takes(events, n, key) <==> Accepted(events, n, key)
  {
    hide RecordsAt, Stands, Held, HeldSet, Flows.At;
    HeldKeys(events, n);
    assert Mirrors(events, n, key);
    assert |RecordsAt(events, n)| == |RecordsAt(events, n).Keys|;
  }

  lemma StandsNext(events: seq<Event>, k: nat, n: nat, key: string)
    requires k < n < |events|
    ensures Stands(events, k, n + 1, key) <==> Stands(events, k, n, key) && !Loses(events, n, key)
  {
    hide Accepted, Loses;
  }

  lemma StandsNow(events: seq<Event>, n: nat, key: string)
    requires n < |events|
    ensures Stands(events, n, n + 1, key) <==> Accepted(events, n, key)
  {
    hide Accepted, Loses;
  }

  lemma MirrorStep(events: seq<Event>, n: nat, key: string)
    requires n < |events| && forall k :: Mirrors(events, n, k)
    ensures Mirrors(events, n + 1, key)
  {
    hide Mirrors, Takes, Loses, Accepted;
    TakesWhenMirrored(events, n, key);
    assert Mirrors(events, n, key);
    if Takes(events, n, key) {
      MirrorTaken(events, n, key);
    } else if Loses(events, n, key) {
      MirrorLost(events, n, key);
    } else {
      MirrorQuiet(events, n, key);
    }
  }

  lemma MirrorLost(events: seq<Event>, n: nat, key: string)
    requires n < |events| && Loses(events, n, key) && !Accepted(events, n, key)
    ensures Mirrors(events, n + 1, key)
  {
    hide RecordsAt, Stands, Takes, Loses, Accepted;
    Lost(events, n, key);
    StandsNow(events, n, key);
    var next := n + 1;
    forall k | 0 <= k < next
      ensures !Stands(events, k, next, key)
    {
      if k < n {
        StandsNext(events, k, n, key);
      }
    }
    assert !Held(events, next, key);
  }

  lemma TakenSeen(events: seq<Event>, n: nat, key: string)
    requires n < |events| && Takes(events, n, key)
    ensures key in RecordsAt(events, n + 1) && RecordsAt(events, n + 1)[key].lastSeen == SampledAt(events[n])
    ensures !Loses(events, n, key)
  {
    hide RecordsAt, Takes, Loses, Flows.At;
    Taken(events, n, key);
  }

  lemma MirrorTaken(events: seq<Event>, n: nat, key: string)
    requires n < |events| && Mirrors(events, n, key) && Takes(events, n, key) && Accepted(events, n, key)
    ensures Mirrors(events, n + 1, key)
  {
    hide RecordsAt, Stands, Takes, Loses, Flows.At;
    TakenSeen(events, n, key);
    StandsNow(events, n, key);
    var next := n + 1;
    assert Stands(events, n, next, key) && SampledAt(events[n]) == RecordsAt(events, next)[key].lastSeen;
    assert Held(events, next, key);
    forall j | 0 <= j < next && Stands(events, j, next, key)
      ensures SampledAt(events[j]) <= SampledAt(events[n])
    {
      if j < n {
        StandsNext(events, j, n, key);
        assert Held(events, n, key);
      }
    }
  }

  lemma MirrorQuiet(events: seq<Event>, n: nat, key: string)
    requires n < |events| && Mirrors(events, n, key)
    requires !Takes(events, n, key) && !Loses(events, n, key) && !Accepted(events, n, key)
    ensures Mirrors(events, n + 1, key)
  {
    hide RecordsAt, Stands, Takes, Loses, Accepted;
    Untouched(events, n, key);
    StandsNow(events, n, key);
    var next := n + 1;
    forall k | 0 <= k < n
      ensures Stands(events, k, next, key) <==> Stands(events, k, n, key)
    {
      StandsNext(events, k, n, key);
    }
    assert key in RecordsAt(events, next) <==> key in RecordsAt(events, n);
    if key in RecordsAt(events, n) {
      var k :| 0 <= k < n && Stands(events, k, n, key) && SampledAt(events[k]) == RecordsAt(events, n)[key].lastSeen;
      assert Stands(events, k, next, key);
      assert Held(events, next, key);
      assert RecordsAt(events, next)[key] == RecordsAt(events, n)[key];
      forall j | 0 <= j < next && Stands(events, j, next, key)
        ensures SampledAt(events[j]) <= RecordsAt(events, next)[key].lastSeen
      {
        assert j < n;
      }
    } else {
      forall k | 0 <= k < next
        ensures !Stands(events, k, next, key)
      {
        assert k < n ==> !Stands(events, k, n, key);
      }
      assert !Held(events, next, key);
    }
  }

  lemma {:induction false} AlwaysMirrored(events: seq<Event>, n: nat)
    requires n <= |events|
    ensures forall key :: Mirrors(events, n, key)
  {
    if n > 0 {
      hide Mirrors;
      AlwaysMirrored(events, n - 1);
      forall key
        ensures Mirrors(events, n, key)
      {
        MirrorStep(events, n - 1, key);
      }
    }
  }

  /** When a sample is taken, without the records: exactly when the history accepts it. */
  lemma TakesMeansHistory(events: seq<Event>, n: nat, key: string)
    requires n < |events|
    ensures Takes(events, n, key) <==> Accepted(events, n, key)
  {
    hide Takes, Accepted, Mirrors;
    AlwaysMirrored(events, n);
    TakesWhenMirrored(events, n, key);
  }
}
