/** When a reading counts, said of the reading history alone. */
module CapacityHistory {
  import opened Order
  import opened Evidence
  import opened Capacity

  /** A current, active, sound reading over a short window. */
  predicate Qualifies(c: Call) {
    && c.reading.metric.Some? && c.reading.active && !Outdated(c)
    && c.reading.metric.value.windowSeconds < c.settings.sustain && Sound(c.reading.metric.value)
  }

  /** An inactive, outdated or unsound reading ends what was known of its resource. */
  predicate Ends(c: Call) {
    c.reading.metric.Some?
    && (!c.reading.active || Outdated(c)
        || (c.reading.metric.value.windowSeconds < c.settings.sustain && !Sound(c.reading.metric.value)))
  }

  predicate Ended(events: seq<Event>, i: nat, resource: string)
    requires i < |events|
  {
    match events[i]
    case Read(c) => c.reading.resource == resource && Ends(c)
    case Dropped(resources) => resource in resources
  }

  /**
    A qualifying reading is accepted when it is no older than the accepted readings of its
    resource since that was last ended; without any, when fewer than the allowed number of
    resources have one.
   */
  ghost predicate Accepted(events: seq<Event>, i: nat, resource: string)
    requires i < |events|
    decreases i, 2
  {
    && events[i].Read? && events[i].c.reading.resource == resource && Qualifies(events[i].c)
    && if Held(events, i, resource)
       then forall k :: 0 <= k < i && Stands(events, k, i, resource) ==> ReadAt(events[k]) <= ReadAt(events[i])
       else |HeldSet(events, i)| < events[i].c.settings.maxAssets
  }

  function ReadAt(e: Event): (t: Time) { if e.Read? then e.c.reading.observedAt else 0 }

  function ResourceOf(e: Event): (r: string) { if e.Read? then e.c.reading.resource else "" }

  /** Reading `k` was accepted and its resource has not been ended since. */
  ghost predicate Stands(events: seq<Event>, k: nat, n: nat, resource: string)
    requires k < n <= |events|
    decreases k, 3
  {
    Accepted(events, k, resource) && forall j :: k < j < n ==> !Ended(events, j, resource)
  }

  ghost predicate Held(events: seq<Event>, n: nat, resource: string)
    requires n <= |events|
    decreases n, 1
  {
    exists k :: 0 <= k < n && Stands(events, k, n, resource)
  }

  ghost function HeldSet(events: seq<Event>, n: nat): (r: set<string>)
    requires n <= |events|
    decreases n, 1
  {
    set k | 0 <= k < n && Stands(events, k, n, ResourceOf(events[k])) :: ResourceOf(events[k])
  }

  lemma LosesMeans(events: seq<Event>, n: nat, resource: string)
    requires n < |events|
    ensures Loses(events, n, resource) <==> Ended(events, n, resource)
  {
    hide At;
  }

  /** The clocks hold exactly the resources with a standing reading, at its latest time. */
  ghost predicate Mirrors(events: seq<Event>, n: nat, resource: string)
    requires n <= |events|
  {
    && (resource in At(events, n) <==> Held(events, n, resource))
    && (resource in At(events, n) ==>
          && (forall k :: 0 <= k < n && Stands(events, k, n, resource) ==> ReadAt(events[k]) <= At(events, n)[resource].lastSeen)
          && exists k :: 0 <= k < n && Stands(events, k, n, resource) && ReadAt(events[k]) == At(events, n)[resource].lastSeen)
  }

  lemma HeldKeys(events: seq<Event>, n: nat)
    requires n <= |events| && forall resource :: Mirrors(events, n, resource)
    ensures HeldSet(events, n) == At(events, n).Keys
  {
    hide At, Stands;
    forall resource
      ensures resource in HeldSet(events, n) <==> Held(events, n, resource)
    {
      assert Mirrors(events, n, resource);
      if Held(events, n, resource) {
        var k :| 0 <= k < n && Stands(events, k, n, resource);
        StandsResource(events, k, n, resource);
        assert ResourceOf(events[k]) == resource;
      }
    }
    forall resource
      ensures resource in HeldSet(events, n) <==> resource in At(events, n)
    {
      assert Mirrors(events, n, resource);
    }
  }

  lemma StandsResource(events: seq<Event>, k: nat, n: nat, resource: string)
    requires k < n <= |events| && Stands(events, k, n, resource)
    ensures ResourceOf(events[k]) == resource
  {
  }

  lemma CountsWhenMirrored(events: seq<Event>, n: nat, resource: string)
    requires n < |events| && forall r :: Mirrors(events, n, r)
    ensures Counts(events, n, resource) <==> Accepted(events, n, resource)
  {
    hide At, Stands, Held, HeldSet;
    HeldKeys(events, n);
    assert Mirrors(events, n, resource);
    assert |At(events, n)| == |At(events, n).Keys|;
  }

  lemma StandsNext(events: seq<Event>, k: nat, n: nat, resource: string)
    requires k < n < |events|
    ensures Stands(events, k, n + 1, resource) <==> Stands(events, k, n, resource) && !Ended(events, n, resource)
  {
    hide Accepted, Ended;
  }

  lemma MirrorStep(events: seq<Event>, n: nat, resource: string)
    requires n < |events| && forall r :: Mirrors(events, n, r)
    ensures Mirrors(events, n + 1, resource)
  {
    hide Mirrors, Ended, Counts, Loses, Accepted;
    LosesMeans(events, n, resource);
    CountsWhenMirrored(events, n, resource);
    assert Mirrors(events, n, resource);
    if Counts(events, n, resource) {
      MirrorCounted(events, n, resource);
    } else if Loses(events, n, resource) {
      MirrorLost(events, n, resource);
    } else {
      MirrorQuiet(events, n, resource);
    }
  }

  lemma MirrorLost(events: seq<Event>, n: nat, resource: string)
    requires n < |events| && Loses(events, n, resource) && Ended(events, n, resource) && !Accepted(events, n, resource)
    ensures Mirrors(events, n + 1, resource)
  {
    hide At, Stands, Ended, Counts, Loses, Accepted;
    Lost(events, n, resource);
    StandsNow(events, n, resource);
    var next := n + 1;
    forall k | 0 <= k < next
      ensures !Stands(events, k, next, resource)
    {
      if k < n {
        StandsNext(events, k, n, resource);
      }
    }
    assert !Held(events, next, resource);
  }

  lemma MirrorCounted(events: seq<Event>, n: nat, resource: string)
    requires n < |events| && Mirrors(events, n, resource) && Counts(events, n, resource) && Accepted(events, n, resource)
    ensures Mirrors(events, n + 1, resource)
  {
    hide At, Stands, Counts, Advanced;
    CountedClock(events, n, resource);
    AdvancedSeen(Find(At(events, n), resource), events[n].c);
    StandsNow(events, n, resource);
    var next := n + 1;
    assert Stands(events, n, next, resource) && ReadAt(events[n]) == At(events, next)[resource].lastSeen;
    assert Held(events, next, resource);
    forall j | 0 <= j < next && Stands(events, j, next, resource)
      ensures ReadAt(events[j]) <= ReadAt(events[n])
    {
      if j < n {
        StandsNext(events, j, n, resource);
        assert Held(events, n, resource);
      }
    }
  }

  lemma MirrorQuiet(events: seq<Event>, n: nat, resource: string)
    requires n < |events| && Mirrors(events, n, resource)
    requires !Counts(events, n, resource) && !Loses(events, n, resource)
    requires !Accepted(events, n, resource) && !Ended(events, n, resource)
    ensures Mirrors(events, n + 1, resource)
  {
    hide At, Stands, Ended, Counts, Loses, Accepted;
    Untouched(events, n, resource);
    StandsNow(events, n, resource);
    var next := n + 1;
    forall k | 0 <= k < n
      ensures Stands(events, k, next, resource) <==> Stands(events, k, n, resource)
    {
      StandsNext(events, k, n, resource);
    }
    assert resource in At(events, next) <==> resource in At(events, n);
    if resource in At(events, n) {
      var k :| 0 <= k < n && Stands(events, k, n, resource) && ReadAt(events[k]) == At(events, n)[resource].lastSeen;
      assert Stands(events, k, next, resource);
      assert Held(events, next, resource);
      assert resource in At(events, next);
      assert At(events, next)[resource] == At(events, n)[resource];
      forall j | 0 <= j < next && Stands(events, j, next, resource)
        ensures ReadAt(events[j]) <= At(events, next)[resource].lastSeen
      {
        assert j < n;
      }
    } else {
      forall k | 0 <= k < next
        ensures !Stands(events, k, next, resource)
      {
        assert k < n ==> !Stands(events, k, n, resource);
      }
      assert !Held(events, next, resource);
    }
  }

  lemma AdvancedSeen(p: Option<Pressure>, c: Call)
    requires c.reading.metric.Some? && Sound(c.reading.metric.value)
    ensures Advanced(p, c).lastSeen == c.reading.observedAt
  {
  }

  lemma StandsNow(events: seq<Event>, n: nat, resource: string)
    requires n < |events|
    ensures Stands(events, n, n + 1, resource) <==> Accepted(events, n, resource)
  {
    hide Accepted, Ended;
  }

  lemma {:induction false} AlwaysMirrored(events: seq<Event>, n: nat)
    requires n <= |events|
    ensures forall resource :: Mirrors(events, n, resource)
  {
    if n > 0 {
      hide Mirrors;
      AlwaysMirrored(events, n - 1);
      forall resource
        ensures Mirrors(events, n, resource)
      {
        MirrorStep(events, n - 1, resource);
      }
    }
  }

  /**
    When a reading counts and when a clock is lost, without the clocks: a reading counts exactly
    when it is accepted by its history, and a clock is lost exactly where its resource is ended.
   */
  lemma CountsMeansHistory(events: seq<Event>, n: nat, resource: string)
    requires n < |events|
    ensures Counts(events, n, resource) <==> Accepted(events, n, resource)
    ensures Loses(events, n, resource) <==> Ended(events, n, resource)
  {
    hide Counts, Loses, Accepted, Mirrors;
    AlwaysMirrored(events, n);
    CountsWhenMirrored(events, n, resource);
    LosesMeans(events, n, resource);
  }
}
