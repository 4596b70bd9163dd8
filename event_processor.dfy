/** The preprocessing stage: exclusion-list filters and the stateful filter
    that drops redundant pull-request review events. Timestamps are integer
    milliseconds since the epoch; an ISO 8601 date is a whole number of
    seconds, i.e. a multiple of 1000. */
module EventProcessing {
  import opened Basics

  /** The fields of a raw event that preprocessing reads: `id`, `type`,
      `actor.id`, `actor.login`, `repo.id`, `repo.name`, `org.login` and
      `created_at`. Absent logins and names are `None`. */
  datatype Event = Event(
    id: string,
    kind: string,
    actorId: int,
    actorLogin: Option<string>,
    repoId: int,
    repoName: Option<string>,
    orgLogin: Option<string>,
    createdAt: int)

  const ReviewKind := "PullRequestReviewEvent"
  const ReviewCommentKind := "PullRequestReviewCommentEvent"

  /** The default window of `_is_within_time_window`: 2 seconds. */
  const WindowMillis := 2000

  /** The platform on which the redundancy filter applies. */
  const GitHub := "github"

  function Abs(x: int): nat
  {
    if x < 0 then -x else x
  }

  /** `_is_within_time_window(e1, e2)`: the two events lie at most 2 seconds
      apart, in either order. */
  predicate IsWithinTimeWindow(e1: Event, e2: Event)
  {
    Abs(e2.createdAt - e1.createdAt) <= WindowMillis
  }

  /** The window test is symmetric and is the two-sided bound on the
      difference of the timestamps. */
  lemma {:induction false} WindowSymmetric(e1: Event, e2: Event)
    ensures IsWithinTimeWindow(e1, e2) <==> IsWithinTimeWindow(e2, e1)
    ensures IsWithinTimeWindow(e1, e2) <==> e1.createdAt - WindowMillis <= e2.createdAt <= e1.createdAt + WindowMillis
  {
  }

  // ---------------------------------------------------------------------------
  // Exclusion lists

  /** `x not in exclusions` for a value that may be `None`, which is never in
      a list of strings. */
  predicate NotExcluded(x: Option<string>, exclusions: seq<string>)
  {
    x.None? || x.value !in exclusions
  }

  /** `_remove_unwanted_actors`: the events whose actor login is not excluded, in order. */
  function RemoveUnwantedActors(events: seq<Event>, actors: seq<string>): (r: seq<Event>)
    ensures forall e :: e in r <==> e in events && NotExcluded(e.actorLogin, actors)
    ensures IsSubsequence(r, events)
  {
    KeepWhere(events, (e: Event) => NotExcluded(e.actorLogin, actors))
  }

  /** `_remove_unwanted_repos`: the events whose repository name is not excluded, in order. */
  function RemoveUnwantedRepos(events: seq<Event>, repos: seq<string>): (r: seq<Event>)
    ensures forall e :: e in r <==> e in events && NotExcluded(e.repoName, repos)
    ensures IsSubsequence(r, events)
  {
    KeepWhere(events, (e: Event) => NotExcluded(e.repoName, repos))
  }

  /** `_remove_unwanted_orgs`: the events whose organisation login is not excluded, in order. */
  function RemoveUnwantedOrgs(events: seq<Event>, orgs: seq<string>): (r: seq<Event>)
    ensures forall e :: e in r <==> e in events && NotExcluded(e.orgLogin, orgs)
    ensures IsSubsequence(r, events)
  {
    KeepWhere(events, (e: Event) => NotExcluded(e.orgLogin, orgs))
  }

  /** The three exclusion filters of `_apply_filters`, in their order. */
  function RemoveUnwanted(events: seq<Event>, actors: seq<string>, repos: seq<string>, orgs: seq<string>): seq<Event>
  {
    RemoveUnwantedOrgs(RemoveUnwantedRepos(RemoveUnwantedActors(events, actors), repos), orgs)
  }

  /** Every copy of an allowed event survives the exclusion filters, and no
      copy of an excluded one. */
  lemma {:induction false} RemoveUnwantedCounts(events: seq<Event>, actors: seq<string>, repos: seq<string>, orgs: seq<string>, e: Event)
    ensures multiset(RemoveUnwanted(events, actors, repos, orgs))[e] ==
            if NotExcluded(e.actorLogin, actors) && NotExcluded(e.repoName, repos) && NotExcluded(e.orgLogin, orgs)
            then multiset(events)[e] else 0
  {
    var a := RemoveUnwantedActors(events, actors);
    var b := RemoveUnwantedRepos(a, repos);
    KeepWhereCounts(events, (e: Event) => NotExcluded(e.actorLogin, actors), e);
    KeepWhereCounts(a, (e: Event) => NotExcluded(e.repoName, repos), e);
    KeepWhereCounts(b, (e: Event) => NotExcluded(e.orgLogin, orgs), e);
  }

  // ---------------------------------------------------------------------------
  // Redundancy specification

  /** `other` is a review comment by the same actor on the same repository
      as `anchor`. */
  predicate Conflicts(anchor: Event, other: Event)
  {
    other.kind == ReviewCommentKind && other.actorId == anchor.actorId && other.repoId == anchor.repoId
  }

  /** Scanning back from `index`, a conflicting event is met before the first
      event outside the anchor's window. */
  predicate ConflictBefore(anchor: Event, events: seq<Event>, index: nat)
    requires index <= |events|
  {
    exists j :: 0 <= j < index && Conflicts(anchor, events[j]) &&
      forall l :: j <= l < index ==> IsWithinTimeWindow(anchor, events[l])
  }

  /** Scanning forward from `index`, a conflicting event is met before the
      first event outside the anchor's window. */
  predicate ConflictAfter(anchor: Event, events: seq<Event>, index: nat)
    requires index <= |events|
  {
    exists j :: index < j < |events| && Conflicts(anchor, events[j]) &&
      forall l :: index < l <= j ==> IsWithinTimeWindow(anchor, events[l])
  }

  /** Two reviews by the same actor on the same repository within the window. */
  predicate DuplicateReviews(a: Event, b: Event)
  {
    && a.kind == ReviewKind && b.kind == ReviewKind
    && a.actorId == b.actorId && a.repoId == b.repoId
    && IsWithinTimeWindow(a, b)
  }

  /** The output so far and the identifiers seen so far. */
  datatype FilterState = FilterState(out: seq<Event>, seen: set<string>)

  /** Whether the event at position `i` of `combined` is emitted, given the
      state reached before it: its id must be unseen and, for a review, it
      must have no conflicting neighbour and must not repeat the review that
      was emitted last. */
  predicate Emits(combined: seq<Event>, i: nat, st: FilterState)
    requires i < |combined|
  {
    var e := combined[i];
    && e.id !in st.seen
    && (e.kind == ReviewKind ==>
          && !ConflictBefore(e, combined, i) && !ConflictAfter(e, combined, i)
          && !(|st.out| > 0 && DuplicateReviews(st.out[|st.out| - 1], e)))
  }

  /** The state of `_filter_redundant_review_events` after the first `n`
      events of `combined`, starting from the identifiers `seen0`. */
  function FilterPrefix(combined: seq<Event>, seen0: set<string>, n: nat): FilterState
    requires n <= |combined|
  {
    if n == 0 then FilterState([], seen0)
    else
      var st := FilterPrefix(combined, seen0, n - 1);
      if Emits(combined, n - 1, st) then FilterState(st.out + [combined[n - 1]], st.seen + {combined[n - 1].id})
      else st
  }

  /** The identifiers of a list of events. */
  function Ids(events: seq<Event>): set<string>
  {
    set k | 0 <= k < |events| :: events[k].id
  }

  // ---------------------------------------------------------------------------
  // Properties of the redundancy filter

  /** The output is the combined input with some events deleted, in order. */
  lemma {:induction false} FilterSubsequence(combined: seq<Event>, seen0: set<string>, n: nat)
    requires n <= |combined|
    ensures IsSubsequence(FilterPrefix(combined, seen0, n).out, combined[..n])
  {
    if n > 0 {
      FilterSubsequence(combined, seen0, n - 1);
      assert combined[..n] == combined[..n - 1] + [combined[n - 1]];
      SubsequenceExtend(FilterPrefix(combined, seen0, n - 1).out, combined[..n - 1], combined[n - 1]);
    }
  }

  /** The output only grows as more events are looked at. */
  lemma {:induction false} FilterGrows(combined: seq<Event>, seen0: set<string>, n: nat, m: nat)
    requires n <= m <= |combined|
    ensures FilterPrefix(combined, seen0, n).out <= FilterPrefix(combined, seen0, m).out
    decreases m - n
  {
    if n < m {
      FilterGrows(combined, seen0, n, m - 1);
    }
  }

  /** The seen identifiers are the initial ones and those of the output;
      the output's identifiers are new and pairwise distinct. In particular a
      dropped event's id is not recorded. */
  lemma {:induction false} FilterIds(combined: seq<Event>, seen0: set<string>, n: nat)
    requires n <= |combined|
    ensures var st := FilterPrefix(combined, seen0, n);
            && st.seen == seen0 + Ids(st.out)
            && (forall k :: 0 <= k < |st.out| ==> st.out[k].id !in seen0)
            && (forall a, b :: 0 <= a < b < |st.out| ==> st.out[a].id != st.out[b].id)
  {
    if n > 0 {
      FilterIds(combined, seen0, n - 1);
      var st := FilterPrefix(combined, seen0, n - 1);
      if Emits(combined, n - 1, st) {
        var e := combined[n - 1];
        var out := st.out + [e];
        assert Ids(out) == Ids(st.out) + {e.id} by {
          forall x | x in Ids(out) ensures x in Ids(st.out) + {e.id} {
            var k :| 0 <= k < |out| && out[k].id == x;
            if k < |st.out| { assert out[k] == st.out[k]; }
          }
          forall x | x in Ids(st.out) ensures x in Ids(out) {
            var k :| 0 <= k < |st.out| && st.out[k].id == x;
            assert out[k] == st.out[k];
          }
          assert out[|st.out|] == e;
        }
        forall a, b | 0 <= a < b < |out| ensures out[a].id != out[b].id {
          if b == |st.out| {
            assert out[a] == st.out[a];
            assert st.out[a].id in Ids(st.out);
          } else {
            assert out[a] == st.out[a] && out[b] == st.out[b];
          }
        }
        forall k | 0 <= k < |out| ensures out[k].id !in seen0 {
          if k < |st.out| { assert out[k] == st.out[k]; }
        }
      }
    }
  }

  /** Every output event was emitted at some position of the combined input,
      by the rule `Emits`, in the state reached there. */
  lemma {:induction false} FilterOrigin(combined: seq<Event>, seen0: set<string>, n: nat, x: Event)
    requires n <= |combined|
    requires x in FilterPrefix(combined, seen0, n).out
    ensures exists j :: 0 <= j < n && combined[j] == x && Emits(combined, j, FilterPrefix(combined, seen0, j))
  {
    var st := FilterPrefix(combined, seen0, n - 1);
    if Emits(combined, n - 1, st) && x == combined[n - 1] {
      assert combined[n - 1] == x && Emits(combined, n - 1, FilterPrefix(combined, seen0, n - 1));
    } else {
      assert x in st.out;
      FilterOrigin(combined, seen0, n - 1, x);
    }
  }

  /** An event that is not a review and whose id is not among the processed
      ids when the loop reaches it is emitted there, and both it and its id
      are in the final state. */
  lemma {:induction false} FilterEmitsUnseenOther(combined: seq<Event>, seen0: set<string>, i: nat)
    requires i < |combined|
    requires combined[i].kind != ReviewKind && combined[i].id !in FilterPrefix(combined, seen0, i).seen
    ensures var st := FilterPrefix(combined, seen0, i);
            FilterPrefix(combined, seen0, i + 1) == FilterState(st.out + [combined[i]], st.seen + {combined[i].id})
    ensures combined[i] in FilterPrefix(combined, seen0, |combined|).out
    ensures combined[i].id in FilterPrefix(combined, seen0, |combined|).seen
  {
    var st := FilterPrefix(combined, seen0, i);
    assert Emits(combined, i, st);
    assert combined[i] in FilterPrefix(combined, seen0, i + 1).out;
    FilterGrows(combined, seen0, i + 1, |combined|);
    var fin := FilterPrefix(combined, seen0, |combined|);
    FilterIds(combined, seen0, |combined|);
    var k :| 0 <= k < |fin.out| && fin.out[k] == combined[i];
    assert combined[i].id in Ids(fin.out);
  }

  /** An id that was not processed before the call and occurs at no earlier
      position of the combined input is still unprocessed when the loop
      reaches it. */
  lemma {:induction false} FilterFreshIdUnseen(combined: seq<Event>, seen0: set<string>, i: nat)
    requires i < |combined|
    requires combined[i].id !in seen0
    requires forall j :: 0 <= j < i ==> combined[j].id != combined[i].id
    ensures combined[i].id !in FilterPrefix(combined, seen0, i).seen
  {
    var st := FilterPrefix(combined, seen0, i);
    FilterIds(combined, seen0, i);
    if combined[i].id in Ids(st.out) {
      var k :| 0 <= k < |st.out| && st.out[k].id == combined[i].id;
      FilterOrigin(combined, seen0, i, st.out[k]);
    }
  }

  /** A review with a conflicting neighbour, whose id occurs nowhere else in
      the combined input and was not seen before, is never emitted and its id
      is never recorded. */
  lemma {:induction false} FilterDropsConflicted(combined: seq<Event>, seen0: set<string>, i: nat)
    requires i < |combined|
    requires combined[i].kind == ReviewKind && combined[i].id !in seen0
    requires ConflictBefore(combined[i], combined, i) || ConflictAfter(combined[i], combined, i)
    requires forall j :: 0 <= j < |combined| && j != i ==> combined[j].id != combined[i].id
    ensures combined[i] !in FilterPrefix(combined, seen0, |combined|).out
    ensures combined[i].id !in FilterPrefix(combined, seen0, |combined|).seen
  {
    var st := FilterPrefix(combined, seen0, |combined|);
    FilterIds(combined, seen0, |combined|);
    if combined[i].id in Ids(st.out) {
      var k :| 0 <= k < |st.out| && st.out[k].id == combined[i].id;
      FilterOrigin(combined, seen0, |combined|, st.out[k]);
    }
  }

  predicate NoDuplicateNeighbours(out: seq<Event>)
  {
    forall k :: 0 < k < |out| ==> !DuplicateReviews(out[k - 1], out[k])
  }

  /** No two neighbouring output events are duplicate reviews. */
  lemma {:induction false} FilterNoDuplicateReviews(combined: seq<Event>, seen0: set<string>, n: nat)
    requires n <= |combined|
    ensures NoDuplicateNeighbours(FilterPrefix(combined, seen0, n).out)
  {
    if n > 0 {
      FilterNoDuplicateReviews(combined, seen0, n - 1);
      var st := FilterPrefix(combined, seen0, n - 1);
      if Emits(combined, n - 1, st) {
        var out := st.out + [combined[n - 1]];
        forall k | 0 < k < |out| ensures !DuplicateReviews(out[k - 1], out[k]) {
          if k < |st.out| {
            assert out[k - 1] == st.out[k - 1] && out[k] == st.out[k];
            assert !DuplicateReviews(st.out[k - 1], st.out[k]);
          } else {
            assert out[k - 1] == st.out[|st.out| - 1] && out[k] == combined[n - 1];
          }
        }
        assert FilterPrefix(combined, seen0, n).out == out;
      }
    }
  }

  // ---------------------------------------------------------------------------
  // Worked scenarios

  lemma KindsDiffer()
    ensures ReviewKind != ReviewCommentKind
  {
    assert ReviewKind[17] != ReviewCommentKind[17];
  }

  /** A review, or a review comment, by one actor on one repository at time `t`. */
  function ReviewAt(id: string, t: int): Event
  {
    Event(id, ReviewKind, 7, Some("dev"), 42, Some("org/repo"), Some("org"), t)
  }

  function CommentAt(id: string, t: int): Event
  {
    Event(id, ReviewCommentKind, 7, Some("dev"), 42, Some("org/repo"), Some("org"), t)
  }

  /** Three reviews with a review comment near the middle, all within two
      seconds of one another. */
  function ReviewBurst(): seq<Event>
  {
    [ReviewAt("1", 0), ReviewAt("2", 1000), CommentAt("3", 1000), ReviewAt("4", 2000)]
  }

  /** Every review of the burst is dropped; only the comment is emitted. */
  lemma ReviewBurstFiltered()
    ensures FilterPrefix(ReviewBurst(), {}, 4) == FilterState([CommentAt("3", 1000)], {"3"})
  {
    var evs := ReviewBurst();
    KindsDiffer();
    assert ConflictAfter(evs[0], evs, 0) by {
      assert Conflicts(evs[0], evs[2]);
      assert forall l :: 0 < l <= 2 ==> IsWithinTimeWindow(evs[0], evs[l]);
    }
    assert FilterPrefix(evs, {}, 1) == FilterState([], {});
    assert ConflictAfter(evs[1], evs, 1) by {
      assert Conflicts(evs[1], evs[2]);
      assert forall l :: 1 < l <= 2 ==> IsWithinTimeWindow(evs[1], evs[l]);
    }
    assert FilterPrefix(evs, {}, 2) == FilterState([], {});
    assert FilterPrefix(evs, {}, 3) == FilterState([evs[2]], {"3"});
    assert ConflictBefore(evs[3], evs, 3) by {
      assert Conflicts(evs[3], evs[2]);
      assert forall l :: 2 <= l < 3 ==> IsWithinTimeWindow(evs[3], evs[l]);
    }
  }

  /** Two reviews by one actor on one repository, one second apart. */
  function ReviewPair(): seq<Event>
  {
    [ReviewAt("1", 0), ReviewAt("2", 1000)]
  }

  /** On a first call the second review repeats the first and is dropped. */
  lemma ReviewPairFirstCall()
    ensures FilterPrefix(ReviewPair(), {}, 2) == FilterState([ReviewAt("1", 0)], {"1"})
  {
    var evs := ReviewPair();
    KindsDiffer();
    assert !ConflictAfter(evs[0], evs, 0) by {
      assert !Conflicts(evs[0], evs[1]);
    }
    assert FilterPrefix(evs, {}, 1) == FilterState([evs[0]], {"1"});
    assert DuplicateReviews(evs[0], evs[1]);
  }

  /** When the pair comes back as pending events, the dropped review's id was
      never recorded and the output it would have repeated is empty, so the
      second call emits it. */
  lemma ReviewPairSecondCall()
    ensures FilterPrefix(ReviewPair(), {"1"}, 2) == FilterState([ReviewAt("2", 1000)], {"1", "2"})
  {
    var evs := ReviewPair();
    KindsDiffer();
    assert FilterPrefix(evs, {"1"}, 1) == FilterState([], {"1"});
    assert !ConflictBefore(evs[1], evs, 1) by {
      assert !Conflicts(evs[1], evs[0]);
    }
    assert "2" !in {"1"};
  }

  // ---------------------------------------------------------------------------
  // The filter object

  class EventProcessor {
    const platform: string
    /** The ids of every event emitted so far (`processed_ids`). */
    var processedIds: set<string>
    /** The last three events of the previous call's combined input (`pending_events`). */
    var pendingEvents: seq<Event>

    constructor(platform: string)
      ensures this.platform == platform
      ensures processedIds == {} && pendingEvents == []
    {
      this.platform := platform;
      processedIds := {};
      pendingEvents := [];
    }

    /** `_should_keep_event`: scan backward, then forward, from `index` while
        the neighbours stay within the window of `current`; a conflicting
        neighbour makes the event redundant. */
    method ShouldKeepEvent(current: Event, events: seq<Event>, index: nat) returns (keep: bool)
      requires index <= |events|
      ensures keep <==> !ConflictBefore(current, events, index) && !ConflictAfter(current, events, index)
    {
      var j := index;
      while j > 0
        invariant 0 <= j <= index
        invariant forall l :: j <= l < index ==> IsWithinTimeWindow(current, events[l]) && !Conflicts(current, events[l])
      {
        if !IsWithinTimeWindow(current, events[j - 1]) {
          break;
        }
        if Conflicts(current, events[j - 1]) {
          assert forall l :: j - 1 <= l < index ==> IsWithinTimeWindow(current, events[l]);
          return false;
        }
        j := j - 1;
      }
      assert !ConflictBefore(current, events, index) by {
        forall k | 0 <= k < index && Conflicts(current, events[k])
          ensures !forall l :: k <= l < index ==> IsWithinTimeWindow(current, events[l])
        {
          assert k < j && !IsWithinTimeWindow(current, events[j - 1]);
        }
      }
      j := index + 1;
      while j < |events|
        invariant index + 1 <= j <= |events| || j == index + 1
        invariant forall l :: index < l < j && l < |events| ==> IsWithinTimeWindow(current, events[l]) && !Conflicts(current, events[l])
      {
        if !IsWithinTimeWindow(current, events[j]) {
          break;
        }
        if Conflicts(current, events[j]) {
          assert forall l :: index < l <= j ==> IsWithinTimeWindow(current, events[l]);
          return false;
        }
        j := j + 1;
      }
      assert !ConflictAfter(current, events, index) by {
        forall k | index < k < |events| && Conflicts(current, events[k])
          ensures !forall l :: index < l <= k ==> IsWithinTimeWindow(current, events[l])
        {
          assert j <= k && !IsWithinTimeWindow(current, events[j]);
        }
      }
      keep := true;
    }

    /** `_filter_redundant_review_events`: the pending events are put in
        front of the new ones, the last three of that combined list are kept
        as the new pending events, and the combined list is filtered in one
        pass that adds each emitted id to `processedIds`. */
    method FilterRedundantReviewEvents(events: seq<Event>) returns (filtered: seq<Event>)
      modifies this
      ensures pendingEvents == LastN(old(pendingEvents) + events, 3)
      ensures FilterPrefix(old(pendingEvents) + events, old(processedIds), |old(pendingEvents) + events|)
              == FilterState(filtered, processedIds)
    {
      ghost var seen0 := processedIds;
      var combined := pendingEvents + events;
      pendingEvents := LastN(combined, 3);
      filtered := [];
      var i := 0;
      while i < |combined|
        invariant 0 <= i <= |combined|
        invariant FilterPrefix(combined, seen0, i) == FilterState(filtered, processedIds)
        invariant pendingEvents == LastN(combined, 3)
      {
        var event := combined[i];
        if event.kind == ReviewKind && event.id !in processedIds {
          var keep := ShouldKeepEvent(event, combined, i);
          if keep {
            if !(|filtered| > 0 && DuplicateReviews(filtered[|filtered| - 1], event)) {
              filtered := filtered + [event];
              processedIds := processedIds + {event.id};
            }
          }
        } else if event.id !in processedIds {
          filtered := filtered + [event];
          processedIds := processedIds + {event.id};
        }
        i := i + 1;
      }
    }

    /** `_apply_filters`: the exclusion lists, then the redundancy filter on
        the platform it is written for. */
    method ApplyFilters(events: seq<Event>, actors: seq<string>, repos: seq<string>, orgs: seq<string>)
      returns (r: seq<Event>)
      modifies this
      ensures var pre := RemoveUnwanted(events, actors, repos, orgs);
              if platform == GitHub then
                && pendingEvents == LastN(old(pendingEvents) + pre, 3)
                && FilterPrefix(old(pendingEvents) + pre, old(processedIds), |old(pendingEvents) + pre|)
                   == FilterState(r, processedIds)
              else
                r == pre && pendingEvents == old(pendingEvents) && processedIds == old(processedIds)
    {
      var kept := RemoveUnwantedActors(events, actors);
      kept := RemoveUnwantedRepos(kept, repos);
      kept := RemoveUnwantedOrgs(kept, orgs);
      if platform == GitHub {
        r := FilterRedundantReviewEvents(kept);
      } else {
        r := kept;
      }
    }

    /** The redundancy filter on a fresh processor, called with the review
        pair and then with no events: the pending events carry the dropped
        review into the second call, which emits it. */
    static method CarryOverExample() returns (first: seq<Event>, second: seq<Event>)
      ensures first == [ReviewAt("1", 0)]
      ensures second == [ReviewAt("2", 1000)]
    {
      var processor := new EventProcessor(GitHub);
      first := processor.FilterRedundantReviewEvents(ReviewPair());
      ReviewPairFirstCall();
      assert processor.pendingEvents == ReviewPair();
      second := processor.FilterRedundantReviewEvents([]);
      assert ReviewPair() + [] == ReviewPair();
      ReviewPairSecondCall();
    }
  }
}
