/** The mapping-version resolver of the command-line pipeline: mapping file
    names carry a platform and an effective-from date; the event stream is
    cut into half-open periods between consecutive version dates, and each
    period is mapped with the latest mapping files effective at its midpoint.

    Times are integers counting microseconds from 0001-01-01T00:00:00 UTC,
    the range and resolution of Python's `datetime`. Parsing a date string
    is the parameter `parseDate` (`None` when the text is not a date). */
module MappingVersions {
  import opened Basics
  import opened Text
  import opened Json

  /** `datetime.min` and `datetime.max` in UTC. */
  const MinTime := 0
  const MaxTime := 315537897599999999
  /** 1970-01-01T00:00:00 UTC. */
  const EpochMicros := 62135596800000000

  /** `[start, end)`. */
  datatype Period = Period(start: int, end: int)

  predicate Contains(p: Period, t: int)
  {
    p.start <= t < p.end
  }

  predicate StrictlyIncreasing(s: seq<int>)
  {
    forall i, j :: 0 <= i < j < |s| ==> s[i] < s[j]
  }

  // ---------------------------------------------------------------------------
  // Mapping file names

  datatype VersionError = InvalidFilename(name: string) | InvalidDate(version: string)

  /** `extract_version_info`: strip `.json`, split at `_`; fewer than three
      parts is an error, the platform is the first part and the version date
      the last. */
  function ExtractVersionInfo(filename: string, parseDate: string -> Option<int>): Result<(string, int), VersionError>
  {
    var parts := Split(RemoveAll(filename, ".json"), '_');
    if |parts| < 3 then Err(InvalidFilename(filename))
    else
      var version := parts[|parts| - 1];
      match parseDate(version)
      case Some(d) => Ok((parts[0], d))
      case None => Err(InvalidDate(version))
  }

  /** A mapping file name built from at least three `_`-free parts and the
      `.json` extension yields its first part as the platform and its last
      part as the version. */
  lemma {:induction false} ExtractFromParts(parts: seq<string>, parseDate: string -> Option<int>, d: int)
    requires |parts| >= 3
    requires forall i :: 0 <= i < |parts| ==> '_' !in parts[i]
    requires !IsSubstring(".json", Join(parts, '_'))
    requires parseDate(parts[|parts| - 1]) == Some(d)
    ensures ExtractVersionInfo(Join(parts, '_') + ".json", parseDate) == Ok((parts[0], d))
  {
    StripJson(Join(parts, '_'));
    SplitJoin(parts, '_');
  }

  /** Removing `.json` from a name that does not otherwise contain it leaves
      exactly the name without its extension; a match can never straddle the
      name and the extension, since `.json` begins with the only `.` in it. */
  lemma {:induction false} StripJson(s: string)
    requires !IsSubstring(".json", s)
    ensures RemoveAll(s + ".json", ".json") == s
    decreases |s|
  {
    var pat := ".json";
    var t := s + pat;
    if |s| == 0 {
      assert t == pat;
      assert t[..|pat|] == pat;
      assert t[|pat|..] == "";
    } else {
      if |s| >= |pat| {
        assert t[..|pat|] == s[..|pat|];
        assert !(pat <= s);
      } else {
        assert t[|s|] == '.';
        assert pat[|s|] != '.';
        assert t[..|pat|][|s|] != pat[|s|];
      }
      assert t[..|pat|] != pat;
      assert !IsSubstring(pat, s[1..]);
      assert t[1..] == s[1..] + pat;
      StripJson(s[1..]);
      assert s == [s[0]] + s[1..];
    }
  }

  /** A name is refused as malformed exactly when, without `.json`, it has
      fewer than two `_`. */
  lemma {:induction false} ExtractRefusesShortNames(name: string, parseDate: string -> Option<int>)
    ensures ExtractVersionInfo(name, parseDate) == Err(InvalidFilename(name)) <==>
            Count(RemoveAll(name, ".json"), '_') < 2
  {
    SplitCount(RemoveAll(name, ".json"), '_');
  }

  // ---------------------------------------------------------------------------
  // Version selection

  datatype Kind = ActionKind | ActivityKind

  /** The type test of `find_valid_mappings`: "action" is looked for first. */
  function MappingKind(name: string): Option<Kind>
  {
    var low := Lower(name);
    if IsSubstring("action", low) then Some(ActionKind)
    else if IsSubstring("activity", low) then Some(ActivityKind)
    else None
  }

  /** What one file contributes: its kind and version date, when its name
      parses and names `platform`. */
  function Entry(file: string, platform: string, parseDate: string -> Option<int>): Option<(Kind, int)>
  {
    match ExtractVersionInfo(file, parseDate)
    case Err(_) => None
    case Ok(info) =>
      if info.0 != platform then None
      else match MappingKind(file)
        case None => None
        case Some(k) => Some((k, info.1))
  }

  /** The `action_mappings` or `activity_mappings` dictionary after the
      files in order: a later file with the same date replaces an earlier one. */
  function Catalogue(files: seq<string>, platform: string, parseDate: string -> Option<int>, kind: Kind): map<int, string>
  {
    CatalogueOf(files, (f: string) => Entry(f, platform, parseDate), kind)
  }

  /** The catalogue for any reading `entryOf` of a file name. */
  function CatalogueOf(files: seq<string>, entryOf: string -> Option<(Kind, int)>, kind: Kind): map<int, string>
    decreases |files|
  {
    if |files| == 0 then map[]
    else
      var prev := CatalogueOf(files[..|files| - 1], entryOf, kind);
      var f := files[|files| - 1];
      match entryOf(f)
      case Some(e) => if e.0 == kind then prev[e.1 := f] else prev
      case None => prev
  }

  /** A date is in the catalogue exactly when some file of that kind carries it. */
  lemma {:induction false} CatalogueDates(files: seq<string>, entryOf: string -> Option<(Kind, int)>, kind: Kind, d: int)
    ensures d in CatalogueOf(files, entryOf, kind) <==>
            exists i :: 0 <= i < |files| && entryOf(files[i]) == Some((kind, d))
    decreases |files|
  {
    if |files| > 0 {
      var front := files[..|files| - 1];
      CatalogueDates(front, entryOf, kind, d);
      assert forall i :: 0 <= i < |front| ==> front[i] == files[i];
    }
  }

  /** A date of the catalogue maps to the last file of that kind carrying it. */
  lemma {:induction false} CatalogueLast(files: seq<string>, entryOf: string -> Option<(Kind, int)>, kind: Kind, d: int)
    requires d in CatalogueOf(files, entryOf, kind)
    ensures exists i :: && 0 <= i < |files| && entryOf(files[i]) == Some((kind, d))
                        && CatalogueOf(files, entryOf, kind)[d] == files[i]
                        && forall j :: i < j < |files| ==> entryOf(files[j]) != Some((kind, d))
    decreases |files|
  {
    var front := files[..|files| - 1];
    var last := |files| - 1;
    var c := CatalogueOf(files, entryOf, kind);
    if entryOf(files[last]) == Some((kind, d)) {
      assert c[d] == files[last];
    } else {
      assert d in CatalogueOf(front, entryOf, kind);
      CatalogueLast(front, entryOf, kind, d);
      var i :| && 0 <= i < |front| && entryOf(front[i]) == Some((kind, d))
               && CatalogueOf(front, entryOf, kind)[d] == front[i]
               && forall j :: i < j < |front| ==> entryOf(front[j]) != Some((kind, d));
      assert front[i] == files[i];
      assert forall j :: i < j < |front| ==> front[j] == files[j];
    }
  }

  /** `m` is the greatest element of `s` that is at most `date`. */
  predicate IsLatest(s: set<int>, date: int, m: int)
  {
    m in s && m <= date && forall v :: v in s && v <= date ==> v <= m
  }

  /** Among the elements of a finite set that are at most `date`, of which
      `y` is one, one is the greatest. */
  lemma {:induction false} LatestExists(s: set<int>, date: int, y: int)
    requires y in s && y <= date
    ensures exists m :: IsLatest(s, date, m)
    decreases s
  {
    var rest := s - {y};
    if z :| z in rest && z <= date {
      LatestExists(rest, date, z);
      var m :| IsLatest(rest, date, m);
      var top := if y <= m then m else y;
      forall v | v in s && v <= date ensures v <= top {
        if v != y { assert v in rest; }
      }
      assert IsLatest(s, date, top);
    } else {
      forall v | v in s && v <= date ensures v <= y {
        assert v == y || v in rest;
      }
      assert IsLatest(s, date, y);
    }
  }

  /** `m` is the least element of `s`. */
  predicate IsLeast(s: set<int>, m: int)
  {
    m in s && forall x :: x in s ==> m <= x
  }

  /** A finite set of integers of which `y` is an element has a least element. */
  lemma {:induction false} LeastExists(s: set<int>, y: int)
    requires y in s
    ensures exists m :: IsLeast(s, m)
    decreases s
  {
    var rest := s - {y};
    if z :| z in rest {
      LeastExists(rest, z);
      var m :| IsLeast(rest, m);
      var bottom := if y <= m then y else m;
      forall x | x in s ensures bottom <= x {
        if x != y { assert x in rest; }
      }
      assert IsLeast(s, bottom);
    } else {
      forall x | x in s ensures y <= x {
        assert x == y || x in rest;
      }
      assert IsLeast(s, y);
    }
  }

  /** `sorted([v for v in versions if v <= date], reverse=True)[0]`: the
      greatest version at or before `date`, if there is one. */
  function Latest(versions: set<int>, date: int): (r: Option<int>)
    ensures r.None? <==> forall v :: v in versions ==> v > date
    ensures r.Some? ==> && r.value in versions && r.value <= date
                        && forall v :: v in versions && v <= date ==> v <= r.value
  {
    if forall v :: v in versions ==> v > date then None
    else
      var y :| y in versions && y <= date;
      LatestExists(versions, date, y);
      var m :| IsLatest(versions, date, m);
      Some(m)
  }

  /** A later date never selects an earlier version. */
  lemma {:induction false} LatestMonotone(versions: set<int>, d1: int, d2: int)
    requires d1 <= d2 && Latest(versions, d1).Some?
    ensures Latest(versions, d2).Some? && Latest(versions, d1).value <= Latest(versions, d2).value
  {
  }

  /** The file of the greatest version date at or before `date`. */
  function LatestFile(mappings: map<int, string>, date: int): (r: Option<string>)
    ensures r.Some? <==> exists v :: v in mappings && v <= date
    ensures r.Some? ==> exists v :: && v in mappings && v <= date && mappings[v] == r.value
                                    && forall w :: w in mappings && w <= date ==> w <= v
  {
    match Latest(mappings.Keys, date)
    case Some(v) => Some(mappings[v])
    case None => None
  }

  /** `find_valid_mappings` on the files that the configuration directory
      lists for `platform`, in that order. */
  method FindValidMappings(files: seq<string>, platform: string, parseDate: string -> Option<int>, date: int)
    returns (action: Option<string>, activity: Option<string>)
    ensures action == LatestFile(Catalogue(files, platform, parseDate, ActionKind), date)
    ensures activity == LatestFile(Catalogue(files, platform, parseDate, ActivityKind), date)
  {
    var actionMappings: map<int, string> := map[];
    var activityMappings: map<int, string> := map[];
    var i := 0;
    while i < |files|
      invariant 0 <= i <= |files|
      invariant actionMappings == Catalogue(files[..i], platform, parseDate, ActionKind)
      invariant activityMappings == Catalogue(files[..i], platform, parseDate, ActivityKind)
    {
      var file := files[i];
      var info := ExtractVersionInfo(file, parseDate);
      if info.Ok? && info.value.0 == platform {
        var low := Lower(file);
        if IsSubstring("action", low) {
          actionMappings := actionMappings[info.value.1 := file];
        } else if IsSubstring("activity", low) {
          activityMappings := activityMappings[info.value.1 := file];
        }
      }
      assert files[..i + 1][..i] == files[..i];
      i := i + 1;
    }
    assert files[..i] == files;
    action := LatestFile(actionMappings, date);
    activity := LatestFile(activityMappings, date);
  }

  // ---------------------------------------------------------------------------
  // Period midpoint

  /** `timedelta / 2`: half a number of microseconds, a half rounded to the
      even neighbour. */
  function HalfDuration(d: int): int
  {
    var q := d / 2;
    if d % 2 == 0 || q % 2 == 0 then q else q + 1
  }

  /** `start + (end - start) / 2`. */
  function Midpoint(p: Period): (m: int)
    ensures p.start <= p.end ==> p.start <= m <= p.end
    ensures p.start < p.end ==> Contains(p, m)
  {
    p.start + HalfDuration(p.end - p.start)
  }

  /** The mappings a period is processed with, or `None` when the period is
      skipped because either kind has no version at the midpoint. */
  method ProcessPeriod(files: seq<string>, platform: string, parseDate: string -> Option<int>, p: Period)
    returns (selected: Option<(string, string)>)
    ensures var action := LatestFile(Catalogue(files, platform, parseDate, ActionKind), Midpoint(p));
            var activity := LatestFile(Catalogue(files, platform, parseDate, ActivityKind), Midpoint(p));
            selected == if action.Some? && activity.Some? then Some((action.value, activity.value)) else None
  {
    var mid := Midpoint(p);
    var action, activity := FindValidMappings(files, platform, parseDate, mid);
    if action.None? || activity.None? {
      return None;
    }
    selected := Some((action.value, activity.value));
  }

  // ---------------------------------------------------------------------------
  // Periods

  lemma {:induction false} HasLeast(versions: set<int>)
    requires exists y :: y in versions
    ensures exists m :: IsLeast(versions, m)
  {
    var y :| y in versions;
    LeastExists(versions, y);
  }

  /** `sorted(versions)`. */
  function Sorted(versions: set<int>): (s: seq<int>)
    ensures StrictlyIncreasing(s)
    ensures forall v :: v in s <==> v in versions
    ensures |s| == |versions|
    decreases versions
  {
    if !exists v :: v in versions then
      assert versions == {};
      []
    else
      HasLeast(versions);
      var m :| IsLeast(versions, m);
      var rest := Sorted(versions - {m});
      assert forall v :: v in rest ==> v in versions && m < v;
      [m] + rest
  }

  /** Where the period starting at `versions[i]` ends: the next version,
      or `datetime.max` after the last. */
  function NextStart(versions: seq<int>, i: nat): int
  {
    if i + 1 < |versions| then versions[i + 1] else MaxTime
  }

  /** The period that starts at `versions[i]`. */
  function PeriodAt(versions: seq<int>, i: nat): Period
    requires i < |versions|
  {
    Period(versions[i], NextStart(versions, i))
  }

  /** `_create_time_periods`: one period per version. */
  function TimePeriods(versions: seq<int>): (ps: seq<Period>)
    ensures |ps| == |versions|
    ensures forall i :: 0 <= i < |ps| ==> ps[i] == PeriodAt(versions, i)
  {
    seq(|versions|, i requires 0 <= i < |versions| => PeriodAt(versions, i))
  }

  /** A period ends no later than any later period starts. */
  lemma {:induction false} PeriodBefore(versions: seq<int>, i: nat, j: nat)
    requires StrictlyIncreasing(versions)
    requires i < j < |versions|
    ensures PeriodAt(versions, i).end <= PeriodAt(versions, j).start
  {
    assert NextStart(versions, i) == versions[i + 1];
  }

  /** The periods are contiguous: each ends where the next begins, the last
      ends at `datetime.max`. */
  lemma {:induction false} PeriodsContiguous(versions: seq<int>)
    ensures var ps := TimePeriods(versions);
            && (forall i :: 0 <= i < |ps| ==> ps[i].start == versions[i])
            && (forall i :: 0 <= i < |ps| - 1 ==> ps[i].end == ps[i + 1].start)
            && (|ps| > 0 ==> ps[|ps| - 1].end == MaxTime)
  {
    var ps := TimePeriods(versions);
    forall i | 0 <= i < |ps| - 1 ensures ps[i].end == ps[i + 1].start {
      assert ps[i].end == NextStart(versions, i) == versions[i + 1];
    }
    if |ps| > 0 {
      assert ps[|ps| - 1].end == NextStart(versions, |ps| - 1);
    }
  }

  method CreateTimePeriods(sortedVersions: seq<int>) returns (periods: seq<Period>)
    ensures periods == TimePeriods(sortedVersions)
  {
    periods := [];
    var i := 0;
    while i < |sortedVersions|
      invariant 0 <= i <= |sortedVersions|
      invariant periods == TimePeriods(sortedVersions)[..i]
    {
      var endDate := if i + 1 < |sortedVersions| then sortedVersions[i + 1] else MaxTime;
      assert endDate == NextStart(sortedVersions, i);
      periods := periods + [Period(sortedVersions[i], endDate)];
      i := i + 1;
    }
  }

  /** Increasing versions below `datetime.max` give non-empty periods. */
  predicate ValidVersions(versions: seq<int>)
  {
    StrictlyIncreasing(versions) && forall i :: 0 <= i < |versions| ==> versions[i] < MaxTime
  }

  /** The periods of valid versions do not overlap. */
  lemma {:induction false} PeriodsDisjoint(versions: seq<int>, t: int, i: nat, j: nat)
    requires ValidVersions(versions)
    requires i < |versions| && j < |versions|
    requires Contains(TimePeriods(versions)[i], t) && Contains(TimePeriods(versions)[j], t)
    ensures i == j
  {
    if i < j {
      PeriodBefore(versions, i, j);
    } else if j < i {
      PeriodBefore(versions, j, i);
    }
  }

  /** The periods of valid versions leave no gap from the first version to
      `datetime.max`. */
  lemma {:induction false} PeriodsCover(versions: seq<int>, t: int, i: nat)
    requires ValidVersions(versions)
    requires i < |versions| && versions[i] <= t < MaxTime
    ensures exists k :: i <= k < |versions| && Contains(TimePeriods(versions)[k], t)
    decreases |versions| - i
  {
    if i + 1 < |versions| && versions[i + 1] <= t {
      PeriodsCover(versions, t, i + 1);
    } else {
      assert Contains(TimePeriods(versions)[i], t);
    }
  }

  /** The first period, from position `i` on, that contains `t`. */
  function Locate(periods: seq<Period>, t: int, i: nat): (r: Option<nat>)
    requires i <= |periods|
    ensures r.Some? ==> && i <= r.value < |periods| && Contains(periods[r.value], t)
                        && forall l :: i <= l < r.value ==> !Contains(periods[l], t)
    ensures r.None? ==> forall l :: i <= l < |periods| ==> !Contains(periods[l], t)
    decreases |periods| - i
  {
    if i == |periods| then None
    else if Contains(periods[i], t) then Some(i)
    else Locate(periods, t, i + 1)
  }

  /** With valid versions, a time has a period exactly when it is at or
      after the first version (every time is before `datetime.max`), and
      that period is the one that contains it. */
  lemma {:induction false} LocateInPeriods(versions: seq<int>, t: int)
    requires ValidVersions(versions)
    ensures Locate(TimePeriods(versions), t, 0).Some? <==> |versions| > 0 && versions[0] <= t < MaxTime
    ensures forall k :: 0 <= k < |versions| && Contains(TimePeriods(versions)[k], t) ==>
              Locate(TimePeriods(versions), t, 0) == Some(k)
  {
    var ps := TimePeriods(versions);
    if |versions| > 0 && versions[0] <= t < MaxTime {
      PeriodsCover(versions, t, 0);
    }
    forall k | 0 <= k < |versions| && Contains(ps[k], t)
      ensures Locate(ps, t, 0) == Some(k)
    {
      PeriodsDisjoint(versions, t, k, Locate(ps, t, 0).value);
    }
  }

  // ---------------------------------------------------------------------------
  // Event dates and assignment

  /** The exception raised when a date field has the wrong kind. */
  datatype DateError = AttributeError

  /** `_parse_event_date(event.get('created_at'))` as written: a missing or
      falsy date is `None`, a string goes to the parser, and any other
      truthy value, an integer millisecond timestamp included, reaches
      `str.replace` and raises. */
  function EventDateAsWritten(event: Value, parseDate: string -> Option<int>): Result<Option<int>, DateError>
  {
    match event
    case Obj(fields) =>
      var v := Get(fields, "created_at");
      if !Truthy(v) then Ok(None)
      else if v.Str? then Ok(parseDate(v.s))
      else Err(AttributeError)
    case _ => Err(AttributeError)
  }

  /** A millisecond Unix timestamp as a time. */
  function FromMillis(ms: int): int
  {
    EpochMicros + ms * 1000
  }

  /** The event date with integer millisecond timestamps read as the
      preprocessing and rule stages read them. */
  function EventDate(event: Value, parseDate: string -> Option<int>): Result<Option<int>, DateError>
  {
    match event
    case Obj(fields) =>
      var v := Get(fields, "created_at");
      if !Truthy(v) then Ok(None)
      else if v.Str? then Ok(parseDate(v.s))
      else if v.Int? then Ok(Some(FromMillis(v.i)))
      else Err(AttributeError)
    case _ => Err(AttributeError)
  }

  /** The event whose date is the integer `ms`. */
  function MillisEvent(ms: int): Value
  {
    Obj([("created_at", Int(ms))])
  }

  /** As written, an event with an integer timestamp makes period
      assignment raise. */
  lemma {:induction false} MillisDateRaises(ms: int, parseDate: string -> Option<int>)
    requires ms != 0
    ensures EventDateAsWritten(MillisEvent(ms), parseDate) == Err(AttributeError)
  {
    assert Get([("created_at", Int(ms))], "created_at") == Int(ms);
  }

  /** The corrected reading dates such an event at its timestamp and agrees
      with the one as written wherever that one does not raise. */
  lemma {:induction false} MillisDateRead(ms: int, parseDate: string -> Option<int>)
    requires ms != 0
    ensures EventDate(MillisEvent(ms), parseDate) == Ok(Some(FromMillis(ms)))
  {
    assert Get([("created_at", Int(ms))], "created_at") == Int(ms);
  }

  lemma {:induction false} EventDateExtends(event: Value, parseDate: string -> Option<int>)
    ensures EventDateAsWritten(event, parseDate).Ok? ==> EventDate(event, parseDate) == EventDateAsWritten(event, parseDate)
    ensures EventDate(event, parseDate).Err? ==> EventDateAsWritten(event, parseDate).Err?
  {
  }

  /** How an event's date is read: `EventDate` with a date parser. */
  type DateReader = Value -> Result<Option<int>, DateError>

  /** The period an event is assigned to, if any. */
  function AssignedTo(periods: seq<Period>, dateOf: DateReader, event: Value): Option<nat>
  {
    match dateOf(event)
    case Ok(Some(t)) => Locate(periods, t, 0)
    case _ => None
  }

  /** The events of period `i`, in input order. */
  function GroupOf(events: seq<Value>, periods: seq<Period>, dateOf: DateReader, i: nat): seq<Value>
  {
    KeepWhere(events, (e: Value) => AssignedTo(periods, dateOf, e) == Some(i))
  }

  /** The lists of `events_by_period`, one per period in order. */
  function Groups(events: seq<Value>, periods: seq<Period>, dateOf: DateReader): (gs: seq<seq<Value>>)
    ensures |gs| == |periods|
    ensures forall i :: 0 <= i < |periods| ==> gs[i] == GroupOf(events, periods, dateOf, i)
  {
    seq(|periods|, i requires 0 <= i < |periods| => GroupOf(events, periods, dateOf, i))
  }

  /** No event's date raises. */
  predicate Readable(events: seq<Value>, dateOf: DateReader)
  {
    forall k :: 0 <= k < |events| ==> dateOf(events[k]).Ok?
  }

  lemma {:induction false} GroupOfStep(events: seq<Value>, periods: seq<Period>, dateOf: DateReader, n: nat, i: nat)
    requires n < |events|
    ensures GroupOf(events[..n + 1], periods, dateOf, i) ==
            GroupOf(events[..n], periods, dateOf, i) +
            (if AssignedTo(periods, dateOf, events[n]) == Some(i) then [events[n]] else [])
  {
    assert events[..n + 1][..n] == events[..n];
  }

  /** `events_by_period[period].append(event)` for the period found, if any. */
  function Place(groups: seq<seq<Value>>, slot: Option<nat>, event: Value): (r: seq<seq<Value>>)
    ensures |r| == |groups|
  {
    if slot.Some? && slot.value < |groups| then groups[slot.value := groups[slot.value] + [event]] else groups
  }

  lemma {:induction false} GroupsStep(events: seq<Value>, periods: seq<Period>, dateOf: DateReader, n: nat)
    requires n < |events|
    ensures Groups(events[..n + 1], periods, dateOf) ==
            Place(Groups(events[..n], periods, dateOf), AssignedTo(periods, dateOf, events[n]), events[n])
  {
    var next := Groups(events[..n + 1], periods, dateOf);
    var placed := Place(Groups(events[..n], periods, dateOf), AssignedTo(periods, dateOf, events[n]), events[n]);
    forall i | 0 <= i < |periods| ensures next[i] == placed[i] {
      GroupOfStep(events, periods, dateOf, n, i);
    }
  }

  /** `_assign_events_to_periods`: each event goes to the first period that
      contains its date; an event without a date is skipped and one whose
      date raises aborts the assignment. */
  method AssignEventsToPeriods(events: seq<Value>, periods: seq<Period>, dateOf: DateReader)
    returns (r: Result<seq<seq<Value>>, DateError>)
    ensures r == if Readable(events, dateOf) then Ok(Groups(events, periods, dateOf)) else Err(AttributeError)
  {
    var groups: seq<seq<Value>> := seq(|periods|, _ => []);
    assert groups == Groups(events[..0], periods, dateOf);
    var n := 0;
    while n < |events|
      invariant 0 <= n <= |events|
      invariant groups == Groups(events[..n], periods, dateOf)
      invariant Readable(events[..n], dateOf)
    {
      var date := dateOf(events[n]);
      if date.Err? {
        assert !Readable(events, dateOf);
        return Err(AttributeError);
      }
      ghost var before := groups;
      if date.value.Some? {
        var t := date.value.value;
        var j := 0;
        while j < |periods|
          invariant 0 <= j <= |periods|
          invariant Locate(periods, t, 0) == Locate(periods, t, j)
          invariant groups == before
        {
          if periods[j].start <= t < periods[j].end {
            groups := groups[j := groups[j] + [events[n]]];
            break;
          }
          j := j + 1;
        }
      }
      assert groups == Place(before, AssignedTo(periods, dateOf, events[n]), events[n]);
      GroupsStep(events, periods, dateOf, n);
      assert events[..n + 1][..n] == events[..n];
      n := n + 1;
    }
    assert events[..n] == events;
    r := Ok(groups);
  }

  // ---------------------------------------------------------------------------
  // Splitting the events by mapping version

  /** The date of `e` is read and lies in `p`. */
  predicate DatedIn(dateOf: DateReader, e: Value, p: Period)
  {
    dateOf(e).Ok? && dateOf(e).value.Some? && Contains(p, dateOf(e).value.value)
  }

  /** The positions of the non-empty lists from position `i` on, in order. */
  function NonEmptyIndices(gs: seq<seq<Value>>, i: nat): (idx: seq<nat>)
    requires i <= |gs|
    ensures forall k :: 0 <= k < |idx| ==> i <= idx[k] < |gs| && gs[idx[k]] != []
    ensures forall j :: i <= j < |gs| && gs[j] != [] ==> j in idx
    ensures forall k, l :: 0 <= k < l < |idx| ==> idx[k] < idx[l]
    decreases |gs| - i
  {
    if i == |gs| then []
    else
      var rest := NonEmptyIndices(gs, i + 1);
      if gs[i] == [] then rest else [i] + rest
  }

  /** `{k: v for k, v in events_by_period.items() if v}`: the periods with
      their events, empty ones removed, in period order. */
  function NonEmptyPeriods(ps: seq<Period>, gs: seq<seq<Value>>): (r: seq<(Period, seq<Value>)>)
    requires |ps| == |gs|
    ensures var idx := NonEmptyIndices(gs, 0);
            |r| == |idx| && forall k :: 0 <= k < |r| ==> r[k] == (ps[idx[k]], gs[idx[k]])
  {
    var idx := NonEmptyIndices(gs, 0);
    seq(|idx|, k requires 0 <= k < |idx| => (ps[idx[k]], gs[idx[k]]))
  }

  /** What `split_events_by_mapping_versions` returns once the version dates
      are known: one period from `datetime.min` to `datetime.max` holding
      every event when there is no version, and otherwise the non-empty
      groups of the periods between consecutive versions. */
  function EventsByPeriod(events: seq<Value>, versions: set<int>, dateOf: DateReader): Result<seq<(Period, seq<Value>)>, DateError>
  {
    if versions == {} then Ok([(Period(MinTime, MaxTime), events)])
    else if !Readable(events, dateOf) then Err(AttributeError)
    else
      var ps := TimePeriods(Sorted(versions));
      Ok(NonEmptyPeriods(ps, Groups(events, ps, dateOf)))
  }

  /** The steps of `split_events_by_mapping_versions` after
      `_get_version_dates`, for any reading `dateOf` of the event dates. */
  method SplitByVersions(events: seq<Value>, versions: set<int>, dateOf: DateReader)
    returns (r: Result<seq<(Period, seq<Value>)>, DateError>)
    ensures r == EventsByPeriod(events, versions, dateOf)
  {
    if versions == {} {
      return Ok([(Period(MinTime, MaxTime), events)]);
    }
    var periods := CreateTimePeriods(Sorted(versions));
    var grouped := AssignEventsToPeriods(events, periods, dateOf);
    if grouped.Err? {
      return Err(grouped.error);
    }
    r := Ok(NonEmptyPeriods(periods, grouped.value));
  }

  /** `split_events_by_mapping_versions` as written: event dates are read
      by `_parse_event_date`, so an integer timestamp raises. */
  method SplitEventsByMappingVersions(events: seq<Value>, versions: set<int>, parseDate: string -> Option<int>)
    returns (r: Result<seq<(Period, seq<Value>)>, DateError>)
    ensures r == EventsByPeriod(events, versions, (e: Value) => EventDateAsWritten(e, parseDate))
  {
    r := SplitByVersions(events, versions, (e: Value) => EventDateAsWritten(e, parseDate));
  }

  /** The split with the corrected reading of event dates, which takes an
      integer timestamp as Unix milliseconds. */
  method SplitEventsByMappingVersionsCorrected(events: seq<Value>, versions: set<int>, parseDate: string -> Option<int>)
    returns (r: Result<seq<(Period, seq<Value>)>, DateError>)
    ensures r == EventsByPeriod(events, versions, (e: Value) => EventDate(e, parseDate))
  {
    r := SplitByVersions(events, versions, (e: Value) => EventDate(e, parseDate));
  }

  /** Once there is a version, an event with an integer timestamp makes the
      split as written raise, while the corrected split succeeds and places
      it by its timestamp. */
  lemma {:induction false} MillisSplit(ms: int, versions: set<int>, parseDate: string -> Option<int>)
    requires ms != 0
    requires versions != {}
    ensures EventsByPeriod([MillisEvent(ms)], versions, (e: Value) => EventDateAsWritten(e, parseDate)) == Err(AttributeError)
    ensures EventsByPeriod([MillisEvent(ms)], versions, (e: Value) => EventDate(e, parseDate)).Ok?
  {
    MillisDateRaises(ms, parseDate);
    MillisDateRead(ms, parseDate);
    assert [MillisEvent(ms)][0] == MillisEvent(ms);
    assert !Readable([MillisEvent(ms)], (e: Value) => EventDateAsWritten(e, parseDate));
    assert Readable([MillisEvent(ms)], (e: Value) => EventDate(e, parseDate));
  }

  /** Version dates below `datetime.max` sort into valid versions. */
  lemma {:induction false} SortedValid(versions: set<int>)
    requires forall v :: v in versions ==> v < MaxTime
    ensures ValidVersions(Sorted(versions))
  {
    var s := Sorted(versions);
    forall i | 0 <= i < |s| ensures s[i] < MaxTime {
      assert s[i] in versions;
    }
  }

  /** An event is in the group of period `i` exactly when its date is read
      and lies in that period. */
  lemma {:induction false} GroupMembership(events: seq<Value>, versions: seq<int>, dateOf: DateReader, e: Value, i: nat)
    requires ValidVersions(versions) && i < |versions|
    ensures e in GroupOf(events, TimePeriods(versions), dateOf, i) <==>
            e in events && DatedIn(dateOf, e, PeriodAt(versions, i))
  {
    if dateOf(e).Ok? && dateOf(e).value.Some? {
      LocateInPeriods(versions, dateOf(e).value.value);
    }
  }

  /** An event is in some group exactly when its date is read and lies
      between the first version and `datetime.max`. */
  lemma {:induction false} GroupPlacement(events: seq<Value>, versions: seq<int>, dateOf: DateReader, e: Value)
    requires ValidVersions(versions) && e in events
    ensures (exists i :: 0 <= i < |versions| && e in GroupOf(events, TimePeriods(versions), dateOf, i)) <==>
            dateOf(e).Ok? && dateOf(e).value.Some? && |versions| > 0 && versions[0] <= dateOf(e).value.value < MaxTime
  {
    var ps := TimePeriods(versions);
    if dateOf(e).Ok? && dateOf(e).value.Some? {
      var t := dateOf(e).value.value;
      LocateInPeriods(versions, t);
      if |versions| > 0 && versions[0] <= t < MaxTime {
        var i := Locate(ps, t, 0).value;
        GroupMembership(events, versions, dateOf, e, i);
      }
      forall i | 0 <= i < |versions| && e in GroupOf(events, ps, dateOf, i)
        ensures |versions| > 0 && versions[0] <= t < MaxTime
      {
        GroupMembership(events, versions, dateOf, e, i);
      }
    } else {
      forall i | 0 <= i < |versions| ensures e !in GroupOf(events, ps, dateOf, i) {
        GroupMembership(events, versions, dateOf, e, i);
      }
    }
  }

  /** With versions, a returned period holds events, starts at a version
      and has no other version inside it. */
  lemma {:induction false} SplitPeriodAt(events: seq<Value>, versions: set<int>, dateOf: DateReader, k: nat)
    requires versions != {} && forall v :: v in versions ==> v < MaxTime
    requires EventsByPeriod(events, versions, dateOf).Ok?
    requires k < |EventsByPeriod(events, versions, dateOf).value|
    ensures var group := EventsByPeriod(events, versions, dateOf).value[k];
            && group.1 != [] && group.0.start in versions && group.0.start < group.0.end
            && forall v :: v in versions ==> v <= group.0.start || group.0.end <= v
  {
    var vs := Sorted(versions);
    SortedValid(versions);
    var ps := TimePeriods(vs);
    var gs := Groups(events, ps, dateOf);
    var idx := NonEmptyIndices(gs, 0);
    var out := EventsByPeriod(events, versions, dateOf).value;
    assert out == NonEmptyPeriods(ps, gs);
    var i := idx[k];
    assert out[k] == (PeriodAt(vs, i), gs[i]);
    assert vs[i] in versions;
    NoVersionInside(vs, i);
    forall v | v in versions ensures v <= vs[i] || NextStart(vs, i) <= v {
      assert v in vs;
    }
  }

  /** A period of valid versions is non-empty and no version lies inside it. */
  lemma {:induction false} NoVersionInside(vs: seq<int>, i: nat)
    requires ValidVersions(vs) && i < |vs|
    ensures vs[i] < NextStart(vs, i)
    ensures forall j :: 0 <= j < |vs| ==> vs[j] <= vs[i] || NextStart(vs, i) <= vs[j]
  {
    if i + 1 < |vs| {
      assert vs[i] < vs[i + 1];
    }
    forall j | 0 <= j < |vs| ensures vs[j] <= vs[i] || NextStart(vs, i) <= vs[j] {
      if j > i {
        PeriodBefore(vs, i, j);
      }
    }
  }

  /** With versions, every returned period is as `SplitPeriodAt` says, and
      the periods follow one another without overlap. */
  lemma {:induction false} SplitPeriods(events: seq<Value>, versions: set<int>, dateOf: DateReader)
    requires versions != {} && forall v :: v in versions ==> v < MaxTime
    requires EventsByPeriod(events, versions, dateOf).Ok?
    ensures var out := EventsByPeriod(events, versions, dateOf).value;
            && (forall k :: 0 <= k < |out| ==>
                  && out[k].1 != [] && out[k].0.start in versions && out[k].0.start < out[k].0.end
                  && forall v :: v in versions ==> v <= out[k].0.start || out[k].0.end <= v)
            && (forall k, l :: 0 <= k < l < |out| ==> out[k].0.end <= out[l].0.start)
  {
    var vs := Sorted(versions);
    SortedValid(versions);
    var ps := TimePeriods(vs);
    var gs := Groups(events, ps, dateOf);
    var idx := NonEmptyIndices(gs, 0);
    var out := EventsByPeriod(events, versions, dateOf).value;
    assert out == NonEmptyPeriods(ps, gs);
    forall k | 0 <= k < |out|
      ensures && out[k].1 != [] && out[k].0.start in versions && out[k].0.start < out[k].0.end
              && forall v :: v in versions ==> v <= out[k].0.start || out[k].0.end <= v
    {
      SplitPeriodAt(events, versions, dateOf, k);
    }
    forall k, l | 0 <= k < l < |out| ensures out[k].0.end <= out[l].0.start {
      PeriodBefore(vs, idx[k], idx[l]);
    }
  }

  /** With versions, the events of a returned period are exactly the
      events dated inside it, in input order and with every copy kept. */
  lemma {:induction false} SplitMembership(events: seq<Value>, versions: set<int>, dateOf: DateReader, e: Value, k: nat)
    requires versions != {} && forall v :: v in versions ==> v < MaxTime
    requires EventsByPeriod(events, versions, dateOf).Ok?
    requires k < |EventsByPeriod(events, versions, dateOf).value|
    ensures var group := EventsByPeriod(events, versions, dateOf).value[k];
            && (e in group.1 <==> e in events && DatedIn(dateOf, e, group.0))
            && IsSubsequence(group.1, events)
            && multiset(group.1)[e] == if e in group.1 then multiset(events)[e] else 0
  {
    var vs := Sorted(versions);
    SortedValid(versions);
    var ps := TimePeriods(vs);
    var gs := Groups(events, ps, dateOf);
    var idx := NonEmptyIndices(gs, 0);
    var out := EventsByPeriod(events, versions, dateOf).value;
    assert out == NonEmptyPeriods(ps, gs);
    var i := idx[k];
    assert out[k] == (PeriodAt(vs, i), GroupOf(events, ps, dateOf, i));
    GroupMembership(events, vs, dateOf, e, i);
    KeepWhereCounts(events, (x: Value) => AssignedTo(ps, dateOf, x) == Some(i), e);
  }

  /** With versions, an event is kept exactly when its date is read, is
      before `datetime.max` and is not before every version. */
  lemma {:induction false} SplitPlacement(events: seq<Value>, versions: set<int>, dateOf: DateReader, e: Value)
    requires versions != {} && forall v :: v in versions ==> v < MaxTime
    requires EventsByPeriod(events, versions, dateOf).Ok?
    requires e in events
    ensures var out := EventsByPeriod(events, versions, dateOf).value;
            (exists k :: 0 <= k < |out| && e in out[k].1) <==>
            && dateOf(e).Ok? && dateOf(e).value.Some? && dateOf(e).value.value < MaxTime
            && exists v :: v in versions && v <= dateOf(e).value.value
  {
    var vs := Sorted(versions);
    SortedValid(versions);
    var ps := TimePeriods(vs);
    var gs := Groups(events, ps, dateOf);
    var idx := NonEmptyIndices(gs, 0);
    var out := EventsByPeriod(events, versions, dateOf).value;
    assert out == NonEmptyPeriods(ps, gs);
    GroupPlacement(events, vs, dateOf, e);
    assert vs[0] in versions;
    if dateOf(e).Ok? && dateOf(e).value.Some? {
      var t := dateOf(e).value.value;
      forall v | v in versions && v <= t ensures vs[0] <= t {
        assert v in vs;
      }
    }
    if exists i :: 0 <= i < |vs| && e in GroupOf(events, ps, dateOf, i) {
      var i :| 0 <= i < |vs| && e in GroupOf(events, ps, dateOf, i);
      assert gs[i] != [];
      var k :| 0 <= k < |idx| && idx[k] == i;
      assert e in out[k].1;
    }
    forall k | 0 <= k < |out| && e in out[k].1
      ensures exists i :: 0 <= i < |vs| && e in GroupOf(events, ps, dateOf, i)
    {
      assert e in GroupOf(events, ps, dateOf, idx[k]);
    }
  }

  /** With versions, no event is in two returned periods. */
  lemma {:induction false} SplitUnique(events: seq<Value>, versions: set<int>, dateOf: DateReader, e: Value, k: nat, l: nat)
    requires versions != {} && forall v :: v in versions ==> v < MaxTime
    requires EventsByPeriod(events, versions, dateOf).Ok?
    requires var out := EventsByPeriod(events, versions, dateOf).value;
             k < |out| && l < |out| && e in out[k].1 && e in out[l].1
    ensures k == l
  {
    var vs := Sorted(versions);
    SortedValid(versions);
    var ps := TimePeriods(vs);
    var gs := Groups(events, ps, dateOf);
    var idx := NonEmptyIndices(gs, 0);
    var out := EventsByPeriod(events, versions, dateOf).value;
    assert out == NonEmptyPeriods(ps, gs);
    GroupMembership(events, vs, dateOf, e, idx[k]);
    GroupMembership(events, vs, dateOf, e, idx[l]);
    PeriodsDisjoint(vs, dateOf(e).value.value, idx[k], idx[l]);
  }

  // ---------------------------------------------------------------------------
  // The version a period is processed with

  /** When no version lies inside a period, the latest of any subset of the
      versions at the period's midpoint is the latest at its start. */
  lemma {:induction false} MidpointAsStart(versions: set<int>, dates: set<int>, p: Period)
    requires dates <= versions && p.start < p.end
    requires forall v :: v in versions ==> v <= p.start || p.end <= v
    ensures Latest(dates, Midpoint(p)) == Latest(dates, p.start)
  {
    var m := Midpoint(p);
    var a := Latest(dates, m);
    var b := Latest(dates, p.start);
    if a.Some? {
      assert a.value in versions;
      assert b.Some?;
    }
  }

  /** A returned period is processed with its own version: the latest
      version at its midpoint is its start. */
  lemma {:induction false} PeriodVersion(events: seq<Value>, versions: set<int>, dateOf: DateReader, k: nat)
    requires versions != {} && forall v :: v in versions ==> v < MaxTime
    requires EventsByPeriod(events, versions, dateOf).Ok?
    requires k < |EventsByPeriod(events, versions, dateOf).value|
    ensures var p := EventsByPeriod(events, versions, dateOf).value[k].0;
            Latest(versions, Midpoint(p)) == Some(p.start)
  {
    SplitPeriods(events, versions, dateOf);
    var p := EventsByPeriod(events, versions, dateOf).value[k].0;
    MidpointAsStart(versions, versions, p);
  }

  /** Later periods are processed with versions no older than earlier ones. */
  lemma {:induction false} SelectionMonotone(events: seq<Value>, versions: set<int>, dateOf: DateReader, dates: set<int>, k: nat, l: nat)
    requires versions != {} && forall v :: v in versions ==> v < MaxTime
    requires EventsByPeriod(events, versions, dateOf).Ok?
    requires k < l < |EventsByPeriod(events, versions, dateOf).value|
    requires Latest(dates, Midpoint(EventsByPeriod(events, versions, dateOf).value[k].0)).Some?
    ensures var out := EventsByPeriod(events, versions, dateOf).value;
            && Latest(dates, Midpoint(out[l].0)).Some?
            && Latest(dates, Midpoint(out[k].0)).value <= Latest(dates, Midpoint(out[l].0)).value
  {
    SplitPeriods(events, versions, dateOf);
    var out := EventsByPeriod(events, versions, dateOf).value;
    LatestMonotone(dates, Midpoint(out[k].0), Midpoint(out[l].0));
  }

  /** `_get_version_dates`: the dates of the files whose name parses and
      names `platform`; any other file is skipped. */
  function VersionDates(files: seq<string>, platform: string, parseDate: string -> Option<int>): set<int>
    decreases |files|
  {
    if |files| == 0 then {}
    else
      var prev := VersionDates(files[..|files| - 1], platform, parseDate);
      match ExtractVersionInfo(files[|files| - 1], parseDate)
      case Ok(info) => if info.0 == platform then prev + {info.1} else prev
      case Err(_) => prev
  }

  /** A date is a version exactly when some file of the platform carries it. */
  lemma {:induction false} VersionDatesMembers(files: seq<string>, platform: string, parseDate: string -> Option<int>, d: int)
    ensures d in VersionDates(files, platform, parseDate) <==>
            exists i :: 0 <= i < |files| && ExtractVersionInfo(files[i], parseDate) == Ok((platform, d))
    decreases |files|
  {
    if |files| > 0 {
      var front := files[..|files| - 1];
      VersionDatesMembers(front, platform, parseDate, d);
      assert forall i :: 0 <= i < |front| ==> front[i] == files[i];
    }
  }

  /** The loop of `_get_version_dates` over the listed files. */
  method GetVersionDates(files: seq<string>, platform: string, parseDate: string -> Option<int>) returns (dates: set<int>)
    ensures dates == VersionDates(files, platform, parseDate)
  {
    dates := {};
    var i := 0;
    while i < |files|
      invariant 0 <= i <= |files|
      invariant dates == VersionDates(files[..i], platform, parseDate)
    {
      var info := ExtractVersionInfo(files[i], parseDate);
      if info.Ok? && info.value.0 == platform {
        dates := dates + {info.value.1};
      }
      assert files[..i + 1][..i] == files[..i];
      i := i + 1;
    }
    assert files[..i] == files;
  }

  /** Every catalogued date is a version date. */
  lemma {:induction false} CatalogueInVersions(files: seq<string>, platform: string, parseDate: string -> Option<int>, kind: Kind)
    ensures Catalogue(files, platform, parseDate, kind).Keys <= VersionDates(files, platform, parseDate)
  {
    var entryOf := (f: string) => Entry(f, platform, parseDate);
    forall d | d in Catalogue(files, platform, parseDate, kind)
      ensures d in VersionDates(files, platform, parseDate)
    {
      CatalogueDates(files, entryOf, kind, d);
      var i :| 0 <= i < |files| && entryOf(files[i]) == Some((kind, d));
      assert ExtractVersionInfo(files[i], parseDate) == Ok((platform, d));
      VersionDatesMembers(files, platform, parseDate, d);
    }
  }

  /** Splitting by the discovered versions, the mapping file of each kind
      chosen at a period's midpoint is the one in force at its start. */
  lemma {:induction false} PeriodMappingsAtStart(files: seq<string>, platform: string, parseDate: string -> Option<int>,
                                                 events: seq<Value>, dateOf: DateReader, kind: Kind, k: nat)
    requires var versions := VersionDates(files, platform, parseDate);
             && versions != {} && (forall v :: v in versions ==> v < MaxTime)
             && EventsByPeriod(events, versions, dateOf).Ok?
             && k < |EventsByPeriod(events, versions, dateOf).value|
    ensures var p := EventsByPeriod(events, VersionDates(files, platform, parseDate), dateOf).value[k].0;
            var c := Catalogue(files, platform, parseDate, kind);
            LatestFile(c, Midpoint(p)) == LatestFile(c, p.start)
  {
    var versions := VersionDates(files, platform, parseDate);
    SplitPeriods(events, versions, dateOf);
    CatalogueInVersions(files, platform, parseDate, kind);
    var p := EventsByPeriod(events, versions, dateOf).value[k].0;
    MidpointAsStart(versions, Catalogue(files, platform, parseDate, kind).Keys, p);
  }

  /** Without versions no mapping file is found, so the single period is
      skipped. */
  lemma {:induction false} NoVersionsNoMapping(files: seq<string>, platform: string, parseDate: string -> Option<int>, kind: Kind, date: int)
    requires VersionDates(files, platform, parseDate) == {}
    ensures LatestFile(Catalogue(files, platform, parseDate, kind), date) == None
  {
    CatalogueInVersions(files, platform, parseDate, kind);
  }

  // ---------------------------------------------------------------------------
  // Two mapping versions

  const Jan2024 := 63839664000000000
  const Jun2024 := 63852796800000000
  const Mar2024 := 63846057600000000

  lemma {:induction false} SortedPair(a: int, b: int)
    requires a < b
    ensures Sorted({a, b}) == [a, b]
  {
    var s := Sorted({a, b});
    assert |{a, b}| == 2;
    assert s[0] in {a, b} && s[1] in {a, b};
  }

  /** The event of the two-version example and its date. */
  function MarchEvent(): Value
  {
    Obj([("created_at", Str("2024-03-15T00:00:00Z"))])
  }

  lemma {:induction false} MarchEventDate(parseDate: string -> Option<int>)
    requires parseDate("2024-03-15T00:00:00Z") == Some(Mar2024)
    ensures EventDate(MarchEvent(), parseDate) == Ok(Some(Mar2024))
  {
    assert Get([("created_at", Str("2024-03-15T00:00:00Z"))], "created_at") == Str("2024-03-15T00:00:00Z");
  }

  /** The periods of the two versions. */
  lemma {:induction false} TwoPeriods()
    ensures TimePeriods(Sorted({Jan2024, Jun2024})) == [Period(Jan2024, Jun2024), Period(Jun2024, MaxTime)]
  {
    SortedPair(Jan2024, Jun2024);
    var ps := TimePeriods([Jan2024, Jun2024]);
    assert ps[0] == PeriodAt([Jan2024, Jun2024], 0);
    assert ps[1] == PeriodAt([Jan2024, Jun2024], 1);
  }

  /** Any event dated 2024-03-15 is grouped with the first period. */
  lemma {:induction false} MarchEventGroups(event: Value, dateOf: DateReader)
    requires dateOf(event) == Ok(Some(Mar2024))
    ensures Groups([event], [Period(Jan2024, Jun2024), Period(Jun2024, MaxTime)], dateOf) == [[event], []]
  {
    var ps := [Period(Jan2024, Jun2024), Period(Jun2024, MaxTime)];
    assert AssignedTo(ps, dateOf, event) == Some(0);
    var gs := Groups([event], ps, dateOf);
    assert [event][..0] == [];
    assert gs[0] == GroupOf([event], ps, dateOf, 0);
    assert gs[1] == GroupOf([event], ps, dateOf, 1);
  }

  /** Any event dated 2024-03-15 is the sole event of the first period. */
  lemma {:induction false} MarchEventSplit(event: Value, dateOf: DateReader)
    requires dateOf(event) == Ok(Some(Mar2024))
    ensures EventsByPeriod([event], {Jan2024, Jun2024}, dateOf) == Ok([(Period(Jan2024, Jun2024), [event])])
  {
    TwoPeriods();
    var ps := [Period(Jan2024, Jun2024), Period(Jun2024, MaxTime)];
    MarchEventGroups(event, dateOf);
    assert Readable([event], dateOf);
    var gs := [[event], []];
    assert NonEmptyIndices(gs, 2) == [];
    assert NonEmptyIndices(gs, 1) == [];
    assert NonEmptyIndices(gs, 0) == [0];
    var out := NonEmptyPeriods(ps, gs);
    assert out == [(ps[0], gs[0])];
    assert EventsByPeriod([event], {Jan2024, Jun2024}, dateOf) == Ok(out);
  }

  /** Versions effective 2024-01-01 and 2024-06-01: an event dated
      2024-03-15 falls in the period of the first, which is the version
      found at that period's midpoint and at the event's own date. */
  lemma {:induction false} TwoVersionsScenario(parseDate: string -> Option<int>)
    requires parseDate("2024-03-15T00:00:00Z") == Some(Mar2024)
    ensures var p := Period(Jan2024, Jun2024);
            && EventsByPeriod([MarchEvent()], {Jan2024, Jun2024}, (e: Value) => EventDate(e, parseDate))
               == Ok([(p, [MarchEvent()])])
            && Latest({Jan2024, Jun2024}, Midpoint(p)) == Some(Jan2024)
            && Latest({Jan2024, Jun2024}, Mar2024) == Some(Jan2024)
  {
    MarchEventDate(parseDate);
    MarchEventSplit(MarchEvent(), (e: Value) => EventDate(e, parseDate));
    MidpointAsStart({Jan2024, Jun2024}, {Jan2024, Jun2024}, Period(Jan2024, Jun2024));
  }
}
