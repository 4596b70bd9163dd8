/** The declarative rule engine of ghmap/mapping/action_mapper.py: a dotted-path
    field accessor, a recursive condition matcher, a record projector and a
    first-match-wins classifier with a strict or flexible fallback.

    Python's dynamic type errors (an attribute lookup on a non-dict, `in` on
    `None`, `zip` over an integer, `re.match` on a non-string) are raised in
    the source and abort the whole `map` call; here they are the error
    `TypeError`, propagated in the same evaluation order (`all` and `and`
    stop at the first false value, so errors behind it are never reached). */
module ActionMapping {
  import opened Basics
  import opened Json
  import opened Text

  datatype MapError =
    | TypeError                                  // AttributeError / TypeError from a value of the wrong kind
    | KeyError(key: string)                      // a required document key is missing
    | IndexError                                 // an empty list-extraction form
    | UnknownActionEncountered(event: Value)     // strict mode met an event no rule matches
    | InvalidMappingStrategy(strategy: string)   // neither "strict" nor "flexible"

  /** `bool(re.match(pattern, text))`: the regular-expression engine is not
      modelled; the mapper is given it. */
  type Regex = (string, string) -> bool

  /** A field-mapping specification: a dotted path, a nested mapping, or the
      list-extraction form (a JSON list whose first element maps output keys
      to dotted paths that share a parent list path). */
  datatype FieldSpec =
    | Path(path: string)
    | Nested(fields: seq<(string, FieldSpec)>)
    | ListForm(items: seq<seq<(string, string)>>)

  type Fields = seq<(string, FieldSpec)>

  /** `attributes` of a rule: the `include_common_fields` flag (absent reads as
      `Null`, which is false) and the optional `details` mapping. */
  datatype Attributes = Attributes(includeCommonFields: Value, details: Option<Fields>)

  /** A rule: its `event` conditions (including the `type` discriminator) and
      its `attributes`. */
  datatype Rule = Rule(event: seq<(string, Value)>, attributes: Attributes)

  datatype Parameters = Parameters(eventTypeKey: Option<string>, createdAtKey: Option<string>)

  /** A mapping document; `actions` keeps document order. */
  datatype MappingDocument = MappingDocument(
    parameters: Parameters,
    commonFields: Option<Fields>,
    actions: seq<(string, Rule)>)

  /** An `ActionMapper` instance; it never changes after construction. */
  datatype ActionMapper = ActionMapper(
    mapping: MappingDocument,
    eventTypeKey: string,
    createdAtKey: string,
    regex: Regex)

  /** `ActionMapper(action_mapping)`: the parameter keys default to `type`
      and `created_at`. */
  function NewActionMapper(mapping: MappingDocument, regex: Regex): ActionMapper
  {
    ActionMapper(
      mapping,
      match mapping.parameters.eventTypeKey case Some(k) => k case None => "type",
      match mapping.parameters.createdAtKey case Some(k) => k case None => "created_at",
      regex)
  }

  // ---------------------------------------------------------------------------
  // Field accessor (`_extract_field`)

  /** The value reached by walking `keys` from `v`: a list met on the way is
      returned as it is, a missing key or a null value gives `Null`, and a
      scalar that still has keys to walk raises. */
  function FieldAt(v: Value, keys: seq<string>): Result<Value, MapError>
    decreases |keys|
  {
    if |keys| == 0 then Ok(v)
    else if v.Arr? then Ok(v)
    else if !v.Obj? then Err(TypeError)
    else
      var next := Get(v.fields, keys[0]);
      if next.Null? then Ok(Null) else FieldAt(next, keys[1..])
  }

  /** `_extract_field(event_record, keys)`: the loop that walks `value` down
      the path. */
  method ExtractField(record: Value, keys: seq<string>) returns (r: Result<Value, MapError>)
    ensures r == FieldAt(record, keys)
  {
    var value := record;
    var i := 0;
    while i < |keys|
      invariant 0 <= i <= |keys|
      invariant FieldAt(record, keys) == FieldAt(value, keys[i..])
    {
      if value.Arr? {
        return Ok(value);
      }
      if !value.Obj? {
        return Err(TypeError);
      }
      assert keys[i..][1..] == keys[i + 1..];
      value := Get(value.fields, keys[i]);
      if value.Null? {
        return Ok(Null);
      }
      i := i + 1;
    }
    r := Ok(value);
  }

  /** Walking `p + q` is walking `p` and then, unless that stopped early at a
      list, at a null or missing value, or at an error, walking on with `q`. */
  lemma {:induction false} FieldAtAppend(v: Value, p: seq<string>, q: seq<string>)
    requires |p| > 0
    ensures FieldAt(v, p + q) ==
      match FieldAt(v, p)
      case Ok(w) => if w.Arr? || w.Null? then Ok(w) else FieldAt(w, q)
      case Err(e) => Err(e)
    decreases |p|
  {
    assert (p + q)[0] == p[0];
    if v.Obj? {
      var next := Get(v.fields, p[0]);
      if !next.Null? {
        assert (p + q)[1..] == p[1..] + q;
        if |p| > 1 {
          FieldAtAppend(next, p[1..], q);
        } else {
          assert p[1..] + q == q;
        }
      }
    }
  }

  /** As soon as a key along the path is missing or null, the result is null,
      whatever keys follow. */
  lemma FieldAtMissingKey(v: Value, p: seq<string>, fields: seq<(string, Value)>, k: string, q: seq<string>)
    requires FieldAt(v, p) == Ok(Obj(fields))
    requires Get(fields, k) == Null
    ensures FieldAt(v, p + [k] + q) == Ok(Null)
  {
    FieldAtAppend(v, p + [k], q);
    if |p| > 0 {
      FieldAtAppend(v, p, [k]);
    }
  }

  /** Once the path reaches a list, the remaining keys are ignored and that
      list is the result. */
  lemma FieldAtReachesList(v: Value, p: seq<string>, items: seq<Value>, q: seq<string>)
    requires FieldAt(v, p) == Ok(Arr(items))
    ensures FieldAt(v, p + q) == Ok(Arr(items))
  {
    if |p| > 0 {
      FieldAtAppend(v, p, q);
    } else {
      assert p + q == q;
    }
  }

  // ---------------------------------------------------------------------------
  // Condition matcher (`_match_condition`)

  /** A string condition bounded by `^` and `$` is a regular expression. */
  predicate IsAnchored(p: string)
  {
    |p| > 0 && p[0] == '^' && p[|p| - 1] == '$'
  }

  /** `k in v`: key membership for a dict, element membership for a list,
      substring for a string; anything else raises. */
  function Contains(v: Value, k: string): Result<bool, MapError>
  {
    match v
    case Obj(fields) => Ok(HasKey(fields, k))
    case Arr(items) => Ok(Str(k) in items)
    case Str(s) => Ok(IsSubstring(k, s))
    case _ => Err(TypeError)
  }

  /** What `zip` iterates over: the items of a list, the keys of a dict, the
      one-character strings of a string; anything else raises. */
  function Iterated(v: Value): Result<seq<Value>, MapError>
  {
    match v
    case Arr(items) => Ok(items)
    case Obj(fields) => Ok(seq(|fields|, i requires 0 <= i < |fields| => Str(fields[i].0)))
    case Str(s) => Ok(seq(|s|, i requires 0 <= i < |s| => Str([s[i]])))
    case _ => Err(TypeError)
  }

  /** A termination measure: containers rank above the helpers that scan them. */
  function Width(mv: Value): nat
  {
    match mv
    case Obj(fields) => |fields| + 1
    case Arr(items) => |items| + 1
    case _ => 0
  }

  /** `_match_condition(event_value, mapping_value)`. */
  function MatchCondition(rx: Regex, ev: Value, mv: Value): Result<bool, MapError>
    decreases mv, Width(mv)
  {
    match mv
    case Obj(_) => MatchEntries(rx, ev, mv, 0)
    case Arr(_) =>
      if !Truthy(ev) then Ok(false)
      else
        var actual :- Iterated(ev);
        MatchPositions(rx, actual, mv, 0)
    case Str(p) =>
      if IsAnchored(p) then
        (if ev.Str? then Ok(rx(p, ev.s)) else Err(TypeError))
      else Ok(PyEq(ev, mv))
    case _ => Ok(PyEq(ev, mv))
  }

  /** The dict case from entry `i` on: only entries whose key is in the event
      value are checked, and the first failing one decides. */
  function MatchEntries(rx: Regex, ev: Value, mv: Value, i: nat): Result<bool, MapError>
    requires mv.Obj? && i <= |mv.fields|
    decreases mv, |mv.fields| - i
  {
    if i == |mv.fields| then Ok(true)
    else
      var k := mv.fields[i].0;
      var present :- Contains(ev, k);
      if !present then MatchEntries(rx, ev, mv, i + 1)
      else if !ev.Obj? then Err(TypeError)
      else
        var m :- MatchCondition(rx, Get(ev.fields, k), mv.fields[i].1);
        if m then MatchEntries(rx, ev, mv, i + 1) else Ok(false)
  }

  /** The list case from position `i` on, zipped to the shorter length. */
  function MatchPositions(rx: Regex, actual: seq<Value>, mv: Value, i: nat): Result<bool, MapError>
    requires mv.Arr?
    decreases mv, |mv.items| - i
  {
    if i >= |actual| || i >= |mv.items| then Ok(true)
    else
      var m :- MatchCondition(rx, actual[i], mv.items[i]);
      if m then MatchPositions(rx, actual, mv, i + 1) else Ok(false)
  }

  lemma {:induction false} MatchEntriesAll(rx: Regex, ev: Value, mv: Value, i: nat)
    requires mv.Obj? && ev.Obj? && i <= |mv.fields|
    ensures MatchEntries(rx, ev, mv, i) == Ok(true) <==>
      forall j :: i <= j < |mv.fields| && HasKey(ev.fields, mv.fields[j].0) ==>
        MatchCondition(rx, Get(ev.fields, mv.fields[j].0), mv.fields[j].1) == Ok(true)
    decreases |mv.fields| - i
  {
    if i < |mv.fields| {
      MatchEntriesAll(rx, ev, mv, i + 1);
    }
  }

  /** Dict conditions: the match succeeds exactly when every expected entry
      whose key the event value has matches; expected keys the event value
      lacks are ignored, so an empty expected dict matches anything. An
      event value that cannot be searched for keys raises. */
  lemma MatchDict(rx: Regex, ev: Value, mv: Value)
    requires mv.Obj?
    ensures mv.fields == [] ==> MatchCondition(rx, ev, mv) == Ok(true)
    ensures ev.Obj? ==>
      (MatchCondition(rx, ev, mv) == Ok(true) <==>
        forall j :: 0 <= j < |mv.fields| && HasKey(ev.fields, mv.fields[j].0) ==>
          MatchCondition(rx, Get(ev.fields, mv.fields[j].0), mv.fields[j].1) == Ok(true))
    ensures (ev.Null? || ev.Bool? || ev.Int?) && mv.fields != [] ==>
      MatchCondition(rx, ev, mv) == Err(TypeError)
  {
    if ev.Obj? {
      MatchEntriesAll(rx, ev, mv, 0);
    }
  }

  lemma {:induction false} MatchPositionsAll(rx: Regex, actual: seq<Value>, mv: Value, i: nat)
    requires mv.Arr?
    ensures MatchPositions(rx, actual, mv, i) == Ok(true) <==>
      forall j :: i <= j < |actual| && j < |mv.items| ==> MatchCondition(rx, actual[j], mv.items[j]) == Ok(true)
    decreases |mv.items| - i
  {
    if i < |actual| && i < |mv.items| {
      MatchPositionsAll(rx, actual, mv, i + 1);
    }
  }

  /** List conditions: an empty or null event value fails; an event list
      matches exactly when every position up to the shorter length matches. */
  lemma MatchList(rx: Regex, ev: Value, mv: Value)
    requires mv.Arr?
    ensures ev.Null? || ev == Arr([]) ==> MatchCondition(rx, ev, mv) == Ok(false)
    ensures ev.Arr? && ev.items != [] ==>
      (MatchCondition(rx, ev, mv) == Ok(true) <==>
        forall j :: 0 <= j < |ev.items| && j < |mv.items| ==>
          MatchCondition(rx, ev.items[j], mv.items[j]) == Ok(true))
  {
    if ev.Arr? && ev.items != [] {
      MatchPositionsAll(rx, ev.items, mv, 0);
    }
  }

  /** Values without regular-expression strings and without empty lists
      (an empty list is falsy, so it never matches), whose dicts have
      distinct keys. */
  predicate Plain(v: Value)
  {
    match v
    case Str(s) => !IsAnchored(s)
    case Arr(xs) => |xs| > 0 && forall i :: 0 <= i < |xs| ==> Plain(xs[i])
    case Obj(fs) => Distinct(Keys(fs)) && forall i :: 0 <= i < |fs| ==> Plain(fs[i].1)
    case _ => true
  }

  /** A plain condition is satisfied by an event value equal to it. */
  lemma {:induction false} MatchSelf(rx: Regex, v: Value)
    requires Plain(v)
    ensures MatchCondition(rx, v, v) == Ok(true)
    decreases v
  {
    match v
    case Obj(fs) =>
      forall j | 0 <= j < |fs| && HasKey(fs, fs[j].0)
        ensures MatchCondition(rx, Get(fs, fs[j].0), fs[j].1) == Ok(true)
      {
        LookupDistinct(fs, j);
        MatchSelf(rx, fs[j].1);
      }
      MatchDict(rx, v, v);
    case Arr(xs) =>
      forall j | 0 <= j < |xs| ensures MatchCondition(rx, xs[j], xs[j]) == Ok(true) {
        MatchSelf(rx, xs[j]);
      }
      MatchList(rx, v, v);
    case _ =>
  }

  // ---------------------------------------------------------------------------
  // Record projector (`_extract_fields`, `_extract_list`)

  /** A termination measure: a nested mapping ranks above the scan of its entries. */
  function SpecWidth(fs: FieldSpec): nat
  {
    if fs.Nested? then |fs.fields| + 1 else 0
  }

  /** The value `_extract_fields` stores for one mapping value: a nested
      mapping recurses, a list goes through the list extraction, anything else
      is a dotted path. */
  function ProjectValue(record: Value, fs: FieldSpec): (r: Result<Value, MapError>)
    ensures fs.Nested? && r.Ok? ==> r.value.Obj?
    ensures fs.ListForm? && r.Ok? ==> r.value.Arr?
    decreases fs, SpecWidth(fs)
  {
    match fs
    case Path(p) => FieldAt(record, Split(p, '.'))
    case Nested(fields) =>
      var kvs :- ProjectPrefix(record, fs, |fields|);
      Ok(Obj(kvs))
    case ListForm(items) => ProjectList(record, items)
  }

  /** The dict `_extract_fields` has built after the first `n` entries of the
      nested mapping `fs`. */
  function ProjectPrefix(record: Value, fs: FieldSpec, n: nat): (r: Result<seq<(string, Value)>, MapError>)
    requires fs.Nested? && n <= |fs.fields|
    ensures r.Ok? ==> forall k :: k in Keys(r.value) <==> k in Keys(fs.fields[..n])
    decreases fs, n
  {
    if n == 0 then Ok([])
    else
      var acc :- ProjectPrefix(record, fs, n - 1);
      var v :- ProjectValue(record, fs.fields[n - 1].1);
      PutKeys(acc, fs.fields[n - 1].0, v);
      assert Keys(fs.fields[..n]) == Keys(fs.fields[..n - 1]) + [fs.fields[n - 1].0];
      Ok(Put(acc, fs.fields[n - 1].0, v))
  }

  /** `_extract_fields(event_record, field_mapping)`, as a value. */
  function ProjectFields(record: Value, fields: Fields): Result<seq<(string, Value)>, MapError>
  {
    ProjectPrefix(record, Nested(fields), |fields|)
  }

  /** The last segment of a dotted path. */
  function LastSegment(path: string): string
  {
    var segs := Split(path, '.');
    segs[|segs| - 1]
  }

  /** All but the last segment of a dotted path. */
  function ParentSegments(path: string): seq<string>
  {
    var segs := Split(path, '.');
    segs[..|segs| - 1]
  }

  /** One element of the list extraction: `{key: item.get(last segment of
      path) for key, path in row}`; only a dict item has `get`. */
  function ProjectRow(item: Value, row: seq<(string, string)>): (r: Result<Value, MapError>)
  {
    if |row| == 0 then Ok(Obj([]))
    else if !item.Obj? then Err(TypeError)
    else Ok(Obj(FromPairs(RowPairs(item.fields, row))))
  }

  /** The pairs of the dict comprehension of `ProjectRow`. */
  function RowPairs(fields: seq<(string, Value)>, row: seq<(string, string)>): (ps: seq<(string, Value)>)
    ensures |ps| == |row|
    ensures forall i :: 0 <= i < |row| ==> ps[i] == (row[i].0, Get(fields, LastSegment(row[i].1)))
  {
    seq(|row|, i requires 0 <= i < |row| => (row[i].0, Get(fields, LastSegment(row[i].1))))
  }

  /** The list comprehension over the base list. */
  function ProjectRows(items: seq<Value>, row: seq<(string, string)>): Result<seq<Value>, MapError>
  {
    if |items| == 0 then Ok([])
    else
      var first :- ProjectRow(items[0], row);
      var rest :- ProjectRows(items[1..], row);
      Ok([first] + rest)
  }

  /** `_extract_list(event_record, list_mapping)`: the base list is found from
      the parent path of the first key's path; a base value that is not a list
      gives an empty list. */
  function ProjectList(record: Value, items: seq<seq<(string, string)>>): Result<Value, MapError>
  {
    if |items| == 0 || |items[0]| == 0 then Err(IndexError)
    else
      var row := items[0];
      var base :- FieldAt(record, ParentSegments(row[0].1));
      if !base.Arr? then Ok(Arr([]))
      else
        var rows :- ProjectRows(base.items, row);
        Ok(Arr(rows))
  }

  /** `_extract_fields`: the loop that fills the output dict key by key. */
  method ExtractFields(record: Value, fields: Fields) returns (r: Result<seq<(string, Value)>, MapError>)
    ensures r == ProjectFields(record, fields)
    decreases Nested(fields), 0
  {
    var extracted: seq<(string, Value)> := [];
    var i := 0;
    while i < |fields|
      invariant 0 <= i <= |fields|
      invariant ProjectPrefix(record, Nested(fields), i) == Ok(extracted)
    {
      var (key, spec) := fields[i];
      var v := ExtractValue(record, spec);
      if v.Err? {
        ProjectPrefixErr(record, Nested(fields), i + 1, |fields|);
        return Err(v.error);
      }
      extracted := Put(extracted, key, v.value);
      i := i + 1;
    }
    r := Ok(extracted);
  }

  /** The value `_extract_fields` stores for one entry of the field mapping. */
  method ExtractValue(record: Value, spec: FieldSpec) returns (v: Result<Value, MapError>)
    ensures v == ProjectValue(record, spec)
    decreases spec, 1
  {
    match spec {
      case Nested(sub) =>
        var kvs := ExtractFields(record, sub);
        v := if kvs.Ok? then Ok(Obj(kvs.value)) else Err(kvs.error);
      case ListForm(items) =>
        v := ProjectList(record, items);
      case Path(p) =>
        v := ExtractField(record, Split(p, '.'));
    }
  }

  /** The output of `_extract_fields` has exactly the keys of the field
      mapping and, when those are distinct, in the same order. */
  lemma {:induction false} ProjectKeys(record: Value, fs: FieldSpec, n: nat)
    requires fs.Nested? && n <= |fs.fields|
    requires Distinct(Keys(fs.fields))
    ensures ProjectPrefix(record, fs, n).Ok? ==> Keys(ProjectPrefix(record, fs, n).value) == Keys(fs.fields[..n])
  {
    if n > 0 && ProjectPrefix(record, fs, n).Ok? {
      ProjectKeys(record, fs, n - 1);
      var acc := ProjectPrefix(record, fs, n - 1).value;
      var v := ProjectValue(record, fs.fields[n - 1].1).value;
      var k := fs.fields[n - 1].0;
      PutKeys(acc, k, v);
      PrefixKeysExtend(fs.fields, n);
    }
  }

  /** An error in the first `i` entries is the error of the whole dict. */
  lemma {:induction false} ProjectPrefixErr(record: Value, fs: FieldSpec, i: nat, n: nat)
    requires fs.Nested? && i <= n <= |fs.fields|
    requires ProjectPrefix(record, fs, i).Err?
    ensures ProjectPrefix(record, fs, n) == ProjectPrefix(record, fs, i)
    decreases n
  {
    if n > i {
      ProjectPrefixErr(record, fs, i, n - 1);
    }
  }

  /** `_extract_fields` succeeds exactly when every entry does. */
  lemma {:induction false} ProjectOk(record: Value, fs: FieldSpec, n: nat)
    requires fs.Nested? && n <= |fs.fields|
    ensures ProjectPrefix(record, fs, n).Ok? <==> forall j :: 0 <= j < n ==> ProjectValue(record, fs.fields[j].1).Ok?
  {
    if n > 0 {
      ProjectOk(record, fs, n - 1);
    }
  }

  /** With distinct keys, the value under each key of the output of
      `_extract_fields` is the projection of that key's mapping value. */
  lemma {:induction false} ProjectLookup(record: Value, fs: FieldSpec, n: nat, j: nat)
    requires fs.Nested? && j < n <= |fs.fields|
    requires Distinct(Keys(fs.fields))
    requires ProjectPrefix(record, fs, n).Ok?
    ensures ProjectValue(record, fs.fields[j].1).Ok?
    ensures Lookup(ProjectPrefix(record, fs, n).value, fs.fields[j].0) == Some(ProjectValue(record, fs.fields[j].1).value)
  {
    ProjectOk(record, fs, n);
    var pre := ProjectPrefix(record, fs, n - 1);
    var last := ProjectValue(record, fs.fields[n - 1].1);
    assert pre.Ok? && last.Ok?;
    var k := fs.fields[n - 1].0;
    PutLookup(pre.value, k, last.value, fs.fields[j].0);
    if j < n - 1 {
      DistinctKeysAt(fs.fields, j, n - 1);
      ProjectLookup(record, fs, n - 1, j);
    }
  }

  /** The keys of one row of a list extraction are the keys of the row
      mapping, in order, and each holds the item's value under the last
      segment of that key's path. */
  lemma RowSpec(fields: seq<(string, Value)>, row: seq<(string, string)>, m: nat)
    requires m < |row| && Distinct(Keys(row))
    ensures Keys(FromPairs(RowPairs(fields, row))) == Keys(row)
    ensures Lookup(FromPairs(RowPairs(fields, row)), row[m].0) == Some(Get(fields, LastSegment(row[m].1)))
  {
    var ps := RowPairs(fields, row);
    assert Keys(ps) == Keys(row);
    FromPairsKeys(ps);
    FromPairsLookup(ps, m);
  }

  /** The rows are one per item, in order; they exist exactly when every item
      can be read (is a dict), unless the row mapping is empty. */
  lemma {:induction false} ProjectRowsSpec(items: seq<Value>, row: seq<(string, string)>)
    ensures ProjectRows(items, row).Ok? <==> forall j :: 0 <= j < |items| ==> ProjectRow(items[j], row).Ok?
    ensures ProjectRows(items, row).Ok? ==>
      |ProjectRows(items, row).value| == |items| &&
      forall j :: 0 <= j < |items| ==> ProjectRows(items, row).value[j] == ProjectRow(items[j], row).value
  {
    if |items| > 0 {
      ProjectRowsSpec(items[1..], row);
      assert forall j :: 0 < j < |items| ==> items[1..][j - 1] == items[j];
    }
  }

  /** `_extract_list` yields `[]` when the base value is not a list, and
      otherwise one element per base-list item, keyed exactly by the keys of
      the first list element, each holding `item.get(last segment)`. */
  lemma ListExtraction(record: Value, items: seq<seq<(string, string)>>)
    requires |items| > 0 && |items[0]| > 0 && Distinct(Keys(items[0]))
    requires FieldAt(record, ParentSegments(items[0][0].1)).Ok?
    ensures
      var base := FieldAt(record, ParentSegments(items[0][0].1)).value;
      var r := ProjectList(record, items);
      && (!base.Arr? ==> r == Ok(Arr([])))
      && (base.Arr? && r.Ok? ==>
            && r.value.Arr? && |r.value.items| == |base.items|
            && forall j :: 0 <= j < |base.items| ==>
                 && base.items[j].Obj?
                 && r.value.items[j].Obj?
                 && Keys(r.value.items[j].fields) == Keys(items[0])
                 && forall m :: 0 <= m < |items[0]| ==>
                      Lookup(r.value.items[j].fields, items[0][m].0) ==
                        Some(Get(base.items[j].fields, LastSegment(items[0][m].1))))
      && (base.Arr? ==> (r.Ok? <==> forall j :: 0 <= j < |base.items| ==> base.items[j].Obj?))
  {
    var base := FieldAt(record, ParentSegments(items[0][0].1)).value;
    var row := items[0];
    if base.Arr? {
      ProjectRowsSpec(base.items, row);
      forall j, m | 0 <= j < |base.items| && base.items[j].Obj? && 0 <= m < |row|
        ensures Keys(FromPairs(RowPairs(base.items[j].fields, row))) == Keys(row)
        ensures Lookup(FromPairs(RowPairs(base.items[j].fields, row)), row[m].0) ==
                Some(Get(base.items[j].fields, LastSegment(row[m].1)))
      {
        RowSpec(base.items[j].fields, row, m);
      }
    }
  }

  // ---------------------------------------------------------------------------
  // Building one mapped action (`_extract_attributes`)

  /** The mapping value of `details`, `{}` when the rule has none. */
  function DetailsOf(attrs: Attributes): Fields
  {
    match attrs.details
    case Some(d) => d
    case None => []
  }

  /** `_extract_attributes`: `{'action': name}`, then the common fields when
      the rule's flag is truthy (a missing `common_fields` raises), then
      `details`; later keys overwrite earlier ones in place. */
  function MappedAction(m: ActionMapper, record: Value, attrs: Attributes, name: string): Result<Value, MapError>
  {
    var common :-
      if Truthy(attrs.includeCommonFields) then
        match m.mapping.commonFields
        case None => Err(KeyError("common_fields"))
        case Some(cf) => ProjectFields(record, cf)
      else Ok([]);
    var details :- ProjectFields(record, DetailsOf(attrs));
    Ok(Obj(Put(Update([("action", Str(name))], common), "details", Obj(details))))
  }

  /** `_extract_attributes`, filling `mapped_action` step by step. */
  method ExtractAttributes(m: ActionMapper, record: Value, attrs: Attributes, name: string)
    returns (r: Result<Value, MapError>)
    ensures r == MappedAction(m, record, attrs, name)
  {
    var mapped: seq<(string, Value)> := [("action", Str(name))];
    if Truthy(attrs.includeCommonFields) {
      if m.mapping.commonFields.None? {
        return Err(KeyError("common_fields"));
      }
      var common := ExtractFields(record, m.mapping.commonFields.value);
      if common.Err? {
        return Err(common.error);
      }
      mapped := Update(mapped, common.value);
    }
    var details := ExtractFields(record, DetailsOf(attrs));
    if details.Err? {
      return Err(details.error);
    }
    mapped := Put(mapped, "details", Obj(details.value));
    r := Ok(Obj(mapped));
  }

  /** A mapped action is a dict whose first key is `action`; `details` holds
      the projection of the rule's details; `action` holds the rule name
      unless the included common fields themselves define `action`; without
      common fields, those two are its only keys. */
  lemma MappedActionShape(m: ActionMapper, record: Value, attrs: Attributes, name: string)
    requires MappedAction(m, record, attrs, name).Ok?
    ensures
      var r := MappedAction(m, record, attrs, name).value;
      && r.Obj? && |r.fields| > 0 && r.fields[0].0 == "action"
      && ProjectFields(record, DetailsOf(attrs)).Ok?
      && Lookup(r.fields, "details") == Some(Obj(ProjectFields(record, DetailsOf(attrs)).value))
      && (!Truthy(attrs.includeCommonFields) ==> Keys(r.fields) == ["action", "details"])
      && (!Truthy(attrs.includeCommonFields) ||
          (m.mapping.commonFields.Some? && ProjectFields(record, m.mapping.commonFields.value).Ok? &&
           !HasKey(ProjectFields(record, m.mapping.commonFields.value).value, "action"))
          ==> Lookup(r.fields, "action") == Some(Str(name)))
  {
    var common :=
      if Truthy(attrs.includeCommonFields) then ProjectFields(record, m.mapping.commonFields.value).value else [];
    var base := Update([("action", Str(name))], common);
    var details := ProjectFields(record, DetailsOf(attrs)).value;
    UpdateFirstKey([("action", Str(name))], common);
    PutKeys(base, "details", Obj(details));
    assert Keys(Put(base, "details", Obj(details)))[0] == Keys(base)[0];
    PutLookup(base, "details", Obj(details), "details");
    PutLookup(base, "details", Obj(details), "action");
    if !HasKey(common, "action") {
      UpdateLookup([("action", Str(name))], common, "action");
    }
    if !Truthy(attrs.includeCommonFields) {
      assert Keys([("action", Str(name))]) == ["action"];
    }
  }

  /** Without common fields, a mapped action is exactly
      `{'action': name, 'details': <projection of the details>}`. */
  lemma MappedActionPlain(m: ActionMapper, record: Value, attrs: Attributes, name: string)
    requires !Truthy(attrs.includeCommonFields)
    ensures MappedAction(m, record, attrs, name) ==
            match ProjectFields(record, DetailsOf(attrs))
            case Ok(details) => Ok(Obj([("action", Str(name)), ("details", Obj(details))]))
            case Err(e) => Err(e)
  {
    var base := [("action", Str(name))];
    assert Update(base, []) == base;
    if ProjectFields(record, DetailsOf(attrs)).Ok? {
      var details := ProjectFields(record, DetailsOf(attrs)).value;
      assert Put(base, "details", Obj(details)) == [("action", Str(name)), ("details", Obj(details))] by {
        assert |base[0].0| != |"details"|;
        assert Put(base[1..], "details", Obj(details)) == [("details", Obj(details))];
      }
    }
  }

  // ---------------------------------------------------------------------------
  // Classification and the mapping loop (`map`)

  /** The rule's discriminator: `event.get('type', None)`. */
  function RuleType(rule: Rule): Value
  {
    Get(rule.event, "type")
  }

  /** `all(_match_condition(_extract_field(record, k), v) for k, v in conds
      if k != 'type')`, from entry `i` on. */
  function ConditionsHold(m: ActionMapper, record: Value, conds: seq<(string, Value)>, i: nat): Result<bool, MapError>
    requires i <= |conds|
    decreases |conds| - i
  {
    if i == |conds| then Ok(true)
    else if conds[i].0 == "type" then ConditionsHold(m, record, conds, i + 1)
    else
      var actual :- FieldAt(record, Split(conds[i].0, '.'));
      var ok :- MatchCondition(m.regex, actual, conds[i].1);
      if ok then ConditionsHold(m, record, conds, i + 1) else Ok(false)
  }

  /** A rule applies when the event type equals its `type`; only then are its
      other conditions evaluated. */
  function RuleMatches(m: ActionMapper, record: Value, eventType: Value, rule: Rule): Result<bool, MapError>
  {
    if !PyEq(eventType, RuleType(rule)) then Ok(false)
    else ConditionsHold(m, record, rule.event, 0)
  }

  /** Whether each rule of the mapping, in document order, applies to the
      event. */
  function RuleOutcomes(m: ActionMapper, record: Value, eventType: Value): (rs: seq<Result<bool, MapError>>)
    ensures |rs| == |m.mapping.actions|
    ensures forall l :: 0 <= l < |rs| ==> rs[l] == RuleMatches(m, record, eventType, m.mapping.actions[l].1)
  {
    seq(|m.mapping.actions|, l requires 0 <= l < |m.mapping.actions| =>
      RuleMatches(m, record, eventType, m.mapping.actions[l].1))
  }

  /** The rule an event is classified under, if any. */
  function Classify(m: ActionMapper, record: Value): (r: Result<Option<nat>, MapError>)
    ensures r.Ok? && r.value.Some? ==> r.value.value < |m.mapping.actions|
  {
    var eventType :- FieldAt(record, Split(m.eventTypeKey, '.'));
    FirstHit(RuleOutcomes(m, record, eventType), 0)
  }

  /** One event's mapped action, and whether it went through the
      `UnknownAction` fallback. */
  function MapRecord(m: ActionMapper, record: Value, strategy: string): Result<(Value, bool), MapError>
  {
    var hit :- Classify(m, record);
    match hit
    case Some(i) =>
      var a :- MappedAction(m, record, m.mapping.actions[i].1.attributes, m.mapping.actions[i].0);
      Ok((a, false))
    case None =>
      if strategy == "strict" then Err(UnknownActionEncountered(record))
      else if strategy == "flexible" then
        match Lookup(m.mapping.actions, "UnknownAction")
        case None => Err(KeyError("UnknownAction"))
        case Some(fallback) =>
          var a :- MappedAction(m, record, fallback.attributes, "UnknownAction");
          Ok((a, true))
      else Err(InvalidMappingStrategy(strategy))
  }

  /** The accumulator of `map`: the actions so far and whether the
      `UnknownAction` warning has been issued. */
  datatype MapState = MapState(actions: seq<Value>, warned: bool)

  /** The diagnostics `map` emits: the one printed the first time an event
      is mapped to `UnknownAction`. */
  datatype Warning = SomeActionsUnknown

  /** The outcome of `map`'s loop body on each event, in order. */
  function Outcomes(m: ActionMapper, events: seq<Value>, strategy: string): (outs: seq<Result<(Value, bool), MapError>>)
    ensures |outs| == |events|
  {
    if |events| == 0 then [] else [MapRecord(m, events[0], strategy)] + Outcomes(m, events[1..], strategy)
  }

  lemma {:induction false} OutcomeAt(m: ActionMapper, events: seq<Value>, strategy: string, k: nat)
    requires k < |events|
    ensures Outcomes(m, events, strategy)[k] == MapRecord(m, events[k], strategy)
  {
    if k > 0 {
      OutcomeAt(m, events[1..], strategy, k - 1);
    }
  }

  /** The state of `map` after the first `n` outcomes; the first error aborts. */
  function Accumulate(outs: seq<Result<(Value, bool), MapError>>, n: nat): Result<MapState, MapError>
    requires n <= |outs|
  {
    if n == 0 then Ok(MapState([], false))
    else
      var st :- Accumulate(outs, n - 1);
      var out :- outs[n - 1];
      Ok(MapState(st.actions + [out.0], st.warned || out.1))
  }

  /** What `map` computes for the whole event list. */
  function MapAll(m: ActionMapper, events: seq<Value>, strategy: string): Result<MapState, MapError>
  {
    Accumulate(Outcomes(m, events, strategy), |events|)
  }

  /** The body of `map` for one event: the inner loop over rules, in
      document order, stops at the first that applies; an unmatched event
      goes through the strategy. `unmatched` reports that the fallback
      branch was taken. */
  method MapEvent(m: ActionMapper, record: Value, strategy: string)
    returns (r: Result<(Value, bool), MapError>, unmatched: bool)
    ensures r == MapRecord(m, record, strategy)
    ensures r.Ok? ==> (r.value.1 <==> unmatched && strategy == "flexible")
  {
    unmatched := false;
    var eventType := ExtractField(record, Split(m.eventTypeKey, '.'));
    if eventType.Err? {
      return Err(eventType.error), false;
    }
    ghost var rules := RuleOutcomes(m, record, eventType.value);
    var chosen: Option<nat> := None;
    var j := 0;
    while j < |m.mapping.actions|
      invariant 0 <= j <= |m.mapping.actions|
      invariant FirstHit(rules, 0) == FirstHit(rules, j)
    {
      var hit := RuleMatches(m, record, eventType.value, m.mapping.actions[j].1);
      if hit.Err? {
        return Err(hit.error), false;
      }
      if hit.value {
        chosen := Some(j);
        break;
      }
      j := j + 1;
    }
    match chosen {
      case Some(k) =>
        var a := ExtractAttributes(m, record, m.mapping.actions[k].1.attributes, m.mapping.actions[k].0);
        if a.Err? {
          return Err(a.error), false;
        }
        r := Ok((a.value, false));
      case None =>
        unmatched := true;
        if strategy == "strict" {
          return Err(UnknownActionEncountered(record)), true;
        }
        if strategy != "flexible" {
          return Err(InvalidMappingStrategy(strategy)), true;
        }
        var fallback := Lookup(m.mapping.actions, "UnknownAction");
        if fallback.None? {
          return Err(KeyError("UnknownAction")), true;
        }
        var a := ExtractAttributes(m, record, fallback.value.attributes, "UnknownAction");
        if a.Err? {
          return Err(a.error), true;
        }
        r := Ok((a.value, true));
    }
  }

  /** The loop body of `map` on the event at position `i`. */
  method NextOutcome(m: ActionMapper, events: seq<Value>, strategy: string, i: nat)
    returns (out: Result<(Value, bool), MapError>, unmatched: bool)
    requires i < |events|
    ensures out == Outcomes(m, events, strategy)[i]
    ensures out.Ok? ==> (out.value.1 <==> unmatched && strategy == "flexible")
  {
    out, unmatched := MapEvent(m, events[i], strategy);
    OutcomeAt(m, events, strategy, i);
  }

  /** `map(events, mapping_strategy)`. The diagnostic the source prints the
      first time an event falls back to `UnknownAction` is returned in
      `warnings`. */
  method Map(m: ActionMapper, events: seq<Value>, strategy: string)
    returns (result: Result<seq<Value>, MapError>, warnings: seq<Warning>)
    ensures match MapAll(m, events, strategy)
            case Ok(st) => result == Ok(st.actions) && warnings == if st.warned then [SomeActionsUnknown] else []
            case Err(e) => result == Err(e)
    ensures |warnings| <= 1
  {
    ghost var outs := Outcomes(m, events, strategy);
    var actions: seq<Value> := [];
    var warned := false;
    warnings := [];
    var i := 0;
    while i < |events|
      invariant 0 <= i <= |events|
      invariant Accumulate(outs, i) == Ok(MapState(actions, warned))
      invariant warnings == if warned then [SomeActionsUnknown] else []
    {
      var out, unmatched := NextOutcome(m, events, strategy, i);
      var warnNow := unmatched && strategy == "flexible";
      if warnNow && !warned {
        warnings := warnings + [SomeActionsUnknown];
      }
      if out.Err? {
        AccumulateErr(outs, i + 1, |events|);
        return Err(out.error), warnings;
      }
      assert out.value.1 == warnNow;
      AccumulateStep(outs, i + 1);
      actions := actions + [out.value.0];
      warned := warned || warnNow;
      i := i + 1;
    }
    result := Ok(actions);
  }

  lemma AccumulateStep(outs: seq<Result<(Value, bool), MapError>>, n: nat)
    requires 0 < n <= |outs|
    requires Accumulate(outs, n - 1).Ok? && outs[n - 1].Ok?
    ensures Accumulate(outs, n) == Ok(MapState(Accumulate(outs, n - 1).value.actions + [outs[n - 1].value.0],
                                               Accumulate(outs, n - 1).value.warned || outs[n - 1].value.1))
  {
  }

  /** Once `map` has raised, later events change nothing. */
  lemma {:induction false} AccumulateErr(outs: seq<Result<(Value, bool), MapError>>, i: nat, n: nat)
    requires i <= n <= |outs|
    requires Accumulate(outs, i).Err?
    ensures Accumulate(outs, n) == Accumulate(outs, i)
    decreases n
  {
    if n > i {
      AccumulateErr(outs, i, n - 1);
    }
  }

  // ---------------------------------------------------------------------------
  // Properties of classification and of `map`

  /** One condition of a rule holds: the `type` entry is the discriminator and
      is not re-evaluated; any other entry names a path whose value matches. */
  predicate ConditionHolds(m: ActionMapper, record: Value, cond: (string, Value))
  {
    || cond.0 == "type"
    || (&& FieldAt(record, Split(cond.0, '.')).Ok?
        && MatchCondition(m.regex, FieldAt(record, Split(cond.0, '.')).value, cond.1) == Ok(true))
  }

  /** The conditions hold exactly when each of them does. */
  lemma {:induction false} ConditionsHoldAll(m: ActionMapper, record: Value, conds: seq<(string, Value)>, i: nat)
    requires i <= |conds|
    ensures ConditionsHold(m, record, conds, i) == Ok(true) <==>
            forall l :: i <= l < |conds| ==> ConditionHolds(m, record, conds[l])
    decreases |conds| - i
  {
    if i < |conds| {
      ConditionsHoldAll(m, record, conds, i + 1);
    }
  }

  /** A rule applies exactly when the event type equals the rule's `type`
      and every other condition of the rule holds. */
  lemma RuleMatchesSpec(m: ActionMapper, record: Value, eventType: Value, rule: Rule)
    ensures RuleMatches(m, record, eventType, rule) == Ok(true) <==>
            && PyEq(eventType, RuleType(rule))
            && forall l :: 0 <= l < |rule.event| ==> ConditionHolds(m, record, rule.event[l])
    ensures !PyEq(eventType, RuleType(rule)) ==> RuleMatches(m, record, eventType, rule) == Ok(false)
  {
    ConditionsHoldAll(m, record, rule.event, 0);
  }

  /** First match wins: an event is classified under rule `k` exactly when
      its type can be read, rule `k` applies and every earlier rule was
      evaluated without error and does not apply. */
  lemma ClassifySome(m: ActionMapper, record: Value, k: nat)
    ensures Classify(m, record) == Ok(Some(k)) <==>
            && FieldAt(record, Split(m.eventTypeKey, '.')).Ok?
            && var eventType := FieldAt(record, Split(m.eventTypeKey, '.')).value;
               && k < |m.mapping.actions|
               && RuleMatches(m, record, eventType, m.mapping.actions[k].1) == Ok(true)
               && forall l :: 0 <= l < k ==> RuleMatches(m, record, eventType, m.mapping.actions[l].1) == Ok(false)
  {
    var et := FieldAt(record, Split(m.eventTypeKey, '.'));
    if et.Ok? {
      FirstHitSome(RuleOutcomes(m, record, et.value), 0, k);
    }
  }

  /** An event falls through to the strategy exactly when its type can be
      read and every rule was evaluated without error and does not apply. */
  lemma ClassifyNone(m: ActionMapper, record: Value)
    ensures Classify(m, record) == Ok(None) <==>
            && FieldAt(record, Split(m.eventTypeKey, '.')).Ok?
            && var eventType := FieldAt(record, Split(m.eventTypeKey, '.')).value;
               forall l :: 0 <= l < |m.mapping.actions| ==> RuleMatches(m, record, eventType, m.mapping.actions[l].1) == Ok(false)
  {
    var et := FieldAt(record, Split(m.eventTypeKey, '.'));
    if et.Ok? {
      FirstHitNone(RuleOutcomes(m, record, et.value), 0);
    }
  }

  /** The fold succeeds exactly when every outcome does; it then holds one
      action per outcome, in order, and the warning flag is set exactly when
      some outcome went through the fallback. */
  lemma {:induction false} AccumulateOk(outs: seq<Result<(Value, bool), MapError>>, n: nat)
    requires n <= |outs|
    ensures Accumulate(outs, n).Ok? <==> forall k :: 0 <= k < n ==> outs[k].Ok?
    ensures Accumulate(outs, n).Ok? ==>
            && |Accumulate(outs, n).value.actions| == n
            && (forall k :: 0 <= k < n ==> Accumulate(outs, n).value.actions[k] == outs[k].value.0)
            && (Accumulate(outs, n).value.warned <==> exists k :: 0 <= k < n && outs[k].value.1)
  {
    if n > 0 {
      AccumulateOk(outs, n - 1);
      if Accumulate(outs, n).Ok? {
        var acts := Accumulate(outs, n).value.actions;
        assert acts == Accumulate(outs, n - 1).value.actions + [outs[n - 1].value.0];
      }
    }
  }

  /** A failed fold reports the error of the first failing outcome. */
  lemma {:induction false} AccumulateFirstError(outs: seq<Result<(Value, bool), MapError>>, n: nat)
    requires n <= |outs|
    requires Accumulate(outs, n).Err?
    ensures exists k :: && 0 <= k < n && outs[k] == Err(Accumulate(outs, n).error)
                        && forall l :: 0 <= l < k ==> outs[l].Ok?
  {
    if Accumulate(outs, n - 1).Err? {
      AccumulateFirstError(outs, n - 1);
    } else {
      AccumulateOk(outs, n - 1);
      assert outs[n - 1] == Err(Accumulate(outs, n).error);
    }
  }

  /** Every outcome is the mapping of the event at the same position. */
  lemma OutcomesAll(m: ActionMapper, events: seq<Value>, strategy: string)
    ensures |Outcomes(m, events, strategy)| == |events|
    ensures forall k :: 0 <= k < |events| ==> Outcomes(m, events, strategy)[k] == MapRecord(m, events[k], strategy)
  {
    forall k | 0 <= k < |events|
      ensures Outcomes(m, events, strategy)[k] == MapRecord(m, events[k], strategy)
    {
      OutcomeAt(m, events, strategy, k);
    }
  }

  /** An event carries the fallback flag exactly when it matched no rule and
      the strategy is `flexible`. */
  lemma MapRecordFlag(m: ActionMapper, record: Value, strategy: string)
    requires MapRecord(m, record, strategy).Ok?
    ensures MapRecord(m, record, strategy).value.1 <==> strategy == "flexible" && Classify(m, record) == Ok(None)
  {
  }

  /** `map` succeeds exactly when every event can be mapped, and the result
      then has one action per event, in input order. */
  lemma MapAllOk(m: ActionMapper, events: seq<Value>, strategy: string)
    ensures MapAll(m, events, strategy).Ok? <==> forall k :: 0 <= k < |events| ==> MapRecord(m, events[k], strategy).Ok?
    ensures MapAll(m, events, strategy).Ok? ==>
            && |MapAll(m, events, strategy).value.actions| == |events|
            && forall k :: 0 <= k < |events| ==>
                 MapAll(m, events, strategy).value.actions[k] == MapRecord(m, events[k], strategy).value.0
  {
    OutcomesAll(m, events, strategy);
    AccumulateOk(Outcomes(m, events, strategy), |events|);
  }

  /** The `UnknownAction` warning is issued exactly when the strategy is
      `flexible` and some event matched no rule. */
  lemma MapAllWarned(m: ActionMapper, events: seq<Value>, strategy: string)
    requires MapAll(m, events, strategy).Ok?
    ensures MapAll(m, events, strategy).value.warned <==>
            strategy == "flexible" && exists k :: 0 <= k < |events| && Classify(m, events[k]) == Ok(None)
  {
    var outs := Outcomes(m, events, strategy);
    OutcomesAll(m, events, strategy);
    AccumulateOk(outs, |events|);
    if MapAll(m, events, strategy).value.warned {
      var k :| 0 <= k < |events| && outs[k].value.1;
      MapRecordFlag(m, events[k], strategy);
    }
    if strategy == "flexible" && exists k :: 0 <= k < |events| && Classify(m, events[k]) == Ok(None) {
      var k :| 0 <= k < |events| && Classify(m, events[k]) == Ok(None);
      MapRecordFlag(m, events[k], strategy);
    }
  }

  /** A failed `map` raises the error of the first event that cannot be mapped. */
  lemma MapAllFirstError(m: ActionMapper, events: seq<Value>, strategy: string)
    requires MapAll(m, events, strategy).Err?
    ensures exists k :: && 0 <= k < |events|
                        && MapRecord(m, events[k], strategy) == Err(MapAll(m, events, strategy).error)
                        && forall l :: 0 <= l < k ==> MapRecord(m, events[l], strategy).Ok?
  {
    OutcomesAll(m, events, strategy);
    AccumulateFirstError(Outcomes(m, events, strategy), |events|);
  }

  /** The strategy matters only for events that match no rule. */
  lemma StrategyOnMatched(m: ActionMapper, record: Value, s1: string, s2: string)
    requires Classify(m, record).Ok? && Classify(m, record).value.Some?
    ensures MapRecord(m, record, s1) == MapRecord(m, record, s2)
    ensures MapRecord(m, record, s1).Ok? ==> !MapRecord(m, record, s1).value.1
  {
  }

  /** An event that matches no rule: `strict` raises on it; `flexible` maps it
      with the `UnknownAction` rule, which must exist; any other strategy
      raises. */
  lemma StrategyOnUnmatched(m: ActionMapper, record: Value, strategy: string)
    requires Classify(m, record) == Ok(None)
    ensures strategy == "strict" ==> MapRecord(m, record, strategy) == Err(UnknownActionEncountered(record))
    ensures strategy != "strict" && strategy != "flexible" ==>
            MapRecord(m, record, strategy) == Err(InvalidMappingStrategy(strategy))
    ensures strategy == "flexible" && !HasKey(m.mapping.actions, "UnknownAction") ==>
            MapRecord(m, record, strategy) == Err(KeyError("UnknownAction"))
    ensures strategy == "flexible" && HasKey(m.mapping.actions, "UnknownAction") ==>
            var fallback := Lookup(m.mapping.actions, "UnknownAction").value;
            match MappedAction(m, record, fallback.attributes, "UnknownAction")
            case Ok(a) => MapRecord(m, record, strategy) == Ok((a, true))
            case Err(e) => MapRecord(m, record, strategy) == Err(e)
  {
  }

  /** When every event matches a rule, all strategies give the same result. */
  lemma MapAllStrategyIrrelevant(m: ActionMapper, events: seq<Value>, s1: string, s2: string)
    requires forall k :: 0 <= k < |events| ==> Classify(m, events[k]).Ok? && Classify(m, events[k]).value.Some?
    ensures MapAll(m, events, s1) == MapAll(m, events, s2)
  {
    OutcomesAll(m, events, s1);
    OutcomesAll(m, events, s2);
    forall k | 0 <= k < |events|
      ensures Outcomes(m, events, s1)[k] == Outcomes(m, events, s2)[k]
    {
      StrategyOnMatched(m, events[k], s1, s2);
    }
    assert Outcomes(m, events, s1) == Outcomes(m, events, s2);
  }

  /** Under any strategy but `flexible`, a successful `map` has found a rule
      for every event, and an event that matches none makes `map` raise
      unless an earlier event already did. */
  lemma MapAllNotFlexible(m: ActionMapper, events: seq<Value>, strategy: string)
    requires strategy != "flexible"
    ensures MapAll(m, events, strategy).Ok? ==>
            forall k :: 0 <= k < |events| ==> Classify(m, events[k]).Ok? && Classify(m, events[k]).value.Some?
    ensures MapAll(m, events, strategy).Ok? ==> !MapAll(m, events, strategy).value.warned
  {
    MapAllOk(m, events, strategy);
    if MapAll(m, events, strategy).Ok? {
      forall k | 0 <= k < |events|
        ensures Classify(m, events[k]).Ok? && Classify(m, events[k]).value.Some?
      {
        assert MapRecord(m, events[k], strategy).Ok?;
        if Classify(m, events[k]) == Ok(None) {
          StrategyOnUnmatched(m, events[k], strategy);
        }
      }
      MapAllWarned(m, events, strategy);
    }
  }

  /** Under `flexible`, a successful `map` yields one action per event, in
      order: the action of the first matching rule, or the `UnknownAction`
      fallback for an event that matches none. */
  lemma MapAllFlexible(m: ActionMapper, events: seq<Value>, k: nat)
    requires k < |events| && MapAll(m, events, "flexible").Ok?
    ensures |MapAll(m, events, "flexible").value.actions| == |events|
    ensures Classify(m, events[k]).Ok?
    ensures match Classify(m, events[k]).value
            case Some(i) =>
              MappedAction(m, events[k], m.mapping.actions[i].1.attributes, m.mapping.actions[i].0)
                == Ok(MapAll(m, events, "flexible").value.actions[k])
            case None =>
              && HasKey(m.mapping.actions, "UnknownAction")
              && MappedAction(m, events[k], Lookup(m.mapping.actions, "UnknownAction").value.attributes, "UnknownAction")
                   == Ok(MapAll(m, events, "flexible").value.actions[k])
  {
    MapAllOk(m, events, "flexible");
    assert MapRecord(m, events[k], "flexible").Ok?;
  }

  /** A one-rule mapping: `Star` is a `WatchEvent` whose details take `repo.name`. */
  function StarMapper(rx: Regex): ActionMapper
  {
    var rule := Rule([("type", Str("WatchEvent"))], Attributes(Null, Some([("repo", Path("repo.name"))])));
    NewActionMapper(MappingDocument(Parameters(None, None), None, [("Star", rule)]), rx)
  }

  function WatchRepo(): Value
  {
    Obj([("id", Int(10)), ("name", Str("r"))])
  }

  /** A `WatchEvent` by actor `a` on repository `r`. */
  function WatchRecord(): Value
  {
    Obj([("type", Str("WatchEvent")),
         ("actor", Obj([("id", Int(1)), ("login", Str("a"))])),
         ("repo", WatchRepo()),
         ("created_at", Str("2024-01-01T00:00:00Z"))])
  }

  function StarAction(): Value
  {
    Obj([("action", Str("Star")), ("details", Obj([("repo", Str("r"))]))])
  }

  /** The event type of the `WatchEvent` is read under the default key `type`. */
  lemma WatchType(rx: Regex)
    ensures FieldAt(WatchRecord(), Split(StarMapper(rx).eventTypeKey, '.')) == Ok(Str("WatchEvent"))
  {
    SplitPlain("type", '.');
    assert Get(WatchRecord().fields, "type") == Str("WatchEvent");
    assert ["type"][1..] == [];
  }

  /** The `Star` rule has no condition besides its type, so it applies. */
  lemma StarRuleApplies(rx: Regex)
    ensures RuleMatches(StarMapper(rx), WatchRecord(), Str("WatchEvent"), StarMapper(rx).mapping.actions[0].1) == Ok(true)
  {
    var rule := StarMapper(rx).mapping.actions[0].1;
    assert RuleType(rule) == Str("WatchEvent");
    assert ConditionsHold(StarMapper(rx), WatchRecord(), rule.event, 1) == Ok(true);
  }

  /** The `WatchEvent` is classified under the `Star` rule. */
  lemma StarClassify(rx: Regex)
    ensures Classify(StarMapper(rx), WatchRecord()) == Ok(Some(0))
  {
    WatchType(rx);
    StarRuleApplies(rx);
    ClassifySome(StarMapper(rx), WatchRecord(), 0);
  }

  lemma SplitRepoName()
    ensures Split("repo.name", '.') == ["repo", "name"]
  {
    SplitJoin(["repo", "name"], '.');
    assert Join(["repo", "name"], '.') == "repo.name";
  }

  lemma WatchRepoLookup()
    ensures Get(WatchRecord().fields, "repo") == WatchRepo()
  {
    var fs := WatchRecord().fields;
    assert fs[0].0[0] == 't' && fs[1].0[0] == 'a';
    assert Lookup(fs, "repo") == Lookup(fs[1..], "repo") == Lookup(fs[2..], "repo");
  }

  lemma RepoNameLookup()
    ensures Get(WatchRepo().fields, "name") == Str("r")
  {
    var fs := WatchRepo().fields;
    assert |fs[0].0| == 2;
    assert Lookup(fs, "name") == Lookup(fs[1..], "name");
  }

  /** A two-segment path through two dicts. */
  lemma FieldAtTwo(v: Value, k1: string, k2: string)
    requires v.Obj? && Get(v.fields, k1).Obj? && !Get(Get(v.fields, k1).fields, k2).Null?
    ensures FieldAt(v, [k1, k2]) == Ok(Get(Get(v.fields, k1).fields, k2))
  {
    var w := Get(v.fields, k1);
    assert [k1, k2][1..] == [k2];
    assert FieldAt(v, [k1, k2]) == FieldAt(w, [k2]);
    assert [k2][1..] == [];
    assert FieldAt(w, [k2]) == FieldAt(Get(w.fields, k2), []);
  }

  /** The path `repo.name` reads `r` from the `WatchEvent`. */
  lemma StarRepoName()
    ensures FieldAt(WatchRecord(), Split("repo.name", '.')) == Ok(Str("r"))
  {
    SplitRepoName();
    WatchRepoLookup();
    RepoNameLookup();
    FieldAtTwo(WatchRecord(), "repo", "name");
  }

  /** A field mapping with a single entry. */
  lemma ProjectSingle(record: Value, k: string, fs: FieldSpec)
    ensures ProjectFields(record, [(k, fs)]) ==
            match ProjectValue(record, fs)
            case Ok(v) => Ok([(k, v)])
            case Err(e) => Err(e)
  {
    assert ProjectPrefix(record, Nested([(k, fs)]), 0) == Ok([]);
  }

  /** The `Star` rule builds `{"action": "Star", "details": {"repo": "r"}}`. */
  lemma StarAttributes(rx: Regex)
    ensures MappedAction(StarMapper(rx), WatchRecord(), StarMapper(rx).mapping.actions[0].1.attributes, "Star")
            == Ok(StarAction())
  {
    var attrs := StarMapper(rx).mapping.actions[0].1.attributes;
    assert DetailsOf(attrs) == [("repo", Path("repo.name"))];
    StarRepoName();
    assert ProjectValue(WatchRecord(), Path("repo.name")) == Ok(Str("r"));
    ProjectSingle(WatchRecord(), "repo", Path("repo.name"));
    MappedActionPlain(StarMapper(rx), WatchRecord(), attrs, "Star");
  }

  /** Under `flexible`, mapping the `WatchEvent` alone gives the `Star`
      action and no warning. */
  lemma StarExample(rx: Regex)
    ensures MapAll(StarMapper(rx), [WatchRecord()], "flexible") == Ok(MapState([StarAction()], false))
  {
    var m := StarMapper(rx);
    StarClassify(rx);
    StarAttributes(rx);
    assert MapRecord(m, WatchRecord(), "flexible") == Ok((StarAction(), false));
    var outs := Outcomes(m, [WatchRecord()], "flexible");
    OutcomeAt(m, [WatchRecord()], "flexible", 0);
    assert Accumulate(outs, 1) == Ok(MapState([] + [StarAction()], false));
    assert [] + [StarAction()] == [StarAction()];
  }
}
