/**
 The metrics registry: calls with bounded labels are recorded under a key made of the name and the
 sorted labels. Values are real numbers; lower-casing and trimming are parameters.
 */
module Metrics {
  import opened Wrappers
  import opened Text
  import Lex
  import Sorting

  datatype Kind = Counter | Summary | Gauge

  datatype Definition = Definition(name: string, kind: Kind, labels: seq<string>)

  // The metrics on offer and, for each bounded label, the values it may take.
  datatype Tables = Tables(definitions: map<string, Definition>, bounded: map<string, seq<string>>)

  datatype Sample = Sample(definition: Definition, labels: map<string, string>, count: nat, sum: real)

  datatype Entry = Entry(name: string, labels: map<string, string>, value: real)

  datatype MetricError = UnknownMetric | UnboundedLabel | LabelMismatch | WrongKind

  // ---- normalising labels ----

  // The bounded value a raw value stands for: itself, or the catch-all of its label.
  function NormalValue(t: Tables, trim: string -> string, labelName: string, raw: string): Option<string>
    requires labelName in t.bounded
  {
    if trim(raw) in t.bounded[labelName] then Some(trim(raw))
    else if labelName == "error_code" then Some("OTHER")
    else if labelName == "status" then Some("UNKNOWN")
    else None
  }

  predicate Normalizable(t: Tables, canon: string -> string, trim: string -> string, labelName: string, raw: string) {
    canon(labelName) in t.bounded && NormalValue(t, trim, canon(labelName), raw).Some?
  }

  // The raw label l stands for the canonical name k with this value.
  predicate Gives(
      t: Tables, canon: string -> string, trim: string -> string, raw: map<string, string>,
      l: string, k: string, value: string)
    requires l in raw
  {
    canon(l) == k && k in t.bounded && NormalValue(t, trim, k, raw[l]) == Some(value)
  }

  ghost predicate Covers(
      t: Tables, canon: string -> string, trim: string -> string,
      raw: map<string, string>, visited: set<string>, labels: map<string, string>)
    requires visited <= raw.Keys
  {
    forall l :: l in visited ==> Normalizable(t, canon, trim, l, raw[l]) && canon(l) in labels
  }

  ghost predicate Sourced(
      t: Tables, canon: string -> string, trim: string -> string,
      raw: map<string, string>, visited: set<string>, labels: map<string, string>)
    requires visited <= raw.Keys
  {
    forall k :: k in labels ==> exists l :: l in visited && Gives(t, canon, trim, raw, l, k, labels[k])
  }

  // A normal form of the labels: one entry per canonical name, each from one of the raw labels.
  ghost predicate NormalForm(
      t: Tables, canon: string -> string, trim: string -> string,
      raw: map<string, string>, visited: set<string>, labels: map<string, string>)
    requires visited <= raw.Keys
  {
    Covers(t, canon, trim, raw, visited, labels) && Sourced(t, canon, trim, raw, visited, labels)
  }

  lemma CoveredBy(
      t: Tables, canon: string -> string, trim: string -> string,
      raw: map<string, string>, visited: set<string>, labels: map<string, string>, l: string)
    requires visited <= raw.Keys && NormalForm(t, canon, trim, raw, visited, labels) && l in visited
    ensures Normalizable(t, canon, trim, l, raw[l]) && canon(l) in labels
  {
    hide Sourced, Normalizable;
  }

  lemma SourceOf(
      t: Tables, canon: string -> string, trim: string -> string,
      raw: map<string, string>, visited: set<string>, labels: map<string, string>, k: string) returns (l: string)
    requires visited <= raw.Keys && NormalForm(t, canon, trim, raw, visited, labels) && k in labels
    ensures l in visited && Gives(t, canon, trim, raw, l, k, labels[k])
  {
    hide Covers, Gives;
    l :| l in visited && Gives(t, canon, trim, raw, l, k, labels[k]);
  }

  // The map's labels come in any order.
  method NormalizeLabels(t: Tables, canon: string -> string, trim: string -> string, raw: map<string, string>)
    returns (r: Result<map<string, string>, MetricError>)
    ensures r.Ok? <==> forall l :: l in raw ==> Normalizable(t, canon, trim, l, raw[l])
    ensures r.Ok? ==> NormalForm(t, canon, trim, raw, raw.Keys, r.value)
    ensures r.Err? ==> r.error == UnboundedLabel
  {
    hide NormalForm;
    var result: map<string, string> := map[];
    var left := raw.Keys;
    EmptyForm(t, canon, trim, raw);
    assert raw.Keys - left == {};
    while left != {}
      invariant left <= raw.Keys
      invariant NormalForm(t, canon, trim, raw, raw.Keys - left, result)
      decreases |left|
    {
      var labelName :| labelName in left;
      var name := canon(labelName);
      if name !in t.bounded {
        return Err(UnboundedLabel);
      }
      var value := NormalValue(t, trim, name, raw[labelName]);
      if value.None? {
        return Err(UnboundedLabel);
      }
      ghost var visited := raw.Keys - left;
      NormalFormGrows(t, canon, trim, raw, visited, result, labelName, value.value);
      assert raw.Keys - (left - {labelName}) == visited + {labelName};
      result := result[name := value.value];
      left := left - {labelName};
    }
    assert raw.Keys - left == raw.Keys;
    forall l | l in raw
      ensures Normalizable(t, canon, trim, l, raw[l])
    {
      CoveredBy(t, canon, trim, raw, raw.Keys, result, l);
    }
    return Ok(result);
  }

  lemma EmptyForm(t: Tables, canon: string -> string, trim: string -> string, raw: map<string, string>)
    ensures NormalForm(t, canon, trim, raw, {}, map[])
  {
  }

  lemma NormalFormGrows(
      t: Tables, canon: string -> string, trim: string -> string, raw: map<string, string>,
      visited: set<string>, labels: map<string, string>, labelName: string, value: string)
    requires visited <= raw.Keys && labelName in raw && NormalForm(t, canon, trim, raw, visited, labels)
    requires canon(labelName) in t.bounded && NormalValue(t, trim, canon(labelName), raw[labelName]) == Some(value)
    ensures NormalForm(t, canon, trim, raw, visited + {labelName}, labels[canon(labelName) := value])
  {
    hide NormalForm, NormalValue;
    var next := labels[canon(labelName) := value];
    assert Covers(t, canon, trim, raw, visited + {labelName}, next) by {
      hide Sourced;
      forall l | l in visited + {labelName}
        ensures Normalizable(t, canon, trim, l, raw[l]) && canon(l) in next
      {
        if l != labelName {
          CoveredBy(t, canon, trim, raw, visited, labels, l);
        }
      }
    }
    assert Sourced(t, canon, trim, raw, visited + {labelName}, next) by {
      hide Covers;
      forall k | k in next
        ensures exists l :: l in visited + {labelName} && Gives(t, canon, trim, raw, l, k, next[k])
      {
        if k == canon(labelName) {
          assert Gives(t, canon, trim, raw, labelName, k, next[k]);
        } else {
          var l := SourceOf(t, canon, trim, raw, visited, labels, k);
          assert Gives(t, canon, trim, raw, l, k, next[k]);
        }
      }
    }
    BothHalves(t, canon, trim, raw, visited + {labelName}, next);
  }

  lemma BothHalves(
      t: Tables, canon: string -> string, trim: string -> string,
      raw: map<string, string>, visited: set<string>, labels: map<string, string>)
    requires visited <= raw.Keys
    requires Covers(t, canon, trim, raw, visited, labels) && Sourced(t, canon, trim, raw, visited, labels)
    ensures NormalForm(t, canon, trim, raw, visited, labels)
  {
    hide Covers, Sourced;
  }

  lemma NormalValueIsFixed(
      t: Tables, canon: string -> string, trim: string -> string,
      raw: map<string, string>, a: map<string, string>, b: map<string, string>, k: string)
    requires forall x, y :: x in raw && y in raw && canon(x) == canon(y) ==> x == y
    requires NormalForm(t, canon, trim, raw, raw.Keys, a) && NormalForm(t, canon, trim, raw, raw.Keys, b)
    requires k in a
    ensures k in b && a[k] == b[k]
  {
    hide NormalForm, NormalValue;
    var l := SourceOf(t, canon, trim, raw, raw.Keys, a, k);
    CoveredBy(t, canon, trim, raw, raw.Keys, b, l);
    var l' := SourceOf(t, canon, trim, raw, raw.Keys, b, k);
  }

  // The order does not matter when no two labels share a canonical name.
  lemma NormalFormIsUnique(
      t: Tables, canon: string -> string, trim: string -> string,
      raw: map<string, string>, a: map<string, string>, b: map<string, string>)
    requires forall x, y :: x in raw && y in raw && canon(x) == canon(y) ==> x == y
    requires NormalForm(t, canon, trim, raw, raw.Keys, a) && NormalForm(t, canon, trim, raw, raw.Keys, b)
    ensures a == b
  {
    hide NormalForm;
    forall k | k in a
      ensures k in b && a[k] == b[k]
    {
      NormalValueIsFixed(t, canon, trim, raw, a, b, k);
    }
    forall k | k in b
      ensures k in a
    {
      NormalValueIsFixed(t, canon, trim, raw, b, a, k);
    }
  }

  // ---- the key of a series ----

  ghost predicate Ascending(keys: seq<string>) {
    Sorting.Strict(Lex.Less, keys)
  }

  function Inserted(key: string, keys: seq<string>): seq<string> {
    Sorting.Insert(Lex.Less, key, keys)
  }

  lemma InsertKeepsAscending(key: string, keys: seq<string>)
    requires Ascending(keys) && key !in keys
    ensures var r := Inserted(key, keys);
      Ascending(r) && forall x :: x in r <==> x == key || x in keys
  {
    Lex.LessIsTotal();
    Sorting.InsertKeepsStrict(Lex.Less, key, keys);
  }

  lemma AscendingIsUnique(a: seq<string>, b: seq<string>)
    requires Ascending(a) && Ascending(b) && forall x :: x in a <==> x in b
    ensures a == b
  {
    Lex.LessIsTotal();
    Sorting.StrictIsUnique(Lex.Less, a, b);
  }

  // The keys of a map in ascending order.
  lemma {:induction false} AscendingExists(keys: set<string>)
    ensures exists s: seq<string> :: Ascending(s) && forall x :: x in s <==> x in keys
    decreases |keys|
  {
    if keys == {} {
      assert Ascending([]) && forall x :: x in [] <==> x in keys;
    } else {
      var key :| key in keys;
      AscendingExists(keys - {key});
      var s: seq<string> :| Ascending(s) && forall x :: x in s <==> x in keys - {key};
      InsertKeepsAscending(key, s);
      var r := Inserted(key, s);
      assert Ascending(r) && forall x :: x in r <==> x in keys;
    }
  }

  ghost function SortedKeys(keys: set<string>): (s: seq<string>)
    ensures Ascending(s) && forall x :: x in s <==> x in keys
  {
    AscendingExists(keys);
    var s: seq<string> :| Ascending(s) && forall x :: x in s <==> x in keys;
    s
  }

  function Pair(labelName: string, value: string): string {
    Join([labelName, value], '=')
  }

  function Pairs(keys: seq<string>, labels: map<string, string>): seq<string>
    requires forall k :: k in keys ==> k in labels
  {
    seq(|keys|, i requires 0 <= i < |keys| => Pair(keys[i], labels[keys[i]]))
  }

  ghost function KeyOf(name: string, labels: map<string, string>): string {
    Join([name] + Pairs(SortedKeys(labels.Keys), labels), '|')
  }

  lemma PairText(labelName: string, value: string)
    ensures Pair(labelName, value) == labelName + "=" + value
  {
    assert [labelName, value][1..] == [value];
    assert Join([value], '=') == value;
    assert "=" == ['='];
  }

  // The names come out of the map in any order and are kept sorted.
  method CollectKeys(names: set<string>) returns (keys: seq<string>)
    ensures keys == SortedKeys(names)
  {
    keys := [];
    var left := names;
    while left != {}
      invariant left <= names && Ascending(keys)
      invariant forall x :: x in keys <==> x in names && x !in left
      decreases |left|
    {
      var labelName :| labelName in left;
      InsertKeepsAscending(labelName, keys);
      keys := Inserted(labelName, keys);
      left := left - {labelName};
    }
    AscendingIsUnique(keys, SortedKeys(names));
  }

  method MetricKey(name: string, labels: map<string, string>) returns (key: string)
    ensures key == KeyOf(name, labels)
  {
    hide Ascending, Pair;
    var keys := CollectKeys(labels.Keys);
    key := name;
    var pairs: seq<string> := [];
    for i := 0 to |keys|
      invariant pairs == Pairs(keys, labels)[..i]
      invariant key == Join([name] + pairs, '|')
    {
      var value := labels[keys[i]];
      JoinAppends([name] + pairs, Pair(keys[i], value));
      assert [name] + pairs + [Pair(keys[i], value)] == [name] + (pairs + [Pair(keys[i], value)]);
      PairText(keys[i], value);
      key := key + "|" + (keys[i] + "=" + value);
      pairs := pairs + [keys[i] + "=" + value];
    }
    assert Pairs(keys, labels)[..|keys|] == Pairs(keys, labels);
  }

  lemma {:induction false} JoinAppends(parts: seq<string>, part: string)
    requires parts != []
    ensures Join(parts + [part], '|') == Join(parts, '|') + "|" + part
  {
    if |parts| == 1 {
      assert (parts + [part])[1..] == [part];
    } else {
      JoinAppends(parts[1..], part);
      assert (parts + [part])[1..] == parts[1..] + [part];
      var tail := Join(parts[1..], '|');
      assert parts[0] + ['|'] + (tail + "|" + part) == parts[0] + ['|'] + tail + "|" + part;
    }
  }

  predicate Clean(s: string) {
    forall i :: 0 <= i < |s| ==> s[i] != '|' && s[i] != '='
  }

  ghost predicate CleanLabels(labels: map<string, string>) {
    forall k :: k in labels ==> Clean(k) && Clean(labels[k])
  }

  lemma PairIsInjective(a: string, x: string, b: string, y: string)
    requires Clean(a) && Clean(x) && Clean(b) && Clean(y) && Pair(a, x) == Pair(b, y)
    ensures a == b && x == y
  {
    SplitUndoesJoin([a, x], '=');
    SplitUndoesJoin([b, y], '=');
    assert [a, x][0] == [b, y][0] && [a, x][1] == [b, y][1];
  }

  lemma PairHasNoBar(labelName: string, value: string)
    requires Clean(labelName) && Clean(value)
    ensures '|' !in Pair(labelName, value)
  {
    if '|' in Pair(labelName, value) {
      JoinedCharacters([labelName, value], '=', '|');
    }
  }

  // Distinct series never share a key.
  lemma KeyIsInjective(name: string, labels: map<string, string>, name': string, labels': map<string, string>)
    requires Clean(name) && Clean(name') && CleanLabels(labels) && CleanLabels(labels')
    requires KeyOf(name, labels) == KeyOf(name', labels')
    ensures name == name' && labels == labels'
  {
    var keys, keys' := SortedKeys(labels.Keys), SortedKeys(labels'.Keys);
    var parts, parts' := [name] + Pairs(keys, labels), [name'] + Pairs(keys', labels');
    PartsHaveNoBar(name, keys, labels);
    PartsHaveNoBar(name', keys', labels');
    SplitUndoesJoin(parts, '|');
    SplitUndoesJoin(parts', '|');
    assert parts[0] == name && parts'[0] == name';
    assert Pairs(keys, labels) == parts[1..] && Pairs(keys', labels') == parts'[1..];
    forall i | 0 <= i < |keys|
      ensures keys[i] == keys'[i] && labels[keys[i]] == labels'[keys'[i]]
    {
      assert Pairs(keys, labels)[i] == Pairs(keys', labels')[i];
      assert keys[i] in keys && keys'[i] in keys';
      PairIsInjective(keys[i], labels[keys[i]], keys'[i], labels'[keys'[i]]);
    }
    assert keys == keys';
    assert forall k :: k in labels <==> k in keys;
    assert forall k :: k in labels' <==> k in keys';
    forall k | k in labels
      ensures labels[k] == labels'[k]
    {
      var i :| 0 <= i < |keys| && keys[i] == k;
    }
  }

  lemma PartsHaveNoBar(name: string, keys: seq<string>, labels: map<string, string>)
    requires Clean(name) && CleanLabels(labels) && forall k :: k in keys ==> k in labels
    ensures forall x :: x in [name] + Pairs(keys, labels) ==> '|' !in x
  {
    forall i | 0 <= i < |keys|
      ensures '|' !in Pairs(keys, labels)[i]
    {
      assert keys[i] in keys;
      PairHasNoBar(keys[i], labels[keys[i]]);
    }
  }

  // ---- the tables ----

  // Names, labels and values are clean, labels are distinct and bounded, the catch-alls are values.
  ghost predicate ProperTables(t: Tables) {
    && (forall n :: n in t.definitions ==>
      && t.definitions[n].name == n && Clean(n)
      && (forall l :: l in t.definitions[n].labels ==> l in t.bounded)
      && (forall i,
          j :: 0 <= i < j < |t.definitions[n].labels| ==> t.definitions[n].labels[i] != t.definitions[n].labels[j]))
    && (forall l :: l in t.bounded ==> Clean(l) && forall v :: v in t.bounded[l] ==> Clean(v))
    && ("error_code" in t.bounded ==> "OTHER" in t.bounded["error_code"])
    && ("status" in t.bounded ==> "UNKNOWN" in t.bounded["status"])
  }

  // What prepare lets through: exactly the metric's labels, each with a bounded value.
  ghost predicate ProperEntry(t: Tables, e: Entry) {
    && e.name in t.definitions
    && (forall l :: l in e.labels <==> l in t.definitions[e.name].labels)
    && (forall l :: l in e.labels ==> l in t.bounded && e.labels[l] in t.bounded[l])
  }

  lemma ProperEntryIsClean(t: Tables, e: Entry)
    requires ProperTables(t) && ProperEntry(t, e)
    ensures Clean(e.name) && CleanLabels(e.labels)
  {
  }

  lemma SameSeries(t: Tables, a: Entry, b: Entry)
    requires ProperTables(t) && ProperEntry(t, a) && ProperEntry(t, b)
    ensures KeyOf(a.name, a.labels) == KeyOf(b.name, b.labels) <==> a.name == b.name && a.labels == b.labels
  {
    ProperEntryIsClean(t, a);
    ProperEntryIsClean(t, b);
    if KeyOf(a.name, a.labels) == KeyOf(b.name, b.labels) {
      KeyIsInjective(a.name, a.labels, b.name, b.labels);
    }
  }

  // ---- recording ----

  function Sampled(d: Definition, before: Option<Sample>, labels: map<string, string>, value: real): Sample {
    if d.kind.Gauge? then Sample(d, labels, 1, value)
    else
      var sample := if before.Some? then before.value else Sample(d, labels, 0, 0.0);
      sample.(count := sample.count + 1, sum := sample.sum + value)
  }

  function Find(samples: map<string, Sample>, key: string): Option<Sample> {
    if key in samples then Some(samples[key]) else None
  }

  ghost function Recorded(t: Tables, samples: map<string, Sample>, e: Entry): map<string, Sample>
    requires e.name in t.definitions
  {
    var key := KeyOf(e.name, e.labels);
    samples[key := Sampled(t.definitions[e.name], Find(samples, key), e.labels, e.value)]
  }

  ghost predicate ProperLog(t: Tables, log: seq<Entry>) {
    forall i :: 0 <= i < |log| ==> ProperEntry(t, log[i])
  }

  ghost function Replay(t: Tables, log: seq<Entry>): map<string, Sample>
    requires ProperLog(t, log)
  {
    if log == [] then map[] else Recorded(t, Replay(t, log[..|log| - 1]), log[|log| - 1])
  }

  lemma ReplayAppends(t: Tables, log: seq<Entry>, e: Entry, value: real)
    requires ProperLog(t, log) && ProperEntry(t, e)
    ensures var next := log + [Entry(e.name, e.labels, value)];
      ProperLog(t, next) && Replay(t, next) == Recorded(t, Replay(t, log), Entry(e.name, e.labels, value))
  {
    assert (log + [Entry(e.name, e.labels, value)])[..|log|] == log;
  }

  // The canonical names of the labels are the names listed.
  ghost predicate SameLabels(canon: string -> string, raw: map<string, string>, names: seq<string>) {
    forall l :: l in names <==> IsCanonical(canon, raw, l)
  }

  lemma CountIff(names: seq<string>, keys: set<string>)
    requires forall i, j :: 0 <= i < j < |names| ==> names[i] != names[j]
    ensures |keys| == |names| && (forall j :: 0 <= j < |names| ==> names[j] in keys)
      <==> forall l :: l in names <==> l in keys
  {
    LabelCount(names);
    if |keys| == |names| && forall j :: 0 <= j < |names| ==> names[j] in keys {
      SameSizeSubset(SetOf(names), keys);
      assert forall l :: l in names <==> l in SetOf(names);
    }
    if forall l :: l in names <==> l in keys {
      assert SetOf(names) == keys;
    }
  }

  lemma DefinedLabels(t: Tables, name: string)
    requires ProperTables(t) && name in t.definitions
    ensures var names := t.definitions[name].labels;
      forall i, j :: 0 <= i < j < |names| ==> names[i] != names[j]
  {
  }

  lemma PreparedIff(
      t: Tables, canon: string -> string, trim: string -> string, raw: map<string, string>,
      name: string, labels: map<string, string>)
    requires ProperTables(t) && name in t.definitions && NormalForm(t, canon, trim, raw, raw.Keys, labels)
    ensures var names := t.definitions[name].labels;
      && (|labels| == |names| && (forall j :: 0 <= j < |names| ==> names[j] in labels) <==> SameLabels(canon, raw,
          names))
      && (SameLabels(canon, raw, names) ==> ProperEntry(t, Entry(name, labels, 0.0)))
  {
    hide NormalForm, IsCanonical, ProperTables;
    NormalKeys(t, canon, trim, raw, labels);
    DefinedLabels(t, name);
    CountIff(t.definitions[name].labels, labels.Keys);
    assert |labels| == |labels.Keys|;
  }

  class Registry {
    const tables: Tables
    const canon: string -> string
    const trim: string -> string
    var samples: map<string, Sample>
    // Every accepted call, in order.
    ghost var log: seq<Entry>

    ghost predicate Valid()
      reads this
    {
      ProperTables(tables) && ProperLog(tables, log) && samples == Replay(tables, log)
    }

    constructor (tables: Tables, canon: string -> string, trim: string -> string)
      requires ProperTables(tables)
      ensures Valid() && log == [] && this.tables == tables && this.canon == canon && this.trim == trim
    {
      this.tables, this.canon, this.trim := tables, canon, trim;
      samples := map[];
      log := [];
    }

    ghost predicate Acceptable(name: string, labels: map<string, string>) {
      && name in tables.definitions
      && (forall l :: l in labels ==> Normalizable(tables, canon, trim, l, labels[l]))
      && SameLabels(canon, labels, tables.definitions[name].labels)
    }

    method Prepare(name: string, labels: map<string, string>) returns (r: Result<Entry, MetricError>)
      requires ProperTables(tables)
      ensures r.Ok? <==> Acceptable(name, labels)
      ensures r.Ok? ==>
        && name in tables.definitions && ProperEntry(tables, r.value) && r.value.name == name && r.value.value == 0.0
        && NormalForm(tables, canon, trim, labels, labels.Keys, r.value.labels)
    {
      hide ProperTables, NormalForm, Normalizable, ProperEntry;
      if name !in tables.definitions {
        return Err(UnknownMetric);
      }
      var definition := tables.definitions[name];
      var normalized := NormalizeLabels(tables, canon, trim, labels);
      if normalized.Err? {
        return Err(normalized.error);
      }
      PreparedIff(tables, canon, trim, labels, name, normalized.value);
      if |normalized.value| != |definition.labels| {
        return Err(LabelMismatch);
      }
      for i := 0 to |definition.labels|
        invariant forall j :: 0 <= j < i ==> definition.labels[j] in normalized.value
      {
        if definition.labels[i] !in normalized.value {
          return Err(LabelMismatch);
        }
      }
      return Ok(Entry(name, normalized.value, 0.0));
    }

    // Add and Observe: a counter or summary series counts one more and adds the value.
    method Record(name: string, value: real, labels: map<string, string>) returns (ok: bool)
      requires Valid()
      modifies this`samples, this`log
      ensures Valid()
      ensures ok <==> Acceptable(name, labels) && !tables.definitions[name].kind.Gauge?
      ensures !ok ==> samples == old(samples) && log == old(log)
      ensures ok ==> exists normalized ::
        NormalForm(tables, canon, trim, labels, labels.Keys, normalized)
        && log == old(log) + [Entry(name, normalized, value)]
    {
      hide ProperTables, NormalForm, Acceptable, ProperEntry, KeyOf;
      var prepared := Prepare(name, labels);
      if prepared.Err? {
        return false;
      }
      var definition := tables.definitions[name];
      if definition.kind.Gauge? {
        return false;
      }
      var normalized := prepared.value.labels;
      var key := MetricKey(name, normalized);
      var sample := if key in samples then samples[key] else Sample(definition, normalized, 0, 0.0);
      samples := samples[key := sample.(count := sample.count + 1, sum := sample.sum + value)];
      log := log + [Entry(name, normalized, value)];
      ReplayAppends(tables, old(log), prepared.value, value);
      return true;
    }

    // Set: a gauge series has this value.
    method Set(name: string, value: real, labels: map<string, string>) returns (ok: bool)
      requires Valid()
      modifies this`samples, this`log
      ensures Valid()
      ensures ok <==> Acceptable(name, labels) && tables.definitions[name].kind.Gauge?
      ensures !ok ==> samples == old(samples) && log == old(log)
      ensures ok ==> exists normalized ::
        NormalForm(tables, canon, trim, labels, labels.Keys, normalized)
        && log == old(log) + [Entry(name, normalized, value)]
    {
      hide ProperTables, NormalForm, Acceptable, ProperEntry, KeyOf;
      var prepared := Prepare(name, labels);
      if prepared.Err? {
        return false;
      }
      var definition := tables.definitions[name];
      if !definition.kind.Gauge? {
        return false;
      }
      var normalized := prepared.value.labels;
      var key := MetricKey(name, normalized);
      samples := samples[key := Sample(definition, normalized, 1, value)];
      log := log + [Entry(name, normalized, value)];
      ReplayAppends(tables, old(log), prepared.value, value);
      return true;
    }
  }

  function SetOf(s: seq<string>): set<string> {
    set x | x in s
  }

  lemma {:induction false} LabelCount(labels: seq<string>)
    ensures (forall i, j :: 0 <= i < j < |labels| ==> labels[i] != labels[j]) ==> |SetOf(labels)| == |labels|
  {
    if labels != [] {
      var n := |labels| - 1;
      LabelCount(labels[..n]);
      assert labels == labels[..n] + [labels[n]];
      assert SetOf(labels) == SetOf(labels[..n]) + {labels[n]};
    }
  }

  lemma SameSizeSubset(a: set<string>, b: set<string>)
    requires a <= b && |a| == |b|
    ensures a == b
  {
    assert b == a + (b - a);
    assert |b| == |a| + |b - a|;
  }

  // The canonical name of some raw label.
  ghost predicate IsCanonical(canon: string -> string, raw: map<string, string>, k: string) {
    exists l :: l in raw && canon(l) == k
  }

  lemma NormalKeys(
      t: Tables, canon: string -> string, trim: string -> string, raw: map<string, string>, labels: map<string, string>)
    requires ProperTables(t) && NormalForm(t, canon, trim, raw, raw.Keys, labels)
    ensures forall k :: k in labels <==> IsCanonical(canon, raw, k)
    ensures forall k :: k in labels ==> k in t.bounded && labels[k] in t.bounded[k]
  {
    hide NormalForm, IsCanonical;
    forall k | k in labels
      ensures IsCanonical(canon, raw, k) && k in t.bounded && labels[k] in t.bounded[k]
    {
      var l := SourceOf(t, canon, trim, raw, raw.Keys, labels, k);
      CanonicalBy(canon, raw, k, l);
    }
    forall k | IsCanonical(canon, raw, k)
      ensures k in labels
    {
      var l := CanonicalOf(canon, raw, k);
      CoveredBy(t, canon, trim, raw, raw.Keys, labels, l);
    }
  }

  lemma CanonicalBy(canon: string -> string, raw: map<string, string>, k: string, l: string)
    requires l in raw && canon(l) == k
    ensures IsCanonical(canon, raw, k)
  {
  }

  lemma CanonicalOf(canon: string -> string, raw: map<string, string>, k: string) returns (l: string)
    requires IsCanonical(canon, raw, k)
    ensures l in raw && canon(l) == k
  {
    l :| l in raw && canon(l) == k;
  }

  // ---- what the samples say ----

  predicate Of(e: Entry, name: string, labels: map<string, string>) {
    e.name == name && e.labels == labels
  }

  function CountOf(log: seq<Entry>, name: string, labels: map<string, string>): nat {
    if log == [] then 0
    else CountOf(log[..|log| - 1], name, labels) + (if Of(log[|log| - 1], name, labels) then 1 else 0)
  }

  function SumOf(log: seq<Entry>, name: string, labels: map<string, string>): real {
    if log == [] then 0.0
    else SumOf(log[..|log| - 1], name, labels) + (if Of(log[|log| - 1], name,
        labels) then log[|log| - 1].value else 0.0)
  }

  function LastOf(log: seq<Entry>, name: string, labels: map<string, string>): real {
    if log == [] then 0.0
    else if Of(log[|log| - 1], name, labels) then log[|log| - 1].value
    else LastOf(log[..|log| - 1], name, labels)
  }

  // After any sequence of accepted calls, a series is there exactly when a call was made on it, and it
  // shows their number and sum, or for a gauge the last value.
  lemma {:induction false} SamplesAgreeWithTheLog(t: Tables, log: seq<Entry>, e: Entry)
    requires ProperTables(t) && ProperLog(t, log) && ProperEntry(t, e)
    ensures var samples, key := Replay(t, log), KeyOf(e.name, e.labels);
      && (key in samples <==> CountOf(log, e.name, e.labels) > 0)
      && (key in samples ==>
        && samples[key].definition == t.definitions[e.name] && samples[key].labels == e.labels
        && if t.definitions[e.name].kind.Gauge?
          then samples[key].count == 1 && samples[key].sum == LastOf(log, e.name, e.labels)
          else samples[key].count == CountOf(log, e.name, e.labels) && samples[key].sum == SumOf(log, e.name, e.labels))
  {
    if log != [] {
      var init, last := log[..|log| - 1], log[|log| - 1];
      SamplesAgreeWithTheLog(t, init, e);
      SameSeries(t, e, last);
      if !Of(last, e.name, e.labels) {
      } else if KeyOf(e.name, e.labels) !in Replay(t, init) {
        NoCallsNoSum(init, e.name, e.labels);
      }
    }
  }

  lemma {:induction false} NoCallsNoSum(log: seq<Entry>, name: string, labels: map<string, string>)
    requires CountOf(log, name, labels) == 0
    ensures SumOf(log, name, labels) == 0.0
  {
    if log != [] {
      NoCallsNoSum(log[..|log| - 1], name, labels);
    }
  }

  // ---- how many series there can be ----

  function Product(bounded: map<string, seq<string>>, labels: seq<string>): nat {
    if labels == [] then 1
    else Product(bounded, labels[1..]) * (if labels[0] in bounded then |bounded[labels[0]]| else 0)
  }

  // Every way to give bounded values to the labels.
  function Choices(bounded: map<string, seq<string>>, labels: seq<string>): set<map<string, string>> {
    if labels == [] then {map[]}
    else
      var values := if labels[0] in bounded then bounded[labels[0]] else [];
      Extended(Choices(bounded, labels[1..]), labels[0], values)
  }

  function Extended(choices: set<map<string, string>>, labelName: string, values: seq<string>): set<map<string,
      string>> {
    if values == [] then {}
    else Extended(choices, labelName, values[1..]) + WithLabel(choices, labelName, values[0])
  }

  function WithLabel(choices: set<map<string, string>>, labelName: string, value: string): set<map<string, string>> {
    set m | m in choices :: m[labelName := value]
  }

  lemma SmallerSet<T>(a: set<T>, b: set<T>)
    requires a <= b
    ensures |a| <= |b|
  {
    assert b == a + (b - a);
    assert |b| == |a| + |b - a|;
  }

  lemma {:induction false} WithLabelSize(choices: set<map<string, string>>, labelName: string, value: string)
    ensures |WithLabel(choices, labelName, value)| <= |choices|
  {
    if choices != {} {
      var m :| m in choices;
      WithLabelSize(choices - {m}, labelName, value);
      var rest := WithLabel(choices - {m}, labelName, value);
      forall x | x in WithLabel(choices, labelName, value)
        ensures x in rest + {m[labelName := value]}
      {
        var from :| from in choices && x == from[labelName := value];
        assert from != m ==> from in choices - {m};
      }
      SmallerSet(WithLabel(choices, labelName, value), rest + {m[labelName := value]});
    }
  }

  lemma {:induction false} ExtendedSize(choices: set<map<string, string>>, labelName: string, values: seq<string>)
    ensures |Extended(choices, labelName, values)| <= |choices| * |values|
  {
    if values != [] {
      ExtendedSize(choices, labelName, values[1..]);
      WithLabelSize(choices, labelName, values[0]);
      assert |choices| * |values| == |choices| * |values[1..]| + |choices|;
    }
  }

  lemma {:induction false} ExtendedContains(
      choices: set<map<string, string>>, labelName: string, values: seq<string>, m: map<string, string>, v: string)
    requires m in choices && v in values
    ensures m[labelName := v] in Extended(choices, labelName, values)
  {
    if v != values[0] {
      ExtendedContains(choices, labelName, values[1..], m, v);
    }
  }

  lemma {:induction false} ChoicesSize(bounded: map<string, seq<string>>, labels: seq<string>)
    ensures |Choices(bounded, labels)| <= Product(bounded, labels)
  {
    if labels != [] {
      var values := if labels[0] in bounded then bounded[labels[0]] else [];
      ChoicesSize(bounded, labels[1..]);
      ExtendedSize(Choices(bounded, labels[1..]), labels[0], values);
      Monotone(|Choices(bounded, labels[1..])|, Product(bounded, labels[1..]), |values|);
    }
  }

  lemma Monotone(a: nat, b: nat, factor: nat)
    requires a <= b
    ensures a * factor <= b * factor
  {
  }

  lemma ChoiceExtends(bounded: map<string, seq<string>>, labels: seq<string>, rest: map<string, string>, v: string)
    requires labels != [] && labels[0] in bounded && v in bounded[labels[0]]
    requires rest in Choices(bounded, labels[1..])
    ensures rest[labels[0] := v] in Choices(bounded, labels)
  {
    ExtendedContains(Choices(bounded, labels[1..]), labels[0], bounded[labels[0]], rest, v);
  }

  lemma WithoutFirst(labels: seq<string>, m: map<string, string>)
    requires labels != [] && forall l :: l in m <==> l in labels
    requires forall i, j :: 0 <= i < j < |labels| ==> labels[i] != labels[j]
    ensures labels[0] in m
    ensures forall l :: l in m - {labels[0]} <==> l in labels[1..]
  {
    assert labels == [labels[0]] + labels[1..];
    assert labels[0] in labels;
  }

  lemma {:induction false} EveryChoiceCounts(
      bounded: map<string, seq<string>>, labels: seq<string>, m: map<string, string>)
    requires forall l :: l in m <==> l in labels
    requires forall l :: l in m ==> l in bounded && m[l] in bounded[l]
    requires forall i, j :: 0 <= i < j < |labels| ==> labels[i] != labels[j]
    ensures m in Choices(bounded, labels)
  {
    if labels == [] {
      assert m == map[];
    } else {
      hide Choices;
      var rest := m - {labels[0]};
      WithoutFirst(labels, m);
      EveryChoiceCounts(bounded, labels[1..], rest);
      ChoiceExtends(bounded, labels, rest, m[labels[0]]);
      assert m == rest[labels[0] := m[labels[0]]];
    }
  }

  function SeriesBound(bounded: map<string, seq<string>>, definitions: seq<Definition>): nat {
    if definitions == [] then 0
    else Product(bounded, definitions[0].labels) + SeriesBound(bounded, definitions[1..])
  }

  ghost function KeysOf(name: string, choices: set<map<string, string>>): set<string> {
    set m | m in choices :: KeyOf(name, m)
  }

  ghost function AllKeys(bounded: map<string, seq<string>>, definitions: seq<Definition>): set<string> {
    if definitions == [] then {}
    else
      KeysOf(definitions[0].name, Choices(bounded, definitions[0].labels)) + AllKeys(bounded, definitions[1..])
  }

  lemma {:induction false} KeysOfSize(name: string, choices: set<map<string, string>>)
    ensures |KeysOf(name, choices)| <= |choices|
  {
    if choices != {} {
      var m :| m in choices;
      KeysOfSize(name, choices - {m});
      assert KeysOf(name, choices) == KeysOf(name, choices - {m}) + {KeyOf(name, m)};
    }
  }

  lemma {:induction false} AllKeysSize(bounded: map<string, seq<string>>, definitions: seq<Definition>)
    ensures |AllKeys(bounded, definitions)| <= SeriesBound(bounded, definitions)
  {
    if definitions != [] {
      AllKeysSize(bounded, definitions[1..]);
      ChoicesSize(bounded, definitions[0].labels);
      KeysOfSize(definitions[0].name, Choices(bounded, definitions[0].labels));
    }
  }

  lemma {:induction false} KeyIsListed(t: Tables, definitions: seq<Definition>, e: Entry)
    requires ProperTables(t) && ProperEntry(t, e) && t.definitions[e.name] in definitions
    ensures KeyOf(e.name, e.labels) in AllKeys(t.bounded, definitions)
  {
    if t.definitions[e.name] == definitions[0] {
      EveryChoiceCounts(t.bounded, definitions[0].labels, e.labels);
    } else {
      KeyIsListed(t, definitions[1..], e);
    }
  }

  lemma {:induction false} ReplayedKeysAreListed(t: Tables, definitions: seq<Definition>, log: seq<Entry>)
    requires ProperTables(t) && ProperLog(t, log) && forall n :: n in t.definitions ==> t.definitions[n] in definitions
    ensures Replay(t, log).Keys <= AllKeys(t.bounded, definitions)
  {
    if log != [] {
      ReplayedKeysAreListed(t, definitions, log[..|log| - 1]);
      KeyIsListed(t, definitions, log[|log| - 1]);
    }
  }

  // However many calls are made, the series stay below a number fixed by the tables.
  lemma SeriesStayBounded(t: Tables, definitions: seq<Definition>, log: seq<Entry>)
    requires ProperTables(t) && ProperLog(t, log) && forall n :: n in t.definitions ==> t.definitions[n] in definitions
    ensures |Replay(t, log)| <= SeriesBound(t.bounded, definitions)
  {
    ReplayedKeysAreListed(t, definitions, log);
    AllKeysSize(t.bounded, definitions);
    SmallerSet(Replay(t, log).Keys, AllKeys(t.bounded, definitions));
    assert |Replay(t, log)| == |Replay(t, log).Keys|;
  }

  // A listed value stands for itself once trimmed. Of the others an error code is OTHER and a status
  // UNKNOWN, and any other label refuses it.
  lemma ValueStandsFor(t: Tables, trim: string -> string, labelName: string, raw: string)
    requires labelName in t.bounded
    ensures var listed := exists i :: 0 <= i < |t.bounded[labelName]| && t.bounded[labelName][i] == trim(raw);
      && (listed ==> NormalValue(t, trim, labelName, raw) == Some(trim(raw)))
      && (!listed && labelName == "error_code" ==> NormalValue(t, trim, labelName, raw) == Some("OTHER"))
      && (!listed && labelName == "status" ==> NormalValue(t, trim, labelName, raw) == Some("UNKNOWN"))
      && (NormalValue(t, trim, labelName, raw) == None <==>
        !listed && labelName != "error_code" && labelName != "status")
  {
  }
}
