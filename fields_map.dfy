/** FieldsMap: the ordered list of fields of one structure array of a pass
    (headerFields, primaryFields, ...), keyed by each field's `key`. A field is
    stored without its key, as the rest of the object it was given as. */
module FieldsMaps {
  import opened JsValues
  import opened OrderedMaps
  import opened W3CDate

  /** A field's properties other than `key`. */
  type Record = map<string, Value>

  /** The key and the data `add` stores for a field, or the error it throws:
      the field must have a string `key` and a `value` property; with a
      `dateStyle` the value must be, or convert to, a valid Date, which is
      what gets stored. */
  function AddEntry(field: Value, host: Host): (r: Result<(string, Record)>)
    ensures r.Err? ==> r.error.kind == TypeError
    ensures r.Ok? <==>
      && field.Obj? && "key" in field.props && field.props["key"].Str? && "value" in field.props
      && ("dateStyle" in field.props ==>
            IsValidDate(if field.props["value"].DateV? then field.props["value"].d else host.dateOf(field.props["value"])))
    ensures r.Ok? ==> r.value.0 == field.props["key"].s && "key" !in r.value.1 && "value" in r.value.1
    ensures r.Ok? ==> r.value.1.Keys == field.props.Keys - {"key"}
    ensures r.Ok? && "dateStyle" in field.props ==> r.value.1["value"].DateV? && IsValidDate(r.value.1["value"].d)
    ensures r.Ok? && "dateStyle" !in field.props ==> forall p :: p in r.value.1 ==> r.value.1[p] == field.props[p]
  {
    var key := if field.Obj? && "key" in field.props then field.props["key"] else Undefined;
    if !key.Str? then Err(Exception(TypeError, "key"))
    else
      var data := field.props - {"key"};
      if "value" !in data then Err(Exception(TypeError, "value"))
      else if "dateStyle" in data then
        var date := if data["value"].DateV? then data["value"].d else host.dateOf(data["value"]);
        if !IsValidDate(date) then Err(Exception(TypeError, "value"))
        else Ok((key.s, data["value" := DateV(date)]))
      else Ok((key.s, data))
  }

  /** The record `add` stores is the field without its key; with a
      `dateStyle`, its value is replaced by the Date it converts to. */
  lemma AddEntryRecord(field: Value, host: Host)
    requires AddEntry(field, host).Ok?
    ensures "dateStyle" in field.props ==>
              var v := field.props["value"];
              AddEntry(field, host).value.1 == (field.props - {"key"})["value" := DateV(if v.DateV? then v.d else host.dateOf(v))]
    ensures "dateStyle" !in field.props ==> AddEntry(field, host).value.1 == field.props - {"key"}
  {
  }

  /** The new record `setValue` stores: the existing one with its value
      replaced, or a record holding only the value. */
  function WithValue(existing: Option<Record>, value: string): (r: Record)
    ensures "value" in r && r["value"] == Str(value)
    ensures existing.Some? ==> r.Keys == existing.value.Keys + {"value"}
    ensures existing.Some? ==> forall p :: p in existing.value && p != "value" ==> r[p] == existing.value[p]
    ensures existing.None? ==> r.Keys == {"value"}
  {
    match existing
    case None => map["value" := Str(value)]
    case Some(rec) => rec["value" := Str(value)]
  }

  /** The named options of setDateTime. */
  datatype DateTimeOptions = DateTimeOptions(dateStyle: Value, ignoresTimeZone: Value, isRelative: Value,
                                             timeStyle: Value, changeMessage: Value)

  /** Destructuring the options argument: undefined stands for `{}`, null
      cannot be destructured, any other value gives its own properties. */
  function ReadOptions(options: Value): (r: Result<DateTimeOptions>)
    ensures r.Err? <==> options.Null?
    ensures options.Undefined? ==> r == Ok(DateTimeOptions(Undefined, Undefined, Undefined, Undefined, Undefined))
  {
    if options.Null? then Err(Exception(TypeError, "options"))
    else
      var get := (name: string) => if options.Obj? && name in options.props then options.props[name] else Undefined;
      Ok(DateTimeOptions(get("dateStyle"), get("ignoresTimeZone"), get("isRelative"), get("timeStyle"), get("changeMessage")))
  }

  /** The record setDateTime stores, or its error: the key and the label
      must be strings, the date a Date (valid or not), and a date style and a
      time style must come together or not at all. */
  function DateTimeRecord(key: Value, caption: Value, date: Value, options: Value): (r: Result<(string, Record)>)
    ensures r.Ok? <==>
      && !options.Null? && key.Str? && caption.Str? && date.DateV?
      && (Truthy(ReadOptions(options).value.dateStyle) <==> Truthy(ReadOptions(options).value.timeStyle))
    ensures r.Err? && !options.Null? && key.Str? && caption.Str? && date.DateV? ==> r.error.kind == ReferenceError
    ensures r.Err? && !(!options.Null? && key.Str? && caption.Str? && date.DateV?) ==> r.error.kind == TypeError
    ensures r.Ok? ==> r.value.0 == key.s && "key" !in r.value.1
    ensures r.Ok? ==> "value" in r.value.1 && r.value.1["value"] == date && "label" in r.value.1 && r.value.1["label"] == caption
    ensures r.Ok? ==> r.value.1.Keys == {"label", "value", "changeMessage", "dateStyle", "ignoresTimeZone", "isRelative", "timeStyle"}
    ensures r.Ok? ==>
              var o := ReadOptions(options).value;
              && r.value.1["changeMessage"] == o.changeMessage
              && r.value.1["dateStyle"] == o.dateStyle
              && r.value.1["ignoresTimeZone"] == o.ignoresTimeZone
              && r.value.1["isRelative"] == o.isRelative
              && r.value.1["timeStyle"] == o.timeStyle
  {
    match ReadOptions(options)
    case Err(e) => Err(e)
    case Ok(o) =>
      if !key.Str? then Err(Exception(TypeError, "key"))
      else if !caption.Str? then Err(Exception(TypeError, "label"))
      else if !date.DateV? then Err(Exception(TypeError, "date"))
      else if Truthy(o.dateStyle) != Truthy(o.timeStyle) then Err(Exception(ReferenceError, "timeStyle"))
      else Ok((key.s, map[
        "label" := caption,
        "value" := date,
        "changeMessage" := o.changeMessage,
        "dateStyle" := o.dateStyle,
        "ignoresTimeZone" := o.ignoresTimeZone,
        "isRelative" := o.isRelative,
        "timeStyle" := o.timeStyle]))
  }

  /** What toJSON leaves in a record: a Date value becomes its W3C string. */
  function RewriteRecord(rec: Record, host: Host): (r: Record)
    ensures r.Keys == rec.Keys
    ensures "value" in r ==> !r["value"].DateV?
    ensures forall p :: p in rec && p != "value" ==> r[p] == rec[p]
  {
    if "value" in rec && rec["value"].DateV? then rec["value" := Str(EncodeDate(rec["value"].d, host))] else rec
  }

  /** The entry toJSON emits: the key put back as a property. */
  function JsonEntry(key: string, rec: Record): Value {
    Obj(rec["key" := Str(key)])
  }

  /** The entries toJSON emits for keys in this order. */
  function JsonEntries(keys: seq<string>, values: map<string, Record>): (es: seq<Value>)
    requires forall k :: k in keys ==> k in values
    ensures |es| == |keys|
    ensures forall i :: 0 <= i < |keys| ==> es[i] == JsonEntry(keys[i], values[keys[i]])
  {
    if keys == [] then [] else [JsonEntry(keys[0], values[keys[0]])] + JsonEntries(keys[1..], values)
  }

  /** Every record after toJSON's rewrite. */
  function RewriteAll(values: map<string, Record>, host: Host): (r: map<string, Record>)
    ensures r.Keys == values.Keys
    ensures forall k :: k in values ==> r[k].Keys == values[k].Keys
  {
    map k | k in values :: RewriteRecord(values[k], host)
  }

  /** What JSON.stringify makes of a FieldsMap through its toJSON: nothing
      for an empty map, otherwise its entries in order, each with its key put
      back and a Date value written as a W3C string. */
  function ListJson(m: OrderedMap<Record>, host: Host): (r: Option<Value>)
    requires m.Valid()
    ensures r.None? <==> m.keys == []
    ensures r.Some? ==> r.value.Arr? && |r.value.elems| == |m.keys|
    ensures r.Some? ==> forall i :: 0 <= i < |m.keys| ==>
              r.value.elems[i] == JsonEntry(m.keys[i], RewriteRecord(m.values[m.keys[i]], host))
  {
    if m.keys == [] then None else Some(Arr(JsonEntries(m.keys, RewriteAll(m.values, host))))
  }

  /** Rewriting a record twice is rewriting it once. */
  lemma RewriteIdempotent(rec: Record, host: Host)
    ensures RewriteRecord(RewriteRecord(rec, host), host) == RewriteRecord(rec, host)
  {
  }

  /** The loop of toJSON over the stored entries in order: each Date value
      is replaced by its W3C string, and each entry is emitted with its key. */
  method RewriteEntries(keys: seq<string>, start: map<string, Record>, host: Host)
    returns (values: map<string, Record>, out: seq<Value>)
    requires forall i, j :: 0 <= i < j < |keys| ==> keys[i] != keys[j]
    requires forall k :: k in start <==> k in keys
    ensures values == RewriteAll(start, host)
    ensures out == JsonEntries(keys, values)
  {
    values := start;
    out := [];
    for i := 0 to |keys|
      invariant values.Keys == start.Keys
      invariant forall j :: 0 <= j < i ==> values[keys[j]] == RewriteRecord(start[keys[j]], host)
      invariant forall j :: i <= j < |keys| ==> values[keys[j]] == start[keys[j]]
      invariant |out| == i
      invariant forall j :: 0 <= j < i ==> out[j] == JsonEntry(keys[j], values[keys[j]])
    {
      var k := keys[i];
      assert forall j :: 0 <= j < |keys| && j != i ==> keys[j] != k;
      var data := values[k];
      if "value" in data && data["value"].DateV? {
        var s := GetW3CDateString(data["value"], host).value;
        data := data["value" := Str(s)];
        values := values[k := data];
      }
      assert data == RewriteRecord(start[k], host) == values[k];
      out := out + [JsonEntry(k, data)];
    }
    RewrittenAll(keys, start, values, host);
    EntriesInOrder(keys, values, out);
  }

  lemma RewrittenAll(keys: seq<string>, start: map<string, Record>, values: map<string, Record>, host: Host)
    requires forall k :: k in start <==> k in keys
    requires values.Keys == start.Keys
    requires forall j :: 0 <= j < |keys| ==> values[keys[j]] == RewriteRecord(start[keys[j]], host)
    ensures values == RewriteAll(start, host)
  {
    forall k | k in start ensures values[k] == RewriteRecord(start[k], host) {
      var j :| 0 <= j < |keys| && keys[j] == k;
    }
  }

  lemma EntriesInOrder(keys: seq<string>, values: map<string, Record>, out: seq<Value>)
    requires forall k :: k in keys ==> k in values
    requires |out| == |keys|
    requires forall j :: 0 <= j < |keys| ==> out[j] == JsonEntry(keys[j], values[keys[j]])
    ensures out == JsonEntries(keys, values)
  {
  }

  /** The map is well formed and no stored record has its own `key`. */
  ghost predicate WellFormed(m: OrderedMap<Record>) {
    m.Valid() && KeyFree(m)
  }

  /** No stored record has its own `key` property. */
  ghost predicate KeyFree(m: OrderedMap<Record>) {
    forall k :: k in m.values ==> "key" !in m.values[k]
  }

  /** The map after `add`, or the error it throws: the field is set under
      its key, appended when the key is new and replaced in place otherwise. */
  function AddStep(m: OrderedMap<Record>, field: Value, host: Host): (r: Result<OrderedMap<Record>>)
    requires m.Valid()
    ensures r.Ok? <==> AddEntry(field, host).Ok?
    ensures r.Err? ==> r.error == AddEntry(field, host).error && r.error.kind == TypeError
    ensures r.Ok? ==> r.value.Valid() && (KeyFree(m) ==> KeyFree(r.value))
    ensures r.Ok? ==>
      var e := AddEntry(field, host).value;
      r.value.values == m.values[e.0 := e.1] && r.value.keys == (if e.0 in m.values then m.keys else m.keys + [e.0])
  {
    match AddEntry(field, host)
    case Err(e) => Err(e)
    case Ok(e) => Ok(m.Set(e.0, e.1))
  }

  /** Adding the fields of a list one after another, as the constructor of a
      pass structure does; the first field that add rejects stops it. */
  function AddAll(m: OrderedMap<Record>, fields: seq<Value>, host: Host): (r: Result<OrderedMap<Record>>)
    requires m.Valid()
    ensures r.Ok? ==> r.value.Valid() && m.keys <= r.value.keys
    ensures r.Ok? && KeyFree(m) ==> KeyFree(r.value)
    ensures r.Err? ==> r.error.kind == TypeError
    decreases |fields|
  {
    if fields == [] then Ok(m)
    else match AddStep(m, fields[0], host)
      case Err(e) => Err(e)
      case Ok(next) => AddAll(next, fields[1..], host)
  }

  /** The fold succeeds exactly when add accepts every field of the list. */
  lemma {:induction false} AddAllAccepts(m: OrderedMap<Record>, fields: seq<Value>, host: Host)
    requires m.Valid()
    ensures AddAll(m, fields, host).Ok? <==> forall i :: 0 <= i < |fields| ==> AddEntry(fields[i], host).Ok?
    decreases |fields|
  {
    if fields != [] && AddEntry(fields[0], host).Ok? {
      var e := AddEntry(fields[0], host).value;
      AddAllAccepts(m.Set(e.0, e.1), fields[1..], host);
      assert forall i :: 0 < i < |fields| ==> fields[i] == fields[1..][i - 1];
    }
  }

  /** The fold one field further, the way a loop extends it. */
  lemma {:induction false} AddAllSnoc(m: OrderedMap<Record>, fields: seq<Value>, x: Value, host: Host)
    requires m.Valid() && AddAll(m, fields, host).Ok?
    ensures AddAll(m, fields + [x], host) == AddStep(AddAll(m, fields, host).value, x, host)
    decreases |fields|
  {
    if fields != [] {
      var e := AddEntry(fields[0], host).value;
      assert (fields + [x])[1..] == fields[1..] + [x];
      AddAllSnoc(m.Set(e.0, e.1), fields[1..], x, host);
    }
  }

  /** A field that add rejects stops the fold: the fields after it change
      nothing. */
  lemma {:induction false} AddAllStops(m: OrderedMap<Record>, fields: seq<Value>, n: nat, host: Host)
    requires m.Valid() && n <= |fields| && AddAll(m, fields[..n], host).Err?
    ensures AddAll(m, fields, host) == AddAll(m, fields[..n], host)
    decreases n
  {
    assert n > 0;
    match AddStep(m, fields[0], host)
    case Err(_) =>
    case Ok(next) =>
      assert fields[..n][1..] == fields[1..][..n - 1];
      AddAllStops(next, fields[1..], n - 1, host);
  }

  /** The entries a list of fields stores, when add accepts all of them. */
  function EntriesOf(fields: seq<Value>, host: Host): (es: seq<(string, Record)>)
    requires forall i :: 0 <= i < |fields| ==> AddEntry(fields[i], host).Ok?
    ensures |es| == |fields|
    ensures forall i :: 0 <= i < |fields| ==> es[i] == AddEntry(fields[i], host).value
  {
    seq(|fields|, i requires 0 <= i < |fields| && AddEntry(fields[i], host).Ok? => AddEntry(fields[i], host).value)
  }

  /** Adding a list of fields is setting their entries in order, so the keys
      and last-one-wins facts about `SetAll` hold for the fields of a pass. */
  lemma {:induction false} AddAllIsSetAll(m: OrderedMap<Record>, fields: seq<Value>, host: Host)
    requires m.Valid()
    requires forall i :: 0 <= i < |fields| ==> AddEntry(fields[i], host).Ok?
    ensures AddAll(m, fields, host) == Ok(SetAll(m, EntriesOf(fields, host)))
    decreases |fields|
  {
    if fields != [] {
      var e := AddEntry(fields[0], host).value;
      assert forall i :: 0 <= i < |fields[1..]| ==> fields[1..][i] == fields[i + 1];
      assert EntriesOf(fields, host)[1..] == EntriesOf(fields[1..], host);
      AddAllIsSetAll(m.Set(e.0, e.1), fields[1..], host);
    }
  }

  /** Replacing every value of an ordered map keeps it well formed. */
  lemma SameKeysValid(m: OrderedMap<Record>, values: map<string, Record>)
    requires m.Valid() && values.Keys == m.values.Keys
    ensures OrderedMap(m.keys, values).Valid()
  {
  }

  class FieldsMap {
    var contents: OrderedMap<Record>

    ghost predicate Valid()
      reads this
    {
      WellFormed(contents)
    }

    constructor ()
      ensures Valid() && contents == Empty()
    {
      contents := Empty();
    }

    /** `add`: on success the field is set under its key, appended when the
        key is new and replaced in place otherwise. */
    method Add(field: Value, host: Host) returns (r: Outcome)
      requires Valid()
      modifies this
      ensures Valid()
      ensures AddStep(old(contents), field, host).Err? ==>
        r == Fail(AddStep(old(contents), field, host).error) && contents == old(contents)
      ensures AddStep(old(contents), field, host).Ok? ==>
        r == Done && contents == AddStep(old(contents), field, host).value
    {
      var e := AddEntry(field, host);
      if e.Err? {
        return Fail(e.error);
      }
      contents := contents.Set(e.value.0, e.value.1);
      return Done;
    }

    /** `setValue`: string key and value only; the other properties of an
        existing field are kept. */
    method SetValue(key: Value, value: Value) returns (r: Outcome)
      requires Valid()
      modifies this
      ensures Valid()
      ensures !(key.Str? && value.Str?) ==> r.Fail? && r.error.kind == TypeError && contents == old(contents)
      ensures key.Str? && value.Str? ==>
        var existing := if key.s in old(contents).values then Some(old(contents).values[key.s]) else None;
        r == Done && contents == old(contents).Set(key.s, WithValue(existing, value.s))
    {
      if !key.Str? {
        return Fail(Exception(TypeError, "key"));
      }
      if !value.Str? {
        return Fail(Exception(TypeError, "value"));
      }
      var existing := if key.s in contents.values then Some(contents.values[key.s]) else None;
      contents := contents.Set(key.s, WithValue(existing, value.s));
      return Done;
    }

    /** `setDateTime`: the field is replaced by a new record holding the
        label, the date and all five options. */
    method SetDateTime(key: Value, caption: Value, date: Value, options: Value) returns (r: Outcome)
      requires Valid()
      modifies this
      ensures Valid()
      ensures DateTimeRecord(key, caption, date, options).Err? ==>
        r == Fail(DateTimeRecord(key, caption, date, options).error) && contents == old(contents)
      ensures DateTimeRecord(key, caption, date, options).Ok? ==>
        var e := DateTimeRecord(key, caption, date, options).value;
        r == Done && contents == old(contents).Set(e.0, e.1)
    {
      var e := DateTimeRecord(key, caption, date, options);
      if e.Err? {
        return Fail(e.error);
      }
      contents := contents.Set(e.value.0, e.value.1);
      return Done;
    }

    /** `toJSON`: undefined when empty; otherwise the entries in order with
        their keys put back, after every stored Date value has been replaced,
        in the map itself, by its W3C string. */
    method ToJSON(host: Host) returns (r: Value)
      requires Valid()
      modifies this
      ensures Valid()
      ensures old(contents).keys == [] ==> r == Undefined && contents == old(contents)
      ensures contents.keys == old(contents).keys
      ensures contents.values == RewriteAll(old(contents).values, host)
      ensures old(contents).keys != [] ==> r == Arr(JsonEntries(contents.keys, contents.values))
      ensures r == if old(contents).keys == [] then Undefined else ListJson(old(contents), host).value
      ensures contents == Serialized(old(contents), host)
    {
      if |contents.keys| == 0 {
        return Undefined;
      }
      var values, out := RewriteEntries(contents.keys, contents.values, host);
      assert forall k :: k in values ==> "key" !in values[k];
      SameKeysValid(contents, values);
      contents := OrderedMap(contents.keys, values);
      return Arr(out);
    }
  }

  /** toJSON after toJSON: the stored records no longer hold a Date, so a
      second call rewrites nothing. */
  lemma ToJsonStable(values: map<string, Record>, host: Host)
    ensures RewriteAll(RewriteAll(values, host), host) == RewriteAll(values, host)
  {
    var once := RewriteAll(values, host);
    forall k | k in once ensures RewriteRecord(once[k], host) == once[k] {
      RewriteIdempotent(values[k], host);
    }
  }

  /** The map toJSON leaves behind: the same keys in the same order, and no
      stored value is a Date any more. */
  function Serialized(m: OrderedMap<Record>, host: Host): (r: OrderedMap<Record>)
    requires m.Valid()
    ensures r.Valid() && r.keys == m.keys
    ensures KeyFree(m) ==> KeyFree(r)
    ensures forall k :: k in r.values && "value" in r.values[k] ==> !r.values[k]["value"].DateV?
  {
    SameKeysValid(m, RewriteAll(m.values, host));
    OrderedMap(m.keys, RewriteAll(m.values, host))
  }

  /** What toJSON leaves behind gives the same JSON again, and a second
      toJSON changes nothing more. */
  lemma SerializedJsonStable(m: OrderedMap<Record>, host: Host)
    requires m.Valid()
    ensures ListJson(Serialized(m, host), host) == ListJson(m, host)
    ensures Serialized(Serialized(m, host), host) == Serialized(m, host)
  {
    ToJsonStable(m.values, host);
  }

  /** What add stores comes back out of toJSON as the field it was given,
      unless the value was a Date, which comes back as its W3C string. */
  lemma AddThenJson(field: Value, host: Host)
    requires AddEntry(field, host).Ok?
    requires "dateStyle" !in field.props
    ensures var e := AddEntry(field, host).value;
            !field.props["value"].DateV? ==> JsonEntry(e.0, RewriteRecord(e.1, host)) == field
    ensures var e := AddEntry(field, host).value;
            field.props["value"].DateV? ==>
              JsonEntry(e.0, RewriteRecord(e.1, host)) == Obj(field.props["value" := Str(EncodeDate(field.props["value"].d, host))])
  {
    var e := AddEntry(field, host).value;
    var back := e.1["key" := field.props["key"]];
    assert back == field.props;
  }
}
