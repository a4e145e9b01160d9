/** PassStructure: the style of a pass (boardingPass, coupon, eventTicket,
    storeCard or generic), its transit type, its NFC object and the five
    field lists of the current style. At most one style is present at any
    time; switching style drops the data of the previous one. */
module Structure {
  import opened JsValues
  import opened Constants
  import opened OrderedMaps
  import opened W3CDate
  import opened FieldsMaps

  /** The NFC object of a storeCard: a fresh empty one, or one built from the
      data handed to the constructor. Its fields are not part of this model. */
  datatype Nfc = EmptyNfc | NfcFrom(data: Value)

  /** The object kept under a style key, apart from its field lists: its
      transit type (boarding passes only). */
  datatype StyleData = StyleData(transitType: Option<Value>)

  const NO_DATA := StyleData(None)

  /** The state of the style part, as pass.json is made from it. */
  datatype Parts = Parts(styles: map<Style, StyleData>, lists: map<StructureField, OrderedMap<Record>>,
                         nfc: Option<Nfc>)

  ghost predicate ListsValid(lists: map<StructureField, OrderedMap<Record>>) {
    forall f :: f in lists ==> lists[f].Valid()
  }

  // ------------------------------------------------------------ pass.json

  /** The structure field a property name stands for, if any. */
  function FieldNamed(k: string): (r: Option<StructureField>)
    ensures r.Some? ==> StructureFieldName(r.value) == k
  {
    if k == "auxiliaryFields" then Some(AuxiliaryFields)
    else if k == "backFields" then Some(BackFields)
    else if k == "headerFields" then Some(HeaderFields)
    else if k == "primaryFields" then Some(PrimaryFields)
    else if k == "secondaryFields" then Some(SecondaryFields)
    else None
  }

  lemma FieldNamedNames()
    ensures forall f :: FieldNamed(StructureFieldName(f)) == Some(f)
  {
    forall f ensures FieldNamed(StructureFieldName(f)) == Some(f) {
      match f
      case AuxiliaryFields =>
      case BackFields =>
      case HeaderFields =>
      case PrimaryFields =>
      case SecondaryFields =>
    }
  }

  /** Field names start with distinct letters, none of them a `t`. */
  lemma FieldNameFirst(f: StructureField)
    ensures |StructureFieldName(f)| > 1 && StructureFieldName(f)[0] == FieldLetter(f)
    ensures StructureFieldName(f) != "transitType"
  {
    match f
    case AuxiliaryFields => assert StructureFieldName(f)[0] == 'a';
    case BackFields => assert StructureFieldName(f)[0] == 'b';
    case HeaderFields => assert StructureFieldName(f)[0] == 'h';
    case PrimaryFields => assert StructureFieldName(f)[0] == 'p';
    case SecondaryFields => assert StructureFieldName(f)[0] == 's';
  }

  function FieldLetter(f: StructureField): char {
    match f
    case AuxiliaryFields => 'a'
    case BackFields => 'b'
    case HeaderFields => 'h'
    case PrimaryFields => 'p'
    case SecondaryFields => 's'
  }

  lemma StructureFieldNameInjective(f: StructureField, g: StructureField)
    ensures StructureFieldName(f) == StructureFieldName(g) ==> f == g
  {
    FieldNameFirst(f);
    FieldNameFirst(g);
  }

  /** Whether the list of field `f` is stored and not empty. */
  predicate ListShown(lists: map<StructureField, OrderedMap<Record>>, f: StructureField) {
    f in lists && lists[f].keys != []
  }

  /** The list of field `f` under its name, when it is stored and not empty;
      an empty FieldsMap's toJSON gives undefined, which JSON.stringify leaves
      out. */
  function ListEntry(lists: map<StructureField, OrderedMap<Record>>, f: StructureField, host: Host)
    : (r: map<string, Value>)
    requires ListsValid(lists)
    ensures r.Keys == if ListShown(lists, f) then {StructureFieldName(f)} else {}
  {
    if ListShown(lists, f) then map[StructureFieldName(f) := ListJson(lists[f], host).value] else map[]
  }

  /** The properties of the style object as JSON.stringify writes them: the
      five field lists, then the transit type when there is one. */
  function StyleJson(data: StyleData, lists: map<StructureField, OrderedMap<Record>>, host: Host): (r: map<string, Value>)
    requires ListsValid(lists)
    ensures "transitType" in r <==> data.transitType.Some?
    ensures data.transitType.Some? ==> r["transitType"] == data.transitType.value
  {
    var shown := ShownLists(lists, host);
    if data.transitType.Some? then shown["transitType" := data.transitType.value] else shown
  }

  /** The five field lists of the style object, in STRUCTURE_FIELDS order. */
  function ShownLists(lists: map<StructureField, OrderedMap<Record>>, host: Host): (r: map<string, Value>)
    requires ListsValid(lists)
    ensures "transitType" !in r
  {
    forall f ensures "transitType" !in ListEntry(lists, f, host) {
      FieldNameFirst(f);
    }
    ListEntry(lists, AuxiliaryFields, host) + ListEntry(lists, BackFields, host)
    + ListEntry(lists, HeaderFields, host) + ListEntry(lists, PrimaryFields, host)
    + ListEntry(lists, SecondaryFields, host)
  }

  /** Under the name of field `f` the shown lists hold that field's entry. */
  lemma ShownListsEntry(lists: map<StructureField, OrderedMap<Record>>, host: Host, f: StructureField)
    requires ListsValid(lists)
    ensures var k := StructureFieldName(f);
      && (k in ShownLists(lists, host) <==> k in ListEntry(lists, f, host))
      && (k in ShownLists(lists, host) ==> ShownLists(lists, host)[k] == ListEntry(lists, f, host)[k])
  {
    var k := StructureFieldName(f);
    forall g | g != f ensures k !in ListEntry(lists, g, host) {
      StructureFieldNameInjective(f, g);
    }
  }

  /** The style object holds the list of field `f` exactly when it is stored
      and not empty, as its toJSON writes it. */
  lemma StyleJsonList(data: StyleData, lists: map<StructureField, OrderedMap<Record>>, host: Host, f: StructureField)
    requires ListsValid(lists)
    ensures StructureFieldName(f) in StyleJson(data, lists, host) <==> ListShown(lists, f)
    ensures ListShown(lists, f) ==> StyleJson(data, lists, host)[StructureFieldName(f)] == ListJson(lists[f], host).value
  {
    FieldNameFirst(f);
    ShownListsEntry(lists, host, f);
    var shown := ShownLists(lists, host);
    assert StyleJson(data, lists, host) == if data.transitType.Some? then shown["transitType" := data.transitType.value] else shown;
  }

  /** The entries the style part adds to pass.json: the style object under the
      name of the style, and the NFC object under `nfc` while there is one, as
      `nfcJson` writes it. */
  function StructureJson(parts: Parts, host: Host, nfcJson: Nfc -> Value): (r: map<string, Value>)
    requires ListsValid(parts.lists)
    ensures "nfc" in r <==> parts.nfc.Some?
    ensures parts.nfc.Some? ==> r["nfc"] == nfcJson(parts.nfc.value)
    ensures StyleIn(parts.styles).None? ==> r.Keys <= {"nfc"}
    ensures StyleIn(parts.styles).Some? ==>
              var s := StyleIn(parts.styles).value;
              r.Keys <= {StyleName(s), "nfc"} && StyleName(s) in r
              && r[StyleName(s)] == Obj(StyleJson(parts.styles[s], parts.lists, host))
  {
    var nfc := if parts.nfc.Some? then map["nfc" := nfcJson(parts.nfc.value)] else map[];
    match StyleIn(parts.styles)
    case None => nfc
    case Some(s) =>
      StyleNameFirst(s);
      map[StyleName(s) := Obj(StyleJson(parts.styles[s], parts.lists, host))] + nfc
  }

  /** The field lists after JSON.stringify has called toJSON on each. */
  function SerializedLists(lists: map<StructureField, OrderedMap<Record>>, host: Host)
    : (r: map<StructureField, OrderedMap<Record>>)
    requires ListsValid(lists)
    ensures r.Keys == lists.Keys && ListsValid(r)
    ensures forall f :: f in lists ==> r[f].keys == lists[f].keys
  {
    map f | f in lists :: Serialized(lists[f], host)
  }

  /** The rewrite JSON.stringify leaves in the field lists does not show in
      the next pass.json. */
  lemma SerializedStructureJson(parts: Parts, host: Host, nfcJson: Nfc -> Value)
    requires ListsValid(parts.lists)
    ensures StructureJson(parts.(lists := SerializedLists(parts.lists, host)), host, nfcJson)
            == StructureJson(parts, host, nfcJson)
  {
    SerializedListEntries(parts.lists, host);
    SameEntriesStructureJson(parts, SerializedLists(parts.lists, host), host, nfcJson);
  }

  /** Each list gives the same entry once serialized. */
  lemma SerializedListEntries(lists: map<StructureField, OrderedMap<Record>>, host: Host)
    requires ListsValid(lists)
    ensures forall f :: ListEntry(SerializedLists(lists, host), f, host) == ListEntry(lists, f, host)
  {
    forall f ensures ListEntry(SerializedLists(lists, host), f, host) == ListEntry(lists, f, host) {
      SerializedListEntry(lists, f, host);
    }
  }

  lemma SerializedListEntry(lists: map<StructureField, OrderedMap<Record>>, f: StructureField, host: Host)
    requires ListsValid(lists)
    ensures ListEntry(SerializedLists(lists, host), f, host) == ListEntry(lists, f, host)
  {
    if f in lists {
      SerializedJsonStable(lists[f], host);
    }
  }

  /** pass.json's style part depends on the lists only through their entries. */
  lemma SameEntriesStructureJson(parts: Parts, lists: map<StructureField, OrderedMap<Record>>, host: Host,
                                 nfcJson: Nfc -> Value)
    requires ListsValid(parts.lists) && ListsValid(lists)
    requires forall f :: ListEntry(lists, f, host) == ListEntry(parts.lists, f, host)
    ensures StructureJson(parts.(lists := lists), host, nfcJson) == StructureJson(parts, host, nfcJson)
  {
    if StyleIn(parts.styles).Some? {
      SameEntriesStyleJson(parts.styles[StyleIn(parts.styles).value], lists, parts.lists, host);
    }
  }

  /** The style object depends on the lists only through their entries. */
  lemma SameEntriesStyleJson(data: StyleData, a: map<StructureField, OrderedMap<Record>>,
                             b: map<StructureField, OrderedMap<Record>>, host: Host)
    requires ListsValid(a) && ListsValid(b)
    requires forall f :: ListEntry(a, f, host) == ListEntry(b, f, host)
    ensures StyleJson(data, a, host) == StyleJson(data, b, host)
  {
  }

  /** No style name starts like nfc, formatVersion or transitType. */
  lemma StyleNameFirst(s: Style)
    ensures StyleName(s)[0] !in {'n', 'f', 't'}
    ensures StyleName(s) != "nfc" && StyleName(s) != "formatVersion" && StyleName(s) != "transitType"
  {
    match s
    case BoardingPass => assert StyleName(s)[0] == 'b';
    case Coupon => assert StyleName(s)[0] == 'c';
    case EventTicket => assert StyleName(s)[0] == 'e';
    case StoreCard => assert StyleName(s)[0] == 's';
    case Generic => assert StyleName(s)[0] == 'g';
  }

  lemma StyleNameInjective(s: Style, t: Style)
    ensures StyleName(s) == StyleName(t) ==> s == t
  {
    if StyleName(s) == StyleName(t) {
      assert StyleOf(Str(StyleName(s))) == Some(s);
    }
  }

  /** The only style name among the keys is the name of the style held. */
  lemma StructureJsonStyle(parts: Parts, host: Host, nfcJson: Nfc -> Value, s: Style)
    requires ListsValid(parts.lists)
    ensures StyleName(s) in StructureJson(parts, host, nfcJson) <==> StyleIn(parts.styles) == Some(s)
  {
    StyleNameFirst(s);
    if StyleIn(parts.styles).Some? {
      StyleNameInjective(s, StyleIn(parts.styles).value);
    }
  }

  // ------------------------------------------------------------ the style

  /** The first style of `order` that is present. */
  function FirstIn(order: seq<Style>, present: set<Style>): (r: Option<Style>)
    ensures r.Some? ==> r.value in present && r.value in order
    ensures r.None? <==> forall s :: s in order ==> s !in present
  {
    if order == [] then None
    else if order[0] in present then Some(order[0])
    else
      assert forall s :: s in order ==> s == order[0] || s in order[1..];
      FirstIn(order[1..], present)
  }

  /** `get style`: the first of PASS_STYLES the structure holds, if any. */
  function StyleIn(styles: map<Style, StyleData>): (r: Option<Style>)
    ensures r.None? <==> styles == map[]
    ensures r.Some? ==> r.value in styles
  {
    PassStylesComplete();
    FirstIn(PASS_STYLES, styles.Keys)
  }

  /** With at most one style present, `style` names exactly that one. */
  lemma OnlyStyle(styles: map<Style, StyleData>, s: Style)
    requires |styles.Keys| <= 1 && s in styles
    ensures StyleIn(styles) == Some(s)
    ensures styles.Keys == {s}
  {
    var t := StyleIn(styles).value;
    if t != s {
      assert {s, t} <= styles.Keys;
      assert |{s, t}| == 2;
      SubsetSize({s, t}, styles.Keys);
      assert false;
    }
    if styles.Keys != {s} {
      var u :| u in styles.Keys && u != s;
      assert {s, u} <= styles.Keys;
      assert |{s, u}| == 2;
      SubsetSize({s, u}, styles.Keys);
      assert false;
    }
  }

  lemma SubsetSize<T>(a: set<T>, b: set<T>)
    requires a <= b
    ensures |a| <= |b|
  {
    assert b == a + (b - a);
  }

  /** The last style of `order` the constructor's argument names: the style the
      constructor ends with, since each one it meets replaces the previous. */
  function LastStyleIn(order: seq<Style>, fields: map<string, Value>): (r: Option<Style>)
    ensures r.Some? ==> StyleName(r.value) in fields && r.value in order
    ensures r.None? <==> forall s :: s in order ==> StyleName(s) !in fields
  {
    if order == [] then None
    else
      var last := order[|order| - 1];
      assert forall s :: s in order ==> s == last || s in order[..|order| - 1];
      if StyleName(last) in fields then Some(last)
      else LastStyleIn(order[..|order| - 1], fields)
  }

  /** One more style of PASS_STYLES: it is the last one named when the
      argument names it; the ones before it are all different from it. */
  lemma LastStyleStep(i: nat, fields: map<string, Value>)
    requires i < |PASS_STYLES|
    ensures LastStyleIn(PASS_STYLES[..i + 1], fields)
         == if StyleName(PASS_STYLES[i]) in fields then Some(PASS_STYLES[i]) else LastStyleIn(PASS_STYLES[..i], fields)
    ensures LastStyleIn(PASS_STYLES[..i], fields) != Some(PASS_STYLES[i])
  {
    assert PASS_STYLES[..i + 1][..i] == PASS_STYLES[..i];
    PassStylesComplete();
    assert PASS_STYLES[i] !in PASS_STYLES[..i];
  }

  // ----------------------------------------------------- the constructor

  /** `prop in structure` and, when the property holds an array, its
      elements: `in` throws on a value that is not an object; anything other
      than an array adds no field. A FieldsMap handed in stands here as the
      array of its entries with their keys put back. */
  function StructureMembers(structure: Value, f: StructureField): (r: Result<seq<Value>>)
    ensures r.Err? <==> structure.Undefined? || structure.Null? || structure.Bool? || structure.Num? || structure.Str?
    ensures r.Err? ==> r.error.kind == TypeError
    ensures r.Ok? && r.value != [] ==>
      structure.Obj? && StructureFieldName(f) in structure.props
      && structure.props[StructureFieldName(f)] == Arr(r.value)
  {
    match structure
    case Undefined => Err(Exception(TypeError, StructureFieldName(f)))
    case Null => Err(Exception(TypeError, StructureFieldName(f)))
    case Bool(_) => Err(Exception(TypeError, StructureFieldName(f)))
    case Num(_) => Err(Exception(TypeError, StructureFieldName(f)))
    case Str(_) => Err(Exception(TypeError, StructureFieldName(f)))
    case Obj(props) =>
      var name := StructureFieldName(f);
      if name in props && props[name].Arr? then Ok(props[name].elems) else Ok([])
    case _ => Ok([])
  }

  /** The constructor's argument has a truthy `boardingPass`. */
  predicate BoardingTruthy(fields: map<string, Value>) {
    "boardingPass" in fields && Truthy(fields["boardingPass"])
  }

  /** The transit type the constructor reads from the boardingPass data. */
  function TransitInput(fields: map<string, Value>): Value
    requires BoardingTruthy(fields)
  {
    GetProp(fields["boardingPass"], "transitType").value
  }

  /** `set style` on the state: the other styles are dropped (with the field
      lists when none is left); a falsy value stops there, an unknown one is
      a TypeError; a known one is added with empty data unless present, and a
      storeCard gets a new NFC object. */
  function StyleAssign(p: Parts, v: Value): (Parts, Outcome) {
    match StyleOf(v)
    case None => (Parts(map[], map[], p.nfc), if Truthy(v) then Fail(Exception(TypeError, "style")) else Done)
    case Some(s) =>
      var held := s in p.styles;
      (Parts(map[s := if held then p.styles[s] else NO_DATA], if held then p.lists else map[],
             if s == StoreCard then Some(EmptyNfc) else p.nfc), Done)
  }

  /** `set transitType` on the state: without a style a falsy value does
      nothing and any other first makes the pass a boarding pass; another
      style is a ReferenceError; then a falsy value clears the transit type,
      a known one is stored, and any other is a TypeError. */
  function TransitAssign(p: Parts, v: Value): (Parts, Outcome) {
    if p.styles == map[] && !Truthy(v) then (p, Done)
    else if p.styles != map[] && BoardingPass !in p.styles then (p, Fail(Exception(ReferenceError, "transitType")))
    else
      var data := if BoardingPass in p.styles then p.styles[BoardingPass] else NO_DATA;
      if !Truthy(v) then (p.(styles := map[BoardingPass := data.(transitType := None)]), Done)
      else if TransitOf(v).Some? then (p.(styles := map[BoardingPass := data.(transitType := Some(v))]), Done)
      else (p.(styles := map[BoardingPass := data]), Fail(Exception(TypeError, "transitType")))
  }

  /** The first part of one round of the constructor's loop, for a style `s`
      its argument names: `set style`, then the transit type when the
      argument has a truthy boardingPass (whatever `s` is), or else the NFC
      data of a storeCard. */
  function StartRound(p: Parts, s: Style, fields: map<string, Value>): (Parts, Outcome) {
    var q := StyleAssign(p, Str(StyleName(s))).0;
    if BoardingTruthy(fields) then TransitAssign(q, TransitInput(fields))
    else if StoreCard in q.styles && "nfc" in fields then (q.(nfc := Some(NfcFrom(fields["nfc"]))), Done)
    else (q, Done)
  }

  /** One round of the constructor's loop for a style `s` its argument
      names: the start of the round, then the lists of its five structure
      arrays; the first failure ends the round with its error. */
  function LoadRound(p: Parts, s: Style, fields: map<string, Value>, host: Host): (Parts, Outcome)
    requires StyleName(s) in fields
  {
    var (q, o) := StartRound(p, s, fields);
    if o.Fail? then (q, o)
    else match ListsFor(fields[StyleName(s)], STRUCTURE_FIELDS, host)
      case Err(e) => (q, Fail(e))
      case Ok(m) => (q.(lists := m), Done)
  }

  /** The state and outcome of the constructor's loop after the first `n`
      styles of PASS_STYLES: a style the argument does not name is skipped,
      and the first failing round stops the loop. */
  function LoadUpTo(fields: map<string, Value>, host: Host, n: nat): (r: (Parts, Outcome))
    requires n <= |PASS_STYLES|
    ensures r.1.Fail? ==> r.1.error.kind == TypeError || r.1.error.kind == ReferenceError
  {
    if n == 0 then (Parts(map[], map[], None), Done)
    else
      var (p, o) := LoadUpTo(fields, host, n - 1);
      var s := PASS_STYLES[n - 1];
      if o.Fail? || StyleName(s) !in fields then (p, o) else LoadRound(p, s, fields, host)
  }

  /** What the constructor leaves, and whether it throws. */
  function LoadResult(fields: map<string, Value>, host: Host): (r: (Parts, Outcome))
    ensures r.1.Fail? ==> r.1.error.kind == TypeError || r.1.error.kind == ReferenceError
  {
    LoadUpTo(fields, host, |PASS_STYLES|)
  }

  /** Once a round fails, the later ones do not run. */
  lemma {:induction false} LoadUpToStops(fields: map<string, Value>, host: Host, n: nat, m: nat)
    requires n <= m <= |PASS_STYLES| && LoadUpTo(fields, host, n).1.Fail?
    ensures LoadUpTo(fields, host, m) == LoadUpTo(fields, host, n)
    decreases m
  {
    if m > n {
      LoadUpToStops(fields, host, n, m - 1);
    }
  }

  /** Rounds for styles the argument does not name change nothing. */
  lemma {:induction false} LoadUpToSkips(fields: map<string, Value>, host: Host, a: nat, b: nat)
    requires a <= b <= |PASS_STYLES|
    requires forall i :: a <= i < b ==> StyleName(PASS_STYLES[i]) !in fields
    ensures LoadUpTo(fields, host, b) == LoadUpTo(fields, host, a)
    decreases b
  {
    if b > a {
      LoadUpToSkips(fields, host, a, b - 1);
    }
  }

  /** A truthy boardingPass next to any later style makes the constructor
      throw: each round re-assigns the transit type, and once a later style
      has replaced boardingPass that is a ReferenceError (unless the first
      round had already failed). */
  lemma {:induction false} BoardingWithLaterStyleFails(fields: map<string, Value>, host: Host, k: nat)
    requires BoardingTruthy(fields)
    requires 1 <= k < |PASS_STYLES| && StyleName(PASS_STYLES[k]) in fields
    ensures LoadResult(fields, host).1.Fail?
    ensures LoadUpTo(fields, host, 1).1.Done? ==>
      LoadResult(fields, host).1.error == Exception(ReferenceError, "transitType")
    decreases k
  {
    if i :| 1 <= i < k && StyleName(PASS_STYLES[i]) in fields {
      BoardingWithLaterStyleFails(fields, host, i);
    } else {
      LoadUpToSkips(fields, host, 1, k);
      if LoadUpTo(fields, host, 1).1.Fail? {
        LoadUpToStops(fields, host, 1, |PASS_STYLES|);
      } else {
        BoardingRoundHolds(fields, host);
        PassStylesComplete();
        LaterRoundFails(LoadUpTo(fields, host, 1).0, PASS_STYLES[k], fields, host);
        LoadUpToStops(fields, host, k + 1, |PASS_STYLES|);
      }
    }
  }

  /** A boardingPass round that succeeds leaves the boarding pass style. */
  lemma BoardingRoundHolds(fields: map<string, Value>, host: Host)
    requires BoardingTruthy(fields) && LoadUpTo(fields, host, 1).1.Done?
    ensures LoadUpTo(fields, host, 1).0.styles.Keys == {BoardingPass}
  {
  }

  /** Once the boarding pass style is replaced, `set transitType` throws. */
  lemma LaterRoundFails(p: Parts, s: Style, fields: map<string, Value>, host: Host)
    requires BoardingTruthy(fields) && StyleName(s) in fields
    requires p.styles.Keys == {BoardingPass} && s != BoardingPass
    ensures LoadRound(p, s, fields, host).1 == Fail(Exception(ReferenceError, "transitType"))
  {
    StyleNameInjective(s, StyleOf(Str(StyleName(s))).value);
    var q := StyleAssign(p, Str(StyleName(s))).0;
    assert s in q.styles && BoardingPass !in q.styles;
  }

  /** A storeCard keeps its NFC data when a generic style follows it: the
      later `set style` does not clear it. */
  lemma StoreCardNfcKept(fields: map<string, Value>, host: Host)
    requires StyleName(StoreCard) in fields && LoadResult(fields, host).1.Done?
    ensures LoadResult(fields, host).0.nfc == Some(if "nfc" in fields then NfcFrom(fields["nfc"]) else EmptyNfc)
  {
    if BoardingTruthy(fields) {
      BoardingWithLaterStyleFails(fields, host, 3);
    }
    assert LoadUpTo(fields, host, 4).0.nfc == Some(if "nfc" in fields then NfcFrom(fields["nfc"]) else EmptyNfc);
  }

  class PassStructure {
    var styles: map<Style, StyleData>
    /** The field lists of the style object, by what they hold. Since there
        is at most one style object, they are kept here, and they go when
        their style goes. */
    var lists: map<StructureField, OrderedMap<Record>>
    var nfc: Option<Nfc>

    /** At most one style; only a boarding pass has a transit type, and it is
        a known one; a storeCard has its NFC object; without a style there
        are no lists; every list is a well-formed FieldsMap. */
    ghost predicate Valid()
      reads this
    {
      && |styles.Keys| <= 1
      && (forall s :: s in styles && styles[s].transitType.Some? ==>
            s == BoardingPass && TransitOf(styles[s].transitType.value).Some?)
      && (StoreCard in styles ==> nfc.Some?)
      && (styles == map[] ==> lists == map[])
      && (forall f :: f in lists ==> WellFormed(lists[f]))
    }

    /** The state pass.json is made from. */
    function State(): (p: Parts)
      reads this
      ensures Valid() ==> ListsValid(p.lists)
    {
      Parts(styles, lists, nfc)
    }

    constructor ()
      ensures Valid()
      ensures styles == map[] && lists == map[] && nfc == None
    {
      styles := map[];
      lists := map[];
      nfc := None;

    }

    /** `get style` */
    method GetStyle() returns (r: Option<Style>)
      requires Valid()
      ensures r == StyleIn(styles)
      ensures r.Some? ==> styles.Keys == {r.value}
    {
      PassStylesComplete();
      for i := 0 to |PASS_STYLES|
        invariant forall j :: 0 <= j < i ==> PASS_STYLES[j] !in styles
      {
        if PASS_STYLES[i] in styles {
          assert FirstIn(PASS_STYLES[i..], styles.Keys) == Some(PASS_STYLES[i]);
          FirstSkips(PASS_STYLES, i, styles.Keys);
          OnlyStyle(styles, PASS_STYLES[i]);
          return Some(PASS_STYLES[i]);
        }
      }
      return None;
    }

    /** `set style`: every other style is dropped first; a falsy value stops
        there, an unknown one throws a TypeError; otherwise the style is added
        with empty data unless present, and a storeCard gets a new NFC object. */
    method SetStyle(v: Value) returns (r: Outcome)
      requires Valid()
      modifies this
      ensures Valid()
      ensures StyleOf(v).None? ==> styles == map[] && lists == map[] && nfc == old(nfc)
      ensures StyleOf(v).None? && !Truthy(v) ==> r == Done
      ensures StyleOf(v).None? && Truthy(v) ==> r == Fail(Exception(TypeError, "style"))
      ensures StyleOf(v).Some? ==>
        var s := StyleOf(v).value;
        && r == Done
        && styles == map[s := if s in old(styles) then old(styles)[s] else NO_DATA]
        && lists == (if s in old(styles) then old(lists) else map[])
        && nfc == if s == StoreCard then Some(EmptyNfc) else old(nfc)
      ensures (State(), r) == StyleAssign(old(State()), v)
    {
      DropOtherStyles(v);
      if !Truthy(v) {
        assert styles == map[];
        return Done;
      }
      var named := StyleOf(v);
      if named.None? {
        assert styles == map[];
        return Fail(Exception(TypeError, "style"));
      }
      assert styles.Keys <= {named.value};
      AddStyle(named.value);
      return Done;
    }

    /** The end of `set style` for a known style `s`, once the others are
        gone: `s` is added with empty data unless present, and a storeCard
        gets a new NFC object. */
    method AddStyle(s: Style)
      requires Valid() && styles.Keys <= {s}
      modifies this
      ensures Valid() && lists == old(lists)
      ensures styles == map[s := if s in old(styles) then old(styles)[s] else NO_DATA]
      ensures nfc == if s == StoreCard then Some(EmptyNfc) else old(nfc)
    {
      if s !in styles {
        styles := styles[s := NO_DATA];
      } else {
        assert styles == map[s := styles[s]];
      }
      if StoreCard in styles {
        nfc := Some(EmptyNfc);
      }
    }

    /** The loop of `set style` that deletes every style other than `v`,
        together with its field lists. */
    method DropOtherStyles(v: Value)
      requires Valid()
      modifies this
      ensures Valid() && nfc == old(nfc)
      ensures forall s :: s in styles <==> s in old(styles) && Str(StyleName(s)) == v
      ensures forall s :: s in styles ==> styles[s] == old(styles)[s]
      ensures lists == if styles == map[] then map[] else old(lists)
    {
      PassStylesComplete();
      for i := 0 to |PASS_STYLES|
        invariant nfc == old(nfc) && lists == old(lists)
        invariant styles.Keys <= old(styles).Keys
        invariant forall s :: s in styles ==> styles[s] == old(styles)[s]
        invariant forall s :: s in old(styles) && Str(StyleName(s)) == v ==> s in styles
        invariant forall j :: 0 <= j < i && Str(StyleName(PASS_STYLES[j])) != v ==> PASS_STYLES[j] !in styles
      {
        var style := PASS_STYLES[i];
        if Str(StyleName(style)) != v {
          styles := styles - {style};
        }
      }
      assert forall s :: s in styles ==> Str(StyleName(s)) == v by {
        forall s | s in styles ensures Str(StyleName(s)) == v {
          assert s in PASS_STYLES;
          var j :| 0 <= j < |PASS_STYLES| && PASS_STYLES[j] == s;
        }
      }
      SubsetSize(styles.Keys, old(styles).Keys);
      if styles == map[] {
        lists := map[];
      }
    }

    /** `get transitType`: only a boarding pass has one. */
    method GetTransitType() returns (r: Result<Value>)
      requires Valid()
      ensures StyleIn(styles) != Some(BoardingPass) ==> r.Err? && r.error.kind == ReferenceError
      ensures StyleIn(styles) == Some(BoardingPass) ==>
        r == Ok(if styles[BoardingPass].transitType.Some? then styles[BoardingPass].transitType.value else Undefined)
    {
      var style := GetStyle();
      if style != Some(BoardingPass) {
        return Err(Exception(ReferenceError, "transitType"));
      }
      var data := styles[BoardingPass];
      return Ok(if data.transitType.Some? then data.transitType.value else Undefined);
    }

    /** `set transitType`: clearing it on a pass without style does nothing;
        setting it there makes the pass a boarding pass first. Any other style
        throws a ReferenceError; a falsy value removes the transit type, a
        known one sets it, anything else throws a TypeError (after the style
        has been set). */
    method SetTransitType(v: Value) returns (r: Outcome)
      requires Valid()
      modifies this
      ensures Valid() && nfc == old(nfc) && lists == old(lists)
      ensures old(styles) == map[] && !Truthy(v) ==> r == Done && styles == old(styles)
      ensures old(styles) != map[] && BoardingPass !in old(styles) ==>
        r == Fail(Exception(ReferenceError, "transitType")) && styles == old(styles)
      ensures (old(styles) == map[] && Truthy(v)) || BoardingPass in old(styles) ==>
        var data := if BoardingPass in old(styles) then old(styles)[BoardingPass] else NO_DATA;
        && styles.Keys == {BoardingPass}
        && (!Truthy(v) ==> r == Done && styles[BoardingPass] == data.(transitType := None))
        && (Truthy(v) && TransitOf(v).Some? ==> r == Done && styles[BoardingPass] == data.(transitType := Some(v)))
        && (Truthy(v) && TransitOf(v).None? ==>
              r == Fail(Exception(TypeError, "transitType")) && styles[BoardingPass] == data)
      ensures (State(), r) == TransitAssign(old(State()), v)
    {
      var style := GetStyle();
      if style.None? {
        if !Truthy(v) {
          return Done;
        }
        r := SetStyle(Str("boardingPass"));
      }
      if BoardingPass !in styles {
        return Fail(Exception(ReferenceError, "transitType"));
      }
      r := SetBoardingTransit(v);
      assert styles == map[BoardingPass := styles[BoardingPass]];
    }

    /** The part of `set transitType` that runs once the pass is a boarding
        pass. */
    method SetBoardingTransit(v: Value) returns (r: Outcome)
      requires Valid() && BoardingPass in styles
      modifies this
      ensures Valid() && nfc == old(nfc) && lists == old(lists)
      ensures styles.Keys == {BoardingPass}
      ensures !Truthy(v) ==> r == Done && styles[BoardingPass] == old(styles)[BoardingPass].(transitType := None)
      ensures Truthy(v) && TransitOf(v).Some? ==>
        r == Done && styles[BoardingPass] == old(styles)[BoardingPass].(transitType := Some(v))
      ensures Truthy(v) && TransitOf(v).None? ==>
        r == Fail(Exception(TypeError, "transitType")) && styles == old(styles)
    {
      OnlyStyle(styles, BoardingPass);
      var data := styles[BoardingPass];
      if !Truthy(v) {
        styles := styles[BoardingPass := data.(transitType := None)];
      } else if TransitOf(v).Some? {
        styles := styles[BoardingPass := data.(transitType := Some(v))];
      } else {
        return Fail(Exception(TypeError, "transitType"));
      }
      return Done;
    }

    /** `get nfc`: only a storeCard has one. */
    method GetNfc() returns (r: Result<Nfc>)
      requires Valid()
      ensures StoreCard !in styles ==> r.Err? && r.error.kind == ReferenceError
      ensures StoreCard in styles ==> r == Ok(nfc.value)
    {
      if StoreCard !in styles {
        return Err(Exception(ReferenceError, "nfc"));
      }
      return Ok(nfc.value);
    }

    /** The getters of the five field lists: a ReferenceError without a
        style; otherwise the list of the current style, created empty on
        first access. */
    method GetList(f: StructureField) returns (r: Result<OrderedMap<Record>>)
      requires Valid()
      modifies this
      ensures Valid() && styles == old(styles) && nfc == old(nfc)
      ensures old(styles) == map[] ==> r.Err? && r.error.kind == ReferenceError && lists == old(lists)
      ensures old(styles) != map[] ==>
        && r == Ok(if f in old(lists) then old(lists)[f] else Empty())
        && lists == old(lists)[f := r.value]
    {
      var style := GetStyle();
      if style.None? {
        return Err(Exception(ReferenceError, StructureFieldName(f)));
      }
      if f !in lists {
        lists := lists[f := Empty()];
      }
      return Ok(lists[f]);
    }

    /** `pass.headerFields.add(field)` and its four siblings: the getter,
        then add on the list it returns. */
    method AddToList(f: StructureField, field: Value, host: Host) returns (r: Outcome)
      requires Valid() && styles != map[]
      modifies this
      ensures Valid() && styles == old(styles) && nfc == old(nfc)
      ensures var before := if f in old(lists) then old(lists)[f] else Empty();
        && (AddStep(before, field, host).Err? ==> r == Fail(AddStep(before, field, host).error) && lists == old(lists)[f := before])
        && (AddStep(before, field, host).Ok? ==> r == Done && lists == old(lists)[f := AddStep(before, field, host).value])
    {
      var list := GetList(f);
      var next := AddStep(list.value, field, host);
      if next.Err? {
        return Fail(next.error);
      }
      lists := lists[f := next.value];
      return Done;
    }

    /** The state the constructor leaves for its last style `s`. */
    ghost predicate StyleLoaded(s: Style, fields: map<string, Value>, host: Host)
      reads this
    {
      && StyleStarted(s, fields)
      && ListsFor(fields[StyleName(s)], STRUCTURE_FIELDS, host) == Ok(lists)
    }

    /** The style, transit type and NFC data the constructor sets for `s`. */
    ghost predicate StyleStarted(s: Style, fields: map<string, Value>)
      reads this
    {
      && styles.Keys == {s}
      && StyleName(s) in fields
      && (BoardingTruthy(fields) ==> s == BoardingPass)
      && (s == BoardingPass ==>
            styles[s].transitType ==
              if BoardingTruthy(fields) && Truthy(TransitInput(fields)) then Some(TransitInput(fields)) else None)
      && (s == StoreCard ==> nfc == Some(if "nfc" in fields then NfcFrom(fields["nfc"]) else EmptyNfc))
    }

    /** The loop of the constructor over STRUCTURE_FIELDS: each array's
        fields are added to the list of its name, through the getter, which
        creates the list on the first field. */
    method LoadLists(structure: Value, host: Host) returns (r: Outcome)
      requires Valid() && styles != map[] && lists == map[]
      modifies this
      ensures Valid()
      ensures styles == old(styles) && nfc == old(nfc)
      ensures r.Done? <==> ListsFor(structure, STRUCTURE_FIELDS, host).Ok?
      ensures r.Done? ==> lists == ListsFor(structure, STRUCTURE_FIELDS, host).value
      ensures r.Fail? ==> r.error == ListsFor(structure, STRUCTURE_FIELDS, host).error && lists == old(lists)
    {
      var built := BuildLists(structure, host);
      if built.Err? {
        return Fail(built.error);
      }
      lists := built.value;
      return Done;
    }

    /** What JSON.stringify leaves behind in the structure: the toJSON of
        each field list of the style object has replaced its Date values by
        their W3C strings. */
    method SerializeLists(host: Host)
      requires Valid()
      modifies this
      ensures Valid()
      ensures State() == old(State()).(lists := SerializedLists(old(lists), host))
    {
      lists := SerializedLists(lists, host);
    }

    /** One round of the constructor's loop, for a style its argument names. */
    method LoadStyle(style: Style, fields: map<string, Value>, host: Host) returns (r: Outcome)
      requires Valid() && StyleName(style) in fields && style !in styles
      modifies this
      ensures Valid()
      ensures r.Done? ==> StyleLoaded(style, fields, host)
      ensures r.Fail? ==> r.error.kind == TypeError || r.error.kind == ReferenceError
      ensures (State(), r) == LoadRound(old(State()), style, fields, host)
    {
      r := StartStyle(style, fields);
      if r.Fail? {
        return;
      }
      r := LoadLists(fields[StyleName(style)], host);
    }

    /** The first part of that round: the style is set, then the transit
        type of a boarding pass or the NFC data of a storeCard. */
    method StartStyle(style: Style, fields: map<string, Value>) returns (r: Outcome)
      requires Valid() && StyleName(style) in fields && style !in styles
      modifies this
      ensures Valid()
      ensures r.Done? ==> StyleStarted(style, fields) && lists == map[]
      ensures r.Fail? ==> r.error.kind == TypeError || r.error.kind == ReferenceError
      ensures (State(), r) == StartRound(old(State()), style, fields)
    {
      r := SetStyle(Str(StyleName(style)));
      assert StyleOf(Str(StyleName(style))) == Some(style);
      if BoardingTruthy(fields) {
        r := SetTransitType(TransitInput(fields));
        if r.Fail? {
          return;
        }
      } else if StoreCard in styles && "nfc" in fields {
        nfc := Some(NfcFrom(fields["nfc"]));
      }
    }

    /** The constructor's replay of its argument: each style it names, in the
        order of PASS_STYLES, is set in turn (dropping the previous one), with
        the boarding pass's transit type or the storeCard's NFC data, and the
        arrays of its five field lists added field by field. */
    method Load(fields: map<string, Value>, host: Host) returns (r: Outcome)
      requires Valid() && styles == map[] && nfc == None
      modifies this
      ensures Valid()
      ensures r.Fail? ==> r.error.kind == TypeError || r.error.kind == ReferenceError
      ensures r.Done? ==> StyleIn(styles) == LastStyleIn(PASS_STYLES, fields)
      ensures r.Done? && LastStyleIn(PASS_STYLES, fields).Some? ==>
        StyleLoaded(LastStyleIn(PASS_STYLES, fields).value, fields, host)
      ensures (State(), r) == LoadResult(fields, host)
    {
      r := Done;
      for i := 0 to |PASS_STYLES|
        invariant Valid()
        invariant r == Done
        invariant LoadedUpTo(i, fields, host)
        invariant LoadUpTo(fields, host, i) == (State(), Done)
      {
        r := LoadStep(i, fields, host);
        if r.Fail? {
          LoadUpToStops(fields, host, i + 1, |PASS_STYLES|);
          return;
        }
      }
      assert PASS_STYLES[..|PASS_STYLES|] == PASS_STYLES;
      if LastStyleIn(PASS_STYLES, fields).Some? {
        OnlyStyle(styles, LastStyleIn(PASS_STYLES, fields).value);
      }
    }

    /** The state after the constructor's loop has met the first `i` styles. */
    ghost predicate LoadedUpTo(i: nat, fields: map<string, Value>, host: Host)
      requires i <= |PASS_STYLES|
      reads this
    {
      var last := LastStyleIn(PASS_STYLES[..i], fields);
      && (last.None? ==> styles == map[])
      && (last.Some? ==> StyleLoaded(last.value, fields, host))
    }

    /** One round of the constructor's loop over PASS_STYLES. */
    method LoadStep(i: nat, fields: map<string, Value>, host: Host) returns (r: Outcome)
      requires i < |PASS_STYLES| && Valid() && LoadedUpTo(i, fields, host)
      requires LoadUpTo(fields, host, i) == (State(), Done)
      modifies this
      ensures Valid()
      ensures r.Fail? ==> r.error.kind == TypeError || r.error.kind == ReferenceError
      ensures r.Done? ==> LoadedUpTo(i + 1, fields, host)
      ensures (State(), r) == LoadUpTo(fields, host, i + 1)
    {
      var style := PASS_STYLES[i];
      LastStyleStep(i, fields);
      if StyleName(style) in fields {
        r := LoadStyle(style, fields, host);
      } else {
        r := Done;
      }
    }
  }

  /** The lists of the constructor's loop over STRUCTURE_FIELDS, or the
      error of the first field that stops it. */
  method BuildLists(structure: Value, host: Host) returns (r: Result<map<StructureField, OrderedMap<Record>>>)
    ensures r == ListsFor(structure, STRUCTURE_FIELDS, host)
  {
    var lists := map[];
    for i := 0 to |STRUCTURE_FIELDS|
      invariant ListsFor(structure, STRUCTURE_FIELDS[..i], host) == Ok(lists)
    {
      var f := STRUCTURE_FIELDS[i];
      assert STRUCTURE_FIELDS[..i + 1][..i] == STRUCTURE_FIELDS[..i];
      var members := StructureMembers(structure, f);
      if members.Err? {
        ListsForStops(structure, STRUCTURE_FIELDS, i + 1, host);
        return Err(members.error);
      }
      if members.value != [] {
        var list := AddFields(members.value, host);
        if list.Err? {
          ListsForStops(structure, STRUCTURE_FIELDS, i + 1, host);
          return Err(list.error);
        }
        lists := lists[f := list.value];
      }
    }
    assert STRUCTURE_FIELDS[..|STRUCTURE_FIELDS|] == STRUCTURE_FIELDS;
    return Ok(lists);
  }

  /** Adding the fields of one array to a new list, one after another;
      the first field that add rejects stops it with add's error. */
  method AddFields(elems: seq<Value>, host: Host) returns (r: Result<OrderedMap<Record>>)
    ensures r == AddAll(Empty(), elems, host)
  {
    var list := Empty();
    for i := 0 to |elems|
      invariant AddAll(Empty(), elems[..i], host) == Ok(list)
    {
      var next := AddStep(list, elems[i], host);
      AddAllSnoc(Empty(), elems[..i], elems[i], host);
      assert elems[..i + 1] == elems[..i] + [elems[i]];
      if next.Err? {
        AddAllStops(Empty(), elems, i + 1, host);
        return Err(next.error);
      }
      list := next.value;
    }
    assert elems[..|elems|] == elems;
    return Ok(list);
  }

  /** The lists the constructor builds from the arrays of `structure` named by
      `fs`, in order, or the error that stops it: an array with no elements
      creates no list. */
  function ListsFor(structure: Value, fs: seq<StructureField>, host: Host)
    : (r: Result<map<StructureField, OrderedMap<Record>>>)
    ensures r.Ok? ==> forall f :: f in r.value ==> WellFormed(r.value[f])
    ensures r.Err? ==> r.error.kind == TypeError
    decreases |fs|
  {
    if fs == [] then Ok(map[])
    else match ListsFor(structure, fs[..|fs| - 1], host)
      case Err(e) => Err(e)
      case Ok(m) =>
        var f := fs[|fs| - 1];
        match StructureMembers(structure, f)
        case Err(e) => Err(e)
        case Ok(elems) =>
          if elems == [] then Ok(m)
          else match AddAll(Empty(), elems, host)
            case Err(e) => Err(e)
            case Ok(list) => Ok(m[f := list])
  }

  /** Once a field stops the constructor's loop, the later ones do not run. */
  lemma {:induction false} ListsForStops(structure: Value, fs: seq<StructureField>, n: nat, host: Host)
    requires n <= |fs| && ListsFor(structure, fs[..n], host).Err?
    ensures ListsFor(structure, fs, host) == ListsFor(structure, fs[..n], host)
    decreases |fs|
  {
    if n < |fs| {
      var init := fs[..|fs| - 1];
      assert init[..n] == fs[..n];
      ListsForStops(structure, init, n, host);
    } else {
      assert fs[..n] == fs;
    }
  }

  /** What the lists built from `structure` hold: a list for each field of
      `fs` whose array has elements and for no other, holding that array's
      fields added in order. */
  lemma {:induction false} ListsForMeaning(structure: Value, fs: seq<StructureField>, host: Host)
    requires ListsFor(structure, fs, host).Ok?
    ensures var m := ListsFor(structure, fs, host).value;
      && (forall f :: f in m ==> f in fs)
      && (forall f :: f in fs ==>
            && StructureMembers(structure, f).Ok?
            && (f in m <==> StructureMembers(structure, f).value != [])
            && (f in m ==> AddAll(Empty(), StructureMembers(structure, f).value, host) == Ok(m[f])))
    decreases |fs|
  {
    if fs != [] {
      var init := fs[..|fs| - 1];
      ListsForMeaning(structure, init, host);
      assert forall f :: f in fs ==> f in init || f == fs[|fs| - 1];
    }
  }

  /** The first present style of a list is found by skipping the absent
      ones at its front. */
  lemma {:induction false} FirstSkips(order: seq<Style>, i: nat, present: set<Style>)
    requires i <= |order|
    requires forall j :: 0 <= j < i ==> order[j] !in present
    ensures FirstIn(order, present) == FirstIn(order[i..], present)
  {
    if i > 0 {
      assert order[1..][i - 1..] == order[i..];
      FirstSkips(order[1..], i - 1, present);
    }
  }

  lemma StructureFieldsComplete()
    ensures forall f :: f in STRUCTURE_FIELDS
  {
    forall f: StructureField ensures f in STRUCTURE_FIELDS {
      match f
      case AuxiliaryFields => assert STRUCTURE_FIELDS[0] == f;
      case BackFields => assert STRUCTURE_FIELDS[1] == f;
      case HeaderFields => assert STRUCTURE_FIELDS[2] == f;
      case PrimaryFields => assert STRUCTURE_FIELDS[3] == f;
      case SecondaryFields => assert STRUCTURE_FIELDS[4] == f;
    }
  }
}
