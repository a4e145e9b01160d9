/** PassBase: the top-level attributes of a pass.json (identifiers, flags,
    dates, web service, barcodes, beacons, locations, ...). Every setter
    follows one pattern: a falsy value deletes the attribute, anything else
    is validated and then stored. The pass's style part is a PassStructure. */
module BasePass {
  import opened JsValues
  import opened Constants
  import opened W3CDate
  import opened Structure
  import opened Images

  // ------------------------------------------------------ the attributes

  /** The top-level attributes that have a setter. */
  datatype Attr =
    | PassTypeIdentifier | TeamIdentifier | SerialNumber | SharingProhibited | Voided
    | ExpirationDate | RelevantDate | AssociatedStoreIdentifiers | Description
    | OrganizationName | GroupingIdentifier | SuppressStripShine | LogoText
    | WebServiceUrl | AuthenticationToken | BackgroundColor | ForegroundColor
    | LabelColor | StripColor | MaxDistance | Beacons | Barcodes | Locations

  function AttrName(a: Attr): string {
    match a
    case PassTypeIdentifier => "passTypeIdentifier"
    case TeamIdentifier => "teamIdentifier"
    case SerialNumber => "serialNumber"
    case SharingProhibited => "sharingProhibited"
    case Voided => "voided"
    case ExpirationDate => "expirationDate"
    case RelevantDate => "relevantDate"
    case AssociatedStoreIdentifiers => "associatedStoreIdentifiers"
    case Description => "description"
    case OrganizationName => "organizationName"
    case GroupingIdentifier => "groupingIdentifier"
    case SuppressStripShine => "suppressStripShine"
    case LogoText => "logoText"
    case WebServiceUrl => "webServiceURL"
    case AuthenticationToken => "authenticationToken"
    case BackgroundColor => "backgroundColor"
    case ForegroundColor => "foregroundColor"
    case LabelColor => "labelColor"
    case StripColor => "stripColor"
    case MaxDistance => "maxDistance"
    case Beacons => "beacons"
    case Barcodes => "barcodes"
    case Locations => "locations"
  }

  const ATTRS: seq<Attr> :=
    [PassTypeIdentifier, TeamIdentifier, SerialNumber, SharingProhibited, Voided]
    + [ExpirationDate, RelevantDate, AssociatedStoreIdentifiers, Description]
    + [OrganizationName, GroupingIdentifier, SuppressStripShine, LogoText]
    + [WebServiceUrl, AuthenticationToken, BackgroundColor, ForegroundColor]
    + [LabelColor, StripColor, MaxDistance, Beacons, Barcodes, Locations]

  /** The attribute a key names, if any. */
  function AttrOf(name: string): (r: Option<Attr>)
    ensures r.Some? ==> AttrName(r.value) == name
    ensures r.None? ==> forall a :: AttrName(a) != name
  {
    AttrsComplete();
    FindAttr(ATTRS, name)
  }

  function FindAttr(attrs: seq<Attr>, name: string): (r: Option<Attr>)
    ensures r.Some? ==> AttrName(r.value) == name
    ensures r.None? ==> forall a :: a in attrs ==> AttrName(a) != name
  {
    if attrs == [] then None
    else if AttrName(attrs[0]) == name then Some(attrs[0])
    else
      assert forall a :: a in attrs ==> a == attrs[0] || a in attrs[1..];
      FindAttr(attrs[1..], name)
  }

  lemma AttrsComplete()
    ensures forall a :: a in ATTRS
  {
    forall a: Attr ensures a in ATTRS {
      match a
      case PassTypeIdentifier | TeamIdentifier | SerialNumber | SharingProhibited | Voided =>
      case ExpirationDate | RelevantDate | AssociatedStoreIdentifiers | Description =>
      case OrganizationName | GroupingIdentifier | SuppressStripShine | LogoText =>
      case WebServiceUrl | AuthenticationToken | BackgroundColor | ForegroundColor =>
      case LabelColor | StripColor | MaxDistance | Beacons | Barcodes | Locations =>
    }
  }

  /** The setters by what they do with a truthy value. */
  datatype Kind =
    | Plain | Flag | DateKind | Color | StoreIds | Url | Token | Distance
    | BeaconList | BarcodeList | LocationList

  function KindOf(a: Attr): Kind {
    match a
    case PassTypeIdentifier | TeamIdentifier | SerialNumber | Description
       | OrganizationName | GroupingIdentifier | LogoText => Plain
    case SharingProhibited | Voided | SuppressStripShine => Flag
    case ExpirationDate | RelevantDate => DateKind
    case BackgroundColor | ForegroundColor | LabelColor | StripColor => Color
    case AssociatedStoreIdentifiers => StoreIds
    case WebServiceUrl => Url
    case AuthenticationToken => Token
    case MaxDistance => Distance
    case Beacons => BeaconList
    case Barcodes => BarcodeList
    case Locations => LocationList
  }

  /** Each attribute's key names it and no other. */
  lemma AttrOfName(a: Attr)
    ensures AttrOf(AttrName(a)) == Some(a)
  {
    AttrNameInjective();
  }

  lemma AttrNameInjective()
    ensures forall a, b :: AttrName(a) == AttrName(b) ==> a == b
  {
    forall a, b | AttrName(a) == AttrName(b) ensures a == b {
    }
  }

  // ------------------------------------------------------ collaborators

  /** What getGeoPoint returns for a point. */
  datatype GeoPoint = GeoPoint(longitude: Value, latitude: Value, altitude: Value)

  /** The collaborators outside the model: Date construction and local time,
      the protocol of `new URL(v)` (None when it throws), the PassColor
      constructor, getGeoPoint, and what JSON.stringify makes of an NFCField. */
  datatype Env = Env(host: Host, urlProtocol: Value -> Option<string>,
                     newColor: Value -> Result<Value>, geoPoint: Value -> Result<GeoPoint>,
                     nfcJson: Nfc -> Value)

  /** `options?.allowHttp ?? false`, as `!allowHttp` reads it. */
  predicate AllowHttp(options: Value) {
    !options.Undefined? && !options.Null? && Truthy(GetProp(options, "allowHttp").value)
  }

  /** `v.filter(n => Number.isInteger(n))` */
  function Integers(xs: seq<Value>): (r: seq<Value>)
    ensures |r| <= |xs|
    ensures forall i :: 0 <= i < |r| ==> IsInteger(r[i])
  {
    if xs == [] then []
    else (if IsInteger(xs[0]) then [xs[0]] else []) + Integers(xs[1..])
  }

  /** A beacon needs a truthy proximityUUID (null or undefined throws on the read). */
  predicate BeaconOk(b: Value) {
    GetProp(b, "proximityUUID").Ok? && Truthy(GetProp(b, "proximityUUID").value)
  }

  /** A barcode needs a format in BARCODES_FORMAT and a string message and
      messageEncoding (null or undefined throws on the first read). */
  predicate BarcodeOk(b: Value) {
    && GetProp(b, "format").Ok?
    && GetProp(b, "format").value.Str? && GetProp(b, "format").value.s in BARCODES_FORMAT
    && GetProp(b, "message").value.Str?
    && GetProp(b, "messageEncoding").value.Str?
  }

  predicate AllOk(xs: seq<Value>, ok: Value -> bool) {
    forall i :: 0 <= i < |xs| ==> ok(xs[i])
  }

  // ---------------------------------------------------------- the setters

  /** What the date setters leave for a truthy value: a valid Date or a
      valid W3C string as given, any other string as the Date it parses to;
      an invalid Date throws. Any other value is ignored. */
  function DateStored(v: Value, current: Option<Value>, host: Host, name: string): (r: Result<Option<Value>>)
    ensures r.Err? ==> r.error.kind == TypeError
    ensures r.Ok? && v.Str? ==> r.value.Some?
    ensures r.Ok? && v.Str? && r.value.value.DateV? ==> r.value.value.d == host.dateOf(v)
  {
    match v
    case DateV(d) => if IsValidDate(d) then Ok(Some(v)) else Err(Exception(TypeError, name))
    case Str(s) =>
      if IsValidW3CString(s) then Ok(Some(v))
      else
        var date := host.dateOf(v);
        if IsValidDate(date) then Ok(Some(DateV(date))) else Err(Exception(TypeError, name))
    case _ => Ok(current)
  }

  /** What a setter other than `locations` leaves under its key for a truthy
      value (None: the key is deleted), or what it throws; `current` is what
      the key held. */
  function TruthyStored(k: Kind, v: Value, current: Option<Value>, options: Value, env: Env, name: string)
    : (r: Result<Option<Value>>)
    requires k != LocationList && k != BeaconList
  {
    match k
    case Plain => Ok(Some(v))
    case Flag => Ok(Some(Bool(true)))
    case DateKind => DateStored(v, current, env.host, name)
    case Color =>
      (match env.newColor(v)
       case Err(e) => Err(e)
       case Ok(c) => Ok(Some(c)))
    case StoreIds =>
      if !v.Arr? then Err(Exception(TypeError, name))
      else if Integers(v.elems) == [] then Ok(None)
      else Ok(Some(Arr(Integers(v.elems))))
    case Url =>
      (match env.urlProtocol(v)
       case None => Err(Exception(TypeError, name))
       case Some(protocol) =>
         if !AllowHttp(options) && protocol != "https:" then Err(Exception(TypeError, name))
         else Ok(Some(v)))
    case Token =>
      if !v.Str? || |v.s| < 16 then Err(Exception(TypeError, name)) else Ok(Some(v))
    case Distance =>
      if IsInteger(v) then Ok(Some(v)) else Err(Exception(TypeError, name))
    case BarcodeList =>
      if v.Arr? && AllOk(v.elems, BarcodeOk) then Ok(Some(v)) else Err(Exception(TypeError, name))
  }

  /** What a setter other than `locations` leaves under its key: a falsy
      value deletes it (beacons: also a value that is not an array). */
  function Stored(a: Attr, v: Value, current: Option<Value>, options: Value, env: Env): (r: Result<Option<Value>>)
    requires !a.Locations?
  {
    if a.Beacons? then
      if !Truthy(v) || !v.Arr? then Ok(None)
      else if AllOk(v.elems, BeaconOk) then Ok(Some(v))
      else Err(Exception(TypeError, AttrName(a)))
    else if !Truthy(v) then Ok(None)
    else TruthyStored(KindOf(a), v, current, options, env, AttrName(a))
  }

  /** The attribute record after a setter other than `locations`, or what it
      throws: only the setter's own attribute changes. (A falsy `barcodes`
      also deletes a `barcode` key, which no setter writes.) */
  function Assign(fields: map<Attr, Value>, a: Attr, v: Value, options: Value, env: Env)
    : (r: Result<map<Attr, Value>>)
    requires !a.Locations?
    ensures r.Ok? ==> forall k :: k != a ==> (k in r.value <==> k in fields) && (k in r.value ==> r.value[k] == fields[k])
  {
    match Stored(a, v, Current(fields, a), options, env)
    case Err(e) => Err(e)
    case Ok(x) => Ok(Put(fields, a, x))
  }

  /** What the record holds under `a`. */
  function Current(fields: map<Attr, Value>, a: Attr): Option<Value> {
    if a in fields then Some(fields[a]) else None
  }

  /** The record with `a` stored as `x` (None: deleted). */
  function Put(fields: map<Attr, Value>, a: Attr, x: Option<Value>): (r: map<Attr, Value>)
    ensures Current(r, a) == x
    ensures forall k :: k != a ==> (k in r <==> k in fields) && (k in r ==> r[k] == fields[k])
  {
    match x
    case None => fields - {a}
    case Some(y) => fields[a := y]
  }

  /** Storing what is already stored changes nothing. */
  lemma PutCurrent(fields: map<Attr, Value>, a: Attr)
    ensures Put(fields, a, Current(fields, a)) == fields
  {
    if a in fields {
      assert fields[a := fields[a]] == fields;
    } else {
      assert fields - {a} == fields;
    }
  }

  /** The plain string setters: a falsy value deletes, anything else is
      stored as given. */
  lemma PlainSetter(fields: map<Attr, Value>, a: Attr, v: Value, options: Value, env: Env)
    requires KindOf(a) == Plain
    ensures Assign(fields, a, v, options, env).Ok?
    ensures var r := Assign(fields, a, v, options, env).value;
      && (!Truthy(v) ==> a !in r)
      && (Truthy(v) ==> a in r && r[a] == v)
  {
  }

  /** The flags store literal `true` for a truthy value and delete the key
      for a falsy one. */
  lemma FlagSetter(fields: map<Attr, Value>, a: Attr, v: Value, options: Value, env: Env)
    requires KindOf(a) == Flag
    ensures Assign(fields, a, v, options, env).Ok?
    ensures var r := Assign(fields, a, v, options, env).value;
      (a in r <==> Truthy(v)) && (Truthy(v) ==> r[a] == Bool(true))
  {
    assert !a.Beacons? && !a.Locations?;
    var x := if Truthy(v) then Some(Bool(true)) else None;
    assert Stored(a, v, Current(fields, a), options, env) == Ok(x);
    assert Assign(fields, a, v, options, env) == Ok(Put(fields, a, x));
  }

  /** The date setters: a valid Date or a valid W3C string is stored as
      given; another string is stored as the Date it parses to; an invalid
      Date, or a string that parses to one, throws a TypeError; any other
      truthy value changes nothing. */
  lemma DateSetter(fields: map<Attr, Value>, a: Attr, v: Value, options: Value, env: Env)
    requires KindOf(a) == DateKind && Truthy(v)
    ensures var r := Assign(fields, a, v, options, env);
      && (v.DateV? ==> (r.Ok? <==> IsValidDate(v.d)) && (r.Ok? ==> a in r.value && r.value[a] == v))
      && (v.Str? && IsValidW3CString(v.s) ==> r.Ok? && a in r.value && r.value[a] == v)
      && (v.Str? && !IsValidW3CString(v.s) ==>
            && (r.Ok? <==> IsValidDate(env.host.dateOf(v)))
            && (r.Ok? ==> a in r.value && r.value[a] == DateV(env.host.dateOf(v))))
      && (r.Err? ==> r.error.kind == TypeError)
      && (!v.DateV? && !v.Str? ==> r == Ok(fields))
  {
    var current := Current(fields, a);
    assert Stored(a, v, current, options, env) == DateStored(v, current, env.host, AttrName(a));
    if !v.DateV? && !v.Str? {
      PutCurrent(fields, a);
    }
  }

  /** associatedStoreIdentifiers keeps the integers of the array, in order;
      none left deletes the key; a value that is not an array throws. */
  lemma StoreIdentifiersSetter(fields: map<Attr, Value>, v: Value, options: Value, env: Env)
    requires Truthy(v)
    ensures var r := Assign(fields, AssociatedStoreIdentifiers, v, options, env);
      && (r.Err? <==> !v.Arr?)
      && (v.Arr? && Integers(v.elems) == [] ==> AssociatedStoreIdentifiers !in r.value)
      && (v.Arr? && Integers(v.elems) != [] ==>
            AssociatedStoreIdentifiers in r.value && r.value[AssociatedStoreIdentifiers] == Arr(Integers(v.elems)))
  {
  }

  /** Assigning back what the getter returns changes nothing: the stored
      array already holds only integers. */
  lemma StoreIdentifiersReassign(fields: map<Attr, Value>, v: Value, options: Value, env: Env)
    requires v.Arr?
    ensures var r := Assign(fields, AssociatedStoreIdentifiers, v, options, env).value;
      AssociatedStoreIdentifiers in r ==>
        Assign(r, AssociatedStoreIdentifiers, r[AssociatedStoreIdentifiers], options, env) == Ok(r)
  {
    var r := Assign(fields, AssociatedStoreIdentifiers, v, options, env).value;
    if AssociatedStoreIdentifiers in r {
      StoreIdentifiersSetter(fields, v, options, env);
      StoreIdentifiersKept(v.elems, Current(r, AssociatedStoreIdentifiers), options, env);
      assert Put(r, AssociatedStoreIdentifiers, Some(r[AssociatedStoreIdentifiers])) == r;
    }
  }

  /** The setter keeps an array of integers as it is. */
  lemma StoreIdentifiersKept(xs: seq<Value>, current: Option<Value>, options: Value, env: Env)
    requires Integers(xs) != []
    ensures var kept := Arr(Integers(xs));
      Stored(AssociatedStoreIdentifiers, kept, current, options, env) == Ok(Some(kept))
  {
    IntegersIdempotent(xs);
  }

  /** The token must be a string of 16 characters or more. */
  lemma TokenSetter(fields: map<Attr, Value>, v: Value, options: Value, env: Env)
    requires Truthy(v)
    ensures var r := Assign(fields, AuthenticationToken, v, options, env);
      && (r.Ok? <==> v.Str? && |v.s| >= 16)
      && (r.Ok? ==> AuthenticationToken in r.value && r.value[AuthenticationToken] == v)
      && (r.Err? ==> r.error.kind == TypeError)
  {
  }

  /** The URL must parse, and be https unless allowHttp is set. */
  lemma UrlSetter(fields: map<Attr, Value>, v: Value, options: Value, env: Env)
    requires Truthy(v)
    ensures var r := Assign(fields, WebServiceUrl, v, options, env);
      && (r.Ok? <==> env.urlProtocol(v).Some? && (AllowHttp(options) || env.urlProtocol(v).value == "https:"))
      && (r.Ok? ==> WebServiceUrl in r.value && r.value[WebServiceUrl] == v)
      && (r.Err? ==> r.error.kind == TypeError)
  {
  }

  /** maxDistance takes integers only. */
  lemma MaxDistanceSetter(fields: map<Attr, Value>, v: Value, options: Value, env: Env)
    requires Truthy(v)
    ensures var r := Assign(fields, MaxDistance, v, options, env);
      && (r.Ok? <==> IsInteger(v))
      && (r.Ok? ==> MaxDistance in r.value && r.value[MaxDistance] == v)
      && (r.Err? ==> r.error.kind == TypeError)
  {
  }

  /** barcodes is all or nothing: one bad entry rejects the array, and what
      was stored stays. */
  lemma BarcodesSetter(fields: map<Attr, Value>, v: Value, options: Value, env: Env)
    requires v.Arr?
    ensures var r := Assign(fields, Barcodes, v, options, env);
      && (r.Ok? <==> forall i :: 0 <= i < |v.elems| ==> BarcodeOk(v.elems[i]))
      && (r.Ok? ==> Barcodes in r.value && r.value[Barcodes] == v)
      && (r.Err? ==> r.error.kind == TypeError)
  {
  }

  /** beacons likewise, and a value that is not an array deletes them. */
  lemma BeaconsSetter(fields: map<Attr, Value>, v: Value, options: Value, env: Env)
    ensures var r := Assign(fields, Beacons, v, options, env);
      && (!v.Arr? ==> r == Ok(fields - {Beacons}))
      && (v.Arr? ==> (r.Ok? <==> forall i :: 0 <= i < |v.elems| ==> BeaconOk(v.elems[i])))
      && (v.Arr? && r.Ok? ==> Beacons in r.value && r.value[Beacons] == v)
  {
  }

  /** The integer filter keeps exactly the integers of the array. */
  lemma {:induction false} IntegersMembers(xs: seq<Value>)
    ensures forall x :: x in Integers(xs) <==> x in xs && IsInteger(x)
    decreases |xs|
  {
    if xs != [] {
      IntegersMembers(xs[1..]);
      assert forall x :: x in xs <==> x == xs[0] || x in xs[1..];
    }
  }

  /** The integer filter commutes with concatenation, so order is kept. */
  lemma {:induction false} IntegersAppend(xs: seq<Value>, ys: seq<Value>)
    ensures Integers(xs + ys) == Integers(xs) + Integers(ys)
    decreases |xs|
  {
    if xs == [] {
      assert xs + ys == ys;
    } else {
      IntegersAppend(xs[1..], ys);
      assert (xs + ys)[0] == xs[0];
      assert (xs + ys)[1..] == xs[1..] + ys;
    }
  }

  /** Filtering twice is filtering once. */
  lemma {:induction false} IntegersIdempotent(xs: seq<Value>)
    ensures Integers(Integers(xs)) == Integers(xs)
    decreases |xs|
  {
    if xs != [] {
      IntegersIdempotent(xs[1..]);
      var r := Integers(xs);
      if IsInteger(xs[0]) {
        assert r == [xs[0]] + Integers(xs[1..]);
        assert r[0] == xs[0] && r[1..] == Integers(xs[1..]);
        assert Integers(r) == [xs[0]] + Integers(Integers(xs[1..]));
      } else {
        assert r == Integers(xs[1..]);
      }
    }
  }

  /** Setting the same value twice is setting it once. */
  lemma {:induction false} SetterIdempotent(fields: map<Attr, Value>, a: Attr, v: Value, options: Value, env: Env)
    requires !a.Locations? && Assign(fields, a, v, options, env).Ok?
    ensures Assign(Assign(fields, a, v, options, env).value, a, v, options, env) == Assign(fields, a, v, options, env)
  {
    var s := Stored(a, v, Current(fields, a), options, env);
    var once := Put(fields, a, s.value);
    assert Assign(fields, a, v, options, env) == Ok(once);
    if KindOf(a) == DateKind && Truthy(v) && !v.DateV? && !v.Str? {
      assert s == Ok(Current(fields, a));
      PutCurrent(fields, a);
    } else {
      assert Stored(a, v, Current(once, a), options, env) == s by {
        StoredIgnoresCurrent(a, v, Current(fields, a), Current(once, a), options, env);
      }
      assert Put(once, a, s.value) == once by {
        PutCurrent(once, a);
      }
    }
  }

  /** Only the date setters look at what was stored, and only for a truthy
      value that is neither a Date nor a string. */
  lemma StoredIgnoresCurrent(a: Attr, v: Value, c1: Option<Value>, c2: Option<Value>, options: Value, env: Env)
    requires !a.Locations? && !(KindOf(a) == DateKind && Truthy(v) && !v.DateV? && !v.Str?)
    ensures Stored(a, v, c1, options, env) == Stored(a, v, c2, options, env)
  {
    if Truthy(v) && !a.Beacons? {
      TruthyIgnoresCurrent(KindOf(a), v, c1, c2, options, env, AttrName(a));
    }
  }

  lemma TruthyIgnoresCurrent(k: Kind, v: Value, c1: Option<Value>, c2: Option<Value>, options: Value, env: Env, name: string)
    requires k != LocationList && k != BeaconList && !(k == DateKind && !v.DateV? && !v.Str?)
    ensures TruthyStored(k, v, c1, options, env, name) == TruthyStored(k, v, c2, options, env, name)
  {
    if k == DateKind {
      assert DateStored(v, c1, env.host, name) == DateStored(v, c2, env.host, name);
    }
  }

  // -------------------------------------------------------- the getters

  /** What the getter of an attribute returns: dates stored as strings are
      read back through `new Date`, voided and suppressStripShine as booleans,
      the rest as stored (undefined when absent). */
  function Read(fields: map<Attr, Value>, a: Attr, host: Host): Value {
    var stored := if a in fields then fields[a] else Undefined;
    if KindOf(a) == DateKind && stored.Str? then DateV(host.dateOf(stored))
    else if a.Voided? || a.SuppressStripShine? then Bool(Truthy(stored))
    else stored
  }

  /** Reading a date back after setting it from a string gives the Date the
      string denotes, whether it was stored as the string or as that Date. */
  lemma {:induction false} DateReadBack(fields: map<Attr, Value>, a: Attr, v: Value, options: Value, env: Env)
    requires KindOf(a) == DateKind && v.Str? && Truthy(v)
    requires Assign(fields, a, v, options, env).Ok?
    ensures Read(Assign(fields, a, v, options, env).value, a, env.host) == DateV(env.host.dateOf(v))
  {
    DateSetter(fields, a, v, options, env);
  }

  /** Reading a plain attribute or a flag back gives what was set, as the
      getter reports it. */
  lemma {:induction false} PlainReadBack(fields: map<Attr, Value>, a: Attr, v: Value, options: Value, env: Env)
    requires KindOf(a) == Plain || KindOf(a) == Flag
    ensures Assign(fields, a, v, options, env).Ok?
    ensures var back := Read(Assign(fields, a, v, options, env).value, a, env.host);
      && (KindOf(a) == Plain ==> back == if Truthy(v) then v else Undefined)
      && (a.Voided? || a.SuppressStripShine? ==> back == Bool(Truthy(v)))
      && (a.SharingProhibited? ==> back == if Truthy(v) then Bool(true) else Undefined)
  {
    if KindOf(a) == Plain { PlainSetter(fields, a, v, options, env); }
    else { FlagSetter(fields, a, v, options, env); }
  }

  // --------------------------------------------------------- locations

  /** The location object addLocation builds: longitude and latitude, the
      altitude when truthy, the relevant text when a string. */
  function LocationRecord(g: GeoPoint, relevantText: Value): (r: Value)
    ensures r.Obj? && "longitude" in r.props && "latitude" in r.props
    ensures r.props["longitude"] == g.longitude && r.props["latitude"] == g.latitude
    ensures "altitude" in r.props <==> Truthy(g.altitude)
    ensures "altitude" in r.props ==> r.props["altitude"] == g.altitude
    ensures "relevantText" in r.props <==> relevantText.Str?
    ensures "relevantText" in r.props ==> r.props["relevantText"] == relevantText
    ensures r.props.Keys <= {"longitude", "latitude", "altitude", "relevantText"}
  {
    var base := map["longitude" := g.longitude, "latitude" := g.latitude];
    var withAltitude := if Truthy(g.altitude) then base["altitude" := g.altitude] else base;
    Obj(if relevantText.Str? then withAltitude["relevantText" := relevantText] else withAltitude)
  }

  /** The locations already stored, when they are an array. */
  function Prior(fields: map<Attr, Value>): seq<Value> {
    if Locations in fields && fields[Locations].Arr? then fields[Locations].elems else []
  }

  /** The record after addLocation: pushed onto the stored array, or a new
      one-element array when none is stored. */
  function WithLocation(fields: map<Attr, Value>, loc: Value): (r: map<Attr, Value>)
    ensures r == fields[Locations := Arr(Prior(fields) + [loc])]
  {
    if Locations in fields && fields[Locations].Arr? then
      fields[Locations := Arr(fields[Locations].elems + [loc])]
    else
      assert Prior(fields) + [loc] == [loc];
      fields[Locations := Arr([loc])]
  }

  /** The loop of the locations setter over the array, from a record: each
      element's relevantText is read (which throws for null or undefined),
      then its point resolved; the first failure stops it, keeping what was
      added before. */
  function LocationsFold(fields: map<Attr, Value>, xs: seq<Value>, env: Env): (r: (map<Attr, Value>, Outcome))
    ensures r.0 - {Locations} == fields - {Locations}
    decreases |xs|
  {
    if xs == [] then (fields, Done)
    else match GetProp(xs[0], "relevantText")
      case Err(e) => (fields, Fail(e))
      case Ok(text) =>
        match env.geoPoint(xs[0])
        case Err(e) => (fields, Fail(e))
        case Ok(g) => LocationsFold(WithLocation(fields, LocationRecord(g, text)), xs[1..], env)
  }

  /** The record after `locations = v` and its outcome: the stored locations
      are deleted first, whatever follows. */
  function AssignLocations(fields: map<Attr, Value>, v: Value, env: Env): (r: (map<Attr, Value>, Outcome))
    ensures r.0 - {Locations} == fields - {Locations}
    ensures !Truthy(v) ==> r == (fields - {Locations}, Done)
    ensures Truthy(v) && !v.Arr? ==> r == (fields - {Locations}, Fail(Exception(TypeError, "locations")))
    ensures v.Arr? && v.elems == [] ==> r == (fields - {Locations}, Done)
  {
    var cleared := fields - {Locations};
    if !Truthy(v) then (cleared, Done)
    else if !v.Arr? then (cleared, Fail(Exception(TypeError, "locations")))
    else LocationsFold(cleared, v.elems, env)
  }

  /** Whether every element of `xs` gives a location. */
  predicate Resolves(xs: seq<Value>, env: Env) {
    forall i :: 0 <= i < |xs| ==> GetProp(xs[i], "relevantText").Ok? && env.geoPoint(xs[i]).Ok?
  }

  /** The location element `x` gives. */
  function LocationOf(x: Value, env: Env): Value
    requires GetProp(x, "relevantText").Ok? && env.geoPoint(x).Ok?
  {
    LocationRecord(env.geoPoint(x).value, GetProp(x, "relevantText").value)
  }

  /** The locations a fully resolving array gives, one per element, in order. */
  function Locs(xs: seq<Value>, env: Env): (r: seq<Value>)
    requires Resolves(xs, env)
    ensures |r| == |xs|
  {
    if xs == [] then [] else [LocationOf(xs[0], env)] + Locs(xs[1..], env)
  }

  lemma {:induction false} LocsAt(xs: seq<Value>, env: Env)
    requires Resolves(xs, env)
    ensures forall i :: 0 <= i < |xs| ==> Locs(xs, env)[i] == LocationOf(xs[i], env)
    decreases |xs|
  {
    if xs != [] {
      LocsAt(xs[1..], env);
      assert forall i :: 1 <= i < |xs| ==> xs[i] == xs[1..][i - 1];
    }
  }

  /** The loop completes exactly when every element resolves. */
  lemma {:induction false} FoldDone(fields: map<Attr, Value>, xs: seq<Value>, env: Env)
    ensures LocationsFold(fields, xs, env).1 == Done <==> Resolves(xs, env)
    decreases |xs|
  {
    if xs != [] {
      assert forall i :: 1 <= i < |xs| ==> xs[i] == xs[1..][i - 1];
      if GetProp(xs[0], "relevantText").Ok? && env.geoPoint(xs[0]).Ok? {
        FoldDone(WithLocation(fields, LocationOf(xs[0], env)), xs[1..], env);
      }
    }
  }

  /** When it completes, the loop appends its locations after the array
      already stored and leaves every other attribute alone. */
  lemma {:induction false} FoldAppends(fields: map<Attr, Value>, xs: seq<Value>, env: Env)
    requires xs != [] && Resolves(xs, env)
    ensures LocationsFold(fields, xs, env).0 == fields[Locations := Arr(Prior(fields) + Locs(xs, env))]
    decreases |xs|
  {
    ResolvesTail(xs, env);
    var loc := LocationOf(xs[0], env);
    var next := WithLocation(fields, loc);
    assert LocationsFold(fields, xs, env).0 == LocationsFold(next, xs[1..], env).0;
    if xs[1..] == [] {
      assert Locs(xs, env) == [loc];
    } else {
      FoldAppends(next, xs[1..], env);
      AppendStep(fields, loc, Locs(xs[1..], env));
    }
  }

  lemma ResolvesTail(xs: seq<Value>, env: Env)
    requires xs != [] && Resolves(xs, env)
    ensures GetProp(xs[0], "relevantText").Ok? && env.geoPoint(xs[0]).Ok?
    ensures Resolves(xs[1..], env)
    ensures Locs(xs, env) == [LocationOf(xs[0], env)] + Locs(xs[1..], env)
  {
    assert forall i :: 1 <= i < |xs| ==> xs[i] == xs[1..][i - 1];
  }

  lemma AppendStep(fields: map<Attr, Value>, loc: Value, tail: seq<Value>)
    ensures var next := WithLocation(fields, loc);
      next[Locations := Arr(Prior(next) + tail)] == fields[Locations := Arr(Prior(fields) + ([loc] + tail))]
  {
    assert Prior(WithLocation(fields, loc)) == Prior(fields) + [loc];
    assert (Prior(fields) + [loc]) + tail == Prior(fields) + ([loc] + tail);
  }

  /** Setting locations: a falsy value deletes them, another non-array is a
      TypeError, an empty array leaves none, and an array gives exactly one
      location per element, in order, when every element resolves, and fails
      otherwise; the other attributes are left alone either way. */
  lemma LocationsSetter(fields: map<Attr, Value>, v: Value, env: Env)
    ensures !Truthy(v) ==> AssignLocations(fields, v, env) == (fields - {Locations}, Done)
    ensures Truthy(v) && !v.Arr? ==>
      AssignLocations(fields, v, env) == (fields - {Locations}, Fail(Exception(TypeError, "locations")))
    ensures v.Arr? ==> (AssignLocations(fields, v, env).1 == Done <==> Resolves(v.elems, env))
    ensures v.Arr? && v.elems == [] ==> AssignLocations(fields, v, env).0 == fields - {Locations}
    ensures v.Arr? && v.elems != [] && Resolves(v.elems, env) ==>
      AssignLocations(fields, v, env).0 == fields[Locations := Arr(Locs(v.elems, env))]
  {
    if !v.Arr? || v.elems == [] {
      return;
    }
    FoldDone(fields - {Locations}, v.elems, env);
    if Resolves(v.elems, env) {
      FoldAppends(fields - {Locations}, v.elems, env);
      assert Prior(fields - {Locations}) == [];
      assert [] + Locs(v.elems, env) == Locs(v.elems, env);
      assert (fields - {Locations})[Locations := Arr(Locs(v.elems, env))] == fields[Locations := Arr(Locs(v.elems, env))];
    }
  }

  // --------------------------------------------------------------- pass.json

  /** The value toJSON emits for a stored attribute: a Date as its W3C string. */
  function JsonValue(v: Value, host: Host): Value {
    if v.DateV? then Str(GetW3CDateString(v, host).value) else v
  }

  /** The object toJSON returns: formatVersion 1 and every stored attribute
      under its name, Dates as their W3C string. */
  function AttrsJson(fields: map<Attr, Value>, host: Host): (r: map<string, Value>)
    ensures "formatVersion" in r && r["formatVersion"] == Num(Finite(1.0))
  {
    NoFormatVersionAttr();
    map["formatVersion" := Num(Finite(1.0))] + Named(JsonValues(fields, host))
  }

  /** The stored attributes with the values toJSON emits for them. */
  function JsonValues(fields: map<Attr, Value>, host: Host): (r: map<Attr, Value>)
    ensures r.Keys == fields.Keys
  {
    map a | a in fields :: JsonValue(fields[a], host)
  }

  /** Attributes keyed by their names. */
  function Named(m: map<Attr, Value>): (r: map<string, Value>)
    ensures r.Keys == Names(m.Keys)
  {
    AttrOfNames();
    map k | k in Names(m.Keys) :: m[AttrOf(k).value]
  }

  function Names(attrs: set<Attr>): set<string> {
    set a | a in attrs :: AttrName(a)
  }

  lemma NamesAdd(attrs: set<Attr>, a: Attr)
    ensures Names(attrs + {a}) == Names(attrs) + {AttrName(a)}
  {
    forall k | k in Names(attrs + {a}) ensures k in Names(attrs) + {AttrName(a)} {
      var b :| b in attrs + {a} && AttrName(b) == k;
      if b != a {
        assert k in Names(attrs);
      }
    }
  }

  lemma AttrOfNames()
    ensures forall a :: AttrOf(AttrName(a)) == Some(a)
  {
    forall a ensures AttrOf(AttrName(a)) == Some(a) {
      AttrOfName(a);
    }
  }

  /** pass.json holds formatVersion and the name of every stored attribute,
      and nothing else. */
  lemma AttrsJsonKeys(fields: map<Attr, Value>, host: Host)
    ensures AttrsJson(fields, host).Keys == {"formatVersion"} + set a | a in fields :: AttrName(a)
  {
  }

  /** Each stored attribute appears under its own name, a Date as its W3C
      string, and formatVersion is not overwritten. */
  lemma AttrsJsonValues(fields: map<Attr, Value>, host: Host)
    ensures AttrsJson(fields, host)["formatVersion"] == Num(Finite(1.0))
    ensures forall a :: a in fields ==> AttrsJson(fields, host)[AttrName(a)] == JsonValue(fields[a], host)
  {
    NoFormatVersionAttr();
    forall a | a in fields
      ensures AttrsJson(fields, host)[AttrName(a)] == JsonValue(fields[a], host)
    {
      NamedAt(JsonValues(fields, host), a);
    }
  }

  lemma NamedAt(m: map<Attr, Value>, a: Attr)
    requires a in m
    ensures AttrName(a) in Named(m) && Named(m)[AttrName(a)] == m[a]
  {
    AttrOfName(a);
  }

  /** Adding an attribute adds its entry to pass.json and changes no other. */
  lemma AttrsJsonAdd(fields: map<Attr, Value>, a: Attr, v: Value, host: Host)
    ensures AttrsJson(fields[a := v], host) == AttrsJson(fields, host)[AttrName(a) := JsonValue(v, host)]
  {
    var x := JsonValue(v, host);
    assert JsonValues(fields[a := v], host) == JsonValues(fields, host)[a := x];
    NamedAdd(JsonValues(fields, host), a, x);
    NoFormatVersionAttr();
    UnionUpdate(map["formatVersion" := Num(Finite(1.0))], Named(JsonValues(fields, host)), AttrName(a), x);
  }

  lemma NamedAdd(m: map<Attr, Value>, a: Attr, x: Value)
    ensures Named(m[a := x]) == Named(m)[AttrName(a) := x]
  {
    var lhs := Named(m[a := x]);
    var rhs := Named(m)[AttrName(a) := x];
    assert (m[a := x]).Keys == m.Keys + {a};
    NamesAdd(m.Keys, a);
    AttrOfName(a);
    forall k | k in lhs ensures lhs[k] == rhs[k] {
      if k != AttrName(a) {
        assert AttrOf(k).value != a;
      }
    }
  }

  lemma UnionUpdate(base: map<string, Value>, m: map<string, Value>, k: string, x: Value)
    requires k !in base
    ensures base + m[k := x] == (base + m)[k := x]
  {
  }

  /** With no attribute stored, pass.json is formatVersion alone. */
  lemma AttrsJsonEmpty(fields: map<Attr, Value>, host: Host)
    requires fields == map[]
    ensures AttrsJson(fields, host) == map["formatVersion" := Num(Finite(1.0))]
  {
    AttrsJsonKeys(fields, host);
  }

  /** One step of toJSON's loop over the stored attributes. */
  lemma AttrsJsonStep(fields: map<Attr, Value>, rest: set<Attr>, a: Attr, host: Host)
    requires a in rest && rest <= fields.Keys
    ensures AttrsJson(fields - (rest - {a}), host)
         == AttrsJson(fields - rest, host)[AttrName(a) := JsonValue(fields[a], host)]
  {
    assert (fields - rest)[a := fields[a]] == fields - (rest - {a});
    AttrsJsonAdd(fields - rest, a, fields[a], host);
  }

  /** formatVersion, style and transitType name no top-level setter. */
  lemma NoFormatVersionAttr()
    ensures forall a :: AttrName(a) != "formatVersion"
  {
  }

  lemma StyleKeysNoAttr()
    ensures AttrOf("style").None? && AttrOf("transitType").None?
  {
    assert forall a :: AttrName(a) != "style" && AttrName(a) != "transitType";
  }

  /** The object toJSON returns: formatVersion 1, every stored attribute
      under its name with Dates as their W3C string, and the entries of the
      style part. */
  function PassJson(fields: map<Attr, Value>, parts: Parts, env: Env): map<string, Value>
    requires ListsValid(parts.lists)
  {
    AttrsJson(fields, env.host) + StructureJson(parts, env.host, env.nfcJson)
  }

  /** No attribute is named after a style or nfc. */
  lemma StyleNoAttr(s: Style)
    ensures forall a :: AttrName(a) != StyleName(s)
  {
    match s
    case BoardingPass => assert forall a :: AttrName(a) != "boardingPass";
    case Coupon => assert forall a :: AttrName(a) != "coupon";
    case EventTicket => assert forall a :: AttrName(a) != "eventTicket";
    case StoreCard => assert forall a :: AttrName(a) != "storeCard";
    case Generic => assert forall a :: AttrName(a) != "generic";
  }

  lemma NfcNoAttr()
    ensures forall a :: AttrName(a) != "nfc"
  {
  }

  /** No attribute name is a key of the style part. */
  lemma AttrNotStructureKey(parts: Parts, env: Env, a: Attr)
    requires ListsValid(parts.lists)
    ensures AttrName(a) !in StructureJson(parts, env.host, env.nfcJson)
  {
    NfcNoAttr();
    if StyleIn(parts.styles).Some? {
      StyleNoAttr(StyleIn(parts.styles).value);
    }
  }

  /** No style name is a key of the attribute part. */
  lemma StyleNotAttrsKey(fields: map<Attr, Value>, host: Host, s: Style)
    ensures StyleName(s) !in AttrsJson(fields, host)
  {
    AttrsJsonKeys(fields, host);
    StyleNoAttr(s);
    StyleNameFirst(s);
  }

  /** pass.json holds formatVersion, the name of every stored attribute, the
      name of the style when there is one, nfc while there is an NFC object,
      and nothing else. */
  lemma PassJsonKeys(fields: map<Attr, Value>, parts: Parts, env: Env)
    requires ListsValid(parts.lists)
    ensures PassJson(fields, parts, env).Keys
         == {"formatVersion"} + (set a | a in fields :: AttrName(a)) + StructureJson(parts, env.host, env.nfcJson).Keys
    ensures forall s :: StyleName(s) in PassJson(fields, parts, env) <==> StyleIn(parts.styles) == Some(s)
    ensures "nfc" in PassJson(fields, parts, env) <==> parts.nfc.Some?
  {
    AttrsJsonKeys(fields, env.host);
    NfcNoAttr();
    forall s ensures StyleName(s) in PassJson(fields, parts, env) <==> StyleIn(parts.styles) == Some(s) {
      StyleNotAttrsKey(fields, env.host, s);
      StructureJsonStyle(parts, env.host, env.nfcJson, s);
    }
  }

  /** Each stored attribute appears under its own name, a Date as its W3C
      string, and formatVersion is 1. */
  lemma PassJsonValues(fields: map<Attr, Value>, parts: Parts, env: Env)
    requires ListsValid(parts.lists)
    ensures PassJson(fields, parts, env)["formatVersion"] == Num(Finite(1.0))
    ensures forall a :: a in fields ==> PassJson(fields, parts, env)[AttrName(a)] == JsonValue(fields[a], env.host)
  {
    AttrsJsonValues(fields, env.host);
    var sj := StructureJson(parts, env.host, env.nfcJson);
    if StyleIn(parts.styles).Some? {
      StyleNameFirst(StyleIn(parts.styles).value);
    }
    assert "formatVersion" !in sj;
    forall a | a in fields ensures AttrName(a) !in sj {
      AttrNotStructureKey(parts, env, a);
    }
  }

  /** The style object sits under the name of the style, and the NFC object
      under nfc. */
  lemma PassJsonStructure(fields: map<Attr, Value>, parts: Parts, env: Env)
    requires ListsValid(parts.lists)
    ensures StyleIn(parts.styles).Some? ==>
              var s := StyleIn(parts.styles).value;
              PassJson(fields, parts, env)[StyleName(s)] == Obj(StyleJson(parts.styles[s], parts.lists, env.host))
    ensures parts.nfc.Some? ==> PassJson(fields, parts, env)["nfc"] == env.nfcJson(parts.nfc.value)
  {
  }

  /** With no attribute stored, no style and no NFC object, pass.json is
      formatVersion alone. */
  lemma PassJsonEmpty(fields: map<Attr, Value>, parts: Parts, env: Env)
    requires ListsValid(parts.lists)
    requires fields == map[] && parts.styles == map[] && parts.nfc == None
    ensures PassJson(fields, parts, env) == map["formatVersion" := Num(Finite(1.0))]
  {
    AttrsJsonEmpty(fields, env.host);
    assert StructureJson(parts, env.host, env.nfcJson) == map[];
  }

  /** Storing one more attribute adds its entry to pass.json and changes no other. */
  lemma PassJsonAdd(fields: map<Attr, Value>, parts: Parts, a: Attr, v: Value, env: Env)
    requires ListsValid(parts.lists)
    ensures PassJson(fields[a := v], parts, env) == PassJson(fields, parts, env)[AttrName(a) := JsonValue(v, env.host)]
  {
    AttrsJsonAdd(fields, a, v, env.host);
    AttrNotStructureKey(parts, env, a);
    UpdateUnion(AttrsJson(fields, env.host), StructureJson(parts, env.host, env.nfcJson), AttrName(a), JsonValue(v, env.host));
  }

  lemma UpdateUnion(m: map<string, Value>, s: map<string, Value>, k: string, x: Value)
    requires k !in s
    ensures m[k := x] + s == (m + s)[k := x]
  {
  }

  /** A stored Date comes out of pass.json as its W3C string, which decodes to
      the same instant truncated to the minute, for years 2000 to 2099 and
      whole- or half-hour offsets whose zone designator is written right, when
      the host's local time agrees with it. */
  lemma JsonDateRoundTrip(fields: map<Attr, Value>, parts: Parts, a: Attr, ms: int, env: Env)
    requires ListsValid(parts.lists)
    requires a in fields && fields[a] == DateV(DateAt(ms))
    requires Encodable(env.host.local(ms)) && ZoneWrittenRight(env.host.local(ms).offset)
    requires LocalTimeAgrees(ms, env.host.local(ms))
    ensures GetDateFromW3CString(PassJson(fields, parts, env)[AttrName(a)]) == Ok(DateAt(ms - ms % MS_PER_MINUTE))
  {
    var w := GetW3CDateString(DateV(DateAt(ms)), env.host);
    RoundTrip(ms, env.host);
    PassJsonValues(fields, parts, env);
    assert PassJson(fields, parts, env)[AttrName(a)] == Str(w.value);
  }

  // ------------------------------------------------------------ the class

  class PassBase {
    /** The style part of the pass. */
    const structure: PassStructure
    const images: PassImages
    /** The top-level attributes. */
    var fields: map<Attr, Value>
    /** The options handed to the constructor (allowHttp). */
    var options: Value

    ghost predicate Valid()
      reads this, structure, images
    {
      structure.Valid() && images.Valid()
    }

    constructor (structure: PassStructure, images: PassImages, options: Value)
      requires structure.Valid() && images.Valid()
      ensures Valid()
      ensures this.structure == structure && this.images == images
      ensures fields == map[] && this.options == options
    {
      this.structure := structure;
      this.images := images;
      fields := map[];
      this.options := options;
    }

    /** A setter other than `locations`: on success the record is the one
        Assign gives; on failure it is untouched. */
    method Set(a: Attr, v: Value, env: Env) returns (r: Outcome)
      requires !a.Locations?
      modifies this
      ensures options == old(options)
      ensures Assign(old(fields), a, v, options, env).Err? ==>
        r == Fail(Assign(old(fields), a, v, options, env).error) && fields == old(fields)
      ensures Assign(old(fields), a, v, options, env).Ok? ==>
        r == Done && fields == Assign(old(fields), a, v, options, env).value
    {
      if (a.Beacons? || a.Barcodes?) && Truthy(v) && v.Arr? {
        r := SetEntries(a, v, env);
        return;
      }
      var stored := Stored(a, v, Current(fields, a), options, env);
      if stored.Err? {
        return Fail(stored.error);
      }
      if stored.value.None? {
        fields := fields - {a};
      } else {
        fields := fields[a := stored.value.value];
      }
      return Done;
    }

    /** beacons or barcodes set to an array: every entry is checked, then
        the array is stored. */
    method SetEntries(a: Attr, v: Value, env: Env) returns (r: Outcome)
      requires (a.Beacons? || a.Barcodes?) && Truthy(v) && v.Arr?
      modifies this
      ensures options == old(options)
      ensures var s := Stored(a, v, Current(old(fields), a), options, env);
        && (s.Err? ==> r == Fail(s.error) && fields == old(fields))
        && (s.Ok? ==> r == Done && fields == old(fields)[a := v])
    {
      r := CheckEach(v.elems, if a.Beacons? then BeaconOk else BarcodeOk, AttrName(a));
      if r.Fail? {
        return;
      }
      fields := fields[a := Arr(v.elems)];
    }

    /** addLocation: the point is resolved, then the location appended. */
    method AddLocation(point: Value, relevantText: Value, env: Env) returns (r: Outcome)
      modifies this
      ensures options == old(options)
      ensures env.geoPoint(point).Err? ==> r == Fail(env.geoPoint(point).error) && fields == old(fields)
      ensures env.geoPoint(point).Ok? ==>
        r == Done && fields == WithLocation(old(fields), LocationRecord(env.geoPoint(point).value, relevantText))
    {
      var g := env.geoPoint(point);
      if g.Err? {
        return Fail(g.error);
      }
      var location := LocationRecord(g.value, relevantText);
      if Locations in fields && fields[Locations].Arr? {
        fields := fields[Locations := Arr(fields[Locations].elems + [location])];
      } else {
        fields := fields[Locations := Arr([location])];
      }
      return Done;
    }

    /** `locations = v`: the record and the outcome AssignLocations gives,
        including the locations added before a failing element. */
    method SetLocations(v: Value, env: Env) returns (r: Outcome)
      modifies this
      ensures options == old(options)
      ensures (fields, r) == AssignLocations(old(fields), v, env)
    {
      fields := fields - {Locations};
      if !Truthy(v) {
        return Done;
      }
      if !v.Arr? {
        return Fail(Exception(TypeError, "locations"));
      }
      for i := 0 to |v.elems|
        invariant options == old(options)
        invariant LocationsFold(fields, v.elems[i..], env) == AssignLocations(old(fields), v, env)
      {
        var location := v.elems[i];
        assert v.elems[i..][0] == location && v.elems[i..][1..] == v.elems[i + 1..];
        var text := GetProp(location, "relevantText");
        if text.Err? {
          return Fail(text.error);
        }
        r := AddLocation(location, text.value, env);
        if r.Fail? {
          return;
        }
      }
      return Done;
    }

    /** A setter by attribute, as the constructor's replay calls it. */
    method SetAttr(a: Attr, v: Value, env: Env) returns (r: Outcome)
      modifies this
      ensures options == old(options)
      ensures (fields, r) == AssignAny(old(fields), a, v, options, env)
    {
      if a.Locations? {
        r := SetLocations(v, env);
      } else {
        r := Set(a, v, env);
      }
    }

    /** `JSON.stringify(this)`: the object toJSON returns, and the field
        lists of the style part left serialized in place by their own
        toJSON; the attributes are untouched. */
    method Stringify(env: Env) returns (r: Value)
      requires Valid()
      modifies structure
      ensures Valid()
      ensures r == Obj(PassJson(fields, old(structure.State()), env))
      ensures structure.State() == old(structure.State()).(lists := SerializedLists(old(structure.lists), env.host))
    {
      r := ToJSON(env);
      structure.SerializeLists(env.host);
    }

    /** `toJSON`: formatVersion, the stored attributes with Dates as W3C
        strings, and the entries of the style part. */
    method ToJSON(env: Env) returns (r: Value)
      requires Valid()
      ensures r == Obj(PassJson(fields, structure.State(), env))
    {
      var host := env.host;
      var res := map["formatVersion" := Num(Finite(1.0))];
      var rest := fields.Keys;
      AttrsJsonEmpty(fields - rest, host);
      while rest != {}
        invariant rest <= fields.Keys
        invariant res == AttrsJson(fields - rest, host)
        decreases rest
      {
        var a :| a in rest;
        var value := fields[a];
        AttrsJsonStep(fields, rest, a, host);
        res := res[AttrName(a) := if value.DateV? then Str(GetW3CDateString(value, host).value) else value];
        rest := rest - {a};
      }
      assert fields - rest == fields;
      var parts := StructureJson(structure.State(), host, env.nfcJson);
      return Obj(res + parts);
    }

    /** One entry of the constructor's replay: `style` and `transitType` go
        to the style part, the name of a setter to that setter, anything else
        is passed over. */
    method ReplayEntry(key: string, value: Value, env: Env) returns (r: Outcome)
      requires Valid()
      modifies this, structure
      ensures Valid() && options == old(options)
      ensures (fields, structure.State(), r) == EntryStep(old(fields), old(structure.State()), key, value, options, env)
    {
      var a := AttrOf(key);
      if key == "style" || key == "transitType" {
        assert a.None? by {
          StyleKeysNoAttr();
        }
        r := SetStyleEntry(key == "style", value);
      } else if a.Some? {
        r := SetAttr(a.value, value, env);
      } else {
        r := Done;
      }
    }

    /** The `style` and `transitType` setters, which belong to the style part. */
    method SetStyleEntry(isStyle: bool, value: Value) returns (r: Outcome)
      requires Valid()
      modifies structure
      ensures Valid()
      ensures isStyle ==> (structure.State(), r) == StyleAssign(old(structure.State()), value)
      ensures !isStyle ==> (structure.State(), r) == TransitAssign(old(structure.State()), value)
    {
      if isStyle {
        r := structure.SetStyle(value);
      } else {
        r := structure.SetTransitType(value);
      }
    }

    /** The constructor's replay of its argument's entries, in order; the
        first failure stops it. */
    method Replay(entries: seq<(string, Value)>, env: Env) returns (r: Outcome)
      requires Valid()
      modifies this, structure
      ensures Valid() && options == old(options)
      ensures (fields, structure.State(), r) == ReplayAll(old(fields), old(structure.State()), entries, options, env)
    {
      r := Done;
      for i := 0 to |entries|
        invariant Valid() && options == old(options) && r == Done
        invariant ReplayAll(fields, structure.State(), entries[i..], options, env)
               == ReplayAll(old(fields), old(structure.State()), entries, options, env)
      {
        assert entries[i..][0] == entries[i] && entries[i..][1..] == entries[i + 1..];
        r := ReplayEntry(entries[i].0, entries[i].1, env);
        if r.Fail? {
          return;
        }
      }
    }
  }

  /** One entry of the constructor's replay, on the attributes and the state
      of the style part. */
  function EntryStep(fields: map<Attr, Value>, parts: Parts, key: string, value: Value, options: Value, env: Env)
    : (r: (map<Attr, Value>, Parts, Outcome))
    ensures key == "style" || key == "transitType" || AttrOf(key).None? ==> r.0 == fields
    ensures key != "style" && key != "transitType" ==> r.1 == parts
    ensures AttrOf(key).Some? ==> (r.0, r.2) == AssignAny(fields, AttrOf(key).value, value, options, env)
  {
    if key == "style" then
      var (p, o) := StyleAssign(parts, value);
      (fields, p, o)
    else if key == "transitType" then
      StyleKeysNoAttr();
      var (p, o) := TransitAssign(parts, value);
      (fields, p, o)
    else match AttrOf(key)
      case None => (fields, parts, Done)
      case Some(a) =>
        var (next, o) := AssignAny(fields, a, value, options, env);
        (next, parts, o)
  }

  /** Any setter, `locations` included, as a record and an outcome. */
  function AssignAny(fields: map<Attr, Value>, a: Attr, v: Value, options: Value, env: Env)
    : (map<Attr, Value>, Outcome)
  {
    if a.Locations? then AssignLocations(fields, v, env)
    else match Assign(fields, a, v, options, env)
      case Err(e) => (fields, Fail(e))
      case Ok(next) => (next, Done)
  }

  /** The attributes and the state of the style part after the
      constructor's replay of `entries`, and how it ends: the first failing
      entry stops it, keeping what it changed. */
  function ReplayAll(fields: map<Attr, Value>, parts: Parts, entries: seq<(string, Value)>, options: Value, env: Env)
    : (map<Attr, Value>, Parts, Outcome)
    decreases |entries|
  {
    if entries == [] then (fields, parts, Done)
    else
      var (next, p, o) := EntryStep(fields, parts, entries[0].0, entries[0].1, options, env);
      if o.Fail? then (next, p, o) else ReplayAll(next, p, entries[1..], options, env)
  }

  /** A replay whose keys name neither `style` nor `transitType` leaves the
      style part as it was. */
  lemma {:induction false} ReplayKeepsParts(fields: map<Attr, Value>, parts: Parts, entries: seq<(string, Value)>,
                                            options: Value, env: Env)
    requires forall i :: 0 <= i < |entries| ==> entries[i].0 != "style" && entries[i].0 != "transitType"
    ensures ReplayAll(fields, parts, entries, options, env).1 == parts
    decreases |entries|
  {
    if entries != [] {
      var (next, p, o) := EntryStep(fields, parts, entries[0].0, entries[0].1, options, env);
      if o.Done? {
        ReplayKeepsParts(next, p, entries[1..], options, env);
      }
    }
  }

  /** The validation loops of the barcodes and beacons setters: the first
      entry that fails the check throws, before anything is stored. */
  method CheckEach(xs: seq<Value>, ok: Value -> bool, name: string) returns (r: Outcome)
    ensures r.Done? <==> AllOk(xs, ok)
    ensures r.Fail? ==> r == Fail(Exception(TypeError, name))
  {
    for i := 0 to |xs|
      invariant forall j :: 0 <= j < i ==> ok(xs[j])
    {
      if !ok(xs[i]) {
        return Fail(Exception(TypeError, name));
      }
    }
    return Done;
  }

  /** No key occurs twice among the entries, as with Object.entries. */
  predicate DistinctKeys(entries: seq<(string, Value)>) {
    forall i, j :: 0 <= i < j < |entries| ==> entries[i].0 != entries[j].0
  }

  /** The constructor's argument as an object: with distinct keys, each
      entry's value under its key. */
  function EntriesMap(entries: seq<(string, Value)>): (m: map<string, Value>)
    ensures forall i :: 0 <= i < |entries| ==> entries[i].0 in m
    ensures forall k :: k in m ==> exists i :: 0 <= i < |entries| && entries[i].0 == k
  {
    if entries == [] then map[]
    else EntriesMap(entries[..|entries| - 1])[entries[|entries| - 1].0 := entries[|entries| - 1].1]
  }

  /** With distinct keys, each entry's value is the one under its key. */
  lemma {:induction false} EntriesMapValues(entries: seq<(string, Value)>)
    requires DistinctKeys(entries)
    ensures forall i :: 0 <= i < |entries| ==> EntriesMap(entries)[entries[i].0] == entries[i].1
  {
    if entries != [] {
      var init := entries[..|entries| - 1];
      EntriesMapValues(init);
      forall i | 0 <= i < |entries| ensures EntriesMap(entries)[entries[i].0] == entries[i].1 {
        if i < |entries| - 1 {
          assert init[i] == entries[i];
        }
      }
    }
  }

  /** The constructor: the style part loads the argument, the options are
      kept, then each entry is replayed through its setter, and the images
      are copied. */
  method NewPassBase(entries: seq<(string, Value)>, images: PassImages?, options: Value, env: Env)
    returns (r: Result<PassBase>)
    requires DistinctKeys(entries)
    requires images != null ==> images.Valid()
    ensures var (loaded, load) := LoadResult(EntriesMap(entries), env.host);
      && (load.Fail? ==> r == Err(load.error))
      && (load.Done? ==>
        var (fields, parts, o) := ReplayAll(map[], loaded, entries, options, env);
        && (o.Fail? ==> r == Err(o.error))
        && (o.Done? ==> r.Ok? && r.value.fields == fields && r.value.structure.State() == parts))
    ensures LoadResult(EntriesMap(entries), env.host).1.Done? ==>
      StyleIn(LoadResult(EntriesMap(entries), env.host).0.styles) == LastStyleIn(PASS_STYLES, EntriesMap(entries))
    ensures r.Ok? ==> fresh(r.value) && r.value.Valid() && r.value.options == options
  {
    var structure := new PassStructure();
    var load := structure.Load(EntriesMap(entries), env.host);
    if load.Fail? {
      return Err(load.error);
    }
    var copy := new PassImages(images);
    var pass := new PassBase(structure, copy, options);
    var replayed := pass.Replay(entries, env);
    if replayed.Fail? {
      return Err(replayed.error);
    }
    return Ok(pass);
  }
}
