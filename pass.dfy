/** Pass: a PassBase with the template that signs it. `validate` checks the
    required top-level attributes, the web service pair and the images;
    `asBuffer` lists the bundle's members in order, with the manifest of
    their hashes and the signature over that manifest. */
module Bundle {
  import opened JsValues
  import opened Constants
  import opened W3CDate
  import opened Images
  import opened Structure
  import opened BasePass

  // ----------------------------------------------------------- validation

  /** The attributes `validate` requires, in the order it checks them. */
  const REQUIRED: seq<Attr> :=
    [Description, OrganizationName, PassTypeIdentifier, SerialNumber, TeamIdentifier]

  /** The first of `names` the record does not hold. */
  function FirstMissing(fields: map<Attr, Value>, names: seq<Attr>): Option<Attr>
    decreases |names|
  {
    if names == [] then None
    else if names[0] !in fields then Some(names[0])
    else FirstMissing(fields, names[1..])
  }

  /** What the record holds under `a`, `undefined` when absent. */
  function Lookup(fields: map<Attr, Value>, a: Attr): Value {
    if a in fields then fields[a] else Undefined
  }

  /** The outcome of `validate` over the attribute record and the image names. */
  function ValidatePass(fields: map<Attr, Value>, imageKeys: seq<string>): Outcome {
    match FirstMissing(fields, REQUIRED)
    case Some(a) => Fail(Exception(ReferenceError, AttrName(a)))
    case None =>
      if WebServiceUrl in fields then
        var token := Lookup(fields, AuthenticationToken);
        if !token.Str? then Fail(Exception(PlainError, "authenticationToken"))
        else if |token.s| < 16 then Fail(Exception(ReferenceError, "authenticationToken"))
        else ValidateKeys(imageKeys)
      else if AuthenticationToken in fields then Fail(Exception(TypeError, "authenticationToken"))
      else ValidateKeys(imageKeys)
  }

  /** The first missing name is one the record lacks, every name before it
      is held, and there is none exactly when all are held. */
  lemma {:induction false} FirstMissingMeaning(fields: map<Attr, Value>, names: seq<Attr>)
    ensures FirstMissing(fields, names).None? <==> forall i :: 0 <= i < |names| ==> names[i] in fields
    ensures FirstMissing(fields, names).Some? ==>
      exists i :: 0 <= i < |names| && names[i] == FirstMissing(fields, names).value
               && names[i] !in fields && forall j :: 0 <= j < i ==> names[j] in fields
    decreases |names|
  {
    if names != [] && names[0] in fields {
      FirstMissingMeaning(fields, names[1..]);
      assert forall i :: 1 <= i < |names| ==> names[i] == names[1..][i - 1];
      if FirstMissing(fields, names).Some? {
        var k :| 0 <= k < |names[1..]| && names[1..][k] == FirstMissing(fields, names).value
               && names[1..][k] !in fields && forall j :: 0 <= j < k ==> names[1..][j] in fields;
        assert names[k + 1] == names[1..][k];
        assert forall j :: 1 <= j < k + 1 ==> names[j] == names[1..][j - 1];
      }
    }
  }

  /** A name missing after only held ones is the first missing. */
  lemma {:induction false} FirstMissingAt(fields: map<Attr, Value>, names: seq<Attr>, i: nat)
    requires i < |names| && names[i] !in fields
    requires forall j :: 0 <= j < i ==> names[j] in fields
    ensures FirstMissing(fields, names) == Some(names[i])
    decreases i
  {
    if i > 0 {
      FirstMissingAt(fields, names[1..], i - 1);
    }
  }

  /** `validate` passes exactly when the required attributes are all held,
      webServiceURL and authenticationToken come together with a token of
      16 characters or more, and the images pass. */
  lemma ValidatePassDone(fields: map<Attr, Value>, imageKeys: seq<string>)
    ensures ValidatePass(fields, imageKeys).Done? <==>
      && (forall i :: 0 <= i < |REQUIRED| ==> REQUIRED[i] in fields)
      && (WebServiceUrl in fields <==> AuthenticationToken in fields)
      && (AuthenticationToken in fields ==>
            fields[AuthenticationToken].Str? && |fields[AuthenticationToken].s| >= 16)
      && ValidateKeys(imageKeys).Done?
  {
    FirstMissingMeaning(fields, REQUIRED);
  }

  /** A missing required attribute fails with a ReferenceError naming the
      first one missing, before anything else is looked at. */
  lemma ValidatePassMissing(fields: map<Attr, Value>, imageKeys: seq<string>, i: nat)
    requires i < |REQUIRED| && REQUIRED[i] !in fields
    requires forall j :: 0 <= j < i ==> REQUIRED[j] in fields
    ensures ValidatePass(fields, imageKeys) == Fail(Exception(ReferenceError, AttrName(REQUIRED[i])))
  {
    FirstMissingAt(fields, REQUIRED, i);
  }

  /** With every required attribute held, the web service pair decides
      the error: a token that is no string is an Error, a short one a
      ReferenceError, a token without a URL a TypeError. */
  lemma ValidatePassToken(fields: map<Attr, Value>, imageKeys: seq<string>)
    requires forall i :: 0 <= i < |REQUIRED| ==> REQUIRED[i] in fields
    ensures var r := ValidatePass(fields, imageKeys);
      && (WebServiceUrl in fields && !Lookup(fields, AuthenticationToken).Str? ==>
            r == Fail(Exception(PlainError, "authenticationToken")))
      && (WebServiceUrl in fields && Lookup(fields, AuthenticationToken).Str?
          && |Lookup(fields, AuthenticationToken).s| < 16 ==>
            r == Fail(Exception(ReferenceError, "authenticationToken")))
      && (WebServiceUrl !in fields && AuthenticationToken in fields ==>
            r == Fail(Exception(TypeError, "authenticationToken")))
  {
    FirstMissingMeaning(fields, REQUIRED);
  }

  /** The names of the attributes `validate` requires. */
  const REQUIRED_NAMES: set<string> :=
    {"description", "organizationName", "passTypeIdentifier", "serialNumber", "teamIdentifier"}

  /** The attributes `validate` requires are the ones named in REQUIRED_NAMES. */
  lemma RequiredNamed()
    ensures forall i :: 0 <= i < |REQUIRED| ==> AttrName(REQUIRED[i]) in REQUIRED_NAMES
    ensures forall k :: k in REQUIRED_NAMES ==> exists i :: 0 <= i < |REQUIRED| && AttrName(REQUIRED[i]) == k
  {
    assert AttrName(REQUIRED[0]) == "description";
    assert AttrName(REQUIRED[1]) == "organizationName";
    assert AttrName(REQUIRED[2]) == "passTypeIdentifier";
    assert AttrName(REQUIRED[3]) == "serialNumber";
    assert AttrName(REQUIRED[4]) == "teamIdentifier";
  }

  /** REQUIRED_NAMES are exactly the entries of TOP_LEVEL_FIELDS flagged as
      required. */
  lemma RequiredAreTopLevelRequired(k: string)
    ensures k in TOP_LEVEL_REQUIRED && TOP_LEVEL_REQUIRED[k] <==> k in REQUIRED_NAMES
  {
  }

  // -------------------------------------------------------------- members

  /** What a bundle member holds: a string or the bytes of a Buffer. */
  datatype Data = Text(text: string) | Bytes(bytes: seq<bv8>)

  /** `{path, data}` */
  datatype Member = Member(path: string, data: Data)

  /** The signing material of the template. */
  datatype Template = Template(certificate: Value, key: Value)

  /** The collaborators outside the model: JSON.stringify, the UTF-8 bytes
      of a string (Buffer.from), getBufferHash and signManifest. */
  datatype Crypto = Crypto(stringify: Value -> string, utf8: string -> seq<bv8>,
                           hash: Data -> string, sign: (Value, Value, string) -> Data)

  /** The manifest object: each path mapped to the hash of its data, a
      later member overwriting an earlier one of the same path. */
  function Manifest(members: seq<Member>, hash: Data -> string): map<string, Value>
    decreases |members|
  {
    if members == [] then map[]
    else
      var last := members[|members| - 1];
      Manifest(members[..|members| - 1], hash)[last.path := Str(hash(last.data))]
  }

  /** The paths of the members. */
  function Paths(members: seq<Member>): set<string> {
    set i | 0 <= i < |members| :: members[i].path
  }

  /** The manifest names every member's path and nothing else. */
  lemma {:induction false} ManifestKeys(members: seq<Member>, hash: Data -> string)
    ensures Manifest(members, hash).Keys == Paths(members)
    decreases |members|
  {
    if members != [] {
      var init := members[..|members| - 1];
      ManifestKeys(init, hash);
      assert forall i :: 0 <= i < |init| ==> init[i] == members[i];
      forall p | p in Paths(members) ensures p in Paths(init) + {members[|members| - 1].path} {
        var i :| 0 <= i < |members| && members[i].path == p;
        if i < |init| {
          assert init[i].path == p;
        }
      }
    }
  }

  /** A path's entry is the hash of the last member with that path. */
  lemma {:induction false} ManifestValue(members: seq<Member>, hash: Data -> string, i: nat)
    requires i < |members|
    requires forall j :: i < j < |members| ==> members[j].path != members[i].path
    ensures members[i].path in Manifest(members, hash)
    ensures Manifest(members, hash)[members[i].path] == Str(hash(members[i].data))
    decreases |members|
  {
    if i < |members| - 1 {
      var init := members[..|members| - 1];
      assert init[i] == members[i];
      ManifestValue(init, hash, i);
    }
  }

  /** The members asBuffer hands to the zip writer: pass.json, the
      localization files, the images, manifest.json and the signature. */
  function Bundle(passJson: Data, localization: seq<Member>, images: seq<Member>,
                  template: Template, crypto: Crypto): seq<Member>
  {
    var before := [Member("pass.json", passJson)] + localization + images;
    var manifestJson := crypto.stringify(Obj(Manifest(before, crypto.hash)));
    before + [Member("manifest.json", Text(manifestJson))]
      + [Member("signature", crypto.sign(template.certificate, template.key, manifestJson))]
  }

  /** The members come in the order the source pushes them. */
  lemma BundleOrder(passJson: Data, localization: seq<Member>, images: seq<Member>,
                    template: Template, crypto: Crypto)
    ensures var b := Bundle(passJson, localization, images, template, crypto);
      && |b| == |localization| + |images| + 3
      && b[0] == Member("pass.json", passJson)
      && b[1..|localization| + 1] == localization
      && b[|localization| + 1..|b| - 2] == images
      && b[|b| - 2].path == "manifest.json"
      && b[|b| - 1].path == "signature"
  {
    var b := Bundle(passJson, localization, images, template, crypto);
    var before := [Member("pass.json", passJson)] + localization + images;
    assert b[..|before|] == before;
    assert before[1..|localization| + 1] == localization;
    assert before[|localization| + 1..] == images;
  }

  /** manifest.json is the JSON of the manifest of exactly the members
      before it; it names neither itself nor the signature unless an earlier
      member already had that path. */
  lemma BundleManifest(passJson: Data, localization: seq<Member>, images: seq<Member>,
                       template: Template, crypto: Crypto)
    ensures var b := Bundle(passJson, localization, images, template, crypto);
      var m := Manifest(b[..|b| - 2], crypto.hash);
      && b[|b| - 2].data == Text(crypto.stringify(Obj(m)))
      && m.Keys == Paths(b[..|b| - 2])
      && ("manifest.json" in m ==> exists i :: 0 <= i < |b| - 2 && b[i].path == "manifest.json")
      && ("signature" in m ==> exists i :: 0 <= i < |b| - 2 && b[i].path == "signature")
  {
    var b := Bundle(passJson, localization, images, template, crypto);
    var before := [Member("pass.json", passJson)] + localization + images;
    assert b[..|b| - 2] == before;
    ManifestKeys(before, crypto.hash);
  }

  /** The signature is made with the template's certificate and key over
      exactly the manifest JSON string. */
  lemma BundleSignature(passJson: Data, localization: seq<Member>, images: seq<Member>,
                        template: Template, crypto: Crypto)
    ensures var b := Bundle(passJson, localization, images, template, crypto);
      && b[|b| - 2].data.Text?
      && b[|b| - 1].data == crypto.sign(template.certificate, template.key, b[|b| - 2].data.text)
  {
  }

  /** The data of pass.json: the UTF-8 bytes of the JSON of toJSON's object. */
  function PassJsonData(fields: map<Attr, Value>, parts: Parts, env: Env, crypto: Crypto): Data
    requires ListsValid(parts.lists)
  {
    Bytes(crypto.utf8(crypto.stringify(Obj(PassJson(fields, parts, env)))))
  }

  /** The checks asBuffer makes first: validation, then the certificate and
      the key. */
  function BufferCheck(fields: map<Attr, Value>, imageKeys: seq<string>, template: Template): Outcome {
    var v := ValidatePass(fields, imageKeys);
    if v.Fail? then v
    else if !Truthy(template.certificate) then Fail(Exception(ReferenceError, "certificate"))
    else if !Truthy(template.key) then Fail(Exception(ReferenceError, "key"))
    else Done
  }

  /** What asBuffer gives: the error of its checks, or the members. */
  function AsBufferResult(fields: map<Attr, Value>, parts: Parts, imageKeys: seq<string>, template: Template,
                          env: Env, crypto: Crypto, localization: seq<Member>, images: seq<Member>)
    : Result<seq<Member>>
    requires ListsValid(parts.lists)
  {
    match BufferCheck(fields, imageKeys, template)
    case Fail(e) => Err(e)
    case Done => Ok(Bundle(PassJsonData(fields, parts, env, crypto), localization, images, template, crypto))
  }

  /** asBuffer succeeds exactly when validation passes and the template has
      both a certificate and a key; a failed validation is reported as is,
      and a missing certificate before a missing key. */
  lemma AsBufferOk(fields: map<Attr, Value>, parts: Parts, imageKeys: seq<string>, template: Template,
                   env: Env, crypto: Crypto, localization: seq<Member>, images: seq<Member>)
    requires ListsValid(parts.lists)
    ensures var r := AsBufferResult(fields, parts, imageKeys, template, env, crypto, localization, images);
      && (r.Ok? <==> ValidatePass(fields, imageKeys).Done? && Truthy(template.certificate) && Truthy(template.key))
      && (ValidatePass(fields, imageKeys).Fail? ==> r == Err(ValidatePass(fields, imageKeys).error))
      && (ValidatePass(fields, imageKeys).Done? && !Truthy(template.certificate) ==>
            r == Err(Exception(ReferenceError, "certificate")))
  {
  }

  /** The Date values asBuffer leaves rewritten in the field lists change
      nothing in a later asBuffer: it gives the same members. */
  lemma AsBufferRepeatable(fields: map<Attr, Value>, parts: Parts, imageKeys: seq<string>, template: Template,
                           env: Env, crypto: Crypto, localization: seq<Member>, images: seq<Member>)
    requires ListsValid(parts.lists)
    ensures var after := parts.(lists := SerializedLists(parts.lists, env.host));
      AsBufferResult(fields, after, imageKeys, template, env, crypto, localization, images)
      == AsBufferResult(fields, parts, imageKeys, template, env, crypto, localization, images)
  {
    SerializedStructureJson(parts, env.host, env.nfcJson);
  }

  // ------------------------------------------------------------ the class

  class Pass {
    const base: PassBase
    const template: Template

    ghost predicate Valid()
      reads this, base, base.structure, base.images
    {
      base.Valid()
    }

    constructor (template: Template, base: PassBase)
      requires base.Valid()
      ensures Valid() && this.template == template && this.base == base
    {
      this.template := template;
      this.base := base;
    }

    /** `validate`: the required attributes in order, the web service pair,
        then the images. */
    method Validate() returns (r: Outcome)
      requires Valid()
      ensures r == ValidatePass(base.fields, base.images.images.keys)
    {
      var fields := base.fields;
      for i := 0 to |REQUIRED|
        invariant forall j :: 0 <= j < i ==> REQUIRED[j] in fields
      {
        if REQUIRED[i] !in fields {
          ValidatePassMissing(fields, base.images.images.keys, i);
          return Fail(Exception(ReferenceError, AttrName(REQUIRED[i])));
        }
      }
      FirstMissingMeaning(fields, REQUIRED);
      if WebServiceUrl in fields {
        var token := Lookup(fields, AuthenticationToken);
        if !token.Str? {
          return Fail(Exception(PlainError, "authenticationToken"));
        }
        if |token.s| < 16 {
          return Fail(Exception(ReferenceError, "authenticationToken"));
        }
      } else if AuthenticationToken in fields {
        return Fail(Exception(TypeError, "authenticationToken"));
      }
      r := base.images.Validate();
    }

    /** The checks asBuffer makes before it builds anything. */
    method Check() returns (r: Outcome)
      requires Valid()
      ensures r == BufferCheck(base.fields, base.images.images.keys, template)
    {
      r := Validate();
      if r.Fail? {
        return;
      }
      if !Truthy(template.certificate) {
        return Fail(Exception(ReferenceError, "certificate"));
      }
      if !Truthy(template.key) {
        return Fail(Exception(ReferenceError, "key"));
      }
    }

    /** `asBuffer`: validate, check the template, then push pass.json, the
        localization files and the images, fold their hashes into the
        manifest, and push manifest.json and the signature. The localization
        and image members are what their `toArray` calls give. */
    method AsBuffer(env: Env, crypto: Crypto, localization: seq<Member>, images: seq<Member>)
      returns (r: Result<seq<Member>>)
      requires Valid()
      modifies base.structure
      ensures Valid()
      ensures r == AsBufferResult(base.fields, old(base.structure.State()), base.images.images.keys, template, env,
                                  crypto, localization, images)
      ensures r.Ok? ==>
        base.structure.State() == old(base.structure.State()).(lists := SerializedLists(old(base.structure.lists), env.host))
      ensures r.Err? ==> base.structure.State() == old(base.structure.State())
    {
      var checked := Check();
      if checked.Fail? {
        return Err(checked.error);
      }
      var json := base.Stringify(env);
      var zip := Pack(Bytes(crypto.utf8(crypto.stringify(json))), localization, images, template, crypto);
      return Ok(zip);
    }
  }

  /** The members after pass.json: the localization files and the images,
      then manifest.json with the hash of each, then its signature. */
  method Pack(passJson: Data, localization: seq<Member>, images: seq<Member>, template: Template, crypto: Crypto)
    returns (zip: seq<Member>)
    ensures zip == Bundle(passJson, localization, images, template, crypto)
  {
    zip := [Member("pass.json", passJson)];
    zip := zip + localization;
    zip := zip + images;
    var manifest := BuildManifest(zip, crypto.hash);
    var manifestJson := crypto.stringify(Obj(manifest));
    zip := zip + [Member("manifest.json", Text(manifestJson))];
    var signature := crypto.sign(template.certificate, template.key, manifestJson);
    zip := zip + [Member("signature", signature)];
  }

  /** The `reduce` that builds the manifest object, member by member. */
  method BuildManifest(zip: seq<Member>, hash: Data -> string) returns (manifest: map<string, Value>)
    ensures manifest == Manifest(zip, hash)
  {
    manifest := map[];
    for i := 0 to |zip|
      invariant manifest == Manifest(zip[..i], hash)
    {
      assert zip[..i + 1][..i] == zip[..i];
      manifest := manifest[zip[i].path := Str(hash(zip[i].data))];
    }
    assert zip[..|zip|] == zip;
  }

  /** The constructor: a PassBase over the fields, images and options, and
      the template. */
  method NewPass(template: Template, entries: seq<(string, Value)>, images: PassImages?,
                 options: Value, env: Env)
    returns (r: Result<Pass>)
    requires DistinctKeys(entries)
    requires images != null ==> images.Valid()
    ensures var (loaded, load) := LoadResult(EntriesMap(entries), env.host);
      && (load.Fail? ==> r == Err(load.error))
      && (load.Done? ==>
        var (fields, parts, o) := ReplayAll(map[], loaded, entries, options, env);
        && (o.Fail? ==> r == Err(o.error))
        && (o.Done? ==> r.Ok? && r.value.base.fields == fields && r.value.base.structure.State() == parts))
    ensures r.Ok? ==> fresh(r.value) && r.value.Valid() && r.value.template == template
  {
    var base := NewPassBase(entries, images, options, env);
    if base.Err? {
      return Err(base.error);
    }
    var pass := new Pass(template, base.value);
    return Ok(pass);
  }
}
