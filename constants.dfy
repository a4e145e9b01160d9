/** The closed enumerations of the pass format: pass styles, transit types,
    barcode formats, image types with their baseline sizes, densities, the
    structure-field arrays and the required top-level keys. */
module Constants {
  import opened JsValues

  // ---------------------------------------------------------------- styles

  datatype Style = BoardingPass | Coupon | EventTicket | StoreCard | Generic

  /** PASS_STYLES, in its insertion order (the order `style` scans). */
  const PASS_STYLES: seq<Style> := [BoardingPass, Coupon, EventTicket, StoreCard, Generic]

  function StyleName(s: Style): string {
    match s
    case BoardingPass => "boardingPass"
    case Coupon => "coupon"
    case EventTicket => "eventTicket"
    case StoreCard => "storeCard"
    case Generic => "generic"
  }

  /** `PASS_STYLES.has(v)`: the style a value names, if any. */
  function StyleOf(v: Value): (r: Option<Style>)
    ensures r.Some? ==> v == Str(StyleName(r.value))
    ensures r.None? ==> forall s :: v != Str(StyleName(s))
  {
    if v == Str("boardingPass") then Some(BoardingPass)
    else if v == Str("coupon") then Some(Coupon)
    else if v == Str("eventTicket") then Some(EventTicket)
    else if v == Str("storeCard") then Some(StoreCard)
    else if v == Str("generic") then Some(Generic)
    else None
  }

  /** PASS_STYLES holds each of the five styles exactly once. */
  lemma PassStylesComplete()
    ensures |PASS_STYLES| == 5
    ensures forall s: Style :: s in PASS_STYLES
    ensures forall i, j :: 0 <= i < j < |PASS_STYLES| ==> PASS_STYLES[i] != PASS_STYLES[j]
  {
    assert forall s: Style :: s in PASS_STYLES by {
      forall s: Style ensures s in PASS_STYLES {
        match s
        case BoardingPass => assert PASS_STYLES[0] == s;
        case Coupon => assert PASS_STYLES[1] == s;
        case EventTicket => assert PASS_STYLES[2] == s;
        case StoreCard => assert PASS_STYLES[3] == s;
        case Generic => assert PASS_STYLES[4] == s;
      }
    }
  }

  // ---------------------------------------------------------- transit types

  datatype TransitType = Air | Boat | Bus | Train | GenericTransit

  function TransitName(t: TransitType): string {
    match t
    case Air => "PKTransitTypeAir"
    case Boat => "PKTransitTypeBoat"
    case Bus => "PKTransitTypeBus"
    case Train => "PKTransitTypeTrain"
    case GenericTransit => "PKTransitTypeGeneric"
  }

  /** `Object.values(TRANSIT).includes(v)`: the transit type a value is, if any. */
  function TransitOf(v: Value): (r: Option<TransitType>)
    ensures r.Some? ==> v == Str(TransitName(r.value))
    ensures r.None? ==> forall t :: v != Str(TransitName(t))
  {
    if v == Str("PKTransitTypeAir") then Some(Air)
    else if v == Str("PKTransitTypeBoat") then Some(Boat)
    else if v == Str("PKTransitTypeBus") then Some(Bus)
    else if v == Str("PKTransitTypeTrain") then Some(Train)
    else if v == Str("PKTransitTypeGeneric") then Some(GenericTransit)
    else None
  }

  // -------------------------------------------------------- barcode formats

  datatype BarcodeFormat = QR | PDF417 | Aztec | Code128

  /** The values of `barcodeFormat`. */
  function BarcodeFormatName(f: BarcodeFormat): string {
    match f
    case QR => "PKBarcodeFormatQR"
    case PDF417 => "PKBarcodeFormatPDF417"
    case Aztec => "PKBarcodeFormatAztec"
    case Code128 => "PKBarcodeFormatCode128"
  }

  /** BARCODES_FORMAT */
  const BARCODES_FORMAT: set<string> :=
    {"PKBarcodeFormatQR", "PKBarcodeFormatPDF417", "PKBarcodeFormatAztec", "PKBarcodeFormatCode128"}

  /** BARCODES_FORMAT is exactly the set of `barcodeFormat` values. */
  lemma BarcodesFormatIsBarcodeFormat()
    ensures BARCODES_FORMAT == set f: BarcodeFormat :: BarcodeFormatName(f)
  {
    var names := set f: BarcodeFormat :: BarcodeFormatName(f);
    assert BarcodeFormatName(QR) in names && BarcodeFormatName(PDF417) in names;
    assert BarcodeFormatName(Aztec) in names && BarcodeFormatName(Code128) in names;
  }

  // ------------------------------------------------------------- images

  datatype ImageType = Icon | Logo | Background | Footer | Strip | Thumbnail

  /** `Object.keys(IMAGES)`, in declaration order. */
  const IMAGE_TYPES: seq<ImageType> := [Icon, Logo, Background, Footer, Strip, Thumbnail]

  function ImageTypeName(t: ImageType): string {
    match t
    case Icon => "icon"
    case Logo => "logo"
    case Background => "background"
    case Footer => "footer"
    case Strip => "strip"
    case Thumbnail => "thumbnail"
  }

  /** `IMAGES_TYPES.has(name)` */
  function ImageTypeOf(name: string): (r: Option<ImageType>)
    ensures r.Some? ==> name == ImageTypeName(r.value)
    ensures r.None? ==> forall t :: name != ImageTypeName(t)
  {
    if name == "icon" then Some(Icon)
    else if name == "logo" then Some(Logo)
    else if name == "background" then Some(Background)
    else if name == "footer" then Some(Footer)
    else if name == "strip" then Some(Strip)
    else if name == "thumbnail" then Some(Thumbnail)
    else None
  }

  /** An entry of IMAGES: the baseline size and whether the image is required. */
  datatype ImageSpec = ImageSpec(width: nat, height: nat, required: bool)

  function ImageBaseline(t: ImageType): ImageSpec {
    match t
    case Icon => ImageSpec(29, 29, true)
    case Logo => ImageSpec(160, 50, true)
    case Background => ImageSpec(180, 220, false)
    case Footer => ImageSpec(295, 15, false)
    case Strip => ImageSpec(375, 123, false)
    case Thumbnail => ImageSpec(90, 90, false)
  }

  /** Of the six image types only icon and logo are marked required. */
  lemma RequiredImages()
    ensures |IMAGE_TYPES| == 6
    ensures forall t: ImageType :: t in IMAGE_TYPES
    ensures forall t: ImageType :: ImageBaseline(t).required <==> t == Icon || t == Logo
  {
    forall t: ImageType ensures t in IMAGE_TYPES {
      match t
      case Icon => assert IMAGE_TYPES[0] == t;
      case Logo => assert IMAGE_TYPES[1] == t;
      case Background => assert IMAGE_TYPES[2] == t;
      case Footer => assert IMAGE_TYPES[3] == t;
      case Strip => assert IMAGE_TYPES[4] == t;
      case Thumbnail => assert IMAGE_TYPES[5] == t;
    }
  }

  datatype Density = X1 | X2 | X3

  function DensityName(d: Density): string {
    match d
    case X1 => "1x"
    case X2 => "2x"
    case X3 => "3x"
  }

  /** `DENSITIES.has(name)` */
  function DensityOf(name: string): (r: Option<Density>)
    ensures r.Some? ==> name == DensityName(r.value)
    ensures r.None? ==> forall d :: name != DensityName(d)
  {
    if name == "1x" then Some(X1)
    else if name == "2x" then Some(X2)
    else if name == "3x" then Some(X3)
    else None
  }

  // ------------------------------------------------------ structure fields

  datatype StructureField = AuxiliaryFields | BackFields | HeaderFields | PrimaryFields | SecondaryFields

  /** STRUCTURE_FIELDS, in its declaration order. */
  const STRUCTURE_FIELDS: seq<StructureField> :=
    [AuxiliaryFields, BackFields, HeaderFields, PrimaryFields, SecondaryFields]

  function StructureFieldName(f: StructureField): string {
    match f
    case AuxiliaryFields => "auxiliaryFields"
    case BackFields => "backFields"
    case HeaderFields => "headerFields"
    case PrimaryFields => "primaryFields"
    case SecondaryFields => "secondaryFields"
  }

  // ------------------------------------------------------ top-level fields

  /** The `required` flag of each TOP_LEVEL_FIELDS entry (an entry without the
      flag counts as not required). */
  const TOP_LEVEL_REQUIRED: map<string, bool> := map[
    "description" := true,
    "organizationName" := true,
    "passTypeIdentifier" := true,
    "serialNumber" := true,
    "teamIdentifier" := true,
    "sharingProhibited" := false,
    "associatedStoreIdentifiers" := false,
    "expirationDate" := false,
    "voided" := false,
    "beacons" := false,
    "locations" := false,
    "maxDistance" := false,
    "relevantDate" := false,
    "barcodes" := false,
    "backgroundColor" := false,
    "foregroundColor" := false,
    "groupingIdentifier" := false,
    "labelColor" := false,
    "logoText" := false,
    "suppressStripShine" := false,
    "authenticationToken" := false,
    "webServiceURL" := false
  ]
}
