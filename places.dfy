/** `mapFoursquareToFootballFields` of src/services/api.ts and its helpers
    `getPriceInfo`, `getFieldSurfaceType` and `detectHasLighting`: how one
    Foursquare place record becomes the application's field record
    (`SportifField` of src/types.ts, imported by api.ts as `FootballField`). */
module Places {
  import opened Wrappers
  import opened Text

  /** Latitudes and longitudes are carried through unchanged; floating point
      is not modelled. */
  type Coordinate = real

  /** `place.price`: an object that may carry a `tier`, or some other value. */
  datatype PriceData = PriceObject(tier: Option<int>) | PriceScalar

  /** One place record as the upstream search returns it. Every property the
      normalizer reads may be missing; `categories` lists the categories'
      optional `name`s. `address`, `locality`, `region` and `postcode` are
      read from `place.location`, `latitude` and `longitude` from
      `place.geocodes.main`. */
  datatype RawPoi = RawPoi(
    fsqId: Option<string>,
    id: Option<string>,
    name: Option<string>,
    categories: Option<seq<Option<string>>>,
    address: Option<string>,
    locality: Option<string>,
    region: Option<string>,
    postcode: Option<string>,
    latitude: Option<Coordinate>,
    longitude: Option<Coordinate>,
    indoor: Option<bool>,
    price: Option<PriceData>)

  /** `{ FeatureType: { Name } }`. */
  datatype Feature = Feature(name: string)

  datatype FieldInfo = FieldInfo(
    name: string,
    address: string,
    city: string,
    postcode: string,
    latitude: Coordinate,
    longitude: Coordinate)

  /** The canonical field record. */
  datatype Field = Field(
    id: string,
    info: FieldInfo,
    features: seq<Feature>,
    pricePerHour: string,
    surfaceType: string,
    isIndoor: bool,
    hasLighting: bool)

  const DefaultName := "Campo de fútbol"
  const DefaultAddress := "Dirección no disponible"
  const DefaultCity := "Ciudad no disponible"
  const DefaultPostcode := "CP no disponible"
  const DefaultFeature := "Característica"
  const AskPrice := "Consultar"
  const Unspecified := "No especificado"

  /** The price labels of tiers 1, 2, 3 and 4. */
  const TierLabels: seq<string> :=
    ["Económico", "Precio moderado", "Precio elevado", "Precio muy elevado"]

  // ---------------------------------------------------------------- price

  /** `getPriceInfo`: a `switch` on the tier of a price object. */
  function PriceInfo(d: PriceData): string {
    match d
    case PriceScalar => AskPrice
    case PriceObject(tier) =>
      if tier.None? || tier.value == 0 then AskPrice
      else if tier.value == 1 then "Económico"
      else if tier.value == 2 then "Precio moderado"
      else if tier.value == 3 then "Precio elevado"
      else if tier.value == 4 then "Precio muy elevado"
      else AskPrice
  }

  /** `place.price ? getPriceInfo(place.price) : 'Consultar'`. */
  function PricePerHour(price: Option<PriceData>): string {
    if price.Some? then PriceInfo(price.value) else AskPrice
  }

  /** The tier a price label names, if it names one. */
  function TierOfLabel(caption: string): Option<int> {
    if caption == TierLabels[0] then Some(1)
    else if caption == TierLabels[1] then Some(2)
    else if caption == TierLabels[2] then Some(3)
    else if caption == TierLabels[3] then Some(4)
    else None
  }

  /** A price object with tier 1 to 4 gets that tier's label; every other
      price, and a missing one, gets 'Consultar'. */
  lemma PricePerHourTable(price: Option<PriceData>)
    ensures PricePerHour(price) ==
      if price.Some? && price.value.PriceObject? && price.value.tier.Some?
         && 1 <= price.value.tier.value <= 4
      then TierLabels[price.value.tier.value - 1]
      else AskPrice
  {
  }

  /** The label determines the tier: reading the tier back from the label
      gives the tier that produced it, and 'Consultar' names no tier. */
  lemma PriceLabelRoundTrip(price: Option<PriceData>)
    ensures TierOfLabel(PricePerHour(price)) ==
      if price.Some? && price.value.PriceObject? && price.value.tier.Some?
         && 1 <= price.value.tier.value <= 4
      then price.value.tier
      else None
  {
  }

  // ------------------------------------------------------------- surface

  datatype Surface = ArtificialTurf | NaturalGrass

  function SurfaceName(s: Surface): string {
    match s
    case ArtificialTurf => "Artificial Turf"
    case NaturalGrass => "Natural Grass"
  }

  /** The three values `getFieldSurfaceType` returns. */
  predicate IsSurfaceLabel(s: string) {
    s == "Artificial Turf" || s == "Natural Grass" || s == Unspecified
  }

  /** What one category's lower-cased name says about the surface. */
  function CategorySurface(name: Option<string>): Option<Surface> {
    var n := Lower(name.GetOr(""));
    if Contains(n, "turf") || Contains(n, "artificial") then Some(ArtificialTurf)
    else if Contains(n, "grass") || Contains(n, "natural") then Some(NaturalGrass)
    else None
  }

  /** The `for` loop over the categories, which returns at the first category
      that says something. */
  function ScanCategories(cats: seq<Option<string>>): Option<Surface> {
    if cats == [] then None
    else if CategorySurface(cats[0]).Some? then CategorySurface(cats[0])
    else ScanCategories(cats[1..])
  }

  /** What the lower-cased place name says; only here does "synthetic" count. */
  function NameSurface(name: Option<string>): Option<Surface> {
    var n := Lower(name.GetOr(""));
    if Contains(n, "turf") || Contains(n, "artificial") || Contains(n, "synthetic") then Some(ArtificialTurf)
    else if Contains(n, "grass") || Contains(n, "natural") then Some(NaturalGrass)
    else None
  }

  /** `getFieldSurfaceType`. */
  function FieldSurfaceType(p: RawPoi): (r: string)
    ensures IsSurfaceLabel(r)
  {
    var fromCategories := if p.categories.Some? then ScanCategories(p.categories.value) else None;
    if fromCategories.Some? then SurfaceName(fromCategories.value)
    else if NameSurface(p.name).Some? then SurfaceName(NameSurface(p.name).value)
    else Unspecified
  }

  /** The category scan yields the verdict of the first category that has
      one, and nothing when no category has one. */
  lemma {:induction false} ScanCategoriesFirstMatch(cats: seq<Option<string>>)
    ensures ScanCategories(cats).None? <==>
      forall i :: 0 <= i < |cats| ==> CategorySurface(cats[i]).None?
    ensures ScanCategories(cats).Some? ==>
      exists i :: 0 <= i < |cats| && ScanCategories(cats) == CategorySurface(cats[i]) &&
        forall j :: 0 <= j < i ==> CategorySurface(cats[j]).None?
  {
    if cats != [] && CategorySurface(cats[0]).None? {
      ScanCategoriesFirstMatch(cats[1..]);
      assert forall i :: 1 <= i < |cats| ==> cats[i] == cats[1..][i - 1];
      if ScanCategories(cats).Some? {
        var i :| 0 <= i < |cats[1..]| && ScanCategories(cats[1..]) == CategorySurface(cats[1..][i]) &&
          forall j :: 0 <= j < i ==> CategorySurface(cats[1..][j]).None?;
        assert ScanCategories(cats) == CategorySurface(cats[i + 1]);
      }
    }
  }

  /** The categories of a place, none when absent. */
  function CategoriesOf(p: RawPoi): seq<Option<string>> {
    p.categories.GetOr([])
  }

  /** The surface order of precedence: the first category whose name
      mentions a surface decides; only when no category does is the place
      name read, where "turf", "artificial" or "synthetic" mean artificial
      turf, then "grass" or "natural" mean natural grass; with neither the
      answer is 'No especificado'. */
  lemma SurfacePrecedence(p: RawPoi)
    ensures var cats := CategoriesOf(p);
      forall i :: 0 <= i < |cats| && CategorySurface(cats[i]).Some? &&
                  (forall j :: 0 <= j < i ==> CategorySurface(cats[j]).None?) ==>
        FieldSurfaceType(p) == SurfaceName(CategorySurface(cats[i]).value)
    ensures var cats := CategoriesOf(p); var n := Lower(p.name.GetOr(""));
      (forall i :: 0 <= i < |cats| ==> CategorySurface(cats[i]).None?) ==>
        FieldSurfaceType(p) ==
          if Contains(n, "turf") || Contains(n, "artificial") || Contains(n, "synthetic") then "Artificial Turf"
          else if Contains(n, "grass") || Contains(n, "natural") then "Natural Grass"
          else Unspecified
  {
    var cats := CategoriesOf(p);
    ScanCategoriesFirstMatch(cats);
    forall i | 0 <= i < |cats| && CategorySurface(cats[i]).Some? &&
               (forall j :: 0 <= j < i ==> CategorySurface(cats[j]).None?)
      ensures FieldSurfaceType(p) == SurfaceName(CategorySurface(cats[i]).value)
    {
      var k :| 0 <= k < |cats| && ScanCategories(cats) == CategorySurface(cats[k]) &&
               forall j :: 0 <= j < k ==> CategorySurface(cats[j]).None?;
      assert k == i;
    }
  }

  /** When no category mentions a surface, or there are no categories,
      "synthetic" in the place name means artificial turf. */
  lemma SyntheticOnlyInName(p: RawPoi)
    requires p.categories.None? ||
      forall i :: 0 <= i < |p.categories.value| ==> CategorySurface(p.categories.value[i]).None?
    requires Contains(Lower(p.name.GetOr("")), "synthetic")
    ensures FieldSurfaceType(p) == "Artificial Turf"
  {
    if p.categories.Some? {
      ScanCategoriesFirstMatch(p.categories.value);
    }
  }

  // ------------------------------------------------------------ lighting

  /** `detectHasLighting`, with its four tests. */
  function DetectHasLighting(name: Option<string>): bool {
    var n := Lower(name.GetOr(""));
    Contains(n, "light") || Contains(n, "lighted") || Contains(n, "iluminado") || Contains(n, "nocturno")
  }

  /** The "lighted" test adds nothing: a name has lighting exactly when it
      contains "light", "iluminado" or "nocturno". */
  lemma LightingKeywords(name: Option<string>)
    ensures DetectHasLighting(name) <==>
      ContainsAny(Lower(name.GetOr("")), ["light", "iluminado", "nocturno"])
  {
    var n := Lower(name.GetOr(""));
    var ks := ["light", "iluminado", "nocturno"];
    if Contains(n, "lighted") {
      assert "lighted" == "light" + "ed";
      ContainsPrefixOfNeedle(n, "light", "ed");
    }
    if DetectHasLighting(name) {
      if Contains(n, "light") || Contains(n, "lighted") { assert Contains(n, ks[0]); }
      else if Contains(n, "iluminado") { assert Contains(n, ks[1]); }
      else { assert Contains(n, ks[2]); }
    }
  }

  // ------------------------------------------------------------- mapping

  /** `value || defaultValue` on a number: 0 is falsy. */
  function OrNumber(o: Option<Coordinate>, fallback: Coordinate): Coordinate {
    if o.Some? && o.value != 0.0 then o.value else fallback
  }

  /** The features: one per category, in order; none when categories are absent. */
  function Features(categories: Option<seq<Option<string>>>): seq<Feature> {
    if categories.None? then []
    else seq(|categories.value|, i requires 0 <= i < |categories.value| =>
           Feature(OrElse(categories.value[i], DefaultFeature)))
  }

  /** The record for the place at position `index` of the list. */
  function ToField(p: RawPoi, index: nat, defaultLat: Coordinate, defaultLon: Coordinate): Field {
    Field(
      if Truthy(p.fsqId) then p.fsqId.value else "field-" + NatToString(index + 1),
      FieldInfo(
        OrElse(p.name, DefaultName),
        OrElse(p.address, DefaultAddress),
        FirstTruthy([p.locality, p.region], DefaultCity),
        OrElse(p.postcode, DefaultPostcode),
        OrNumber(p.latitude, defaultLat),
        OrNumber(p.longitude, defaultLon)),
      Features(p.categories),
      PricePerHour(p.price),
      FieldSurfaceType(p),
      p.indoor == Some(true),
      DetectHasLighting(p.name))
  }

  /** `mapFoursquareToFootballFields`. */
  function MapFields(places: seq<RawPoi>, defaultLat: Coordinate, defaultLon: Coordinate): (r: seq<Field>)
    ensures |r| == |places|
  {
    seq(|places|, i requires 0 <= i < |places| => ToField(places[i], i, defaultLat, defaultLon))
  }

  /** What every mapped record is, in terms of the place at the same position. */
  lemma MapFieldsPointwise(places: seq<RawPoi>, defaultLat: Coordinate, defaultLon: Coordinate, i: nat)
    requires i < |places|
    ensures var f := MapFields(places, defaultLat, defaultLon)[i]; var p := places[i];
      && f.id == (if Truthy(p.fsqId) then p.fsqId.value else "field-" + NatToString(i + 1))
      && f.info.name == (if Truthy(p.name) then p.name.value else DefaultName)
      && f.info.address == (if Truthy(p.address) then p.address.value else DefaultAddress)
      && f.info.city == (if Truthy(p.locality) then p.locality.value
                         else if Truthy(p.region) then p.region.value else DefaultCity)
      && f.info.postcode == (if Truthy(p.postcode) then p.postcode.value else DefaultPostcode)
      && f.info.latitude == (if p.latitude.Some? && p.latitude.value != 0.0 then p.latitude.value else defaultLat)
      && f.info.longitude == (if p.longitude.Some? && p.longitude.value != 0.0 then p.longitude.value else defaultLon)
      && |f.features| == (if p.categories.Some? then |p.categories.value| else 0)
      && (p.categories.Some? ==> forall k :: 0 <= k < |f.features| ==>
            f.features[k].name == (if Truthy(p.categories.value[k]) then p.categories.value[k].value
                                   else DefaultFeature))
      && (f.isIndoor <==> p.indoor == Some(true))
      && (f.hasLighting <==> ContainsAny(Lower(p.name.GetOr("")), ["light", "iluminado", "nocturno"]))
      && f.pricePerHour == (if p.price.Some? && p.price.value.PriceObject? && p.price.value.tier.Some?
                               && 1 <= p.price.value.tier.value <= 4
                            then TierLabels[p.price.value.tier.value - 1] else AskPrice)
      && f.surfaceType == FieldSurfaceType(p)
      && IsSurfaceLabel(f.surfaceType)
  {
    var p := places[i];
    PricePerHourTable(p.price);
    LightingKeywords(p.name);
    var cands := [p.locality, p.region];
    assert cands[0] == p.locality && cands[1] == p.region;
  }

  /** The record is always fully populated: no text property is empty. */
  lemma MapFieldsPopulated(places: seq<RawPoi>, defaultLat: Coordinate, defaultLon: Coordinate)
    ensures forall f :: f in MapFields(places, defaultLat, defaultLon) ==>
      f.id != "" && f.info.name != "" && f.info.address != "" && f.info.city != ""
      && f.info.postcode != "" && f.pricePerHour != "" && f.surfaceType != ""
      && forall k :: 0 <= k < |f.features| ==> f.features[k].name != ""
  {
    var r := MapFields(places, defaultLat, defaultLon);
    forall f | f in r
      ensures f.id != "" && f.info.city != ""
    {
      var i :| 0 <= i < |r| && r[i] == f;
      var p := places[i];
      assert [p.locality, p.region][0] == p.locality && [p.locality, p.region][1] == p.region;
    }
  }
}
