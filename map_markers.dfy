/** The map-marker list of src/App.tsx: one weather marker for the last
    weather lookup, one football marker per field found. */
module MapMarkers {
  import opened Wrappers
  import opened Text
  import opened Seqs
  import opened Places
  import FieldSearch

  datatype MarkerKind = FootballMarker | WeatherMarker

  datatype Marker = Marker(position: (Coordinate, Coordinate), popup: string, kind: MarkerKind)

  const WeatherCaption := "Información meteorológica"
  const FootballCaption := "Campo de fútbol"
  const IndoorSuffix := " (Cubierto)"
  const LightingSuffix := " (Iluminación)"

  const MissingKeyMessage := "No se ha configurado una clave de API para el servicio de campos de fútbol. Verifica tu configuración."
  const NoFieldsMessage := "No se encontraron campos de fútbol cercanos a esta ubicación"

  function KindCaption(kind: MarkerKind): string {
    match kind
    case WeatherMarker => WeatherCaption
    case FootballMarker => FootballCaption
  }

  /** The markers of one kind, in list order. */
  function Of(s: seq<Marker>, kind: MarkerKind): seq<Marker> {
    Filter((m: Marker) => m.kind == kind, s)
  }

  function WeatherCount(s: seq<Marker>): nat {
    |Of(s, WeatherMarker)|
  }

  // ------------------------------------------------------- updateMarkers

  /** The list `updateMarkers(lat, lng, name, kind)` leaves: the markers of
      other kinds, then the new one. */
  function WithMarker(prev: seq<Marker>, lat: Coordinate, lng: Coordinate, name: string, kind: MarkerKind): seq<Marker> {
    Filter((m: Marker) => m.kind != kind, prev) +
      [Marker((lat, lng), name + " - " + KindCaption(kind), kind)]
  }

  /** After the update exactly one marker has that kind, the new one, and it
      is last; the markers of every other kind are those of before, in the
      same order. */
  lemma WithMarkerReplacesKind(prev: seq<Marker>, lat: Coordinate, lng: Coordinate, name: string, kind: MarkerKind)
    ensures var next := WithMarker(prev, lat, lng, name, kind);
      && Of(next, kind) == [next[|next| - 1]]
      && next[|next| - 1] == Marker((lat, lng), name + " - " + KindCaption(kind), kind)
      && forall other :: other != kind ==> Of(next, other) == Of(prev, other)
  {
    var kept := Filter((m: Marker) => m.kind != kind, prev);
    var m := Marker((lat, lng), name + " - " + KindCaption(kind), kind);
    FilterConcat((x: Marker) => x.kind == kind, kept, [m]);
    FilterNone((x: Marker) => x.kind == kind, kept);
    forall other | other != kind
      ensures Of(kept + [m], other) == Of(prev, other)
    {
      FilterConcat((x: Marker) => x.kind == other, kept, [m]);
      FilterNarrow((x: Marker) => x.kind == other, (x: Marker) => x.kind != kind, prev);
    }
  }

  // ---------------------------------------------------- football markers

  /** The popup of a field's marker. */
  function FieldPopup(f: Field): string {
    f.info.name + " - " + f.surfaceType +
      (if f.isIndoor then IndoorSuffix else "") +
      (if f.hasLighting then LightingSuffix else "")
  }

  /** The popup begins with the name and surface, and ends with the lighting
      suffix exactly when the field has lighting. */
  lemma FieldPopupLighting(f: Field)
    requires IsSurfaceLabel(f.surfaceType)
    ensures StartsWith(FieldPopup(f), f.info.name + " - " + f.surfaceType)
    ensures EndsWith(FieldPopup(f), LightingSuffix) <==> f.hasLighting
  {
    var head := f.info.name + " - " + f.surfaceType;
    var p := FieldPopup(f);
    var mid := head + (if f.isIndoor then IndoorSuffix else "");
    assert p == mid + (if f.hasLighting then LightingSuffix else "");
    assert p[..|head|] == head;
    if !f.hasLighting {
      assert p == mid;
      if f.isIndoor {
        assert p[|p| - 2] == 'o';
      } else {
        assert p[|p| - 1] == f.surfaceType[|f.surfaceType| - 1];
      }
    }
  }

  /** For fields of the same name and surface, the popups are equal exactly
      when the indoor and lighting flags are. */
  lemma PopupDeterminesFlags(f: Field, g: Field)
    requires f.info.name == g.info.name && f.surfaceType == g.surfaceType
    ensures FieldPopup(f) == FieldPopup(g) <==> f.isIndoor == g.isIndoor && f.hasLighting == g.hasLighting
  {
    var base := |f.info.name + " - " + f.surfaceType|;
    assert |FieldPopup(f)| == base + (if f.isIndoor then 11 else 0) + (if f.hasLighting then 14 else 0);
    assert |FieldPopup(g)| == base + (if g.isIndoor then 11 else 0) + (if g.hasLighting then 14 else 0);
  }

  function FieldMarker(f: Field): Marker {
    Marker((f.info.latitude, f.info.longitude), FieldPopup(f), FootballMarker)
  }

  /** `data.map(...)`: one football marker per field. */
  function FieldMarkers(fields: seq<Field>): (r: seq<Marker>)
    ensures |r| == |fields|
    ensures forall i :: 0 <= i < |r| ==>
      r[i].kind == FootballMarker && r[i].position == (fields[i].info.latitude, fields[i].info.longitude) &&
      r[i].popup == FieldPopup(fields[i])
  {
    seq(|fields|, i requires 0 <= i < |fields| => FieldMarker(fields[i]))
  }

  /** The list the football update leaves: the new football markers, then
      the first old weather marker when there was one. */
  function MergeFieldMarkers(prev: seq<Marker>, found: seq<Marker>): seq<Marker> {
    var weather := FindFirst((m: Marker) => m.kind == WeatherMarker, prev);
    if weather.Some? then found + [weather.value] else found
  }

  /** Every old marker but the first weather marker is dropped; that one
      follows the new markers. */
  lemma MergeKeepsFirstWeather(prev: seq<Marker>, found: seq<Marker>)
    ensures var next := MergeFieldMarkers(prev, found);
      && next[..|found|] == found
      && (Of(prev, WeatherMarker) == [] ==> next == found)
      && (Of(prev, WeatherMarker) != [] ==> next == found + [Of(prev, WeatherMarker)[0]])
  {
  }

  /** With football markers as the new ones, the merge leaves at most one
      weather marker, whatever the old list held. */
  lemma MergeAtMostOneWeather(prev: seq<Marker>, fields: seq<Field>)
    ensures WeatherCount(MergeFieldMarkers(prev, FieldMarkers(fields))) <= 1
  {
    var found := FieldMarkers(fields);
    var w := FindFirst((m: Marker) => m.kind == WeatherMarker, prev);
    FilterNone((m: Marker) => m.kind == WeatherMarker, found);
    if w.Some? {
      FilterConcat((m: Marker) => m.kind == WeatherMarker, found, [w.value]);
    }
  }

  /** One of the two list updates the application performs. */
  datatype MarkerUpdate =
    | Update(lat: Coordinate, lng: Coordinate, name: string, kind: MarkerKind)
    | FieldsFound(fields: seq<Field>)

  function Apply(prev: seq<Marker>, u: MarkerUpdate): seq<Marker> {
    match u
    case Update(lat, lng, name, kind) => WithMarker(prev, lat, lng, name, kind)
    case FieldsFound(fields) => MergeFieldMarkers(prev, FieldMarkers(fields))
  }

  /** The list after a run of updates from `start`. */
  function Replay(start: seq<Marker>, us: seq<MarkerUpdate>): seq<Marker>
    decreases |us|
  {
    if us == [] then start else Replay(Apply(start, us[0]), us[1..])
  }

  /** Each update keeps the list at one weather marker or fewer. */
  lemma ApplyAtMostOneWeather(prev: seq<Marker>, u: MarkerUpdate)
    requires WeatherCount(prev) <= 1
    ensures WeatherCount(Apply(prev, u)) <= 1
  {
    match u
    case Update(lat, lng, name, kind) =>
      WithMarkerReplacesKind(prev, lat, lng, name, kind);
    case FieldsFound(fields) =>
      MergeAtMostOneWeather(prev, fields);
  }

  /** Starting from an empty map, no sequence of updates produces two
      weather markers. */
  lemma {:induction false} ReplayAtMostOneWeather(start: seq<Marker>, us: seq<MarkerUpdate>)
    requires WeatherCount(start) <= 1
    ensures WeatherCount(Replay(start, us)) <= 1
    decreases |us|
  {
    if us != [] {
      ApplyAtMostOneWeather(start, us[0]);
      ReplayAtMostOneWeather(Apply(start, us[0]), us[1..]);
    }
  }

  // ---------------------------------------------------------- the screen

  /** The part of the `App` component's state the field search touches. */
  class AppState {
    var markers: seq<Marker>
    var footballFields: seq<Field>
    var fieldsError: Option<string>
    var fieldsLoading: bool

    ghost predicate Valid()
      reads this
    {
      WeatherCount(markers) <= 1
    }

    constructor ()
      ensures Valid()
      ensures markers == [] && footballFields == [] && fieldsError == None && !fieldsLoading
    {
      markers := [];
      footballFields := [];
      fieldsError := None;
      fieldsLoading := false;
    }

    /** `updateMarkers(lat, lng, name, kind)`. */
    method UpdateMarkers(lat: Coordinate, lng: Coordinate, name: string, kind: MarkerKind)
      requires Valid()
      modifies this
      ensures Valid()
      ensures markers == Apply(old(markers), Update(lat, lng, name, kind))
      ensures footballFields == old(footballFields) && fieldsError == old(fieldsError)
      ensures fieldsLoading == old(fieldsLoading)
    {
      ApplyAtMostOneWeather(markers, Update(lat, lng, name, kind));
      markers := WithMarker(markers, lat, lng, name, kind);
    }

    /** `fetchFootballFields(lat, lng)`, with the environment's key and the
        replies of the place service as inputs; `issued` lists the requests
        sent. */
    method FetchFootballFields(apiKey: Option<string>, lat: Coordinate, lng: Coordinate, rs: FieldSearch.Replies)
      returns (issued: seq<FieldSearch.Request>)
      requires Valid()
      requires FieldSearch.WellFormed(rs)
      modifies this
      ensures Valid()
      ensures !fieldsLoading
      ensures !Truthy(apiKey) ==>
        && fieldsError == Some(MissingKeyMessage) && footballFields == []
        && markers == old(markers) && issued == []
      ensures Truthy(apiKey) ==>
        var data := FieldSearch.SearchFields(lat, lng, rs);
        && footballFields == data
        && fieldsError == (if data == [] then Some(NoFieldsMessage) else None)
        && markers == Apply(old(markers), FieldsFound(data))
        && issued == FieldSearch.RequestLog(rs)
    {
      fieldsLoading := true;
      fieldsError := None;
      if !Truthy(apiKey) {
        fieldsError := Some(MissingKeyMessage);
        footballFields := [];
        fieldsLoading := false;
        return [];
      }
      var r;
      r, issued := FieldSearch.GetFootballFields(apiKey, lat, lng, rs);
      match r {
        case Success(data) =>
          if |data| == 0 {
            fieldsError := Some(NoFieldsMessage);
          }
          footballFields := data;
          MergeAtMostOneWeather(markers, data);
          markers := MergeFieldMarkers(markers, FieldMarkers(data));
        case Failure(_) =>
          assert false;
      }
      fieldsLoading := false;
    }
  }
}
