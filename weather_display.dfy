/** The icon helpers of src/components/WeatherDisplay.tsx. */
module WeatherDisplay {
  import opened Text

  const Sunny := "sunny-icon"
  const Cloudy := "cloudy-icon"
  const Rainy := "rainy-icon"
  const Snowy := "snowy-icon"
  const Stormy := "stormy-icon"
  const Foggy := "foggy-icon"

  /** Weather-service condition codes, as the component groups them. */
  predicate IsCloudCode(code: int) { 1003 <= code <= 1030 }
  predicate IsRainCode(code: int) { 1063 <= code <= 1201 }
  predicate IsSnowCode(code: int) { 1204 <= code <= 1225 }
  predicate IsStormCode(code: int) { 1273 <= code <= 1282 }
  predicate IsFogCode(code: int) { 1135 <= code <= 1147 }

  predicate IsKnownCode(code: int) {
    code == 1000 || IsCloudCode(code) || IsRainCode(code) || IsSnowCode(code) ||
    IsStormCode(code) || IsFogCode(code)
  }

  /** `getWeatherIconClass(code)` as written: the tests in source order. */
  function IconClass(code: int): string {
    if code == 1000 then Sunny
    else if IsCloudCode(code) then Cloudy
    else if IsRainCode(code) then Rainy
    else if IsSnowCode(code) then Snowy
    else if IsStormCode(code) then Stormy
    else if IsFogCode(code) then Foggy
    else ""
  }

  /** The class of every code range, the fog range included. */
  lemma IconClassRanges(code: int)
    ensures code == 1000 ==> IconClass(code) == Sunny
    ensures IsCloudCode(code) ==> IconClass(code) == Cloudy
    ensures IsRainCode(code) ==> IconClass(code) == Rainy
    ensures IsSnowCode(code) ==> IconClass(code) == Snowy
    ensures IsStormCode(code) ==> IconClass(code) == Stormy
    ensures IsFogCode(code) ==> IconClass(code) == Rainy
  {
  }

  /** The fog test comes after the rain test, whose range holds the fog
      range, so no code gets the fog class. */
  lemma FogClassUnreachable(code: int)
    ensures IconClass(code) != Foggy
  {
  }

  /** A code gets no class exactly when it is in none of the ranges. */
  lemma IconClassEmpty(code: int)
    ensures IconClass(code) == "" <==> !IsKnownCode(code)
  {
  }

  /** A fog code the component shows as rain. */
  lemma FogCodeShownAsRain()
    ensures IsFogCode(1135) && IconClass(1135) == Rainy
  {
  }

  /** The classifier with the fog test ahead of the rain test, so that the
      fog range gets its own class. */
  function IntendedIconClass(code: int): string {
    if code == 1000 then Sunny
    else if IsCloudCode(code) then Cloudy
    else if IsFogCode(code) then Foggy
    else if IsRainCode(code) then Rainy
    else if IsSnowCode(code) then Snowy
    else if IsStormCode(code) then Stormy
    else ""
  }

  /** Fog codes get the fog class; every other code gets the class it gets
      as written. */
  lemma IntendedIconClassSpec(code: int)
    ensures IsFogCode(code) <==> IntendedIconClass(code) == Foggy
    ensures !IsFogCode(code) ==> IntendedIconClass(code) == IconClass(code)
  {
  }

  /** The `src` of the icon image: a protocol-relative URL gets `https:`. */
  function IconUrl(url: string): (r: string)
    ensures StartsWith(url, "//") ==> r == "https:" + url
    ensures !StartsWith(r, "//")
    ensures EndsWith(r, url)
    ensures StartsWith(url, "//") <==> r != url
  {
    if StartsWith(url, "//") then
      var r := "https:" + url;
      assert r[0] == 'h';
      r
    else url
  }

  /** Fixing a URL twice is fixing it once. */
  lemma IconUrlIdempotent(url: string)
    ensures IconUrl(IconUrl(url)) == IconUrl(url)
  {
  }
}
