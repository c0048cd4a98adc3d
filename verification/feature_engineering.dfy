/**
 Encoding of the categorical columns and assembly of the five-column feature
 vector handed to the anomaly model (utils/feature_engineering.py).
 */
module FeatureEngineering {
  import opened LogParser

  const DeviceMap: map<string, int> := map["web" := 0, "mobile" := 1, "tablet" := 2]
  const LocationMap: map<string, int> := map["unknown" := 0, "US" := 1, "UK" := 2, "CA" := 3]

  /** The code given to a category the table does not list. */
  const FallbackCode: int := 0

  /** The five model inputs, in column order. */
  datatype FeatureVector = FeatureVector(
    hour: int,
    isNight: int,
    loginFailed: int,
    deviceEnc: int,
    locationEnc: int)

  /** Table lookup with the fallback for unlisted keys. */
  function Encode(table: map<string, int>, key: string): (c: int)
    ensures key in table ==> c == table[key]
    ensures key !in table ==> c == FallbackCode
  {
    if key in table then table[key] else FallbackCode
  }

  /** Device encoding: total over all strings, with codes in [0, 2]. */
  function DeviceEnc(device: string): (c: int)
    ensures 0 <= c <= 2
    ensures c == 1 <==> device == "mobile"
    ensures c == 2 <==> device == "tablet"
  {
    Encode(DeviceMap, device)
  }

  /** Location encoding: total over all strings, with codes in [0, 3]. */
  function LocationEnc(location: string): (c: int)
    ensures 0 <= c <= 3
    ensures c == 1 <==> location == "US"
    ensures c == 2 <==> location == "UK"
    ensures c == 3 <==> location == "CA"
  {
    Encode(LocationMap, location)
  }

  /** The listed codes, and the fallback for anything else. */
  lemma EncodingTables(device: string, location: string)
    ensures DeviceEnc("web") == 0 && DeviceEnc("mobile") == 1 && DeviceEnc("tablet") == 2
    ensures device !in {"web", "mobile", "tablet"} ==> DeviceEnc(device) == 0
    ensures LocationEnc("unknown") == 0 && LocationEnc("US") == 1
    ensures LocationEnc("UK") == 2 && LocationEnc("CA") == 3
    ensures location !in {"unknown", "US", "UK", "CA"} ==> LocationEnc(location) == 0
  {
  }

  /**
   The fallback is not a code of its own: an unlisted device is indistinguishable
   from "web", and an unlisted location from "unknown".
   */
  lemma FallbackCollidesWithListedCode(device: string, location: string)
    requires device !in DeviceMap && location !in LocationMap
    ensures DeviceEnc(device) == DeviceEnc("web")
    ensures LocationEnc(location) == LocationEnc("unknown")
    ensures "web" != device && "unknown" != location
  {
  }

  /** Builds one feature vector; hour and the two flags are copied from the row unchanged. */
  function PrepareRow(row: ParsedRow): (fv: FeatureVector)
    ensures fv.hour == row.hour && fv.isNight == row.isNight && fv.loginFailed == row.loginFailed
    ensures 0 <= fv.deviceEnc <= 2 && 0 <= fv.locationEnc <= 3
    ensures fv.deviceEnc == DeviceEnc(row.deviceType) && fv.locationEnc == LocationEnc(row.location)
  {
    FeatureVector(row.hour, row.isNight, row.loginFailed,
                  DeviceEnc(row.deviceType), LocationEnc(row.location))
  }

  /** The feature vector as the model sees it: a row of exactly five numbers in column order. */
  function Columns(fv: FeatureVector): (v: seq<int>)
    ensures |v| == 5
  {
    [fv.hour, fv.isNight, fv.loginFailed, fv.deviceEnc, fv.locationEnc]
  }

  function FromColumns(v: seq<int>): FeatureVector
    requires |v| == 5
  {
    FeatureVector(v[0], v[1], v[2], v[3], v[4])
  }

  /** The five columns determine the vector: no two vectors share a column row. */
  lemma ColumnsRoundTrip(fv: FeatureVector, v: seq<int>)
    requires |v| == 5
    ensures FromColumns(Columns(fv)) == fv
    ensures Columns(FromColumns(v)) == v
  {
  }

  /** Feature preparation for a whole table; each output row depends only on its own input row. */
  function PrepareFeatures(rows: seq<ParsedRow>): (fs: seq<FeatureVector>)
    ensures |fs| == |rows|
    ensures forall i :: 0 <= i < |rows| ==> fs[i] == PrepareRow(rows[i])
  {
    if |rows| == 0 then []
    else PrepareFeatures(rows[..|rows| - 1]) + [PrepareRow(rows[|rows| - 1])]
  }

  /** Preparing a table in two pieces gives the same vectors as preparing it whole. */
  lemma PrepareFeaturesAppend(a: seq<ParsedRow>, b: seq<ParsedRow>)
    ensures PrepareFeatures(a + b) == PrepareFeatures(a) + PrepareFeatures(b)
  {
    var lhs := PrepareFeatures(a + b);
    var rhs := PrepareFeatures(a) + PrepareFeatures(b);
    forall i | 0 <= i < |lhs|
      ensures lhs[i] == rhs[i]
    {
      if i < |a| {
        assert (a + b)[i] == a[i];
      } else {
        assert (a + b)[i] == b[i - |a|];
      }
    }
  }
}
