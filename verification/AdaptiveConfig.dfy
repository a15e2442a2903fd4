/** Configuration of the adaptive telemetry processor (processor/adaptivetelemetryprocessor/config.go). */
module AdaptiveConfig {
  const DEFAULT_RETENTION_MINUTES := 30
  const MAX_RETENTION_MINUTES := 30
  const DEFAULT_SMOOTHING: real := 0.2
  const MAX_HISTORY_SIZE := 100
  const DEFAULT_COMPOSITE_THRESHOLD: real := 1.5
  const DEFAULT_HISTORY_SIZE := 10
  const DEFAULT_CHANGE_THRESHOLD: real := 200.0
  const DEFAULT_MIN_DATA_POINTS := 3

  /** The settings the processor reads. */
  datatype Settings = Settings(
    metricThresholds: map<string, real>, retentionMinutes: int,
    dynamicEnabled: bool, smoothing: real, minThresholds: map<string, real>, maxThresholds: map<string, real>,
    multiEnabled: bool, compositeThreshold: real, weights: map<string, real>,
    anomalyEnabled: bool, historySize: int, changeThreshold: real, minDataPoints: int,
    debugShowAll: bool)

  /** The configuration object; Normalize rewrites it field by field. */
  class Config {
    const metricThresholds: map<string, real>
    const minThresholds: map<string, real>
    const maxThresholds: map<string, real>
    const weights: map<string, real>
    const dynamicEnabled: bool
    const multiEnabled: bool
    const anomalyEnabled: bool
    const debugShowAll: bool
    var retentionMinutes: int
    var smoothing: real
    var compositeThreshold: real
    var historySize: int
    var changeThreshold: real
    var minDataPoints: int

    constructor (s: Settings)
      ensures View() == s
    {
      metricThresholds, minThresholds, maxThresholds, weights :=
        s.metricThresholds, s.minThresholds, s.maxThresholds, s.weights;
      dynamicEnabled, multiEnabled, anomalyEnabled := s.dynamicEnabled, s.multiEnabled, s.anomalyEnabled;
      debugShowAll := s.debugShowAll;
      retentionMinutes, smoothing, compositeThreshold := s.retentionMinutes, s.smoothing, s.compositeThreshold;
      historySize, changeThreshold, minDataPoints := s.historySize, s.changeThreshold, s.minDataPoints;
    }

    function View(): Settings
      reads this
    {
      Settings(metricThresholds, retentionMinutes, dynamicEnabled, smoothing, minThresholds, maxThresholds,
        multiEnabled, compositeThreshold, weights, anomalyEnabled, historySize, changeThreshold, minDataPoints,
        debugShowAll)
    }

    method Normalize()
      modifies this
      ensures View() == Normalized(old(View()))
    {
      if retentionMinutes <= 0 {
        retentionMinutes := DEFAULT_RETENTION_MINUTES;
      }
      if retentionMinutes > MAX_RETENTION_MINUTES {
        retentionMinutes := MAX_RETENTION_MINUTES;
      }
      if dynamicEnabled {
        if smoothing <= 0.0 || smoothing > 1.0 {
          smoothing := DEFAULT_SMOOTHING;
        }
      }
      if multiEnabled {
        if compositeThreshold <= 0.0 {
          compositeThreshold := DEFAULT_COMPOSITE_THRESHOLD;
        }
      }
      NormalizeAnomaly();
    }

    /** The anomaly-detection part of the normalization. */
    method NormalizeAnomaly()
      modifies `historySize, `changeThreshold, `minDataPoints
      ensures var n := Normalized(old(View()));
        historySize == n.historySize && changeThreshold == n.changeThreshold && minDataPoints == n.minDataPoints
    {
      if anomalyEnabled {
        if historySize <= 0 {
          historySize := DEFAULT_HISTORY_SIZE;
        }
        if historySize > MAX_HISTORY_SIZE {
          historySize := MAX_HISTORY_SIZE;
        }
        if changeThreshold <= 0.0 {
          changeThreshold := DEFAULT_CHANGE_THRESHOLD;
        }
        if minDataPoints <= 0 {
          minDataPoints := DEFAULT_MIN_DATA_POINTS;
        }
        if minDataPoints < DEFAULT_MIN_DATA_POINTS {
          minDataPoints := DEFAULT_MIN_DATA_POINTS;
        }
        if historySize < minDataPoints {
          minDataPoints := DEFAULT_MIN_DATA_POINTS;
        }
      } else {
        if historySize == 0 {
          historySize := DEFAULT_HISTORY_SIZE;
        }
        if changeThreshold == 0.0 {
          changeThreshold := DEFAULT_CHANGE_THRESHOLD;
        }
        if minDataPoints == 0 {
          minDataPoints := DEFAULT_MIN_DATA_POINTS;
        }
      }
    }

    /** Go's error becomes false. */
    method Validate() returns (ok: bool)
      ensures ok <==> Valid(View())
    {
      var negative := HasNegative(metricThresholds);
      if negative {
        return false;
      }
      negative := HasNegative(minThresholds);
      if negative {
        return false;
      }
      negative := HasNegative(maxThresholds);
      if negative {
        return false;
      }
      if anomalyEnabled {
        if historySize <= 0 || changeThreshold <= 0.0 || minDataPoints <= 0 {
          return false;
        }
      }
      ok := !(multiEnabled && compositeThreshold <= 0.0);
    }
  }

  /** The loop over one threshold map, in whatever order the map is visited. */
  method HasNegative(m: map<string, real>) returns (found: bool)
    ensures found <==> exists k :: k in m && m[k] < 0.0
  {
    var rest := m.Keys;
    while rest != {}
      invariant rest <= m.Keys
      invariant forall k :: k in m && k !in rest ==> m[k] >= 0.0
      decreases rest
    {
      var k :| k in rest;
      if m[k] < 0.0 {
        return true;
      }
      rest := rest - {k};
    }
    found := false;
  }

  function Clamp(x: int, low: int, default: int, high: int): int {
    var y := if x <= low then default else x;
    if y > high then high else y
  }

  /** The settings after normalization. */
  function Normalized(s: Settings): Settings {
    var history := Clamp(s.historySize, 0, DEFAULT_HISTORY_SIZE, MAX_HISTORY_SIZE);
    var points := if s.minDataPoints < DEFAULT_MIN_DATA_POINTS then DEFAULT_MIN_DATA_POINTS else s.minDataPoints;
    s.(
      retentionMinutes := Clamp(s.retentionMinutes, 0, DEFAULT_RETENTION_MINUTES, MAX_RETENTION_MINUTES),
      smoothing := if s.dynamicEnabled && !(0.0 < s.smoothing <= 1.0) then DEFAULT_SMOOTHING else s.smoothing,
      compositeThreshold :=
        if s.multiEnabled && s.compositeThreshold <= 0.0 then DEFAULT_COMPOSITE_THRESHOLD else s.compositeThreshold,
      historySize :=
        if s.anomalyEnabled then history else if s.historySize == 0 then DEFAULT_HISTORY_SIZE else s.historySize,
      changeThreshold :=
        if (s.anomalyEnabled && s.changeThreshold <= 0.0) || s.changeThreshold == 0.0 then DEFAULT_CHANGE_THRESHOLD
        else s.changeThreshold,
      minDataPoints :=
        if s.anomalyEnabled then (if history < points then DEFAULT_MIN_DATA_POINTS else points)
        else if s.minDataPoints == 0 then DEFAULT_MIN_DATA_POINTS else s.minDataPoints)
  }

  ghost predicate Valid(s: Settings) {
    && (forall k :: k in s.metricThresholds ==> s.metricThresholds[k] >= 0.0)
    && (forall k :: k in s.minThresholds ==> s.minThresholds[k] >= 0.0)
    && (forall k :: k in s.maxThresholds ==> s.maxThresholds[k] >= 0.0)
    && (s.anomalyEnabled ==> s.historySize > 0 && s.changeThreshold > 0.0 && s.minDataPoints > 0)
    && (s.multiEnabled ==> s.compositeThreshold > 0.0)
  }

  /** After normalization only a negative threshold can make validation fail. */
  lemma NormalizedIsValidUnlessNegative(s: Settings)
    ensures Valid(Normalized(s)) <==>
      && (forall k :: k in s.metricThresholds ==> s.metricThresholds[k] >= 0.0)
      && (forall k :: k in s.minThresholds ==> s.minThresholds[k] >= 0.0)
      && (forall k :: k in s.maxThresholds ==> s.maxThresholds[k] >= 0.0)
  {
    var n := Normalized(s);
    assert n.metricThresholds == s.metricThresholds && n.minThresholds == s.minThresholds &&
      n.maxThresholds == s.maxThresholds;
  }

  /** The defaults of a configuration that sets nothing and enables everything. */
  lemma DefaultsFilledIn()
    ensures
      Normalized(Settings(map[], 0, true, 0.0, map[], map[], true, 0.0, map[], true, 0, 0.0, 0, false)) ==
      Settings(map[], 30, true, 0.2, map[], map[], true, 1.5, map[], true, 10, 200.0, 3, false)
  {
  }

  /** The settings that normalization leaves alone: all that is enabled is set within its range. */
  lemma NormalizedWithinRange(s: Settings)
    ensures Normalized(s) == s <==>
      && 1 <= s.retentionMinutes <= 30
      && (s.dynamicEnabled ==> 0.0 < s.smoothing <= 1.0)
      && (s.multiEnabled ==> s.compositeThreshold > 0.0)
      && if s.anomalyEnabled then
           && 1 <= s.historySize <= 100 && s.changeThreshold > 0.0
           && (s.minDataPoints == 3 || 3 < s.minDataPoints <= s.historySize)
         else s.historySize != 0 && s.changeThreshold != 0.0 && s.minDataPoints != 0
  {
    var n := Normalized(s);
    assert n == s <==>
      && n.retentionMinutes == s.retentionMinutes && n.smoothing == s.smoothing
      && n.compositeThreshold == s.compositeThreshold && n.historySize == s.historySize
      && n.changeThreshold == s.changeThreshold && n.minDataPoints == s.minDataPoints;
  }

  lemma NormalizeIsIdempotent(s: Settings)
    ensures Normalized(Normalized(s)) == Normalized(s)
  {
    var n := Normalized(s);
    assert Normalized(n).minDataPoints == n.minDataPoints;
    assert Normalized(n).historySize == n.historySize;
  }

  /**
   * The auto-correction lets the history reach the minimum number of data points unless the
   * configured history size is 1 or 2: then the detector can never fire (AdaptiveAnomaly).
   */
  lemma NormalizedHistoryReachesMinimum(s: Settings)
    requires s.anomalyEnabled
    ensures Normalized(s).historySize >= Normalized(s).minDataPoints <==> !(s.historySize == 1 || s.historySize == 2)
    ensures Normalized(s).minDataPoints >= 3 && 1 <= Normalized(s).historySize <= 100
    ensures 1 <= Normalized(s).retentionMinutes <= 30
  {
  }
}
