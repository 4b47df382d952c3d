/** The mod's tunables (`earthquake.config.json`) and the limits LoadConfig enforces. */
module Config {
  import opened GameMath

  /** One user-authored scheduled quake. */
  datatype UserScheduledEvent = UserScheduledEvent(month: int, day: int, hour: int, magnitudes: seq<int>)

  /** The configuration record. The floating-point tick length is not part of the
      model: the number of carving steps it yields is an input of the quake sequence. */
  datatype EarthquakeConfig = EarthquakeConfig(
    enableScheduledEvents: bool,
    eventsPerYear: int,
    eventNearPlayerRadius: int,
    quakesPerEventMin: int,
    quakesPerEventMax: int,
    magnitudeMin: int,
    magnitudeMax: int,
    goodiesPerEventMin: int,
    stonesPerEventMin: int,
    depthClampBelowMag: int,
    depthClampToSeaOffset: int,
    shardLoweringEnabled: bool,
    shardPatchCount: int,
    shardPatchRadiusMin: int,
    shardPatchRadiusMax: int,
    shardLowerMin: int,
    shardLowerMax: int,
    soundsEnabled: bool,
    interiorScanHeight: int,
    warningDaysBefore: int,
    userSchedule: seq<UserScheduledEvent>)

  /** The field initialisers of the configuration class. */
  const DefaultConfig := EarthquakeConfig(
    enableScheduledEvents := false, eventsPerYear := 3, eventNearPlayerRadius := 600,
    quakesPerEventMin := 1, quakesPerEventMax := 5, magnitudeMin := 1, magnitudeMax := 9,
    goodiesPerEventMin := 30, stonesPerEventMin := 300, depthClampBelowMag := 7,
    depthClampToSeaOffset := 20, shardLoweringEnabled := true, shardPatchCount := 8,
    shardPatchRadiusMin := 5, shardPatchRadiusMax := 16, shardLowerMin := 1, shardLowerMax := 8,
    soundsEnabled := true, interiorScanHeight := 5, warningDaysBefore := 3, userSchedule := [])

  /** The three limits LoadConfig enforces. */
  predicate LimitsHold(c: EarthquakeConfig) {
    1 <= c.eventsPerYear <= 3 && 1 <= c.quakesPerEventMax <= 4 && 1 <= c.warningDaysBefore <= 4
  }

  /** The clamps LoadConfig applies, on a loaded file and on the defaults alike:
      events per year to [1,3], quakes per event (upper bound) to [1,4], warning
      lookahead to [1,4]. Every other field is kept, and so is an in-range value. */
  function EnforceLimits(c: EarthquakeConfig): (r: EarthquakeConfig)
    ensures LimitsHold(r)
    ensures r == c.(eventsPerYear := r.eventsPerYear, quakesPerEventMax := r.quakesPerEventMax,
                    warningDaysBefore := r.warningDaysBefore)
    ensures LimitsHold(c) ==> r == c
  {
    c.(eventsPerYear := Clamp(c.eventsPerYear, 1, 3),
       quakesPerEventMax := Clamp(c.quakesPerEventMax, 1, 4),
       warningDaysBefore := Clamp(c.warningDaysBefore, 1, 4))
  }

  /** Enforcing the limits twice is enforcing them once. */
  lemma EnforceLimitsIdempotent(c: EarthquakeConfig)
    ensures EnforceLimits(EnforceLimits(c)) == EnforceLimits(c)
  {
  }
}
