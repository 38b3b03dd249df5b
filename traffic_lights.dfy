/**
 * The two-phase signal controller (traffic_sim/model/traffic_lights.py): a
 * pure function of the simulated time modulo the cycle length, with four
 * consecutive sub-intervals: NS green, all red, EW green, all red.
 */
module TrafficLights {
  import opened Vehicles
  import opened PyMath

  datatype TrafficLightConfig = TrafficLightConfig(greenNs: real, greenEw: real, allRed: real)

  /** The configuration's defaults: 30 s of green per axis, 2 s of all-red. */
  const DefaultConfig: TrafficLightConfig := TrafficLightConfig(30.0, 30.0, 2.0)

  /** `cycle_duration`, computed once by the controller's constructor. */
  function CycleDuration(cfg: TrafficLightConfig): real
  {
    cfg.greenNs + cfg.allRed + cfg.greenEw + cfg.allRed
  }

  /** The position inside the cycle, `t % cycle_duration`. */
  function PhaseTime(cfg: TrafficLightConfig, t: real): real
    requires CycleDuration(cfg) != 0.0
  {
    FMod(t, CycleDuration(cfg))
  }

  /**
   * `get_state(t)`: the map from each direction to "is green". A zero-length
   * cycle makes the source's modulo raise, hence the precondition.
   */
  function GetState(cfg: TrafficLightConfig, t: real): (state: map<Direction, bool>)
    requires CycleDuration(cfg) != 0.0
    ensures forall d: Direction :: d in state
    ensures state[North] == state[South] && state[East] == state[West]
    ensures !(state[North] && state[East])
    ensures state[North] <==> PhaseTime(cfg, t) < cfg.greenNs
    ensures state[East] <==>
      && !(PhaseTime(cfg, t) < cfg.greenNs)
      && !(PhaseTime(cfg, t) < cfg.greenNs + cfg.allRed)
      && PhaseTime(cfg, t) < cfg.greenNs + cfg.allRed + cfg.greenEw
  {
    var phase := PhaseTime(cfg, t);
    var (greenNs, greenEw) :=
      if phase < cfg.greenNs then (true, false)
      else if phase < cfg.greenNs + cfg.allRed then (false, false)
      else if phase < cfg.greenNs + cfg.allRed + cfg.greenEw then (false, true)
      else (false, false);
    var state := map[North := greenNs, South := greenNs, East := greenEw, West := greenEw];
    KeysCoverDirections(state);
    state
  }

  /**
   * With non-negative durations the cycle splits into four consecutive
   * intervals: [0, g_ns) NS green; [g_ns, g_ns + r) all red; the next g_ew
   * EW green; the rest of the cycle all red.
   */
  lemma PhaseIntervals(cfg: TrafficLightConfig, t: real)
    requires cfg.greenNs >= 0.0 && cfg.greenEw >= 0.0 && cfg.allRed >= 0.0
    requires CycleDuration(cfg) > 0.0
    ensures var p := PhaseTime(cfg, t);
      var s := GetState(cfg, t);
      && 0.0 <= p < CycleDuration(cfg)
      && (p < cfg.greenNs ==> s[North] && !s[East])
      && (cfg.greenNs <= p < cfg.greenNs + cfg.allRed ==> !s[North] && !s[East])
      && (cfg.greenNs + cfg.allRed <= p < cfg.greenNs + cfg.allRed + cfg.greenEw ==> !s[North] && s[East])
      && (cfg.greenNs + cfg.allRed + cfg.greenEw <= p ==> !s[North] && !s[East])
  {
  }

  /** The state repeats with the cycle: `get_state(t + cycle) == get_state(t)`. */
  lemma GetStatePeriodic(cfg: TrafficLightConfig, t: real)
    requires CycleDuration(cfg) != 0.0
    ensures GetState(cfg, t + CycleDuration(cfg)) == GetState(cfg, t)
  {
    FModPeriodic(t, CycleDuration(cfg));
  }

  /** The default configuration (30, 30, 2) has a 64-second cycle. */
  lemma DefaultCycle()
    ensures CycleDuration(DefaultConfig) == 64.0
  {
  }
}
