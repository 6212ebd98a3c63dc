/** The client-side sliding-window rate limiter: a module-level map from an
    operation key to the timestamps of its recent calls and the limits the
    key was first seen with. `Date.now()` is the parameter `now` (ms). */
module RateLimiter {

  datatype Config = Config(maxRequests: int, timeWindowMs: int)

  datatype LimitState = LimitState(timestamps: seq<int>, config: Config)

  /** The predefined configurations. */
  const DefaultLimit := Config(10, 60 * 1000)
  const StrictLimit := Config(5, 60 * 1000)
  const LooseLimit := Config(30, 60 * 1000)
  const PerSecondLimit := Config(2, 1000)

  /** The timestamps still inside the window at `now`: those with
      `now - t < window`, in their original order. */
  function Recent(ts: seq<int>, now: int, window: int): (r: seq<int>)
    ensures |r| <= |ts|
  {
    if ts == [] then []
    else
      var last := ts[|ts| - 1];
      Recent(ts[..|ts| - 1], now, window) + (if now - last < window then [last] else [])
  }

  /** Exactly the timestamps inside the window survive the filter. */
  lemma {:induction false} RecentMembers(ts: seq<int>, now: int, window: int)
    ensures forall t :: t in Recent(ts, now, window) <==> t in ts && now - t < window
  {
    if ts != [] {
      RecentMembers(ts[..|ts| - 1], now, window);
      assert ts == ts[..|ts| - 1] + [ts[|ts| - 1]];
    }
  }

  predicate Ascending(ts: seq<int>) {
    forall i, j :: 0 <= i < j < |ts| ==> ts[i] <= ts[j]
  }

  /** Filtering keeps an ascending list ascending. */
  lemma {:induction false} RecentAscending(ts: seq<int>, now: int, window: int)
    requires Ascending(ts)
    ensures Ascending(Recent(ts, now, window))
    ensures forall t :: t in Recent(ts, now, window) ==> t in ts
  {
    if ts != [] {
      var init := ts[..|ts| - 1];
      assert Ascending(init) by {
        forall i, j | 0 <= i < j < |init| ensures init[i] <= init[j] {
          assert init[i] == ts[i] && init[j] == ts[j];
        }
      }
      RecentAscending(init, now, window);
      var r := Recent(init, now, window);
      var last := ts[|ts| - 1];
      forall t | t in r ensures t <= last {
        var i :| 0 <= i < |init| && init[i] == t;
        assert ts[i] == t;
      }
      assert ts == init + [last];
      var tail := if now - last < window then [last] else [];
      assert Recent(ts, now, window) == r + tail;
      forall i, j | 0 <= i < j < |r + tail| ensures (r + tail)[i] <= (r + tail)[j] {
        if j < |r| {
          assert (r + tail)[i] == r[i] && (r + tail)[j] == r[j];
        } else {
          assert (r + tail)[i] == r[i] && r[i] in r;
        }
      }
    }
  }

  /** The timestamps recorded for a key stay ascending when the clock does
      not run backwards. */
  lemma StepAscending(ts: seq<int>, now: int, window: int)
    requires Ascending(ts)
    requires forall t :: t in ts ==> t <= now
    ensures Ascending(Recent(ts, now, window) + [now])
  {
    RecentAscending(ts, now, window);
    var kept := Recent(ts, now, window);
    forall i, j | 0 <= i < j < |kept + [now]| ensures (kept + [now])[i] <= (kept + [now])[j] {
      assert (kept + [now])[i] == kept[i] && kept[i] in kept;
      if j < |kept| {
        assert (kept + [now])[j] == kept[j];
      }
    }
  }

  /** At most `maxRequests` timestamps are ever retained. */
  predicate Bounded(st: LimitState) {
    st.timestamps == [] || |st.timestamps| <= st.config.maxRequests
  }

  class Limiter {
    var states: map<string, LimitState>

    predicate Valid()
      reads this
    {
      forall k :: k in states ==> Bounded(states[k])
    }

    constructor()
      ensures states == map[] && Valid()
    {
      states := map[];
    }

    /** `isRateLimited(key, config)`: the key keeps the config of its first
        call; the window is pruned; the call is refused (`true`, nothing
        recorded) when the retained count has reached `maxRequests`,
        otherwise `now` is recorded and `false` returned. */
    method IsRateLimited(key: string, config: Config, now: int) returns (limited: bool)
      requires Valid()
      modifies this
      ensures Valid()
      ensures var cfg := if key in old(states) then old(states)[key].config else config;
        var old_ts := if key in old(states) then old(states)[key].timestamps else [];
        var kept := Recent(old_ts, now, cfg.timeWindowMs);
        && (limited <==> |kept| >= cfg.maxRequests)
        && states == old(states)[key := LimitState(if limited then kept else kept + [now], cfg)]
      ensures limited && states[key].config.maxRequests > 0 ==> TimeUntilReset(key, now) > 0
    {
      if key !in states {
        states := states[key := LimitState([], config)];
      }
      var st := states[key];
      var kept := Recent(st.timestamps, now, st.config.timeWindowMs);
      states := states[key := st.(timestamps := kept)];
      if |kept| >= st.config.maxRequests {
        if st.config.maxRequests > 0 {
          RefusedMeansWait(st, now);
        }
        return true;
      }
      states := states[key := st.(timestamps := kept + [now])];
      return false;
    }

    /** `getTimeUntilReset(key)`: 0 for an unknown key or one with no
        timestamps, otherwise how long until the oldest one leaves the
        window, never negative. */
    function TimeUntilReset(key: string, now: int): (wait: int)
      reads this
      ensures wait >= 0
      ensures wait > 0 <==> (key in states && states[key].timestamps != []
                              && states[key].timestamps[0] + states[key].config.timeWindowMs > now)
      ensures wait > 0 ==> now + wait == states[key].timestamps[0] + states[key].config.timeWindowMs
    {
      if key !in states || states[key].timestamps == [] then 0
      else
        var st := states[key];
        var reset := st.timestamps[0] + st.config.timeWindowMs;
        if reset - now > 0 then reset - now else 0
    }

    /** `resetRateLimit(key)`: forgets the key's timestamps, keeps its config;
        an unknown key is left alone. */
    method Reset(key: string)
      requires Valid()
      modifies this
      ensures Valid()
      ensures key in old(states) ==>
        states == old(states)[key := LimitState([], old(states)[key].config)]
      ensures key !in old(states) ==> states == old(states)
    {
      if key in states {
        states := states[key := states[key].(timestamps := [])];
      }
    }
  }

  /** A refused call leaves a positive wait when the limit admits any call:
      the oldest retained timestamp is still inside the window. */
  lemma RefusedMeansWait(st: LimitState, now: int)
    requires st.config.maxRequests > 0
    requires |Recent(st.timestamps, now, st.config.timeWindowMs)| >= st.config.maxRequests
    ensures var kept := Recent(st.timestamps, now, st.config.timeWindowMs);
      kept[0] + st.config.timeWindowMs - now > 0
  {
    var kept := Recent(st.timestamps, now, st.config.timeWindowMs);
    RecentMembers(st.timestamps, now, st.config.timeWindowMs);
    assert kept[0] in kept;
  }

  /** With a positive window nothing recorded at `now` is pruned at `now`,
      so calls at one instant fill the key up to `maxRequests`. */
  lemma {:induction false} SameInstantKept(ts: seq<int>, now: int, window: int)
    requires window > 0
    requires forall t :: t in ts ==> t == now
    ensures Recent(ts, now, window) == ts
  {
    if ts != [] {
      var init := ts[..|ts| - 1];
      assert ts == init + [ts[|ts| - 1]];
      assert forall t :: t in init ==> t in ts;
      assert ts[|ts| - 1] in ts;
      SameInstantKept(init, now, window);
    }
  }
}
