/**
 Kill switches and the autonomy rule: `apps/runtime/core/killswitch.py` and
 `apps/runtime/core/hitl.py`. Times are in seconds.
 */
module KillSwitches {
  import opened Wrappers

  const PAUSE_CACHE_TTL: int := 5
  const READ_ONLY_KEY: string := "global:read_only"

  /** `_is_flag_set` of what is stored under a key. */
  predicate FlagSet(values: map<string, string>, key: string) {
    key in values && values[key] == "1"
  }

  function PauseKey(agent: string): string {
    "agent:paused:" + agent
  }

  /** A flag as it was read, and the time its check began. */
  datatype Cached = Cached(paused: bool, at: int)

  predicate IsFresh(cache: map<string, Cached>, agent: string, now: int) {
    agent in cache && now - cache[agent].at < PAUSE_CACHE_TTL
  }

  predicate IsWrite(risk: string) {
    "write:" <= risk
  }

  /** The flags in Redis, which every process shares. */
  class Flags {
    var values: map<string, string>

    constructor ()
      ensures values == map[]
    {
      values := map[];
    }
  }

  class KillSwitch {
    const redis: Flags
    var cache: map<string, Cached>

    constructor (redis: Flags)
      ensures this.redis == redis && cache == map[]
    {
      this.redis := redis;
      cache := map[];
    }

    /** A fresh answer comes from the cache; any other is read and remembered. */
    method IsAgentPaused(agent: string, now: int) returns (paused: bool)
      modifies this`cache
      ensures IsFresh(old(cache), agent, now) ==> paused == old(cache)[agent].paused && cache == old(cache)
      ensures !IsFresh(old(cache), agent, now) ==>
                && paused == FlagSet(redis.values, PauseKey(agent))
                && cache == old(cache)[agent := Cached(paused, now)]
    {
      if agent in cache && now - cache[agent].at < PAUSE_CACHE_TTL {
        return cache[agent].paused;
      }
      paused := FlagSet(redis.values, PauseKey(agent));
      cache := cache[agent := Cached(paused, now)];
    }

    /** Never cached. */
    method BlocksTool(risk: string) returns (blocked: bool)
      ensures blocked <==> |risk| >= 6 && risk[..6] == "write:" && FlagSet(redis.values, READ_ONLY_KEY)
    {
      if !IsWrite(risk) {
        return false;
      }
      return FlagSet(redis.values, READ_ONLY_KEY);
    }

    /** Sets the agent's flag and leaves every other as it is. */
    method PauseAgent(agent: string)
      modifies redis
      ensures FlagSet(redis.values, PauseKey(agent))
      ensures forall other | other != agent ::
                FlagSet(redis.values, PauseKey(other)) == FlagSet(old(redis.values), PauseKey(other))
      ensures FlagSet(redis.values, READ_ONLY_KEY) == FlagSet(old(redis.values), READ_ONLY_KEY)
    {
      OtherKeysApart(agent);
      redis.values := redis.values[PauseKey(agent) := "1"];
    }

    /** Clears the agent's flag and leaves every other as it is. */
    method ResumeAgent(agent: string)
      modifies redis
      ensures !FlagSet(redis.values, PauseKey(agent))
      ensures forall other | other != agent ::
                FlagSet(redis.values, PauseKey(other)) == FlagSet(old(redis.values), PauseKey(other))
      ensures FlagSet(redis.values, READ_ONLY_KEY) == FlagSet(old(redis.values), READ_ONLY_KEY)
    {
      OtherKeysApart(agent);
      redis.values := redis.values[PauseKey(agent) := "0"];
    }

    /** Sets or clears the global flag and pauses or resumes no agent. */
    method SetGlobalReadOnly(enabled: bool)
      modifies redis
      ensures FlagSet(redis.values, READ_ONLY_KEY) == enabled
      ensures forall agent :: FlagSet(redis.values, PauseKey(agent)) == FlagSet(old(redis.values), PauseKey(agent))
    {
      forall agent
        ensures PauseKey(agent) != READ_ONLY_KEY
      {
        PauseKeysApart(agent, agent);
      }
      redis.values := redis.values[READ_ONLY_KEY := if enabled then "1" else "0"];
    }
  }

  lemma OtherKeysApart(agent: string)
    ensures forall other | other != agent :: PauseKey(other) != PauseKey(agent)
    ensures PauseKey(agent) != READ_ONLY_KEY
  {
    forall other | other != agent
      ensures PauseKey(other) != PauseKey(agent)
    {
      PauseKeysApart(agent, other);
    }
    PauseKeysApart(agent, agent);
  }

  const AUTONOMY_THRESHOLD: real := 0.9

  /** `requires_approval`; None for an unknown risk class. */
  function RequiresApproval(risk: string, passRate: real, autonomy: bool): Option<bool> {
    if risk == "read" then Some(false)
    else if risk == "write:external" then Some(true)
    else if risk == "write:internal" then Some(!(autonomy && passRate >= AUTONOMY_THRESHOLD))
    else None
  }

  lemma PauseKeysApart(a: string, b: string)
    ensures PauseKey(a) == PauseKey(b) ==> a == b
    ensures PauseKey(a) != READ_ONLY_KEY
  {
    assert PauseKey(a)[13..] == a && PauseKey(b)[13..] == b;
    assert PauseKey(a)[0] == 'a';
  }
}
