/** `fetchHeroStats` (src/api.js): the hero statistics list behind the
    five-minute cache. */
module HeroStatsApi {
  import opened Wrappers
  import opened Http
  import opened Cache
  import Heroes

  type HeroList = seq<Heroes.HeroStat>

  /** `fetchHeroStats()` at clock reading `now`, where `response` is what
      the statistics endpoint answers if it is asked. */
  function FetchHeroStats(slot: Slot<HeroList>, now: int, response: Response<HeroList>)
    : (s: Served<HeroList, ApiError>)
    ensures Fresh(slot, now) ==> s.result == Success(slot.data.value) && s.slot == slot && !s.refreshed
    ensures !Fresh(slot, now) && Ok(response) && response.body.Some? ==>
      s.result == Success(response.body.value) && s.slot == Slot(Some(response.body.value), now)
    ensures !Fresh(slot, now) && !Ok(response) ==>
      s.result == Failure(StatusError(OpenDota, response.status, response.statusText)) && s.slot == slot
    ensures s.result.Failure? ==> s.slot == slot
  {
    Read(slot, now, Receive(OpenDota, response))
  }

  /** Freshness is strict: a slot filled at `t` is still served at
      `t + Ttl - 1` and refreshed at `t + Ttl`. */
  lemma HeroStatsExpiry(list: HeroList, t: int, response: Response<HeroList>)
    ensures !FetchHeroStats(Slot(Some(list), t), t + Ttl - 1, response).refreshed
    ensures FetchHeroStats(Slot(Some(list), t), t + Ttl, response).refreshed
  {
  }
}
