/** Hero ranking and lookup over the hero statistics list the game-statistics
    service returns (src/heroes.js). The list is a parameter: fetching and
    caching it is modelled in HeroStatsApi. */
module Heroes {
  import opened Wrappers
  import opened Seqs
  import opened Text
  import opened Ranking

  /** Base and combat attributes, carried through to the lookup result
      unchanged. */
  datatype Attributes = Attributes(
    baseStr: real, baseAgi: real, baseInt: real,
    strGain: real, agiGain: real, intGain: real,
    moveSpeed: real, baseArmor: real, attackRange: real,
    baseAttackMin: real, baseAttackMax: real,
    baseHealth: real, baseMana: real)

  /** One record of the statistics list. A missing public pick or win
      counter is treated as 0; the `NaN` win rate of a hero with picks but
      no win counter, and the `undefined` pick count copied into its ranking
      entry, are not represented. A missing role list is `None`. */
  datatype HeroStat = HeroStat(
    id: int,
    name: string,
    roles: Option<seq<string>>,
    pubPick: nat,
    pubWin: nat,
    img: string,
    icon: string,
    primaryAttr: string,
    attackType: string,
    attributes: Attributes)

  /** The entries of the top-heroes ranking. */
  datatype RankedHero = RankedHero(
    id: int,
    name: string,
    winRate: real,
    picks: nat,
    img: string,
    icon: string,
    primaryAttr: string)

  /** The lookup result. */
  datatype HeroDetail = HeroDetail(
    name: string,
    img: string,
    icon: string,
    primaryAttr: string,
    attackType: string,
    roles: seq<string>,
    attributes: Attributes,
    winRate: real,
    picks: nat)

  /** The eight roles, in the order the overview lists them. */
  const Roles: seq<string> :=
    ["Carry", "Support", "Nuker", "Disabler", "Initiator", "Durable", "Escape", "Pusher"]

  const CdnBase: string := "https://cdn.dota2.com"

  /** Public win rate as a percentage; a hero never picked has rate 0. */
  function WinRate(h: HeroStat): (r: real)
    ensures h.pubPick == 0 ==> r == 0.0
    ensures h.pubPick > 0 ==> r * (h.pubPick as real) == 100.0 * (h.pubWin as real)
    ensures h.pubWin <= h.pubPick ==> 0.0 <= r <= 100.0
  {
    if h.pubPick == 0 then 0.0 else (h.pubWin as real / h.pubPick as real) * 100.0
  }

  /** `h.roles && h.roles.includes(role)` */
  predicate HasRole(h: HeroStat, role: string) {
    h.roles.Some? && role in h.roles.value
  }

  function ToRanked(h: HeroStat): RankedHero {
    RankedHero(h.id, h.name, WinRate(h), h.pubPick, CdnBase + h.img, CdnBase + h.icon, h.primaryAttr)
  }

  function RankKey(r: RankedHero): real {
    r.winRate
  }

  function WithRole(role: string): HeroStat -> bool {
    (h: HeroStat) => HasRole(h, role)
  }

  /** The heroes having `role`, in list order, as ranking entries. */
  function Candidates(heroes: seq<HeroStat>, role: string): seq<RankedHero> {
    var having := Filter(heroes, WithRole(role));
    seq(|having|, i requires 0 <= i < |having| => ToRanked(having[i]))
  }

  /** `getTopHeroesByRole(role, count)`: filter by role, rank by win rate
      (stable, descending), keep the first `count`. */
  function TopHeroesByRole(heroes: seq<HeroStat>, role: string, count: int): (top: seq<RankedHero>)
    ensures |top| <= |heroes|
    ensures count >= 0 ==> |top| <= count
    ensures count == 0 ==> top == []
  {
    assert |Candidates(heroes, role)| <= |heroes|;
    SliceTo(SortDesc(Candidates(heroes, role), RankKey), count)
  }

  /** Every candidate comes from a hero of the list that has the role. */
  lemma CandidatesFromList(heroes: seq<HeroStat>, role: string, r: RankedHero)
    requires r in Candidates(heroes, role)
    ensures exists h :: h in heroes && HasRole(h, role) && r == ToRanked(h)
  {
    var having := Filter(heroes, WithRole(role));
    FilterCount(heroes, WithRole(role));
    var i :| 0 <= i < |having| && Candidates(heroes, role)[i] == r;
    assert having[i] in heroes;
  }

  /** Every hero of the list that has the role is a candidate. */
  lemma ListInCandidates(heroes: seq<HeroStat>, role: string, h: HeroStat)
    requires h in heroes && HasRole(h, role)
    ensures ToRanked(h) in Candidates(heroes, role)
  {
    var having := Filter(heroes, WithRole(role));
    FilterCount(heroes, WithRole(role));
    var i :| 0 <= i < |having| && having[i] == h;
    assert Candidates(heroes, role)[i] == ToRanked(h);
  }

  /** What `getTopHeroesByRole` returns: heroes of the list having the role,
      ranked by non-increasing win rate, as many as `count` allows, drawn
      from the candidates without repetition. */
  lemma TopHeroesByRoleSpec(heroes: seq<HeroStat>, role: string, count: int)
    ensures var top := TopHeroesByRole(heroes, role, count);
      && (forall r | r in top :: exists h :: h in heroes && HasRole(h, role) && r == ToRanked(h))
      && NonIncreasing(top, RankKey)
      && (count >= 0 ==> |top| == if count < |Filter(heroes, WithRole(role))| then count
                                  else |Filter(heroes, WithRole(role))|)
      && multiset(top) <= multiset(Candidates(heroes, role))
  {
    var cands := Candidates(heroes, role);
    var sorted := SortDesc(cands, RankKey);
    var top := TopHeroesByRole(heroes, role, count);
    assert sorted == top + sorted[|top|..];
    forall r | r in top
      ensures exists h :: h in heroes && HasRole(h, role) && r == ToRanked(h)
    {
      PermutationMembers(sorted, cands, r);
      CandidatesFromList(heroes, role, r);
    }
    forall i, j | 0 <= i < j < |top|
      ensures RankKey(top[i]) >= RankKey(top[j])
    {
      assert top[i] == sorted[i] && top[j] == sorted[j];
    }
  }

  /** The cut at `count` is by rank: a returned hero has fewer than `count`
      candidates with a strictly higher win rate, and a hero with the role
      that at most `count` candidates (itself included) match or beat is
      returned. */
  lemma TopHeroesByRoleCut(heroes: seq<HeroStat>, role: string, count: int, h: HeroStat)
    requires count >= 0
    requires h in heroes && HasRole(h, role)
    ensures ToRanked(h) in TopHeroesByRole(heroes, role, count)
        ==> |Filter(Candidates(heroes, role), Above(RankKey, WinRate(h)))| < count
    ensures |Filter(Candidates(heroes, role), AtLeast(RankKey, WinRate(h)))| <= count
        ==> ToRanked(h) in TopHeroesByRole(heroes, role, count)
  {
    ListInCandidates(heroes, role, h);
    if ToRanked(h) in TopHeroesByRole(heroes, role, count) {
      TopHasFewAbove(Candidates(heroes, role), RankKey, count, ToRanked(h));
    }
    if |Filter(Candidates(heroes, role), AtLeast(RankKey, WinRate(h)))| <= count {
      FewAtLeastIsTop(Candidates(heroes, role), RankKey, count, ToRanked(h));
    }
  }

  /** Heroes with equal win rates keep their list order in the ranking. */
  lemma TopHeroesByRoleTies(heroes: seq<HeroStat>, role: string, count: int, v: real)
    ensures Filter(TopHeroesByRole(heroes, role, count), KeyIs(RankKey, v))
         <= Filter(Candidates(heroes, role), KeyIs(RankKey, v))
  {
    var sorted := SortDesc(Candidates(heroes, role), RankKey);
    var top := TopHeroesByRole(heroes, role, count);
    assert sorted == top + sorted[|top|..];
    FilterConcat(top, sorted[|top|..], KeyIs(RankKey, v));
    SortStable(Candidates(heroes, role), RankKey, v);
  }

  /** `getAllRolesTop(count)` for the roles in `roles`, in order. */
  function TopForRoles(heroes: seq<HeroStat>, roles: seq<string>, count: int): (r: seq<(string, seq<RankedHero>)>)
    ensures |r| == |roles|
    ensures forall i | 0 <= i < |roles| :: r[i] == (roles[i], TopHeroesByRole(heroes, roles[i], count))
  {
    if |roles| == 0 then []
    else [(roles[0], TopHeroesByRole(heroes, roles[0], count))] + TopForRoles(heroes, roles[1..], count)
  }

  /** `getAllRolesTop(count)`: one entry per role, keyed in role order, each
      holding that role's ranking. */
  function AllRolesTop(heroes: seq<HeroStat>, count: int): (r: seq<(string, seq<RankedHero>)>)
    ensures |r| == 8
    ensures forall i | 0 <= i < 8 :: r[i].0 == Roles[i] && r[i].1 == TopHeroesByRole(heroes, Roles[i], count)
  {
    TopForRoles(heroes, Roles, count)
  }

  /** The role names are pairwise different, so the roles object built from
      them has exactly eight keys. */
  lemma RolesDistinct()
    ensures forall i, j | 0 <= i < j < |Roles| :: Roles[i] != Roles[j]
  {
    forall i, j | 0 <= i < j < |Roles|
      ensures Roles[i] != Roles[j]
    {
      assert Roles[i][0] != Roles[j][0] || |Roles[i]| != |Roles[j]|;
    }
  }

  /** Primary-attribute codes and their display labels. */
  const AttrLabels: map<string, string> :=
    map["str" := "Strength", "agi" := "Agility", "int" := "Intelligence", "all" := "Universal"]

  /** Display label of a primary-attribute code; other codes pass through. */
  function AttrLabel(code: string): (shown: string)
    ensures code == "str" ==> shown == "Strength"
    ensures code == "agi" ==> shown == "Agility"
    ensures code == "int" ==> shown == "Intelligence"
    ensures code == "all" ==> shown == "Universal"
    ensures code !in {"str", "agi", "int", "all"} ==> shown == code
  {
    if code in AttrLabels then AttrLabels[code] else code
  }

  /** The query as the lookup compares it: lower-cased, then trimmed. */
  function NormalizeQuery(query: string): string {
    Trim(Lower(query))
  }

  function ExactName(q: string): HeroStat -> bool {
    (h: HeroStat) => Lower(h.name) == q
  }

  function PartialName(q: string): HeroStat -> bool {
    (h: HeroStat) => Contains(Lower(h.name), q)
  }

  /** Position of the hero `lookupHero(query)` picks: the first whose
      lower-cased name equals the query, failing that the first whose
      lower-cased name contains it. */
  function FindHero(heroes: seq<HeroStat>, query: string): (r: Option<nat>)
    ensures var q := NormalizeQuery(query);
      && (r.Some? ==> r.value < |heroes|)
      && ((exists i | 0 <= i < |heroes| :: ExactName(q)(heroes[i])) ==>
            r.Some? && ExactName(q)(heroes[r.value])
            && forall j | 0 <= j < r.value :: !ExactName(q)(heroes[j]))
      && ((forall i | 0 <= i < |heroes| :: !ExactName(q)(heroes[i])) ==>
            (r.Some? <==> exists i | 0 <= i < |heroes| :: PartialName(q)(heroes[i]))
            && (r.Some? ==> PartialName(q)(heroes[r.value])
                            && forall j | 0 <= j < r.value :: !PartialName(q)(heroes[j])))
  {
    var q := NormalizeQuery(query);
    match FindFirst(heroes, ExactName(q))
    case Some(i) => Some(i)
    case None => FindFirst(heroes, PartialName(q))
  }

  function Detail(h: HeroStat): HeroDetail {
    var totalPicks := if h.pubPick == 0 then 1 else h.pubPick;
    HeroDetail(
      h.name, CdnBase + h.img, CdnBase + h.icon, AttrLabel(h.primaryAttr), h.attackType,
      h.roles.GetOr([]), h.attributes,
      (h.pubWin as real / totalPicks as real) * 100.0, totalPicks)
  }

  /** The lookup result's figures: a hero with picks reports the ranking's win
      rate; one without reports a single pick and `100 * wins`. */
  lemma DetailFigures(h: HeroStat)
    ensures h.pubPick > 0 ==> Detail(h).picks == h.pubPick && Detail(h).winRate == WinRate(h)
    ensures h.pubPick == 0 ==> Detail(h).picks == 1 && Detail(h).winRate == (h.pubWin as real) * 100.0
    ensures Detail(h).roles == if h.roles.Some? then h.roles.value else []
  {
  }

  /** `lookupHero(query)` */
  function LookupHero(heroes: seq<HeroStat>, query: string): (found: Option<HeroDetail>)
    ensures found.Some? ==> exists i | 0 <= i < |heroes| ::
      found.value == Detail(heroes[i]) && Contains(Lower(heroes[i].name), NormalizeQuery(query))
    ensures heroes == [] ==> found.None?
  {
    match FindHero(heroes, query)
    case Some(i) =>
      assert OccursAt(Lower(heroes[i].name), NormalizeQuery(query), 0)
          || Contains(Lower(heroes[i].name), NormalizeQuery(query));
      Some(Detail(heroes[i]))
    case None => None
  }

  /** Nothing is found exactly when no lower-cased name contains the query. */
  lemma LookupHeroFound(heroes: seq<HeroStat>, query: string)
    ensures LookupHero(heroes, query).None?
        <==> forall i | 0 <= i < |heroes| :: !Contains(Lower(heroes[i].name), NormalizeQuery(query))
  {
    var q := NormalizeQuery(query);
    if exists i | 0 <= i < |heroes| :: ExactName(q)(heroes[i]) {
      var i :| 0 <= i < |heroes| && ExactName(q)(heroes[i]);
      assert OccursAt(Lower(heroes[i].name), q, 0);
    }
  }

  /** Case and surrounding white space of the query do not matter. */
  lemma {:induction false} LookupHeroQueryInsensitive(heroes: seq<HeroStat>, query: string, other: string, before: string, after: string)
    requires Lower(query) == Lower(other)
    requires AllSpace(before) && AllSpace(after)
    ensures LookupHero(heroes, before + query + after) == LookupHero(heroes, other)
  {
    LowerConcat(before, query);
    LowerConcat(before + query, after);
    LowerKeepsSpace(before);
    LowerKeepsSpace(after);
    TrimSurrounding(Lower(before), Lower(query), Lower(after));
    assert NormalizeQuery(before + query + after) == NormalizeQuery(other);
  }
}
