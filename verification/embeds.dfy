/** The embed construction of src/embeds.js, with an embed reduced to a
    plain record. The win-rate text `${winRate.toFixed(1)}%` is a parameter
    (`percent`), since number formatting is not modelled. */
module Embeds {
  import opened Wrappers
  import opened Text
  import Seqs
  import Heroes

  /** Colour of an unknown role or attribute. */
  const Fallback: int := 0x607D8B

  const RoleColors: map<string, int> := map[
    "Carry" := 0xF44336, "Support" := 0x4CAF50, "Nuker" := 0x9C27B0, "Disabler" := 0x2196F3,
    "Initiator" := 0xFF9800, "Durable" := 0x795548, "Escape" := 0x00BCD4, "Pusher" := 0xFFEB3B]

  const AttrColors: map<string, int> := map[
    "Strength" := 0xF44336, "Agility" := 0x4CAF50, "Intelligence" := 0x2196F3, "Universal" := 0xCDCDCD]

  /** `ROLE_COLORS[role] || 0x607D8B` */
  function RoleColor(role: string): int {
    if role in RoleColors then RoleColors[role] else Fallback
  }

  /** `ATTR_COLORS[attr] || 0x607D8B` */
  function AttrColor(attr: string): int {
    if attr in AttrColors then AttrColors[attr] else Fallback
  }

  /** The colour table covers exactly the eight roles, each with a colour of
      its own rather than the fallback; any other role gets the fallback. */
  lemma RoleColorsCoverRoles(role: string)
    ensures RoleColors.Keys == set i | 0 <= i < |Heroes.Roles| :: Heroes.Roles[i]
    ensures role in Heroes.Roles ==> RoleColor(role) != Fallback
    ensures role !in Heroes.Roles ==> RoleColor(role) == Fallback
  {
    var roleSet := set i | 0 <= i < |Heroes.Roles| :: Heroes.Roles[i];
    assert Heroes.Roles[0] in roleSet && Heroes.Roles[1] in roleSet && Heroes.Roles[2] in roleSet;
    assert Heroes.Roles[3] in roleSet && Heroes.Roles[4] in roleSet && Heroes.Roles[5] in roleSet;
    assert Heroes.Roles[6] in roleSet && Heroes.Roles[7] in roleSet;
  }

  /** Every known attribute code is labelled with a colour of its own; a code
      that is neither known nor a label itself gets the fallback. */
  lemma AttrCodeColor(code: string)
    ensures code in Heroes.AttrLabels ==> AttrColor(Heroes.AttrLabel(code)) != Fallback
    ensures code !in Heroes.AttrLabels && code !in AttrColors ==> AttrColor(Heroes.AttrLabel(code)) == Fallback
  {
  }

  datatype Embed = Embed(title: string, description: string, color: int, footer: string, thumbnail: Option<string>)

  const Fence: string := "```"
  const Rule: char := '\U{2500}'

  /** `Math.max(...heroes.map(h => h.name.length), 4)` */
  function NameWidth(heroes: seq<Heroes.RankedHero>): (w: nat)
    ensures w >= 4
    ensures forall i | 0 <= i < |heroes| :: |heroes[i].name| <= w
    ensures w == 4 || exists i | 0 <= i < |heroes| :: |heroes[i].name| == w
  {
    if |heroes| == 0 then 4
    else
      var rest := NameWidth(heroes[1..]);
      if |heroes[0].name| > rest then |heroes[0].name| else rest
  }

  function Header(width: nat): string {
    PadEnd("#", 3) + " " + PadEnd("Hero", width) + "  " + PadStart("Win %", 6)
  }

  /** Row `i` (0-based) of the table. */
  function Row(i: nat, name: string, winRate: string, width: nat): string {
    PadEnd(NatToString(i + 1) + ".", 3) + " " + PadEnd(name, width) + "  " + PadStart(winRate, 6)
  }

  /** The lines of the table: fence, header, rule, one row per hero, fence. */
  function TableLines(heroes: seq<Heroes.RankedHero>, percent: real -> string): seq<string> {
    var width := NameWidth(heroes);
    var header := Header(width);
    [Fence, header, Repeat(Rule, |header|)]
      + seq(|heroes|, i requires 0 <= i < |heroes| => Row(i, heroes[i].name, percent(heroes[i].winRate), width))
      + [Fence]
  }

  /** The header is 12 characters wider than the name column. */
  lemma HeaderWidth(width: nat)
    requires width >= 4
    ensures |Header(width)| == width + 12
  {
  }

  /** A row lines up with the header exactly when its rank fits in three
      characters (at most 99 rows) and its win-rate text in six; the rank
      then fills columns 0-2 and the name columns 4 to `width + 3`. */
  lemma RowAlignment(i: nat, name: string, winRate: string, width: nat)
    requires width >= 4 && |name| <= width
    ensures |Row(i, name, winRate, width)| == |Header(width)| <==> i + 1 < 100 && |winRate| <= 6
    ensures i + 1 < 100 ==>
      && Row(i, name, winRate, width)[..3] == PadEnd(NatToString(i + 1) + ".", 3)
      && Row(i, name, winRate, width)[4..4 + width] == PadEnd(name, width)
  {
    var rank := NatToString(i + 1) + ".";
    var a, b, c := PadEnd(rank, 3), PadEnd(name, width), PadStart(winRate, 6);
    var row := a + " " + b + "  " + c;
    assert Row(i, name, winRate, width) == row;
    assert |row| == |a| + |b| + |c| + 3;
    assert |b| == width;
    HeaderWidth(width);
    DecimalWidth(i + 1, 2);
    assert Pow10(2) == 100;
    assert |rank| <= 3 <==> i + 1 < 100;
    if i + 1 < 100 {
      RowColumns(a, b, c);
    }
  }

  lemma RowColumns(a: string, b: string, c: string)
    requires |a| == 3
    ensures (a + " " + b + "  " + c)[..3] == a
    ensures (a + " " + b + "  " + c)[4..4 + |b|] == b
  {
    var row := a + " " + b + "  " + c;
    assert row == (a + " ") + b + ("  " + c);
    Seqs.MiddleOfConcat(a + " ", b, "  " + c);
    Seqs.MiddleOfConcat(a, " ", b + "  " + c);
    assert row == a + " " + (b + "  " + c);
  }

  /** The table has a line per hero plus four, fenced, with a rule exactly
      as wide as the header, and row `i` in line `3 + i`. */
  lemma TableShape(heroes: seq<Heroes.RankedHero>, percent: real -> string)
    ensures var lines := TableLines(heroes, percent);
      && |lines| == |heroes| + 4
      && lines[0] == Fence && lines[|lines| - 1] == Fence
      && lines[1] == Header(NameWidth(heroes))
      && |lines[2]| == |lines[1]| == NameWidth(heroes) + 12
      && (forall j | 0 <= j < |lines[2]| :: lines[2][j] == Rule)
      && forall i | 0 <= i < |heroes| ::
           lines[3 + i] == Row(i, heroes[i].name, percent(heroes[i].winRate), NameWidth(heroes))
  {
    HeaderWidth(NameWidth(heroes));
  }

  /** A row has no line break unless its name or win-rate text has one. */
  lemma RowUnbroken(i: nat, name: string, winRate: string, width: nat)
    requires '\n' !in name && '\n' !in winRate
    ensures '\n' !in Row(i, name, winRate, width)
  {
    var rank := NatToString(i + 1) + ".";
    DecimalRoundTrip(i + 1);
    assert forall j | 0 <= j < |rank| :: rank[j] != '\n';
    var a, b, c := PadEnd(rank, 3), PadEnd(name, width), PadStart(winRate, 6);
    assert '\n' !in a by {
      assert a[..|rank|] == rank;
    }
    assert '\n' !in b by {
      assert b[..|name|] == name;
    }
    assert '\n' !in c by {
      assert c[|c| - |winRate|..] == winRate;
    }
    assert Row(i, name, winRate, width) == a + " " + b + "  " + c;
  }

  /** No line of the table has a line break when no name or win-rate text
      has one. */
  lemma LineUnbroken(heroes: seq<Heroes.RankedHero>, percent: real -> string, k: nat)
    requires forall i | 0 <= i < |heroes| :: '\n' !in heroes[i].name && '\n' !in percent(heroes[i].winRate)
    requires k < |TableLines(heroes, percent)|
    ensures '\n' !in TableLines(heroes, percent)[k]
  {
    var lines := TableLines(heroes, percent);
    var width := NameWidth(heroes);
    if 3 <= k < |lines| - 1 {
      var i := k - 3;
      assert lines[k] == Row(i, heroes[i].name, percent(heroes[i].winRate), width);
      RowUnbroken(i, heroes[i].name, percent(heroes[i].winRate), width);
    } else if k == 2 {
      var rule := Repeat(Rule, |Header(width)|);
      assert lines[2] == rule;
      assert forall j | 0 <= j < |rule| :: rule[j] == Rule;
    }
  }

  /** The table text splits back into its lines when no name or win-rate
      text contains a line break. */
  lemma TableSplits(heroes: seq<Heroes.RankedHero>, percent: real -> string)
    requires forall i | 0 <= i < |heroes| :: '\n' !in heroes[i].name && '\n' !in percent(heroes[i].winRate)
    ensures Split(Join(TableLines(heroes, percent), "\n"), '\n') == TableLines(heroes, percent)
  {
    var lines := TableLines(heroes, percent);
    forall k | 0 <= k < |lines|
      ensures '\n' !in lines[k]
    {
      LineUnbroken(heroes, percent, k);
    }
    SplitJoin(lines, '\n');
  }

  /** `buildRoleEmbed(role, heroes)` without its timestamp. */
  function BuildRoleEmbed(role: string, heroes: seq<Heroes.RankedHero>, percent: real -> string): (e: Embed)
    ensures e.title == "Top " + NatToString(|heroes|) + " " + role + " Heroes"
    ensures e.color == if role in RoleColors then RoleColors[role] else Fallback
    ensures e.thumbnail.Some? <==> |heroes| > 0
    ensures |heroes| > 0 ==> e.thumbnail.value == heroes[0].img
    ensures e.description == Join(TableLines(heroes, percent), "\n")
    ensures StartsWith(e.description, Fence + "\n")
    ensures e.footer == "Public matches"
  {
    var lines := TableLines(heroes, percent);
    assert Join(lines, "\n") == Fence + "\n" + Join(lines[1..], "\n");
    Embed("Top " + NatToString(|heroes|) + " " + role + " Heroes", Join(lines, "\n"),
          RoleColor(role), "Public matches",
          if |heroes| > 0 then Some(heroes[0].img) else None)
  }

  /** The role embed's text is the table: split at its line breaks it
      gives back the fence, header, rule, one row per hero and the closing
      fence, when no name or win-rate text has a line break. */
  lemma RoleEmbedLines(role: string, heroes: seq<Heroes.RankedHero>, percent: real -> string)
    requires forall i | 0 <= i < |heroes| :: '\n' !in heroes[i].name && '\n' !in percent(heroes[i].winRate)
    ensures var lines := Split(BuildRoleEmbed(role, heroes, percent).description, '\n');
      && lines == TableLines(heroes, percent)
      && |lines| == |heroes| + 4
      && forall i | 0 <= i < |heroes| ::
           lines[3 + i] == Row(i, heroes[i].name, percent(heroes[i].winRate), NameWidth(heroes))
  {
    TableSplits(heroes, percent);
    TableShape(heroes, percent);
  }

  /** `buildOverviewEmbeds(allRolesData)`: one embed per entry, in entry
      order. */
  function BuildOverviewEmbeds(entries: seq<(string, seq<Heroes.RankedHero>)>, percent: real -> string)
    : (r: seq<Embed>)
    ensures |r| == |entries|
    ensures forall i | 0 <= i < |entries| :: r[i] == BuildRoleEmbed(entries[i].0, entries[i].1, percent)
  {
    if |entries| == 0 then []
    else [BuildRoleEmbed(entries[0].0, entries[0].1, percent)] + BuildOverviewEmbeds(entries[1..], percent)
  }

  /** The overview of all roles is eight embeds in role order, each in its
      role's own colour, titled with its role. */
  lemma {:induction false} OverviewOfAllRoles(heroes: seq<Heroes.HeroStat>, count: int, percent: real -> string)
    ensures var embeds := BuildOverviewEmbeds(Heroes.AllRolesTop(heroes, count), percent);
      && |embeds| == 8
      && forall i | 0 <= i < 8 ::
           var top := Heroes.TopHeroesByRole(heroes, Heroes.Roles[i], count);
           && embeds[i].color == RoleColors[Heroes.Roles[i]]
           && embeds[i].color != Fallback
           && embeds[i].title == "Top " + NatToString(|top|) + " " + Heroes.Roles[i] + " Heroes"
  {
    forall i | 0 <= i < 8
      ensures Heroes.Roles[i] in RoleColors && RoleColors[Heroes.Roles[i]] != Fallback
    {
      RoleColorsCoverRoles(Heroes.Roles[i]);
    }
  }

  /** `hero.roles.join(', ') || 'None'` */
  function RolesField(roles: seq<string>): (r: string)
    ensures roles == [] || roles == [""] ==> r == "None"
    ensures roles != [] && roles != [""] ==> r == Join(roles, ", ") && r != ""
  {
    JoinEmpty(roles, ", ");
    var joined := Join(roles, ", ");
    if joined == "" then "None" else joined
  }

  /** The parts of `buildHeroEmbed(hero)` that are modelled. */
  datatype HeroEmbed = HeroEmbed(title: string, thumbnail: string, color: int, roles: string)

  /** `buildHeroEmbed(hero)`: the title, thumbnail, colour and roles field. */
  function BuildHeroEmbed(hero: Heroes.HeroDetail): (e: HeroEmbed)
    ensures e.title == hero.name && e.thumbnail == hero.img
    ensures e.color == if hero.primaryAttr in AttrColors then AttrColors[hero.primaryAttr] else Fallback
    ensures e.roles == RolesField(hero.roles)
  {
    HeroEmbed(hero.name, hero.img, AttrColor(hero.primaryAttr), RolesField(hero.roles))
  }

  /** The embed of a looked-up hero: titled with its name, with the CDN
      image as thumbnail; in the fallback colour exactly when its attribute
      code is neither one of the four known codes nor already a label; with
      roles `None` when it has none, otherwise its roles joined by `, `. */
  lemma HeroEmbedOfLookup(h: Heroes.HeroStat)
    ensures var e := BuildHeroEmbed(Heroes.Detail(h));
      && e.title == h.name
      && e.thumbnail == Heroes.CdnBase + h.img
      && (e.color == Fallback <==> h.primaryAttr !in Heroes.AttrLabels && h.primaryAttr !in AttrColors)
      && (h.primaryAttr == "str" ==> e.color == AttrColors["Strength"])
      && (h.primaryAttr == "agi" ==> e.color == AttrColors["Agility"])
      && (h.primaryAttr == "int" ==> e.color == AttrColors["Intelligence"])
      && (h.primaryAttr == "all" ==> e.color == AttrColors["Universal"])
      && (h.roles.None? || h.roles.value == [] || h.roles.value == [""] ==> e.roles == "None")
      && (h.roles.Some? && h.roles.value != [] && h.roles.value != [""] ==> e.roles == Join(h.roles.value, ", "))
  {
    AttrCodeColor(h.primaryAttr);
  }
}
