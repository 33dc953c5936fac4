/** The community leaderboard page of src/pages/Leaderboard.tsx: the mock
    ranking, the case-insensitive name search over it, the display category
    of each row (rank icon, card background, status badge) and the community
    name shown in the header.

    Lower-casing is modelled on ASCII letters only; style classes are the
    literal strings the page uses. */
module Leaderboard {
  import opened Collections
  import opened Text

  datatype LeaderRow = LeaderRow(name: string, volume: int, change: string, avatar: string, rank: int, status: string)

  const Avatar: string := "/api/placeholder/40/40"

  /** `generateLeaderboardData`: the same ten rows whatever the community,
      ranked 1 to 10 in order, with strictly falling volume and distinct names. */
  function GenerateLeaderboardData(communityId: string): (rows: seq<LeaderRow>)
    ensures |rows| == 10
    ensures forall i :: 0 <= i < |rows| ==> rows[i].rank == i + 1
    ensures forall i, j :: 0 <= i < j < |rows| ==> rows[i].volume > rows[j].volume
    ensures forall i, j :: 0 <= i < j < |rows| ==> rows[i].name != rows[j].name
    ensures forall i :: 0 <= i < |rows| ==> rows[i].status in {"ELIGIBLE", "EXCLUDED", "ENTERED"}
  {
    [ LeaderRow("CryptoKing2024", 15420, "+12.5%", Avatar, 1, "ENTERED"),
      LeaderRow("YeetMaster", 14850, "+8.2%", Avatar, 2, "ELIGIBLE"),
      LeaderRow("DiamondHands", 13990, "+15.1%", Avatar, 3, "ENTERED"),
      LeaderRow("MoonShot", 12750, "-2.3%", Avatar, 4, "EXCLUDED"),
      LeaderRow("HODLer4Life", 11900, "+5.7%", Avatar, 5, "ENTERED"),
      LeaderRow("AlphaTrade", 11200, "+9.4%", Avatar, 6, "ELIGIBLE"),
      LeaderRow("BullMarket", 10850, "+3.1%", Avatar, 7, "ELIGIBLE"),
      LeaderRow("DegenTrader", 9950, "-1.5%", Avatar, 8, "EXCLUDED"),
      LeaderRow("GigaChad", 9420, "+7.8%", Avatar, 9, "ENTERED"),
      LeaderRow("ProTrader", 8900, "+4.2%", Avatar, 10, "ELIGIBLE") ]
  }

  /** The mock rows do not depend on the community id. */
  lemma SameRowsForEveryCommunity(a: string, b: string)
    ensures GenerateLeaderboardData(a) == GenerateLeaderboardData(b)
  {
  }

  // ---------------------------------------------------------------------
  // Search

  function LowerChar(c: char): char {
    if 'A' <= c <= 'Z' then (c as int + 32) as char else c
  }

  function UpperChar(c: char): char {
    if 'a' <= c <= 'z' then (c as int - 32) as char else c
  }

  /** `s.toLowerCase()` on ASCII letters. */
  function Lower(s: string): (r: string)
    ensures |r| == |s| && forall i :: 0 <= i < |s| ==> r[i] == LowerChar(s[i])
  {
    seq(|s|, i requires 0 <= i < |s| => LowerChar(s[i]))
  }

  /** `s.toUpperCase()` on ASCII letters. */
  function Upper(s: string): (r: string)
    ensures |r| == |s| && forall i :: 0 <= i < |s| ==> r[i] == UpperChar(s[i])
  {
    seq(|s|, i requires 0 <= i < |s| => UpperChar(s[i]))
  }

  /** `sub` occurs in `s` starting at position `i`. */
  ghost predicate OccursAt(s: string, sub: string, i: int) {
    0 <= i && i + |sub| <= |s| && s[i..i + |sub|] == sub
  }

  /** `s.includes(sub)`, searched from the front. */
  predicate Contains(s: string, sub: string)
    decreases |s|
  {
    (|sub| <= |s| && s[..|sub|] == sub) || (s != [] && Contains(s[1..], sub))
  }

  /** `Contains` finds exactly the substrings of `s`. */
  lemma {:induction false} ContainsIffOccurs(s: string, sub: string)
    ensures Contains(s, sub) <==> exists i :: OccursAt(s, sub, i)
    decreases |s|
  {
    if |sub| <= |s| && s[..|sub|] == sub {
      assert OccursAt(s, sub, 0);
    }
    if s != [] {
      ContainsIffOccurs(s[1..], sub);
      if exists i :: OccursAt(s[1..], sub, i) {
        var i :| OccursAt(s[1..], sub, i);
        assert s[i + 1..i + 1 + |sub|] == s[1..][i..i + |sub|];
        assert OccursAt(s, sub, i + 1);
      }
      if exists i :: OccursAt(s, sub, i) {
        var i :| OccursAt(s, sub, i);
        if i > 0 {
          assert s[1..][i - 1..i - 1 + |sub|] == s[i..i + |sub|];
          assert OccursAt(s[1..], sub, i - 1);
        }
      }
    } else {
      if exists i :: OccursAt(s, sub, i) {
        var i :| OccursAt(s, sub, i);
        assert sub == [] && s[..|sub|] == sub;
      }
    }
  }

  /** A row matches when its lower-cased name contains the lower-cased query. */
  predicate Matches(row: LeaderRow, query: string) {
    Contains(Lower(row.name), Lower(query))
  }

  /** `leaderboardData`: the rows whose name matches the query, in their
      original order, with every occurrence of each of them. */
  function Search(rows: seq<LeaderRow>, query: string): (r: seq<LeaderRow>)
    ensures IsSubseq(r, rows) && |r| <= |rows|
    ensures forall i :: 0 <= i < |r| ==> Matches(r[i], query)
    ensures forall i :: 0 <= i < |rows| && Matches(rows[i], query) ==> rows[i] in r
    ensures multiset(r) <= multiset(rows)
    ensures forall row :: row in rows && Matches(row, query) ==> multiset(r)[row] == multiset(rows)[row]
  {
    Filter(rows, row => Matches(row, query))
  }

  /** The empty search box shows the whole board. */
  lemma EmptyQueryKeepsAll(rows: seq<LeaderRow>)
    ensures Search(rows, "") == rows
  {
    assert forall i :: 0 <= i < |rows| ==> Matches(rows[i], "") by {
      forall i | 0 <= i < |rows|
        ensures Matches(rows[i], "")
      {
        assert Lower("") == "";
        assert Lower(rows[i].name)[..0] == "";
      }
    }
    FilterKeepsAll(rows, row => Matches(row, ""));
  }

  /** Queries with the same lower-case form select the same rows. */
  lemma SearchBySameLowerForm(rows: seq<LeaderRow>, q: string, q': string)
    requires Lower(q) == Lower(q')
    ensures Search(rows, q) == Search(rows, q')
  {
    FilterAgreeingTests(rows, row => Matches(row, q), row => Matches(row, q'));
  }

  lemma LowerOfUpper(s: string)
    ensures Lower(Upper(s)) == Lower(s)
  {
    assert forall i :: 0 <= i < |s| ==> LowerChar(UpperChar(s[i])) == LowerChar(s[i]);
  }

  lemma LowerIsIdempotent(s: string)
    ensures Lower(Lower(s)) == Lower(s)
  {
  }

  /** The search ignores letter case: typing the query in capitals or in lower
      case gives the same rows as typing it as it is. */
  lemma SearchIgnoresCase(rows: seq<LeaderRow>, q: string)
    ensures Search(rows, Upper(q)) == Search(rows, q)
    ensures Search(rows, Lower(q)) == Search(rows, q)
  {
    LowerOfUpper(q);
    LowerIsIdempotent(q);
    SearchBySameLowerForm(rows, Upper(q), q);
    SearchBySameLowerForm(rows, Lower(q), q);
  }

  // ---------------------------------------------------------------------
  // Display categories

  datatype RankIcon = GoldMedal | SilverMedal | BronzeMedal | RankLabel(text: string)

  /** `getRankIcon`: medals for the podium, "#rank" for everyone else. */
  function GetRankIcon(rank: int): (icon: RankIcon)
    ensures icon == GoldMedal <==> rank == 1
    ensures icon == SilverMedal <==> rank == 2
    ensures icon == BronzeMedal <==> rank == 3
    ensures icon.RankLabel? <==> rank !in {1, 2, 3}
    ensures icon.RankLabel? ==> |icon.text| >= 2 && icon.text[0] == '#'
    ensures icon.RankLabel? && rank >= 0 ==>
              Canonical(icon.text[1..]) && DigitsValue(icon.text[1..]) == rank
    ensures icon.RankLabel? && rank < 0 ==>
              |icon.text| >= 3 && icon.text[1] == '-' &&
              Canonical(icon.text[2..]) && DigitsValue(icon.text[2..]) == -rank
  {
    if rank == 1 then GoldMedal
    else if rank == 2 then SilverMedal
    else if rank == 3 then BronzeMedal
    else
      var text := "#" + IntString(rank);
      RankLabelDigits(rank, text);
      RankLabel(text)
  }

  /** `#{rank}`: past the '#' comes the rank as `toString` prints it. */
  lemma RankLabelDigits(rank: int, text: string)
    requires text == "#" + IntString(rank)
    ensures |text| >= 2 && text[0] == '#'
    ensures rank >= 0 ==> Canonical(text[1..]) && DigitsValue(text[1..]) == rank
    ensures rank < 0 ==> |text| >= 3 && text[1] == '-' &&
                         Canonical(text[2..]) && DigitsValue(text[2..]) == -rank
  {
    var k: nat := if rank >= 0 then rank else -rank;
    var d := Decimal(k);
    DecimalRoundTrip(k);
    var sign := if rank >= 0 then "" else "-";
    assert text == "#" + (sign + d);
    NumeralAfterSign(text, sign, d, k);
  }

  /** The value form of `RankLabelDigits`: a '#', an optional sign, a numeral. */
  lemma NumeralAfterSign(text: string, sign: string, d: string, k: nat)
    requires text == "#" + (sign + d) && (sign == "" || sign == "-")
    requires Canonical(d) && DigitsValue(d) == k
    ensures |text| >= 2 && text[0] == '#'
    ensures sign == "" ==> text[1..] == d
    ensures sign == "-" ==> |text| >= 3 && text[1] == '-' && text[2..] == d
  {
  }

  /** The label of a rank past the podium reads back as that rank. */
  lemma RankLabelReadsBack(rank: nat)
    requires rank > 3
    ensures var text := GetRankIcon(rank).text;
            AllDigits(text[1..]) && DigitsValue(text[1..]) == rank
  {
    assert GetRankIcon(rank).text[1..] == Decimal(rank);
    DecimalRoundTrip(rank);
  }

  /** The five card backgrounds `getRankBackground` chooses between. */
  datatype Card = GoldCard | SilverCard | BronzeCard | EnteredCard | PlainCard

  /** `getRankBackground`: a card of its own for each podium place, whatever
      the status; past the podium the green card exactly for ENTERED rows
      and the plain card for all others. */
  function GetRankBackground(rank: int, status: string): (card: Card)
    ensures card == GoldCard <==> rank == 1
    ensures card == SilverCard <==> rank == 2
    ensures card == BronzeCard <==> rank == 3
    ensures card == EnteredCard <==> rank !in {1, 2, 3} && status == "ENTERED"
    ensures card == PlainCard <==> rank !in {1, 2, 3} && status != "ENTERED"
  {
    var baseCard := if status == "ENTERED" then EnteredCard else PlainCard;
    if rank == 1 then GoldCard
    else if rank == 2 then SilverCard
    else if rank == 3 then BronzeCard
    else baseCard
  }

  /** The podium's cards ignore status. */
  lemma PodiumBackgroundIgnoresStatus(rank: int, status: string, status': string)
    requires rank in {1, 2, 3}
    ensures GetRankBackground(rank, status) == GetRankBackground(rank, status')
  {
  }

  /** Past the podium two statuses give the same card exactly when both or
      neither are ENTERED. */
  lemma OtherBackgroundFollowsEntered(rank: int, status: string, status': string)
    requires rank !in {1, 2, 3}
    ensures GetRankBackground(rank, status) == GetRankBackground(rank, status')
            <==> (status == "ENTERED" <==> status' == "ENTERED")
  {
  }

  const EnteredStyle: string := "bg-green-500/30 text-green-200 border-green-400/60 hover:bg-green-500/40"
  const ExcludedStyle: string := "bg-red-500/20 text-red-300 border-red-500/40 hover:bg-red-500/30"
  const EligibleStyle: string := "border-muted-foreground/30 text-muted-foreground"

  /** `getStatusBadgeStyle`: ENTERED and EXCLUDED have their own styles, and
      ELIGIBLE and every unknown status share the third. */
  function GetStatusBadgeStyle(status: string): (style: string)
    ensures style == EnteredStyle <==> status == "ENTERED"
    ensures style == ExcludedStyle <==> status == "EXCLUDED"
    ensures style == EligibleStyle <==> status !in {"ENTERED", "EXCLUDED"}
  {
    match status
    case "ENTERED" => EnteredStyle
    case "EXCLUDED" => ExcludedStyle
    case _ => EligibleStyle
  }

  /** Unknown statuses are styled as ELIGIBLE. */
  lemma UnknownStatusLooksEligible(status: string)
    requires status !in {"ENTERED", "EXCLUDED"}
    ensures GetStatusBadgeStyle(status) == GetStatusBadgeStyle("ELIGIBLE")
  {
  }

  // ---------------------------------------------------------------------
  // Header

  const CommunityNames: map<string, string> := map[
    "207Bear_Dizkontinued" := "207Bear x Dizkontinued",
    "btctalk" := "Bitcoin Talk",
    "bodoggos" := "Bodoggos",
    "disgrazze" := "Disgrazze",
    "fomohour" := "Fomo Hour",
    "GCCrypto" := "GC Crypto",
    "jasper" := "Jasper",
    "kaitoAI_August" := "KaitoAI - August",
    "mandominutes" := "Mando Minutes"
  ]

  /** `communityId || ""`: a missing route parameter is the empty key. */
  function CommunityKey(communityId: Option<string>): string {
    match communityId
    case Some(id) => id
    case None => ""
  }

  /** `communityNames[communityId || ""] || "Unknown Community"`: the known
      community's display name, otherwise "Unknown Community". */
  function CommunityName(communityId: Option<string>): (name: string)
    ensures CommunityKey(communityId) in CommunityNames ==> name == CommunityNames[CommunityKey(communityId)]
    ensures CommunityKey(communityId) !in CommunityNames ==> name == "Unknown Community"
  {
    var key := CommunityKey(communityId);
    if key in CommunityNames && CommunityNames[key] != "" then CommunityNames[key] else "Unknown Community"
  }

  /** The header says "Unknown Community" exactly when the id is not one of
      the nine communities; a missing id is unknown. */
  lemma UnknownCommunity(communityId: Option<string>)
    ensures CommunityName(communityId) == "Unknown Community" <==> CommunityKey(communityId) !in CommunityNames
    ensures CommunityName(None) == "Unknown Community"
  {
    assert "Unknown Community" !in CommunityNames.Values;
    assert "" !in CommunityNames;
  }

  /** The raffle host's panel is part of the page for "btctalk" only: the
      page whose header names Bitcoin Talk. A missing id never shows it. */
  function ShowsRaffleAdmin(communityId: Option<string>): (shown: bool)
    ensures shown <==> CommunityKey(communityId) == "btctalk"
    ensures shown ==> CommunityName(communityId) == "Bitcoin Talk"
  {
    communityId == Some("btctalk")
  }
}
