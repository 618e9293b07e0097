/** The derived Copilot usage figures
    (src/application/services/github/GitHubCopilotService.ts). */
module CopilotService {
  import opened Seqs
  import opened Sorting
  import opened CopilotUsage

  /** How many entries a ranking keeps (`slice(0, 5)`). */
  const TopCount: nat := 5
  /** Entries with at most this many suggestions shown are not ranked by
      efficiency. */
  const SignificantShown: int := 100

  /** `whole > 0 ? (part / whole) * 100 : 0`. */
  function Percentage(part: int, whole: int): (r: real)
    ensures whole <= 0 ==> r == 0.0
    ensures whole > 0 ==> r * whole as real == part as real * 100.0
    ensures 0 <= part <= whole ==> 0.0 <= r <= 100.0
  {
    if whole > 0 then part as real / whole as real * 100.0 else 0.0
  }

  /** `active > 0 ? total / active : 0`. */
  function PerActive(total: int, active: int): (r: real)
    ensures active <= 0 ==> r == 0.0
    ensures active > 0 ==> r * active as real == total as real
    ensures total >= 0 ==> r >= 0.0
  {
    if active > 0 then total as real / active as real else 0.0
  }

  /** The top entries by `key`: length min(5, n), non-increasing in `key`,
      drawn from `s`, and no left-out copy of an entry ranks above one kept:
      wherever `r` holds fewer occurrences of `x` than `s`, every kept entry
      has a key at least `x`'s. */
  ghost predicate TopByKey<T>(r: seq<T>, s: seq<T>, key: T -> real)
  {
    |r| == (if |s| < TopCount then |s| else TopCount) &&
    SortedDesc(r, key) &&
    multiset(r) <= multiset(s) &&
    forall x, y :: x in s && multiset(r)[x] < multiset(s)[x] && y in r ==> key(y) >= key(x)
  }

  /** `[...s].sort((a, b) => key(b) - key(a)).slice(0, 5)` on a stable sort. */
  function MostBy<T>(s: seq<T>, key: T -> real): (r: seq<T>)
    ensures TopByKey(r, s, key)
    ensures forall x :: x in r ==> x in s
  {
    TakeSorted(s, key, TopCount);
    var r := Take(SortDesc(s, key), TopCount);
    assert forall x :: x in r ==> x in multiset(s);
    r
  }

  /** With six tens and a one, a ranking that keeps four tens and the one
      is not a top-5: a left-out ten outranks the kept one. */
  lemma LeftOutCopiesCount()
    ensures !TopByKey([10.0, 10.0, 10.0, 10.0, 1.0], [10.0, 10.0, 10.0, 10.0, 10.0, 10.0, 1.0], (x: real) => x)
  {
    var r := [10.0, 10.0, 10.0, 10.0, 1.0];
    var s := [10.0, 10.0, 10.0, 10.0, 10.0, 10.0, 1.0];
    assert multiset(r) == multiset{10.0, 10.0, 10.0, 10.0, 1.0};
    assert multiset(s) == multiset{10.0, 10.0, 10.0, 10.0, 10.0, 10.0, 1.0};
    assert 10.0 in s && 1.0 in r;
  }

  /** Among entries with equal keys, the ranking keeps the input order: the
      sort is on a copy and stable. */
  lemma MostByKeepsTieOrder<T>(s: seq<T>, key: T -> real, k: real)
    ensures var f := Filter(MostBy(s, key), KeyIs(key, k));
            |f| <= |Filter(s, KeyIs(key, k))| && f == Filter(s, KeyIs(key, k))[..|f|]
  {
    FilterTake(SortDesc(s, key), TopCount, KeyIs(key, k));
    SortDescStable(s, key, k);
  }

  /** `shown > 100`. */
  function Significant<T>(shown: T -> int): T -> bool
  {
    x => shown(x) > SignificantShown
  }

  /** The efficiency ranking: the significant entries, ranked by `rate`. */
  function MostEfficient<T>(s: seq<T>, shown: T -> int, rate: T -> real): (r: seq<T>)
    ensures |r| <= TopCount
    ensures forall x :: x in r ==> x in s && shown(x) > SignificantShown
    ensures TopByKey(r, Filter(s, Significant(shown)), rate)
    ensures forall x, y :: x in s && shown(x) > SignificantShown && multiset(r)[x] < multiset(s)[x] && y in r ==>
              rate(y) >= rate(x)
  {
    FilterMembers(s, Significant(shown));
    FilterCount(s, Significant(shown));
    MostBy(Filter(s, Significant(shown)), rate)
  }

  /** `accepted / shown`; only ever applied to entries with more than 100
      suggestions shown, the guard keeps the function total. */
  function Ratio(st: SuggestionStats): real
  {
    if st.shown > 0 then st.accepted as real / st.shown as real else 0.0
  }

  const RepoShown: RepositoryStats -> int := (r: RepositoryStats) => r.suggestions.shown
  const RepoShownKey: RepositoryStats -> real := (r: RepositoryStats) => r.suggestions.shown as real
  const RepoRate: RepositoryStats -> real := (r: RepositoryStats) => Ratio(r.suggestions)
  const UserShown: UserStats -> int := (u: UserStats) => u.suggestions.shown
  const UserShownKey: UserStats -> real := (u: UserStats) => u.suggestions.shown as real
  const UserRate: UserStats -> real := (u: UserStats) => Ratio(u.suggestions)

  /** The four rates of a usage summary. */
  datatype UsageRates = UsageRates(
    usageRate: real,
    acceptanceRate: real,
    suggestionsPerActiveUser: real,
    acceptedSuggestionsPerActiveUser: real)

  /** The four top-5 lists of a usage summary. */
  datatype Rankings = Rankings(
    mostActiveRepositories: seq<RepositoryStats>,
    mostEfficientRepositories: seq<RepositoryStats>,
    mostActiveUsers: seq<UserStats>,
    mostEfficientUsers: seq<UserStats>)

  /** The figures `calculateOrganizationMetrics` and `calculateTeamMetrics`
      return (the team variant names the per-user averages per member). */
  datatype UsageMetrics = UsageMetrics(rates: UsageRates, rankings: Rankings)

  /** The rates both calculations follow, for `active` active entries out
      of `withAccess`. */
  predicate RatesFollowRules(r: UsageRates, withAccess: int, active: nat, totals: SuggestionStats)
  {
    (withAccess <= 0 ==> r.usageRate == 0.0) &&
    (withAccess > 0 ==> r.usageRate * withAccess as real == active as real * 100.0) &&
    (active <= withAccess ==> 0.0 <= r.usageRate <= 100.0) &&
    (totals.shown <= 0 ==> r.acceptanceRate == 0.0) &&
    (totals.shown > 0 ==> r.acceptanceRate * totals.shown as real == totals.accepted as real * 100.0) &&
    (0 <= totals.accepted <= totals.shown ==> 0.0 <= r.acceptanceRate <= 100.0) &&
    (active == 0 ==> r.suggestionsPerActiveUser == 0.0 && r.acceptedSuggestionsPerActiveUser == 0.0) &&
    (active > 0 ==> r.suggestionsPerActiveUser * active as real == totals.shown as real &&
                    r.acceptedSuggestionsPerActiveUser * active as real == totals.accepted as real)
  }

  /** The four rankings both calculations build. */
  ghost predicate RankingsFollowRules(r: Rankings, repositories: seq<RepositoryStats>, users: seq<UserStats>)
  {
    TopByKey(r.mostActiveRepositories, repositories, RepoShownKey) &&
    TopByKey(r.mostActiveUsers, users, UserShownKey) &&
    (forall x :: x in r.mostEfficientRepositories ==>
       x in repositories && x.suggestions.shown > SignificantShown) &&
    TopByKey(r.mostEfficientRepositories, Filter(repositories, Significant(RepoShown)), RepoRate) &&
    (forall x :: x in r.mostEfficientUsers ==> x in users && x.suggestions.shown > SignificantShown) &&
    TopByKey(r.mostEfficientUsers, Filter(users, Significant(UserShown)), UserRate)
  }

  /** The rates, each guarded against a zero divisor. */
  function RatesOf(withAccess: int, active: nat, totals: SuggestionStats): (r: UsageRates)
    ensures RatesFollowRules(r, withAccess, active, totals)
  {
    UsageRates(Percentage(active, withAccess),
               Percentage(totals.accepted, totals.shown),
               PerActive(totals.shown, active),
               PerActive(totals.accepted, active))
  }

  /** The rankings, each on a sorted copy of its input. */
  function RankingsOf(repositories: seq<RepositoryStats>, users: seq<UserStats>): (r: Rankings)
    ensures RankingsFollowRules(r, repositories, users)
  {
    Rankings(MostBy(repositories, RepoShownKey),
             MostEfficient(repositories, RepoShown, RepoRate),
             MostBy(users, UserShownKey),
             MostEfficient(users, UserShown, UserRate))
  }

  /** `calculateOrganizationMetrics`: the usage rate counts the list of
      active users, not the aggregated count, against
      `total_users_with_access`. */
  function CalculateOrganizationMetrics(org: OrgUsage): (r: UsageMetrics)
    ensures RatesFollowRules(r.rates, org.totalUsersWithAccess, |org.activeUsers|, org.aggregated.suggestions)
    ensures RankingsFollowRules(r.rankings, org.aggregated.repositories, org.users)
  {
    UsageMetrics(RatesOf(org.totalUsersWithAccess, |org.activeUsers|, org.aggregated.suggestions),
                 RankingsOf(org.aggregated.repositories, org.users))
  }

  /** The organisation snapshot a team snapshot corresponds to: members in
      place of users. */
  function TeamAsOrg(team: TeamUsage): OrgUsage
  {
    OrgUsage(team.teamName, team.totalMembersWithAccess, team.activeMembers, team.inactiveMembers,
             team.aggregated, team.users, team.startTime, team.endTime)
  }

  /** `calculateTeamMetrics`: the same figures over `active_members` and
      `total_members_with_access`. */
  function CalculateTeamMetrics(team: TeamUsage): (r: UsageMetrics)
    ensures RatesFollowRules(r.rates, team.totalMembersWithAccess, |team.activeMembers|, team.aggregated.suggestions)
    ensures RankingsFollowRules(r.rankings, team.aggregated.repositories, team.users)
    ensures r == CalculateOrganizationMetrics(TeamAsOrg(team))
  {
    UsageMetrics(RatesOf(team.totalMembersWithAccess, |team.activeMembers|, team.aggregated.suggestions),
                 RankingsOf(team.aggregated.repositories, team.users))
  }

  /** 8 of 10 users active and 650 of 1000 suggestions accepted give a usage
      rate of 80 and an acceptance rate of 65. */
  lemma OrganizationScenario(org: OrgUsage)
    requires org.totalUsersWithAccess == 10 && |org.activeUsers| == 8
    requires org.aggregated.suggestions.shown == 1000 && org.aggregated.suggestions.accepted == 650
    ensures CalculateOrganizationMetrics(org).rates.usageRate == 80.0
    ensures CalculateOrganizationMetrics(org).rates.acceptanceRate == 65.0
    ensures CalculateOrganizationMetrics(org).rates.suggestionsPerActiveUser == 125.0
  {
  }

  /** A repository with 100 suggestions shown is never ranked by efficiency,
      however high its acceptance. */
  lemma InsignificantNeverEfficient(org: OrgUsage, x: RepositoryStats)
    requires x.suggestions.shown <= SignificantShown
    ensures x !in CalculateOrganizationMetrics(org).rankings.mostEfficientRepositories
  {
  }
}
