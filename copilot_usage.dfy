/** The Copilot usage snapshot shapes (src/domain/entities/github/CopilotUsage.ts).
    Counts are integers; timestamps stay the strings the API sends. */
module CopilotUsage {
  import opened Basics

  datatype CopilotUser = CopilotUser(
    id: int,
    login: string,
    name: Option<string>,
    lastActivityAt: string,
    lastActivityEditor: Option<string>,
    active: bool)

  datatype SuggestionStats = SuggestionStats(
    shown: int,
    accepted: int,
    acceptanceRate: Option<real>)

  datatype RepositoryStats = RepositoryStats(
    repositoryId: int,
    repositoryName: string,
    suggestions: SuggestionStats,
    activeUsers: int)

  datatype UserRepositoryStats = UserRepositoryStats(
    repositoryId: int,
    repositoryName: string,
    suggestions: SuggestionStats)

  datatype UserStats = UserStats(
    userId: int,
    userLogin: string,
    suggestions: SuggestionStats,
    repositories: seq<UserRepositoryStats>)

  datatype AggregatedStats = AggregatedStats(
    suggestions: SuggestionStats,
    activeUsers: int,
    totalUsers: int,
    inactiveUsers: int,
    repositories: seq<RepositoryStats>)

  datatype OrgUsage = OrgUsage(
    org: string,
    totalUsersWithAccess: int,
    activeUsers: seq<CopilotUser>,
    inactiveUsers: seq<CopilotUser>,
    aggregated: AggregatedStats,
    users: seq<UserStats>,
    startTime: string,
    endTime: string)

  datatype TeamUsage = TeamUsage(
    teamId: int,
    teamName: string,
    totalMembersWithAccess: int,
    activeMembers: seq<CopilotUser>,
    inactiveMembers: seq<CopilotUser>,
    aggregated: AggregatedStats,
    users: seq<UserStats>,
    startTime: string,
    endTime: string)
}
