/** The enumerations of `constants.py`: the crawl status of an influencer
    entry and the type of a stored user, each with the string value it is
    stored under. */
module Constants {

  datatype CrawlStatus =
    | New
    | Collected
    | InGraph
    | FollowerIdsCollected
    | FollowersCollected
    | FollowersInGraph
    | NotFound

  datatype UserType = Standard | Influencer

  /** `CrawlStatus.X.value` */
  function CrawlStatusValue(c: CrawlStatus): string
  {
    match c
    case New => "new"
    case Collected => "collected"
    case InGraph => "in_graph"
    case FollowerIdsCollected => "follower_ids_collected"
    case FollowersCollected => "followers_collected"
    case FollowersInGraph => "followers_in_graph"
    case NotFound => "userSuspendedOrNotFound"
  }

  /** `UserType.X.value` */
  function UserTypeValue(t: UserType): string
  {
    match t
    case Standard => "standard"
    case Influencer => "influencer"
  }

  /** Distinct members are stored under distinct strings, so a stored value
      names its member. */
  lemma CrawlStatusValuesDistinct(a: CrawlStatus, b: CrawlStatus)
    ensures CrawlStatusValue(a) == CrawlStatusValue(b) <==> a == b
  {
    if a != b {
      assert |CrawlStatusValue(a)| != |CrawlStatusValue(b)|;
    }
  }

  lemma UserTypeValuesDistinct(a: UserType, b: UserType)
    ensures UserTypeValue(a) == UserTypeValue(b) <==> a == b
  {
    if a != b {
      assert UserTypeValue(a)[0] != UserTypeValue(b)[0];
    }
  }
}
