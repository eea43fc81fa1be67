/** The two template helpers of the timeline page that decide on the request path. */
module Templates {

  const PublicPath: string := "/public"
  const PublicTitle: string := "Public Timeline"
  const OwnTitle: string := "My Timeline"

  /** The title of a profile page. */
  function ProfileTitle(profileUsername: string): string
  {
    profileUsername + "'s Timeline"
  }

  /** `timeline_title`: the heading of the timeline page. The path is indexed at 0, so it is non-empty. */
  function TimelineTitle(requestUrl: string, profileUsername: string): (t: string)
    requires |requestUrl| > 0
    ensures t == PublicTitle || t == OwnTitle || t == ProfileTitle(profileUsername)
  {
    if requestUrl == PublicPath then PublicTitle
    else if requestUrl[0] == '/' && |requestUrl| > 1 then ProfileTitle(profileUsername)
    else OwnTitle
  }

  /** `requestUserTimeline`: the page is some user's profile rather than a stream. */
  function RequestUserTimeline(requestUrl: string): (r: bool)
    requires |requestUrl| > 0
    ensures r ==> |requestUrl| > 1 && requestUrl != PublicPath
  {
    requestUrl[0] == '/' && |requestUrl| > 1 && requestUrl != PublicPath
  }

  /** No username makes a profile title look like one of the two fixed titles. */
  lemma ProfileTitleIsDistinct(profileUsername: string)
    ensures ProfileTitle(profileUsername) != PublicTitle
    ensures ProfileTitle(profileUsername) != OwnTitle
  {
    var t := ProfileTitle(profileUsername);
    var n := |profileUsername|;
    assert t[n] == '\'';
    if |t| == |PublicTitle| {
      assert PublicTitle[n] == 'i';
    }
    if |t| == |OwnTitle| {
      assert OwnTitle[n] == 'M';
    }
  }

  /**
   * The two helpers agree: the page asks for a user timeline exactly when its title is the
   * profile title, and its title is the public one exactly on `/public`.
   */
  lemma TitleAgreesWithRequestUserTimeline(requestUrl: string, profileUsername: string)
    requires |requestUrl| > 0
    ensures RequestUserTimeline(requestUrl) <==> TimelineTitle(requestUrl, profileUsername) == ProfileTitle(profileUsername)
    ensures TimelineTitle(requestUrl, profileUsername) == PublicTitle <==> requestUrl == PublicPath
    ensures TimelineTitle(requestUrl, profileUsername) == OwnTitle <==>
              requestUrl != PublicPath && !RequestUserTimeline(requestUrl)
  {
    ProfileTitleIsDistinct(profileUsername);
  }
}
