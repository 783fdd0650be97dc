/**
 * The town-square request handlers over an in-memory copy of the tables they
 * touch: activities (with their owners), likes, flags, comments and offer
 * actions. Each handler is a method of `Townsquare` that changes exactly the
 * tables its branch writes.
 */
module Views {
  import opened Records
  import opened Offers
  import opened Tabs
  import opened Calendar

  /** The parts of an HTTP request the handlers read. */
  datatype Request = Request(user: User, post: map<string, string>, get: map<string, string>, fullPath: string)

  /** One category of the feed page: the offer shown and when the next one is due. */
  datatype Category = Category(offer: Option<Offer>, time: DateTime)

  /** The context the feed page renders. */
  datatype IndexPage = IndexPage(tab: string, tabs: seq<Tab>, target: string, offersByCategory: map<string, Category>)

  /** What the activity endpoint answers: not found, an empty JSON object, the
      activity's comments as JSON, or an uncaught exception. */
  datatype ApiResponse = ApiNotFound | JsonEmpty | JsonComments(comments: seq<Comment>) | ServerError

  /** What the feed page answers. `RetailHome` is the retail home page a caller the
      enablement gate turns away gets; `ProfileMissing` is the AttributeError of
      reading an anonymous caller's profile; `StampFailed` is the error of the first
      category whose next time cannot be computed. */
  datatype Feed = RetailHome | ProfileMissing | StampFailed(error: DateError) | FeedPage(page: IndexPage)

  /** The outcome of the permission rule of the activity endpoint; `Raises` is the
      AttributeError of reading an anonymous user's profile. */
  datatype Permission = Granted | Denied | Raises

  const CategoryKeys := ["daily", "weekly", "monthly"]

  /** `querydict.get(key)`. */
  function Param(m: map<string, string>, key: string): (r: Option<string>)
    ensures r.Some? <==> key in m
    ensures r.Some? ==> r.value == m[key]
  {
    if key in m then Some(m[key]) else None
  }

  /** `request.GET.get('tab', default_tab)`. */
  function RequestedTab(req: Request): (tab: string)
    ensures "tab" in req.get ==> tab == req.get["tab"]
    ensures "tab" !in req.get ==> tab == DefaultTab(req.user.Member?)
  {
    if "tab" in req.get then req.get["tab"] else DefaultTab(req.user.Member?)
  }

  /** Who may act on an activity owned by `owner`: only the owner may delete it,
      any authenticated user may do anything else. */
  function ActivityPermission(req: Request, owner: ProfileId): (r: Permission)
    ensures Param(req.post, "method") == Some("delete") ==>
      (r == Granted <==> req.user == Member(owner)) && (r == Raises <==> req.user.Anonymous?)
    ensures Param(req.post, "method") != Some("delete") ==>
      r != Raises && (r == Granted <==> req.user.Member?)
  {
    if Param(req.post, "method") == Some("delete") then
      match req.user
      case Anonymous => Raises
      case Member(p) => if p == owner then Granted else Denied
    else if req.user.Member? then Granted else Denied
  }

  class Townsquare {
    /** Profile email addresses; the handlers never change them. */
    const emails: map<ProfileId, string>
    /** `settings.DEBUG`, read once when the views module is loaded. */
    const debuggingOffers: bool
    /** What `redirect` makes of a url under the site's URL configuration. */
    const resolveUrl: UrlResolver

    /** Each activity's id and the profile that owns it. */
    var activities: map<ActivityId, ProfileId>
    var likes: seq<Mark>
    var flags: seq<Mark>
    var comments: seq<Comment>
    var offerActions: seq<OfferAction>

    /** Every comment author's email is on record (`emails` never changes). */
    ghost predicate Valid()
      reads this`comments
    {
      EmailsKnown(comments, emails)
    }

    constructor (emails: map<ProfileId, string>, debuggingOffers: bool, resolveUrl: UrlResolver,
                 activities: map<ActivityId, ProfileId>,
                 likes: seq<Mark>, flags: seq<Mark>, comments: seq<Comment>, offerActions: seq<OfferAction>)
      requires EmailsKnown(comments, emails)
      ensures Valid()
      ensures this.emails == emails && this.debuggingOffers == debuggingOffers && this.resolveUrl == resolveUrl
      ensures this.activities == activities && this.likes == likes && this.flags == flags
      ensures this.comments == comments && this.offerActions == offerActions
    {
      this.emails := emails;
      this.debuggingOffers := debuggingOffers;
      this.resolveUrl := resolveUrl;
      this.activities := activities;
      this.likes := likes;
      this.flags := flags;
      this.comments := comments;
      this.offerActions := offerActions;
    }

    /** The activity endpoint (`api`). Returns the response and the set of email
        addresses the new-comment notification goes to (empty unless a comment is posted). */
    method Api(req: Request, activityId: ActivityId, now: int) returns (resp: ApiResponse, notified: set<string>)
      requires Valid()
      requires req.user.Member? ==> req.user.profile in emails
      modifies this
      ensures Valid()
      ensures offerActions == old(offerActions)
      // an unknown activity, or a request the permission rule refuses, changes nothing
      ensures activityId !in old(activities) ==> resp == ApiNotFound
      ensures activityId in old(activities) && ActivityPermission(req, old(activities)[activityId]) == Denied ==>
        resp == ApiNotFound
      ensures activityId in old(activities) && ActivityPermission(req, old(activities)[activityId]) == Raises ==>
        resp == ServerError
      ensures resp == ApiNotFound || resp == ServerError ==>
        activities == old(activities) && likes == old(likes) && flags == old(flags) &&
        comments == old(comments) && notified == {}
      // a permitted request dispatches on its POSTed method
      ensures activityId in old(activities) && ActivityPermission(req, old(activities)[activityId]) == Granted ==>
        var p := req.user.profile;
        var verb := Param(req.post, "method");
        var direction := Param(req.post, "direction");
        (verb == Some("delete") ==>
          resp == JsonEmpty && activities == old(activities) - {activityId} &&
          likes == old(likes) && flags == old(flags) && comments == old(comments) && notified == {}) &&
        (verb == Some("like") ==>
          activities == old(activities) && flags == old(flags) && comments == old(comments) && notified == {} &&
          (direction.None? ==> resp == ServerError && likes == old(likes)) &&
          (direction == Some("liked") ==> resp == JsonEmpty && likes == old(likes) + [Mark(p, activityId)]) &&
          (direction == Some("unliked") ==> resp == JsonEmpty && likes == RemoveMarks(old(likes), p, activityId)) &&
          (direction.Some? && direction.value != "liked" && direction.value != "unliked" ==>
            resp == JsonEmpty && likes == old(likes))) &&
        (verb == Some("flag") ==>
          activities == old(activities) && likes == old(likes) && comments == old(comments) && notified == {} &&
          (direction.None? ==> resp == ServerError && flags == old(flags)) &&
          (direction == Some("flagged") ==> resp == JsonEmpty && flags == old(flags) + [Mark(p, activityId)]) &&
          (direction == Some("unflagged") ==> resp == JsonEmpty && flags == RemoveMarks(old(flags), p, activityId)) &&
          (direction.Some? && direction.value != "flagged" && direction.value != "unflagged" ==>
            resp == JsonEmpty && flags == old(flags))) &&
        (verb == Some("comment") ==>
          resp == JsonEmpty && activities == old(activities) && likes == old(likes) && flags == old(flags) &&
          comments == old(comments) + [Comment(p, activityId, Param(req.post, "comment"), now)] &&
          notified == Recipients(comments, activityId, p, emails) &&
          notified == Recipients(old(comments), activityId, p, emails)) &&
        (verb !in {Some("delete"), Some("like"), Some("flag"), Some("comment")} ==>
          activities == old(activities) && likes == old(likes) && flags == old(flags) &&
          comments == old(comments) && notified == {} &&
          resp == if Param(req.get, "method") == Some("comment")
                  then JsonComments(SortNewestFirst(CommentsOn(old(comments), activityId)))
                  else JsonEmpty)
    {
      notified := {};
      if activityId !in activities {
        return ApiNotFound, notified;
      }
      var permission := ActivityPermission(req, activities[activityId]);
      if permission == Raises {
        return ServerError, notified;
      } else if permission == Denied {
        return ApiNotFound, notified;
      }
      var p := req.user.profile;
      var verb := Param(req.post, "method");
      resp := JsonEmpty;
      if verb == Some("delete") {
        activities := activities - {activityId};
      } else if verb == Some("like") {
        var direction := Param(req.post, "direction");
        if direction.None? {
          return ServerError, notified;
        }
        if direction.value == "liked" {
          likes := likes + [Mark(p, activityId)];
        }
        if direction.value == "unliked" {
          likes := RemoveMarks(likes, p, activityId);
        }
      } else if verb == Some("flag") {
        var direction := Param(req.post, "direction");
        if direction.None? {
          return ServerError, notified;
        }
        if direction.value == "flagged" {
          flags := flags + [Mark(p, activityId)];
        }
        if direction.value == "unflagged" {
          flags := RemoveMarks(flags, p, activityId);
        }
      } else if verb == Some("comment") {
        var comment := Comment(p, activityId, Param(req.post, "comment"), now);
        OwnCommentAddsNoRecipient(comments, comment, emails);
        comments := comments + [comment];
        notified := Recipients(comments, activityId, p, emails);
      } else if Param(req.get, "method") == Some("comment") {
        resp := JsonComments(SortNewestFirst(CommentsOn(comments, activityId)));
      }
    }

    /** The shared body of the three offer handlers: record an action of `kind`. */
    method Act(kind: ActionKind, req: Request, offerId: OfferId, current: seq<Offer>) returns (resp: OfferResponse)
      modifies this`offerActions
      ensures Step(resp, offerActions) ==
        OfferStep(kind, req.user, offerId, req.fullPath, current, resolveUrl, debuggingOffers, old(offerActions))
    {
      var found := FindCurrent(current, offerId);
      if found.None? {
        return NotFound;
      }
      var offer := found.value;
      if req.user.Anonymous? {
        return Redirect(LoginPrefix + req.fullPath);
      }
      var p := req.user.profile;
      if HasAction(offerActions, p, offer.id, kind) && !debuggingOffers {
        return NotFound;
      }
      offerActions := offerActions + [OfferAction(p, offer.id, kind)];
      resp := Answer(kind, offer, resolveUrl);
    }

    /** `offer_go`: record a 'go' and redirect to wherever `redirect` sends the offer's url. */
    method OfferGo(req: Request, offerId: OfferId, current: seq<Offer>) returns (resp: OfferResponse)
      modifies this`offerActions
      ensures Step(resp, offerActions) ==
        OfferStep(Go, req.user, offerId, req.fullPath, current, resolveUrl, debuggingOffers, old(offerActions))
      ensures resp.Redirect? && resp.url != LoginPrefix + req.fullPath ==>
        exists o :: o in current && o.id == offerId && resolveUrl(o.url) == Some(resp.url)
    {
      resp := Act(Go, req, offerId, current);
    }

    /** `offer_decline`: record a 'decline' and redirect to the home page. */
    method OfferDecline(req: Request, offerId: OfferId, current: seq<Offer>) returns (resp: OfferResponse)
      modifies this`offerActions
      ensures Step(resp, offerActions) ==
        OfferStep(Decline, req.user, offerId, req.fullPath, current, resolveUrl, debuggingOffers, old(offerActions))
      ensures resp.Redirect? ==> resp.url == "/" || resp.url == LoginPrefix + req.fullPath
    {
      resp := Act(Decline, req, offerId, current);
    }

    /** `offer_view`: record a 'click' and render the offer page. */
    method OfferView(req: Request, offerId: OfferId, current: seq<Offer>) returns (resp: OfferResponse)
      modifies this`offerActions
      ensures Step(resp, offerActions) ==
        OfferStep(Click, req.user, offerId, req.fullPath, current, resolveUrl, debuggingOffers, old(offerActions))
      ensures resp.OfferPage? ==> resp.offer in current && resp.offer.id == offerId
    {
      resp := Act(Click, req, offerId, current);
    }

    /** The feed page (`index`). `enabled` is what `is_user_townsquare_enabled` says
        of the caller, `keywords` the caller profile's keyword list, `current` the
        current offers and `now` the clock reading. */
    method Index(req: Request, enabled: bool, keywords: seq<string>, current: seq<Offer>, now: DateTime)
      returns (r: Feed)
      requires ValidDateTime(now)
      ensures !enabled ==> r == RetailHome
      ensures enabled && req.user.Anonymous? ==> r == ProfileMissing
      ensures enabled && req.user.Member? ==> r.StampFailed? || r.FeedPage?
      ensures r.StampFailed? || r.FeedPage? ==> enabled && req.user.Member?
      ensures enabled && req.user.Member? ==>
        (r.StampFailed? <==> exists i :: 0 <= i < 3 && NextTimeAvailable(CategoryKeys[i], now).Err?)
      ensures r.StampFailed? ==> FirstError(now, r.error)
      ensures r.FeedPage? ==> r.page.tab == RequestedTab(req)
      ensures r.FeedPage? && "tab" !in req.get ==> |r.page.tabs| >= 2 && r.page.tab == r.page.tabs[0].slug
      ensures r.FeedPage? ==> r.page.target == "/activity?what=" + r.page.tab
      ensures r.FeedPage? ==> TabsFor(keywords, r.page.tab, r.page.tabs)
      ensures r.FeedPage? ==> r.page.offersByCategory.Keys == {"daily", "weekly", "monthly"}
      ensures r.FeedPage? ==> forall k :: k in r.page.offersByCategory ==>
        CategoryShown(req.user, current, now, k, r.page.offersByCategory[k])
    {
      if !enabled {
        return RetailHome;
      }
      if req.user.Anonymous? {
        return ProfileMissing;
      }
      var tab := RequestedTab(req);
      var tabs := BuildTabs(keywords, tab);
      DefaultTabIsShown(keywords, tab, tabs, true);
      var byCategory := OffersByCategory(req.user, current, now);
      if byCategory.Err? {
        return StampFailed(byCategory.error);
      }
      r := FeedPage(IndexPage(tab, tabs, "/activity?what=" + tab, byCategory.value));
    }

    /** The entry the feed page shows for category `key`. */
    ghost predicate CategoryShown(user: User, current: seq<Offer>, now: DateTime, key: string, c: Category)
      requires ValidDateTime(now)
      reads this
    {
      NextTimeAvailable(key, now).Ok? &&
      c == Category(ShownOffer(user, current, key, offerActions), NextTimeAvailable(key, now).value)
    }

    /** The `offers_by_category` loop of `index`. */
    method OffersByCategory(user: User, current: seq<Offer>, now: DateTime) returns (r: Calendar.Result<map<string, Category>>)
      requires ValidDateTime(now)
      ensures r.Err? <==> exists i :: 0 <= i < 3 && NextTimeAvailable(CategoryKeys[i], now).Err?
      ensures r.Err? ==> FirstError(now, r.error)
      ensures r.Ok? ==> r.value.Keys == {"daily", "weekly", "monthly"}
      ensures r.Ok? ==> forall k :: k in r.value ==> CategoryShown(user, current, now, k, r.value[k])
    {
      var byCategory: map<string, Category> := map[];
      for i := 0 to 3
        invariant byCategory.Keys == set j | 0 <= j < i :: CategoryKeys[j]
        invariant forall j :: 0 <= j < i ==> NextTimeAvailable(CategoryKeys[j], now).Ok?
        invariant forall k :: k in byCategory ==> CategoryShown(user, current, now, k, byCategory[k])
      {
        var key := CategoryKeys[i];
        var time := NextTimeAvailable(key, now);
        if time.Err? {
          return Err(time.error);
        }
        var offer := FirstWithKey(current, key);
        if user.Member? && offer.Some? && HasAction(offerActions, user.profile, offer.value.id, Click) {
          offer := None;
        }
        byCategory := byCategory[key := Category(offer, time.value)];
      }
      assert (set j | 0 <= j < 3 :: CategoryKeys[j]) == {"daily", "weekly", "monthly"} by {
        assert CategoryKeys[0] == "daily" && CategoryKeys[1] == "weekly" && CategoryKeys[2] == "monthly";
      }
      r := Ok(byCategory);
    }
  }

  /** `e` is what the first failing category raises. */
  ghost predicate FirstError(now: DateTime, e: DateError)
    requires ValidDateTime(now)
  {
    exists i :: 0 <= i < 3 && NextTimeAvailable(CategoryKeys[i], now) == Err(e) &&
      forall j :: 0 <= j < i ==> NextTimeAvailable(CategoryKeys[j], now).Ok?
  }

  /** In December the monthly stamp asks `datetime` for month 13, so the feed page
      fails for every caller; in every other month the monthly stamp succeeds. */
  lemma DecemberPageFails(now: DateTime)
    requires ValidDateTime(now)
    ensures now.date.month == 12 ==> FirstError(now, InvalidDate) || FirstError(now, Overflow)
    ensures now.date.month == 12 ==> exists i :: 0 <= i < 3 && NextTimeAvailable(CategoryKeys[i], now).Err?
    ensures now.date.month < 12 ==> NextTimeAvailable(CategoryKeys[2], now).Ok?
  {
    MonthlyFirstOfNextMonth(now);
    assert CategoryKeys[2] == "monthly";
    if now.date.month == 12 {
      if NextTimeAvailable(CategoryKeys[0], now).Err? {
        assert FirstError(now, NextTimeAvailable(CategoryKeys[0], now).error);
      } else if NextTimeAvailable(CategoryKeys[1], now).Err? {
        assert FirstError(now, NextTimeAvailable(CategoryKeys[1], now).error);
      } else {
        assert FirstError(now, InvalidDate);
      }
    }
  }
}
