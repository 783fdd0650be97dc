/**
 * The offer-action rules shared by the `go`, `decline` and `view` handlers.
 *
 * For a (profile, offer, kind) the handlers record an `OfferAction` at most
 * once unless offers are being debugged. The record table only ever grows:
 * every step leaves the old table as a prefix of the new one.
 */
module Offers {
  import opened Records

  datatype ActionKind = Go | Decline | Click

  /** An `Offer` row: `key` is its category ('daily', 'weekly', ...). */
  datatype Offer = Offer(id: OfferId, key: string, url: string)

  datatype OfferAction = OfferAction(profile: ProfileId, offer: OfferId, what: ActionKind)

  /** What an offer handler answers: not found, a redirect, or the offer's page. */
  datatype OfferResponse = NotFound | Redirect(url: string) | OfferPage(offer: Offer)

  /** The answer and the `OfferAction` table after one handler call. */
  datatype Step = Step(response: OfferResponse, actions: seq<OfferAction>)

  const LoginPrefix := "/login/github?next="

  /** The offers whose id is `id` among the current ones. */
  function WithId(current: seq<Offer>, id: OfferId): (r: seq<Offer>)
    ensures forall o :: o in r <==> o in current && o.id == id
    ensures r == [] <==> forall o :: o in current ==> o.id != id
    ensures |r| <= |current|
  {
    if current == [] then []
    else if current[0].id == id then [current[0]] + WithId(current[1..], id)
    else WithId(current[1..], id)
  }

  /** `Offer.objects.current().get(pk=id)`: found only when exactly one current
      offer has that id (none or several both raise). */
  function FindCurrent(current: seq<Offer>, id: OfferId): (r: Option<Offer>)
    ensures r.Some? ==> r.value in current && r.value.id == id
    ensures r.Some? ==> forall o :: o in current && o.id == id ==> o == r.value
    ensures r.None? ==> (forall o :: o in current ==> o.id != id) || |WithId(current, id)| > 1
  {
    var matches := WithId(current, id);
    if |matches| == 1 then
      assert matches[0] in matches;
      Some(matches[0])
    else
      assert matches != [] ==> matches[0] in matches;
      None
  }

  /** An id held by exactly one current offer selects just that offer ... */
  lemma {:induction false} WithIdSingle(current: seq<Offer>, k: int)
    requires 0 <= k < |current|
    requires forall j :: 0 <= j < |current| && j != k ==> current[j].id != current[k].id
    ensures WithId(current, current[k].id) == [current[k]]
  {
    var id := current[k].id;
    var rest := current[1..];
    if k == 0 {
      forall o | o in rest ensures o.id != id {
        var j :| 0 <= j < |rest| && rest[j] == o;
        assert current[j + 1] == o;
      }
    } else {
      forall j | 0 <= j < |rest| && j != k - 1
        ensures rest[j].id != rest[k - 1].id
      {
        assert rest[j] == current[j + 1];
      }
      WithIdSingle(rest, k - 1);
    }
  }

  /** ... and an id two current offers share selects at least two. */
  lemma {:induction false} WithIdShared(current: seq<Offer>, i: int, j: int)
    requires 0 <= i < j < |current| && current[i].id == current[j].id
    ensures |WithId(current, current[i].id)| >= 2
  {
    var id := current[i].id;
    var rest := current[1..];
    if i == 0 {
      assert rest[j - 1] in rest;
      assert WithId(rest, id) != [] by {
        assert rest[j - 1] in WithId(rest, id);
      }
    } else if current[0].id == id {
      assert rest[i - 1] in WithId(rest, id);
    } else {
      WithIdShared(rest, i - 1, j - 1);
    }
  }

  /** `get(pk=id)` finds a current offer exactly when no other current offer has its id. */
  lemma FindCurrentExactlyOne(current: seq<Offer>, k: int)
    requires 0 <= k < |current|
    ensures (forall j :: 0 <= j < |current| && j != k ==> current[j].id != current[k].id) ==>
      FindCurrent(current, current[k].id) == Some(current[k])
    ensures (exists j :: 0 <= j < |current| && j != k && current[j].id == current[k].id) ==>
      FindCurrent(current, current[k].id) == None
  {
    if forall j :: 0 <= j < |current| && j != k ==> current[j].id != current[k].id {
      WithIdSingle(current, k);
    } else {
      var j :| 0 <= j < |current| && j != k && current[j].id == current[k].id;
      if j < k {
        WithIdShared(current, j, k);
      } else {
        WithIdShared(current, k, j);
      }
    }
  }

  /** `profile.offeractions.filter(what=kind, offer=offer)` is non-empty. */
  predicate HasAction(actions: seq<OfferAction>, p: ProfileId, offer: OfferId, kind: ActionKind) {
    exists a :: a in actions && a.profile == p && a.offer == offer && a.what == kind
  }

  /** What Django's `redirect` makes of a url under the site's URL configuration:
      the location it redirects to (the url itself, or the path of the URL pattern
      the url names), or `None` when it raises. */
  type UrlResolver = string -> Option<string>

  /** The answer once the action is recorded: go redirects to wherever `redirect`
      sends the offer's url, and is not found when `redirect` raises (the record is
      kept); decline redirects to "/"; view renders the offer. */
  function Answer(kind: ActionKind, o: Offer, resolve: UrlResolver): OfferResponse {
    match kind
    case Go => (match resolve(o.url) case Some(location) => Redirect(location) case None => NotFound)
    case Decline => Redirect("/")
    case Click => OfferPage(o)
  }

  /** One `offer_go` / `offer_decline` / `offer_view` call on the action table. */
  function OfferStep(kind: ActionKind, user: User, offerId: OfferId, fullPath: string,
                     current: seq<Offer>, resolve: UrlResolver, debugging: bool, actions: seq<OfferAction>): Step
  {
    match FindCurrent(current, offerId)
    case None => Step(NotFound, actions)
    case Some(o) =>
      match user
      case Anonymous => Step(Redirect(LoginPrefix + fullPath), actions)
      case Member(p) =>
        if HasAction(actions, p, o.id, kind) && !debugging then Step(NotFound, actions)
        else Step(Answer(kind, o, resolve), actions + [OfferAction(p, o.id, kind)])
  }

  /** The table only grows, by at most one record, and only by a record of the
      handler's own kind for the caller on the requested offer. */
  lemma StepIsMonotone(kind: ActionKind, user: User, offerId: OfferId, fullPath: string,
                       current: seq<Offer>, resolve: UrlResolver, debugging: bool, actions: seq<OfferAction>)
    ensures var s := OfferStep(kind, user, offerId, fullPath, current, resolve, debugging, actions);
      s.actions == actions ||
      (user.Member? && s.actions == actions + [OfferAction(user.profile, offerId, kind)])
  {
  }

  /** An allowed action records exactly one `OfferAction` of the matching kind and
      answers with `Answer`. */
  lemma SuccessRecordsOnce(kind: ActionKind, p: ProfileId, o: Offer, fullPath: string,
                           current: seq<Offer>, resolve: UrlResolver, debugging: bool, actions: seq<OfferAction>)
    requires FindCurrent(current, o.id) == Some(o)
    requires debugging || !HasAction(actions, p, o.id, kind)
    ensures OfferStep(kind, Member(p), o.id, fullPath, current, resolve, debugging, actions) ==
      Step(Answer(kind, o, resolve), actions + [OfferAction(p, o.id, kind)])
  {
  }

  /** `offer_go` records the 'go' before it redirects, so a url that `redirect`
      refuses answers not-found and still leaves the new record. A url `redirect`
      passes through unchanged is the redirect's location. */
  lemma GoRecordsBeforeRedirect(p: ProfileId, o: Offer, fullPath: string, current: seq<Offer>,
                                resolve: UrlResolver, debugging: bool, actions: seq<OfferAction>)
    requires FindCurrent(current, o.id) == Some(o)
    requires debugging || !HasAction(actions, p, o.id, Go)
    ensures var s := OfferStep(Go, Member(p), o.id, fullPath, current, resolve, debugging, actions);
      s.actions == actions + [OfferAction(p, o.id, Go)] &&
      (resolve(o.url).None? ==> s.response == NotFound) &&
      (resolve(o.url) == Some(o.url) ==> s.response == Redirect(o.url))
  {
  }

  /** An unknown or non-current offer is not found, whoever asks; a current offer
      asked for anonymously redirects to the login page. Neither records anything. */
  lemma LookupBeforeLogin(kind: ActionKind, user: User, offerId: OfferId, fullPath: string,
                          current: seq<Offer>, resolve: UrlResolver, debugging: bool, actions: seq<OfferAction>)
    ensures (forall o :: o in current ==> o.id != offerId) ==>
      OfferStep(kind, user, offerId, fullPath, current, resolve, debugging, actions) == Step(NotFound, actions)
    ensures FindCurrent(current, offerId).Some? && user == Anonymous ==>
      OfferStep(kind, user, offerId, fullPath, current, resolve, debugging, actions) ==
        Step(Redirect("/login/github?next=" + fullPath), actions)
  {
  }

  /** Without debugging, repeating an action that was just recorded is not found and
      records nothing. `ActionsPersist` and `RecordedIsNotFound` carry this past any
      steps in between. */
  lemma RepeatIsNotFound(kind: ActionKind, p: ProfileId, offerId: OfferId, fullPath: string,
                         current: seq<Offer>, resolve: UrlResolver, actions: seq<OfferAction>)
    requires OfferStep(kind, Member(p), offerId, fullPath, current, resolve, false, actions).actions != actions
    ensures var after := OfferStep(kind, Member(p), offerId, fullPath, current, resolve, false, actions).actions;
      OfferStep(kind, Member(p), offerId, fullPath, current, resolve, false, after) == Step(NotFound, after)
  {
    var o := FindCurrent(current, offerId).value;
    var after := actions + [OfferAction(p, o.id, kind)];
    assert after[|actions|] in after;
  }

  /** Without debugging, a member who already has a record of the handler's kind on
      the offer is not found and nothing is recorded, however many steps ago the
      record was made. */
  lemma RecordedIsNotFound(kind: ActionKind, p: ProfileId, offerId: OfferId, fullPath: string,
                           current: seq<Offer>, resolve: UrlResolver, actions: seq<OfferAction>)
    requires HasAction(actions, p, offerId, kind)
    ensures OfferStep(kind, Member(p), offerId, fullPath, current, resolve, false, actions) == Step(NotFound, actions)
  {
  }

  /** Once recorded, an action stays recorded whatever later steps do. */
  lemma ActionsPersist(kind: ActionKind, user: User, offerId: OfferId, fullPath: string,
                       current: seq<Offer>, resolve: UrlResolver, debugging: bool, actions: seq<OfferAction>,
                       p: ProfileId, o: OfferId, k: ActionKind)
    requires HasAction(actions, p, o, k)
    ensures HasAction(OfferStep(kind, user, offerId, fullPath, current, resolve, debugging, actions).actions, p, o, k)
  {
    StepIsMonotone(kind, user, offerId, fullPath, current, resolve, debugging, actions);
    var a :| a in actions && a.profile == p && a.offer == o && a.what == k;
    var after := OfferStep(kind, user, offerId, fullPath, current, resolve, debugging, actions).actions;
    assert a in after;
  }

  /** With debugging on, every repeat records one more action. */
  lemma DebugRepeatRecords(kind: ActionKind, p: ProfileId, o: Offer, fullPath: string,
                           current: seq<Offer>, resolve: UrlResolver, actions: seq<OfferAction>)
    requires FindCurrent(current, o.id) == Some(o)
    ensures var s := OfferStep(kind, Member(p), o.id, fullPath, current, resolve, true, actions);
      s.response == Answer(kind, o, resolve) && |s.actions| == |actions| + 1
  {
  }

  /** Each handler checks only its own kind: a record of another kind never
      changes the answer (so a prior `go` does not block a `decline`). */
  lemma OtherKindsDoNotBlock(kind: ActionKind, user: User, offerId: OfferId, fullPath: string,
                             current: seq<Offer>, resolve: UrlResolver, debugging: bool, actions: seq<OfferAction>,
                             other: OfferAction)
    requires other.what != kind
    ensures OfferStep(kind, user, offerId, fullPath, current, resolve, debugging, actions + [other]).response ==
      OfferStep(kind, user, offerId, fullPath, current, resolve, debugging, actions).response
  {
    if user.Member? && FindCurrent(current, offerId).Some? {
      var o := FindCurrent(current, offerId).value;
      if HasAction(actions + [other], user.profile, o.id, kind) {
        var a :| a in actions + [other] && a.profile == user.profile && a.offer == o.id && a.what == kind;
        assert a in actions;
      }
    }
  }

  /** Position of the first offer with category `key`, or |current| when there is none. */
  function FirstIndexWithKey(current: seq<Offer>, key: string): (i: nat)
    ensures i <= |current|
    ensures i < |current| ==> current[i].key == key
    ensures forall j :: 0 <= j < i ==> current[j].key != key
  {
    if current == [] || current[0].key == key then 0
    else 1 + FirstIndexWithKey(current[1..], key)
  }

  /** `Offer.objects.current().filter(key=key).first()`. */
  function FirstWithKey(current: seq<Offer>, key: string): (r: Option<Offer>)
    ensures r.None? <==> forall o :: o in current ==> o.key != key
    ensures r.Some? ==> r.value.key == key && r.value in current
    ensures r.Some? ==> r.value == current[FirstIndexWithKey(current, key)]
  {
    var i := FirstIndexWithKey(current, key);
    if i < |current| then Some(current[i]) else None
  }

  /** The offer the feed shows in a category: the first current one with that key,
      hidden from a member who has already clicked it. */
  function ShownOffer(user: User, current: seq<Offer>, key: string, actions: seq<OfferAction>): (r: Option<Offer>)
    ensures r.Some? ==> r == FirstWithKey(current, key)
    ensures r.Some? && user.Member? ==> !HasAction(actions, user.profile, r.value.id, Click)
    ensures user.Anonymous? ==> r == FirstWithKey(current, key)
    ensures (user.Member? && FirstWithKey(current, key).Some? &&
             !HasAction(actions, user.profile, FirstWithKey(current, key).value.id, Click)) ==> r.Some?
  {
    match FirstWithKey(current, key)
    case None => None
    case Some(o) =>
      if user.Member? && HasAction(actions, user.profile, o.id, Click) then None else Some(o)
  }

  /** Viewing an offer hides it from that member's feed from then on, unless it was
      not found or the viewer was anonymous. */
  lemma ViewHidesOffer(p: ProfileId, key: string, fullPath: string, current: seq<Offer>,
                       resolve: UrlResolver, debugging: bool, actions: seq<OfferAction>)
    requires FirstWithKey(current, key).Some?
    requires FindCurrent(current, FirstWithKey(current, key).value.id).Some?
    ensures var o := FirstWithKey(current, key).value;
      var after := OfferStep(Click, Member(p), o.id, fullPath, current, resolve, debugging, actions).actions;
      ShownOffer(Member(p), current, key, after).None?
  {
    var o := FirstWithKey(current, key).value;
    var after := OfferStep(Click, Member(p), o.id, fullPath, current, resolve, debugging, actions).actions;
    if !HasAction(actions, p, o.id, Click) || debugging {
      assert after[|actions|] in after;
    }
  }
}
