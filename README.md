# Town square views, modelled in Dafny

This project models the request handlers of the town-square feed
(`app/townsquare/views.py`). The database is replaced by in-memory tables held
by one object:

- activities with their owning profile;
- `Like` and `Flag` rows;
- `Comment` rows;
- `OfferAction` rows.

Each handler answers with a datatype of its own outcomes:

- the activity endpoint answers not found, empty JSON, a JSON comment list, or a server error;
- the offer handlers answer not found, a redirect, or the offer page;
- the feed page answers the retail home page, a server error, a failed stamp, or
  the page context.

The modules are:

- `Calendar` (`calendar.dfy`): `get_next_time_available` on integer calendar
  fields. Dates are proleptic Gregorian with Python's ordinal and weekday
  numbering (Monday is 0). A result outside years 1..9999 is the OverflowError
  of `datetime` arithmetic. A month of 13 is the ValueError of the `datetime`
  constructor.
- `Records` (`records.dfy`): the row types and the table functions.
  `RemoveMarks` removes one profile's likes or flags on an activity.
  `Recipients` is the comment-notification email set. `CommentsOn` and
  `SortNewestFirst` list an activity's comments newest first.
- `Offers` (`offers.dfy`): the offer-action state machine `OfferStep`, shared
  by `offer_go`, `offer_decline` and `offer_view`, and its responses. It also
  holds the choice of the offer a feed category shows.
- `Tabs` (`tabs.dfy`): the tab list of the feed page, including Python's
  `str.title()` and substring test.
- `Views` (`views.dfy`): class `Townsquare`, whose methods are the handlers
  `Api`, `OfferGo`, `OfferDecline`, `OfferView` and `Index`. Each method
  modifies only the tables its branch writes.

The model follows the code where the names suggest something else:

- The "daily" stamp adds the current hour and minute to the current time. It is
  not the next full hour.
- The "weekly" stamp is always a Saturday (weekday 5) at the current time of
  day. On a Sunday it lies one day in the past. It is not "next Monday".
- The "monthly" stamp in December asks for month 13 (line 29). That raises, so
  the feed page fails for every member past the enablement gate during December
  (`DecemberPageFails`).
- On the feed page, an anonymous caller that passes the enablement gate (line 36)
  reaches `request.user.profile.keywords` (line 48). An anonymous user has no
  profile, so the page ends in an uncaught AttributeError (`ProfileMissing`).
  The `'everywhere'` default of line 53 is therefore never used by `index`: every
  caller that reaches it is authenticated.
- The tab list holds only what this file builds: the two fixed tabs, the
  keyword tabs and the Search tab.
- On the activity endpoint, `method=delete` from an anonymous caller reads
  `request.user.profile`, which an anonymous user does not have. Nothing catches
  that error, so the model answers `ServerError`, not not-found.
- A like or flag request with no `direction` field raises a KeyError, which the
  model also answers with `ServerError`.
- `Offer.objects.current().get(pk=id)` succeeds only when exactly one current
  offer has the id. When none or several do, it raises, and the handler answers
  not-found.

## Model

| member | source | states |
|---|---|---|
| `Calendar.NextTimeAvailable` | app/townsquare/views.py:16-30 | A successful result is a valid date and time. A key other than daily, weekly or monthly returns the clock reading unchanged. |
| `Calendar.DailyAddsClockReading` | app/townsquare/views.py:18-21 | The daily stamp lies exactly hour×60+minute minutes after now on one minute timeline. Seconds are kept. It fails only when the result passes year 9999. |
| `Calendar.WeeklyLandsOnSaturday` | app/townsquare/views.py:22-23 | The weekly stamp is a Saturday, 5−weekday days away, with hour, minute and second kept. It moves back one day exactly on Sundays. It never falls before year 1, and it fails exactly when it lies past year 9999. |
| `Calendar.MonthlyFirstOfNextMonth` | app/townsquare/views.py:24-29 | Before December the monthly stamp is midnight on day 1 of the next month in the same year. It is an invalid-date error exactly when the month is December. |
| `Calendar.AddDaysOrdinal` | app/townsquare/views.py:23 | Adding n days (n may be negative) gives a valid date whose ordinal is the old ordinal plus n. |
| `Calendar.NextDayOrdinal` | app/townsquare/views.py:21 | The following day is a valid date one ordinal later, across month and year ends and leap years. |
| `Calendar.PrevDayOrdinal` | app/townsquare/views.py:23 | The previous day is a valid date one ordinal earlier. |
| `Records.RemoveMarks` | app/townsquare/views.py:150-151 | Deleting a profile's likes or flags on an activity removes every such row. Every other row keeps its multiplicity. |
| `Records.MarkThenUnmark` | app/townsquare/views.py:147-158 | Liking and then unliking leaves the table exactly as unliking alone would. The same holds for flagging and unflagging. |
| `Records.RemoveMarksIdempotent` | app/townsquare/views.py:157-158 | Unflagging (or unliking) twice is the same as doing it once. |
| `Records.Recipients` | app/townsquare/views.py:164 | An email is a recipient exactly when some comment on the activity by a profile other than the poster carries it. Each email appears once. |
| `Records.OwnCommentAddsNoRecipient` | app/townsquare/views.py:163-164 | The poster's new comment adds no recipient. The set computed after creating it equals the set over the earlier comments. |
| `Records.NoOtherCommenterNoRecipient` | app/townsquare/views.py:164 | When only the poster has commented on the activity, nobody is notified. |
| `Records.CommentsOn` | app/townsquare/views.py:168 | The listing holds exactly the activity's comments, each as often as it is stored. |
| `Records.NewestFirstPairwise` | app/townsquare/views.py:168 | In a newest-first listing every comment is at least as recent as every comment after it. |
| `Records.SortNewestFirst` | app/townsquare/views.py:168 | The listing is a permutation of its input with creation times non-increasing. |
| `Offers.FindCurrent` | app/townsquare/views.py:178 | The offer is found only when it is the one current offer with that id. Otherwise no current offer has the id, or several do. |
| `Offers.FindCurrentExactlyOne` | app/townsquare/views.py:178 | A current offer is found by its id exactly when no other current offer has that id. When another one shares it, the lookup fails. |
| `Offers.StepIsMonotone` | app/townsquare/views.py:181-183 | An offer handler leaves the action table unchanged or appends exactly one record. That record is the caller's, on the requested offer, of the handler's kind. |
| `Offers.SuccessRecordsOnce` | app/townsquare/views.py:183-219 | An allowed action appends one record of the matching kind. Then go redirects to wherever `redirect` sends the offer url, decline redirects to "/", and view renders the offer. |
| `Offers.GoRecordsBeforeRedirect` | app/townsquare/views.py:183-186 | An allowed go always keeps its new record. When `redirect` refuses the offer url, the answer is not-found. A url it passes through unchanged is the redirect's location. |
| `Offers.LookupBeforeLogin` | app/townsquare/views.py:177-180 | An unknown or non-current offer is not found for any caller. An anonymous caller on a current offer is redirected to "/login/github?next=" + path. Neither records anything. |
| `Offers.RepeatIsNotFound` | app/townsquare/views.py:181-186 | With debugging off, repeating a recorded action is not found and records nothing. |
| `Offers.RecordedIsNotFound` | app/townsquare/views.py:181-186 | With debugging off, a member who already has a record of the handler's kind on the offer gets not-found and nothing is recorded. |
| `Offers.ActionsPersist` | app/townsquare/views.py:183 | A recorded action is never lost by a later step, so the machine is monotone. |
| `Offers.DebugRepeatRecords` | app/townsquare/views.py:173-183 | With debugging on, every repeat succeeds and adds one record. |
| `Offers.OtherKindsDoNotBlock` | app/townsquare/views.py:195-197 | A record of another kind never changes a handler's answer, so a prior go does not block a decline. |
| `Offers.FirstWithKey` | app/townsquare/views.py:66 | Returns the first current offer with the category key, or none when no current offer has it. |
| `Offers.ShownOffer` | app/townsquare/views.py:66-69 | The shown offer is the first current one of the category. It is dropped exactly when the caller is a member who already clicked it. |
| `Offers.ViewHidesOffer` | app/townsquare/views.py:68-69 | After a member views a category's offer, the feed no longer shows it to them. |
| `Tabs.Title` | app/townsquare/views.py:50 | Python's `str.title()` on ASCII: the length is kept and non-letters are unchanged. Each letter stays the same letter. It is upper-case exactly when it starts a run of letters. |
| `Tabs.TitleIdempotent` | app/townsquare/views.py:50 | Title-casing a title changes nothing. |
| `Tabs.ContainsAt` | app/townsquare/views.py:55 | The substring test succeeds wherever the marker occurs. |
| `Tabs.ContainsWitness` | app/townsquare/views.py:55 | The substring test succeeds only where the marker occurs. |
| `Tabs.DefaultTabIsShown` | app/townsquare/views.py:53 | The default tab is always in the bar: the first tab for an authenticated caller, the second otherwise. |
| `Tabs.BuildTabs` | app/townsquare/views.py:41-59 | The tabs are my_tribes, then everywhere, then one "keyword-"+k tab per keyword in order. A final Search tab with the requested slug is added exactly when it contains "activity:". |
| `Tabs.KeywordSlugsDistinct` | app/townsquare/views.py:48-52 | Distinct keywords give distinct slugs, and no keyword slug is a fixed tab's slug. |
| `Views.ActivityPermission` | app/townsquare/views.py:136-140 | Only the owner may delete, and an anonymous delete raises. Any other method is allowed exactly for authenticated callers. |
| `Views.Townsquare.Api` | app/townsquare/views.py:124-171 | Unknown activity or refused permission: not-found (or server error) and nothing changes. Delete removes the activity. Liked/flagged appends one row. Unliked/unflagged removes the caller's rows. Another direction changes nothing. A comment is appended and its recipients returned. GET method=comment lists comments newest first. |
| `Views.Townsquare.OfferGo` | app/townsquare/views.py:175-186 | The answer and new action table are one `OfferStep` of kind go. A non-login redirect goes to where `redirect` sends the url of the requested current offer. |
| `Views.Townsquare.OfferDecline` | app/townsquare/views.py:189-200 | The answer and new action table are one `OfferStep` of kind decline. Every redirect goes to "/" or to the login page. |
| `Views.Townsquare.OfferView` | app/townsquare/views.py:203-221 | The answer and new action table are one `OfferStep` of kind click. A rendered page shows the requested current offer. |
| `Views.Townsquare.Index` | app/townsquare/views.py:33-97 | A caller the gate turns away gets the retail home page. An anonymous caller past the gate gets a server error. For a member, the page fails exactly when some category's stamp fails, with the first failing category's error. Otherwise the page holds the requested tab (the first tab of the bar when none is requested), the target "/activity?what="+tab, the tab list, and the daily, weekly and monthly entries. |
| `Views.Townsquare.OffersByCategory` | app/townsquare/views.py:63-73 | The map has exactly the daily, weekly and monthly keys. Each entry is the shown offer with that category's next-time stamp. |
| `Views.DecemberPageFails` | app/townsquare/views.py:64-65 | In December some category's stamp fails, so the feed page fails for a member. In every other month the monthly stamp succeeds. |

## Left out

- Other town-square behaviour lives in other files and is not part of this
  model: hiding an activity after enough flags, toggling likes on comments,
  deleting comments, the matching leaderboard, offer creation and link metadata.
- Template rendering and JSON serialisation are left out. A stamp is returned
  as a `DateTime` value, not as its `strftime` text. Comments are returned as
  `Comment` rows, not as their `to_standard_dict` projection. An `Offer` carries
  only its id, category key and url, so the offer page's title and description
  are not part of this model.
- `is_user_townsquare_enabled` (line 36) is not part of this model. Its answer
  is the `enabled` input of `Index`, and the retail home page it falls back to is
  the outcome `RetailHome`. The caller profile's keyword list is also an input.
- `Views.Townsquare.Index`: reads the clock once, where the source reads it once
  per category (line 65). Around midnight at a month's end the source can read
  November for the daily and weekly stamps and December for the monthly one, and
  then fail. The model cannot show that interleaving.
- The subscriber lookup and the announcements of `index` (lines 76-83) are left
  out, and so is the `emailsettings` handler (lines 100-118). They depend on
  `should_send_email_type_to`, `set_should_send_email_type_to` and
  `Announcement.objects.current()`, which are not part of this model.
- `Offer.objects.current()` is an input sequence of the current offers. Its
  order stands for the order `.first()` uses, which is primary-key order when the
  query has none. Its time-window rule is not part of this model.
- `comment_email` delivery is left out. Only the recipient set is returned.
- The rate limits and the CSRF exemption are transport concerns.
- `settings.DEBUG` becomes the constructor argument `debuggingOffers`.
- Django's `redirect` and the site's URL configuration are not part of this
  model. What `redirect(offer.url)` does is the constructor argument
  `resolveUrl`. It gives the location redirected to, or nothing when `redirect`
  raises. The literal redirects to "/" and to the login page are taken to pass
  through unchanged.
- Deleting an activity removes only the activity. Any cascade to its likes,
  flags and comments is declared in model definitions that are not part of this
  model.
- The read-then-create race between concurrent duplicate offer actions is left
  out. Handlers run one at a time.
- `Tabs.Title`: does not model Unicode case mapping, because only ASCII letters
  are treated as cased.
- `Calendar.NextTimeAvailable`: does not model microseconds or time zones,
  because neither changes the outcome of the rules.
- The `offer_slug` URL argument is ignored, as in the source.
- `Views.Townsquare.Api`: requires that an authenticated caller's profile has
  an email entry. This is the table's referential integrity, not a check the
  handler makes.
