/**
 * The stored records the town-square handlers read and write, and the pure
 * functions over record tables that the handlers use: removing one profile's
 * likes or flags, collecting the comment-notification recipients, and listing
 * an activity's comments newest first.
 */
module Records {

  type ProfileId = int
  type ActivityId = int
  type OfferId = int

  /** The authenticated identity of a request. */
  datatype User = Anonymous | Member(profile: ProfileId)

  /** A `Like` or a `Flag` row: one profile's mark on one activity. Rows are not
      unique per (profile, activity); a table holds every row ever created. */
  datatype Mark = Mark(profile: ProfileId, activity: ActivityId)

  /** A `Comment` row; `text` is the optional `comment` form field as posted. */
  datatype Comment = Comment(profile: ProfileId, activity: ActivityId, text: Option<string>, createdOn: int)

  datatype Option<T> = None | Some(value: T)

  predicate Owns(m: Mark, p: ProfileId, a: ActivityId) {
    m.profile == p && m.activity == a
  }

  /** The table after `activity.<likes|flags>.filter(profile=p).delete()`. */
  function RemoveMarks(ms: seq<Mark>, p: ProfileId, a: ActivityId): (r: seq<Mark>)
    ensures forall m :: multiset(r)[m] == if Owns(m, p, a) then 0 else multiset(ms)[m]
    ensures |r| <= |ms|
  {
    if ms == [] then []
    else
      var rest := RemoveMarks(ms[1..], p, a);
      assert ms == [ms[0]] + ms[1..];
      if Owns(ms[0], p, a) then rest else [ms[0]] + rest
  }

  /** Removal distributes over the table's order of creation. */
  lemma {:induction false} RemoveMarksAppend(ms: seq<Mark>, ns: seq<Mark>, p: ProfileId, a: ActivityId)
    ensures RemoveMarks(ms + ns, p, a) == RemoveMarks(ms, p, a) + RemoveMarks(ns, p, a)
  {
    if ms == [] {
      assert ms + ns == ns;
    } else {
      assert (ms + ns)[1..] == ms[1..] + ns;
      RemoveMarksAppend(ms[1..], ns, p, a);
    }
  }

  /** Marking and then unmarking leaves what unmarking alone would have left:
      the caller's rows on that activity are gone and everyone else's are kept in order. */
  lemma MarkThenUnmark(ms: seq<Mark>, p: ProfileId, a: ActivityId)
    ensures RemoveMarks(ms + [Mark(p, a)], p, a) == RemoveMarks(ms, p, a)
  {
    RemoveMarksAppend(ms, [Mark(p, a)], p, a);
    assert RemoveMarks([Mark(p, a)], p, a) == [];
  }

  /** Unmarking twice is unmarking once. */
  lemma {:induction false} RemoveMarksIdempotent(ms: seq<Mark>, p: ProfileId, a: ActivityId)
    ensures RemoveMarks(RemoveMarks(ms, p, a), p, a) == RemoveMarks(ms, p, a)
  {
    if ms != [] {
      RemoveMarksIdempotent(ms[1..], p, a);
    }
  }

  /** Every comment author has an email address on record. */
  predicate EmailsKnown(cs: seq<Comment>, emails: map<ProfileId, string>) {
    forall c :: c in cs ==> c.profile in emails
  }

  /** `set(activity.comments.exclude(profile=poster).values_list('profile__email'))`. */
  function Recipients(cs: seq<Comment>, a: ActivityId, poster: ProfileId, emails: map<ProfileId, string>): (r: set<string>)
    requires EmailsKnown(cs, emails)
    ensures forall e :: e in r <==>
      exists i :: 0 <= i < |cs| && cs[i].activity == a && cs[i].profile != poster && emails[cs[i].profile] == e
  {
    if cs == [] then {}
    else
      var last := cs[|cs| - 1];
      var rest := Recipients(cs[..|cs| - 1], a, poster, emails);
      assert forall i :: 0 <= i < |cs| - 1 ==> cs[..|cs| - 1][i] == cs[i];
      if last.activity == a && last.profile != poster then rest + {emails[last.profile]} else rest
  }

  /** The poster's own new comment adds no recipient, so the set computed after
      the comment is created is the set of earlier commenters' emails. */
  lemma OwnCommentAddsNoRecipient(cs: seq<Comment>, c: Comment, emails: map<ProfileId, string>)
    requires EmailsKnown(cs, emails) && c.profile in emails
    ensures EmailsKnown(cs + [c], emails)
    ensures Recipients(cs + [c], c.activity, c.profile, emails) == Recipients(cs, c.activity, c.profile, emails)
  {
    assert (cs + [c])[..|cs|] == cs;
  }

  /** No one is notified of a comment on an activity nobody else commented on. */
  lemma NoOtherCommenterNoRecipient(cs: seq<Comment>, a: ActivityId, poster: ProfileId, emails: map<ProfileId, string>)
    requires EmailsKnown(cs, emails)
    requires forall c :: c in cs && c.activity == a ==> c.profile == poster
    ensures Recipients(cs, a, poster, emails) == {}
  {
    if e :| e in Recipients(cs, a, poster, emails) {
      var i :| 0 <= i < |cs| && cs[i].activity == a && cs[i].profile != poster && emails[cs[i].profile] == e;
      assert cs[i] in cs;
    }
  }

  /** `activity.comments`: the activity's comments in table order. */
  function CommentsOn(cs: seq<Comment>, a: ActivityId): (r: seq<Comment>)
    ensures forall c :: multiset(r)[c] == if c.activity == a then multiset(cs)[c] else 0
  {
    if cs == [] then []
    else
      assert cs == [cs[0]] + cs[1..];
      if cs[0].activity == a then [cs[0]] + CommentsOn(cs[1..], a) else CommentsOn(cs[1..], a)
  }

  /** Each comment is at least as recent as the one after it. */
  predicate NewestFirst(cs: seq<Comment>) {
    forall i :: 0 <= i < |cs| - 1 ==> cs[i].createdOn >= cs[i + 1].createdOn
  }

  /** In a newest-first listing every comment is at least as recent as every later one. */
  lemma {:induction false} NewestFirstPairwise(cs: seq<Comment>, i: int, j: int)
    requires NewestFirst(cs) && 0 <= i <= j < |cs|
    ensures cs[i].createdOn >= cs[j].createdOn
    decreases j - i
  {
    if i < j {
      NewestFirstPairwise(cs, i + 1, j);
    }
  }

  function InsertNewestFirst(c: Comment, cs: seq<Comment>): (r: seq<Comment>)
    requires NewestFirst(cs)
    ensures NewestFirst(r)
    ensures multiset(r) == multiset(cs) + multiset{c}
    ensures |r| == |cs| + 1
    ensures r[0] == c || (cs != [] && r[0] == cs[0])
  {
    if cs == [] || c.createdOn >= cs[0].createdOn then
      var r := [c] + cs;
      assert NewestFirst(r) by {
        forall i | 0 <= i < |r| - 1 ensures r[i].createdOn >= r[i + 1].createdOn {
          if i > 0 {
            assert r[i] == cs[i - 1] && r[i + 1] == cs[i];
          }
        }
      }
      r
    else
      var rest := InsertNewestFirst(c, cs[1..]);
      var r := [cs[0]] + rest;
      assert multiset(cs) == multiset{cs[0]} + multiset(cs[1..]) by {
        assert cs == [cs[0]] + cs[1..];
      }
      assert NewestFirst(r) by {
        assert rest[0].createdOn <= cs[0].createdOn;
        forall i | 0 <= i < |r| - 1 ensures r[i].createdOn >= r[i + 1].createdOn {
          if i > 0 {
            assert r[i] == rest[i - 1] && r[i + 1] == rest[i];
          }
        }
      }
      r
  }

  /** `order_by('-created_on')`: the same comments, newest first (ties in any order). */
  function SortNewestFirst(cs: seq<Comment>): (r: seq<Comment>)
    ensures NewestFirst(r)
    ensures multiset(r) == multiset(cs)
  {
    if cs == [] then []
    else
      assert cs == [cs[0]] + cs[1..];
      InsertNewestFirst(cs[0], SortNewestFirst(cs[1..]))
  }
}
