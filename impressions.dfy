/** Recipe impressions: "this recipe was shown" events of a user or of an
    anonymous session, de-duplicated within a 24-hour window, forwarded to the
    recommendation engine, and merged from an anonymous session into a user.
    The impression table is the `impressions` sequence of the class, the recipe
    table it only reads is the id set `recipeIds`, the clock is the `now`
    parameter (seconds), and every call to the recommendation engine is appended,
    in order, to `recsys`. */
module Impressions {
  import opened Common

  /** The recency window of the de-duplication check: 24 hours, in seconds. */
  const RecentWindow := 24 * 60 * 60

  /** A member of the recipe-source enumeration, as its string value. */
  datatype Source = Source(value: string)

  /** Who was shown the recipe. */
  datatype Viewer = Registered(userId: int) | Anonymous(anonymousId: int)

  datatype Impression = Impression(viewer: Viewer, recipeId: int, source: Option<Source>, shownAt: int)

  /** The message a merged impression is forwarded as. */
  datatype ImpressionMessage = ImpressionMessage(userId: int, recipeId: int, source: Option<Source>)

  datatype RecsysCall =
    | AddImpression(userId: int, recipeId: int, source: string)
    | AddImpressionsBulk(messages: seq<ImpressionMessage>)

  /** An impression of the same viewer, recipe and source shown at most 24 hours before `now`. */
  predicate RecentMatch(imp: Impression, viewer: Viewer, recipeId: int, source: Option<Source>, now: int)
  {
    imp.viewer == viewer && imp.recipeId == recipeId && imp.source == source && now - RecentWindow <= imp.shownAt
  }

  /** `exists_recent` / `exists_recent_for_anonymous`. */
  predicate ExistsRecent(imps: seq<Impression>, viewer: Viewer, recipeId: int, source: Option<Source>, now: int)
  {
    exists i :: 0 <= i < |imps| && RecentMatch(imps[i], viewer, recipeId, source, now)
  }

  /** The source label sent to the recommendation engine: "feed" when none was given. */
  function RecsysSource(source: Option<Source>): string
  {
    if source.Some? then source.value.value else "feed"
  }

  /** The impressions of one viewer, in table order. */
  function OfViewer(imps: seq<Impression>, viewer: Viewer): seq<Impression>
  {
    if |imps| == 0 then []
    else (if imps[0].viewer == viewer then [imps[0]] else []) + OfViewer(imps[1..], viewer)
  }

  /** The table after `merge_impressions`: the session's impressions now belong to the user. */
  function Reassigned(imps: seq<Impression>, anonymousId: int, userId: int): seq<Impression>
  {
    seq(|imps|, i requires 0 <= i < |imps| =>
      if imps[i].viewer == Anonymous(anonymousId) then imps[i].(viewer := Registered(userId)) else imps[i])
  }

  /** The messages of the reassigned impressions, in the order the repository returns them. */
  function Messages(userId: int, imps: seq<Impression>): seq<ImpressionMessage>
  {
    seq(|imps|, i requires 0 <= i < |imps| => ImpressionMessage(userId, imps[i].recipeId, imps[i].source))
  }

  /** The distinct recipes a viewer has been shown. */
  function ViewedRecipes(imps: seq<Impression>, viewer: Viewer): set<int>
  {
    set i | 0 <= i < |imps| && imps[i].viewer == viewer :: imps[i].recipeId
  }

  /** A recorded impression is recent for the whole next 24 hours, so the same
      record is refused until the window has passed. */
  lemma RecordedIsRecent(imps: seq<Impression>, viewer: Viewer, recipeId: int, source: Option<Source>, now: int, later: int)
    requires now <= later <= now + RecentWindow
    ensures ExistsRecent(imps + [Impression(viewer, recipeId, source, now)], viewer, recipeId, source, later)
  {
    var all := imps + [Impression(viewer, recipeId, source, now)];
    assert RecentMatch(all[|imps|], viewer, recipeId, source, later);
  }

  /** Past the window an impression no longer blocks: if nothing else matched, a
      record after `now + 24h` finds no recent impression. */
  lemma {:induction false} RecencyExpires(imps: seq<Impression>, viewer: Viewer, recipeId: int, source: Option<Source>, now: int, later: int)
    requires later > now + RecentWindow
    requires !ExistsRecent(imps, viewer, recipeId, source, later)
    ensures !ExistsRecent(imps + [Impression(viewer, recipeId, source, now)], viewer, recipeId, source, later)
  {
    var all := imps + [Impression(viewer, recipeId, source, now)];
    forall i | 0 <= i < |all| ensures !RecentMatch(all[i], viewer, recipeId, source, later) {
      if i < |imps| {
        assert all[i] == imps[i];
      }
    }
  }

  /** After a merge the session has no impressions left; the impressions of every
      viewer other than the session and the user are as before. */
  lemma {:induction false} MergeEmptiesSession(imps: seq<Impression>, anonymousId: int, userId: int, other: Viewer)
    ensures OfViewer(Reassigned(imps, anonymousId, userId), Anonymous(anonymousId)) == []
    ensures other != Anonymous(anonymousId) && other != Registered(userId) ==>
              OfViewer(Reassigned(imps, anonymousId, userId), other) == OfViewer(imps, other)
    ensures |Reassigned(imps, anonymousId, userId)| == |imps|
    decreases |imps|
  {
    if |imps| > 0 {
      assert Reassigned(imps, anonymousId, userId)[1..] == Reassigned(imps[1..], anonymousId, userId);
      MergeEmptiesSession(imps[1..], anonymousId, userId, other);
    }
  }

  /** After a merge the user has been shown exactly the recipes they or the
      session had been shown. */
  lemma MergeUnitesViewedRecipes(imps: seq<Impression>, anonymousId: int, userId: int)
    ensures ViewedRecipes(Reassigned(imps, anonymousId, userId), Registered(userId))
            == ViewedRecipes(imps, Registered(userId)) + ViewedRecipes(imps, Anonymous(anonymousId))
  {
    var merged := Reassigned(imps, anonymousId, userId);
    forall x | x in ViewedRecipes(merged, Registered(userId))
      ensures x in ViewedRecipes(imps, Registered(userId)) + ViewedRecipes(imps, Anonymous(anonymousId))
    {
      var i :| 0 <= i < |merged| && merged[i].viewer == Registered(userId) && merged[i].recipeId == x;
      assert imps[i].recipeId == x;
    }
    forall x | x in ViewedRecipes(imps, Registered(userId)) + ViewedRecipes(imps, Anonymous(anonymousId))
      ensures x in ViewedRecipes(merged, Registered(userId))
    {
      var i :| 0 <= i < |imps| && imps[i].recipeId == x
               && (imps[i].viewer == Registered(userId) || imps[i].viewer == Anonymous(anonymousId));
      assert merged[i].viewer == Registered(userId) && merged[i].recipeId == x;
    }
  }

  /** A user has been shown no more distinct recipes than they have impressions. */
  lemma {:induction false} ViewedCountBound(imps: seq<Impression>, viewer: Viewer)
    ensures |ViewedRecipes(imps, viewer)| <= |OfViewer(imps, viewer)|
    decreases |imps|
  {
    if |imps| > 0 {
      ViewedCountBound(imps[1..], viewer);
      var rest := ViewedRecipes(imps[1..], viewer);
      var here := if imps[0].viewer == viewer then {imps[0].recipeId} else {};
      assert ViewedRecipes(imps, viewer) == here + rest by {
        forall x | x in ViewedRecipes(imps, viewer) ensures x in here + rest {
          var i :| 0 <= i < |imps| && imps[i].viewer == viewer && imps[i].recipeId == x;
          if i > 0 {
            assert imps[1..][i - 1] == imps[i];
          }
        }
        forall x | x in rest ensures x in ViewedRecipes(imps, viewer) {
          var i :| 0 <= i < |imps[1..]| && imps[1..][i].viewer == viewer && imps[1..][i].recipeId == x;
          assert imps[i + 1] == imps[1..][i];
        }
        if imps[0].viewer == viewer {
          assert imps[0].recipeId in ViewedRecipes(imps, viewer);
        }
      }
    } else {
      assert ViewedRecipes(imps, viewer) == {};
    }
  }

  class RecipeImpressionService {
    /** the impression repository, in insertion order */
    var impressions: seq<Impression>
    /** every call to the recommendation engine, in order */
    var recsys: seq<RecsysCall>
    /** the ids of the stored recipes */
    const recipeIds: set<int>

    constructor (recipeIds: set<int>)
      ensures impressions == [] && recsys == [] && this.recipeIds == recipeIds
    {
      impressions := [];
      recsys := [];
      this.recipeIds := recipeIds;
    }

    /** `record_impression`: not found first, then the 24-hour check; on success one
        impression is stored and one event forwarded. */
    method RecordImpression(userId: int, recipeId: int, source: Option<Source>, now: int) returns (r: Result<()>)
      modifies this
      ensures recipeId !in recipeIds ==> r == Err(RecipeNotFound)
      ensures recipeId in recipeIds && ExistsRecent(old(impressions), Registered(userId), recipeId, source, now) ==>
                r == Err(RecipeImpressionAlreadyExists)
      ensures r.Ok? <==> recipeId in recipeIds && !ExistsRecent(old(impressions), Registered(userId), recipeId, source, now)
      ensures r.Err? ==> impressions == old(impressions) && recsys == old(recsys)
      ensures r.Ok? ==>
                && impressions == old(impressions) + [Impression(Registered(userId), recipeId, source, now)]
                && recsys == old(recsys) + [AddImpression(userId, recipeId, RecsysSource(source))]
    {
      if recipeId !in recipeIds {
        return Err(RecipeNotFound);
      }
      if ExistsRecent(impressions, Registered(userId), recipeId, source, now) {
        return Err(RecipeImpressionAlreadyExists);
      }
      impressions := impressions + [Impression(Registered(userId), recipeId, source, now)];
      recsys := recsys + [AddImpression(userId, recipeId, RecsysSource(source))];
      r := Ok(());
    }

    /** `record_impression_for_anonymous`: the same two checks keyed by the session;
        nothing is forwarded. */
    method RecordImpressionForAnonymous(recipeId: int, anonymousId: int, source: Option<Source>, now: int)
      returns (r: Result<()>)
      modifies this
      ensures recipeId !in recipeIds ==> r == Err(RecipeNotFound)
      ensures recipeId in recipeIds && ExistsRecent(old(impressions), Anonymous(anonymousId), recipeId, source, now) ==>
                r == Err(RecipeImpressionAlreadyExists)
      ensures r.Ok? <==> recipeId in recipeIds && !ExistsRecent(old(impressions), Anonymous(anonymousId), recipeId, source, now)
      ensures recsys == old(recsys)
      ensures r.Err? ==> impressions == old(impressions)
      ensures r.Ok? ==> impressions == old(impressions) + [Impression(Anonymous(anonymousId), recipeId, source, now)]
    {
      if recipeId !in recipeIds {
        return Err(RecipeNotFound);
      }
      if ExistsRecent(impressions, Anonymous(anonymousId), recipeId, source, now) {
        return Err(RecipeImpressionAlreadyExists);
      }
      impressions := impressions + [Impression(Anonymous(anonymousId), recipeId, source, now)];
      r := Ok(());
    }

    /** `merge_impressions`: the session's impressions are reassigned to the user and,
        when there are any, forwarded in one bulk call. */
    method MergeImpressions(anonymousId: int, userId: int)
      modifies this
      ensures impressions == Reassigned(old(impressions), anonymousId, userId)
      ensures var moved := OfViewer(old(impressions), Anonymous(anonymousId));
        recsys == old(recsys) + (if |moved| > 0 then [AddImpressionsBulk(Messages(userId, moved))] else [])
    {
      var moved := OfViewer(impressions, Anonymous(anonymousId));
      impressions := Reassigned(impressions, anonymousId, userId);
      var messages := Messages(userId, moved);
      if |messages| > 0 {
        recsys := recsys + [AddImpressionsBulk(messages)];
      }
    }

    /** `get_user_viewed_recipes_count`: a read, no write and no call. */
    method GetUserViewedRecipesCount(userId: int) returns (count: int)
      ensures count == |ViewedRecipes(impressions, Registered(userId))|
      ensures count <= |OfViewer(impressions, Registered(userId))|
    {
      ViewedCountBound(impressions, Registered(userId));
      count := |ViewedRecipes(impressions, Registered(userId))|;
    }
  }
}
