/**
 * The favorites handlers of src/routes/FavoriteRouter.js over the Favorite
 * collection, kept as a sequence in insertion order: `Favorite.findOne(..)` is
 * the first match.  Nothing in the code keeps one record per user; the store
 * keeps it as long as no token carries an `_id` claim, which no token signed
 * at login does.  Every handler sits behind the gate of the Gate module with
 * `authorize(['user'])`.
 */
module Favorites {
  import opened Common
  import opened ArrayOps
  import opened Gate

  /** A favorites record: the owning user and a list of dish ids that may repeat. */
  datatype Favorite = Favorite(user: Option<Id>, dishes: seq<Id>)

  const FAVORITES_NOT_FOUND: string := "Favorites not found"
  const ALREADY_FAVORITE: string := "Dish already exists in favorites."
  const NOT_A_FAVORITE: string := "Dish not found in favorites."
  const ALL_DELETED: string := "All favorites deleted"
  const DISH_REMOVED: string := "Dish removed from favorites"

  /** The five routes of the router, all registered after `router.use(authMiddleware)`. */
  datatype Route =
    | ReadFavorites     // GET /
    | AddFavorites      // POST /
    | RemoveFavorites   // DELETE /
    | AddFavorite       // POST /:dishId
    | RemoveFavorite    // DELETE /:dishId

  /** Every route is registered after the router-wide gate, with `authorize(['user'])`. */
  function AccessOf(route: Route): Access
  {
    Protected(["user"])
  }

  /** Every favorites route is admitted exactly for a verified token whose role is `user`. */
  lemma EveryRouteNeedsUser(route: Route, header: Option<string>, verify: string -> Verified)
    ensures Admit(AccessOf(route), header, verify).Admitted? <==>
      Authenticate(header, verify).Authenticated? && Authenticate(header, verify).claims.role == Some("user")
    ensures Admit(AccessOf(route), header, verify).Admitted? ==>
      Admit(AccessOf(route), header, verify).user == Some(Authenticate(header, verify).claims)
  {
  }

  /** `Favorite.findOne({ user })`. */
  function FindFavorite(docs: seq<Favorite>, user: Option<Id>): (r: Option<nat>)
    ensures r.Some? ==> r.value < |docs| && docs[r.value].user == user
    ensures r.Some? ==> forall k :: 0 <= k < r.value ==> docs[k].user != user
    ensures r.None? <==> forall k :: 0 <= k < |docs| ==> docs[k].user != user
  {
    FirstWhere(docs, (f: Favorite) => f.user == user)
  }

  /** `Favorite.findOne({ user, dishes: dishId })`: the first record of the user listing the dish. */
  function FindListing(docs: seq<Favorite>, user: Option<Id>, dishId: Id): (r: Option<nat>)
    ensures r.Some? ==> r.value < |docs| && docs[r.value].user == user && dishId in docs[r.value].dishes
    ensures r.Some? ==> forall k :: 0 <= k < r.value ==> !(docs[k].user == user && dishId in docs[k].dishes)
    ensures r.None? <==> forall k :: 0 <= k < |docs| ==> !(docs[k].user == user && dishId in docs[k].dishes)
  {
    FirstWhere(docs, (f: Favorite) => f.user == user && dishId in f.dishes)
  }

  /**
   * `newDishIds` of the batch handler: the whole batch when the user has no
   * record, otherwise the batch entries the record does not list yet.
   */
  function NewDishIds(existing: Option<Favorite>, batch: seq<Id>): (r: seq<Id>)
    ensures existing.None? ==> r == batch
    ensures existing.Some? ==> forall k :: 0 <= k < |r| ==> r[k] !in existing.value.dishes
  {
    if existing.None? then batch else Keep(batch, (d: Id) => d !in existing.value.dishes)
  }

  /**
   * Against an existing record the new ids are the batch minus the record's
   * ids, repeats within the batch kept: each unlisted id occurs as often as in
   * the batch, each listed id not at all.
   */
  lemma NewDishIdsCount(f: Favorite, batch: seq<Id>, d: Id)
    ensures d !in f.dishes ==> multiset(NewDishIds(Some(f), batch))[d] == multiset(batch)[d]
    ensures d in f.dishes ==> multiset(NewDishIds(Some(f), batch))[d] == 0
  {
    KeepCount(batch, (e: Id) => e !in f.dishes, d);
  }

  /**
   * `$addToSet: { dishes: { $each: newDishIds } }` on the record: its ids are
   * the old ones and the new ones, an id already listed keeps its count and a
   * new one is listed once, however often the batch repeats it.
   */
  lemma BatchMergeIsUnion(f: Favorite, newIds: seq<Id>, d: Id)
    ensures d in AddToSet(f.dishes, newIds) <==> d in f.dishes || d in newIds
    ensures d in f.dishes ==> multiset(AddToSet(f.dishes, newIds))[d] == multiset(f.dishes)[d]
    ensures d !in f.dishes && d in newIds ==> multiset(AddToSet(f.dishes, newIds))[d] == 1
  {
    AddToSetMembers(f.dishes, newIds, d);
    AddToSetCount(f.dishes, newIds, d);
  }

  /** `deleteOne({ user })`: the first record of the user goes, the others stay in order. */
  function RemoveFirstRecord(docs: seq<Favorite>, user: Option<Id>): (r: seq<Favorite>)
    ensures FindFavorite(docs, user).None? ==> r == docs
    ensures FindFavorite(docs, user).Some? ==> |r| == |docs| - 1
    ensures FindFavorite(docs, user).Some? ==>
      var i := FindFavorite(docs, user).value;
      r == docs[..i] + docs[i + 1..]
    ensures forall k :: 0 <= k < |r| ==> r[k] in docs
  {
    match FindFavorite(docs, user)
    case None => docs
    case Some(i) => RemoveAt(docs, i)
  }

  /** No two records belong to the same user; records without a user are not constrained. */
  predicate OneRecordPerUser(docs: seq<Favorite>)
  {
    forall i, j :: 0 <= i < j < |docs| && docs[i].user.Some? ==> docs[i].user != docs[j].user
  }

  /** With at most one record for the user, removing all favorites twice is removing them once. */
  lemma RemoveAllIdempotent(docs: seq<Favorite>, user: Option<Id>)
    requires forall i, j :: 0 <= i < j < |docs| && docs[i].user == user ==> docs[j].user != user
    ensures RemoveFirstRecord(RemoveFirstRecord(docs, user), user) == RemoveFirstRecord(docs, user)
  {
  }

  /** In a store with one record per user, a second `DELETE /` of a user changes nothing. */
  lemma RemoveAllTwiceOnValidStore(docs: seq<Favorite>, user: Option<Id>)
    requires OneRecordPerUser(docs) && user.Some?
    ensures RemoveFirstRecord(RemoveFirstRecord(docs, user), user) == RemoveFirstRecord(docs, user)
  {
    RemoveAllIdempotent(docs, user);
  }

  /**
   * A token whose `_id` claim names a user that already has a record makes the
   * batch handler store a second record for that user, and then a second
   * removal takes that one too.  Tokens signed at login carry no `_id` claim.
   */
  lemma RemoveAllNotIdempotentWithTwoRecords(user: Option<Id>, a: seq<Id>, b: seq<Id>)
    ensures var docs := [Favorite(user, a), Favorite(user, b)];
      RemoveFirstRecord(docs, user) == [Favorite(user, b)] &&
      RemoveFirstRecord(RemoveFirstRecord(docs, user), user) == []
  {
  }

  /** The Favorite collection. */
  class FavoriteStore {
    var docs: seq<Favorite>

    /** At most one record per user: what `findOne` and `deleteOne` on `{ user }` rely on to mean "the" record. */
    ghost predicate Valid()
      reads this
    {
      OneRecordPerUser(docs)
    }

    constructor ()
      ensures Valid() && docs == []
    {
      docs := [];
    }

    /** GET /: the caller's first record, or 404. */
    function Read(user: Option<Id>): (r: Reply<Favorite>)
      reads this
      ensures FindFavorite(docs, user).None? <==> r == Failure(NOT_FOUND, FAVORITES_NOT_FOUND)
      ensures r.Success? ==> r.status == OK && r.value.user == user && r.value in docs
      ensures r.Success? ==> r.value == docs[FindFavorite(docs, user).value]
    {
      match FindFavorite(docs, user)
      case None => Failure(NOT_FOUND, FAVORITES_NOT_FOUND)
      case Some(i) => Success(OK, docs[i])
    }

    /**
     * POST / with the dish ids of the body.  The reply is always 200.  With
     * an existing record, the ids it does not list yet are merged into it with
     * `$addToSet`.  Whenever there are new ids, a further record is created
     * with the `_id` claim of the token as its user and the new ids as its
     * dishes, and that record is the reply; otherwise nothing is written and
     * the reply is the existing record, or null.
     */
    method AddMany(user: Claims, batch: seq<Id>) returns (reply: Reply<Option<Favorite>>)
      modifies this
      ensures old(Valid()) && user.docId.None? ==> Valid()
      ensures reply.Success? && reply.status == OK
      ensures var found := FindFavorite(old(docs), user.userId);
        var newIds := NewDishIds(if found.Some? then Some(old(docs)[found.value]) else None, batch);
        var created := Favorite(user.docId, newIds);
        if |newIds| == 0 then
          docs == old(docs) && reply.value == (if found.Some? then Some(old(docs)[found.value]) else None)
        else if found.None? then
          docs == old(docs) + [created] && reply.value == Some(created)
        else
          var f := old(docs)[found.value];
          docs == old(docs)[found.value := f.(dishes := AddToSet(f.dishes, newIds))] + [created] &&
          reply.value == Some(created)
    {
      var found := FindFavorite(docs, user.userId);
      var newIds := NewDishIds(if found.Some? then Some(docs[found.value]) else None, batch);
      if |newIds| == 0 {
        return Success(OK, if found.Some? then Some(docs[found.value]) else None);
      }
      if found.Some? {
        var f := docs[found.value];
        docs := docs[found.value := f.(dishes := AddToSet(f.dishes, newIds))];
      }
      var created := Favorite(user.docId, newIds);
      docs := docs + [created];
      reply := Success(OK, Some(created));
    }

    /**
     * POST /:dishId.  Without a record one is created listing just the dish;
     * a dish already listed is refused with 400 and nothing changes; otherwise
     * the dish is appended to the end of the record.
     */
    method AddOne(user: Option<Id>, dishId: Id) returns (reply: Reply<Favorite>)
      modifies this
      ensures old(Valid()) ==> Valid()
      ensures var found := FindFavorite(old(docs), user);
        if found.None? then
          docs == old(docs) + [Favorite(user, [dishId])] && reply == Success(OK, Favorite(user, [dishId]))
        else
          var f := old(docs)[found.value];
          if dishId in f.dishes then reply == Failure(BAD_REQUEST, ALREADY_FAVORITE) && docs == old(docs)
          else
            var f' := f.(dishes := f.dishes + [dishId]);
            docs == old(docs)[found.value := f'] && reply == Success(OK, f')
    {
      var found := FindFavorite(docs, user);
      if found.None? {
        var f := Favorite(user, [dishId]);
        docs := docs + [f];
        return Success(OK, f);
      }
      var f := docs[found.value];
      if dishId in f.dishes {
        return Failure(BAD_REQUEST, ALREADY_FAVORITE);
      }
      var f' := f.(dishes := f.dishes + [dishId]);
      docs := docs[found.value := f'];
      reply := Success(OK, f');
    }

    /**
     * DELETE /:dishId.  The first record of the user that lists the dish has
     * every occurrence of it pulled; without such a record the reply is 404
     * and nothing changes.
     */
    method RemoveOne(user: Option<Id>, dishId: Id) returns (reply: Reply<string>)
      modifies this
      ensures old(Valid()) ==> Valid()
      ensures FindListing(old(docs), user, dishId).None? <==> reply == Failure(NOT_FOUND, NOT_A_FAVORITE)
      ensures !reply.Success? ==> docs == old(docs)
      ensures FindListing(old(docs), user, dishId).Some? ==>
        var j := FindListing(old(docs), user, dishId).value;
        reply == Success(OK, DISH_REMOVED) &&
        docs == old(docs)[j := old(docs)[j].(dishes := Pull(old(docs)[j].dishes, dishId))]
    {
      var j := FindListing(docs, user, dishId);
      if j.None? {
        return Failure(NOT_FOUND, NOT_A_FAVORITE);
      }
      docs := docs[j.value := docs[j.value].(dishes := Pull(docs[j.value].dishes, dishId))];
      reply := Success(OK, DISH_REMOVED);
    }

    /** DELETE /: the user's first record is deleted, if there is one, and the reply is always 200. */
    method RemoveAll(user: Option<Id>) returns (reply: Reply<string>)
      modifies this
      ensures old(Valid()) ==> Valid()
      ensures reply == Success(OK, ALL_DELETED)
      ensures docs == RemoveFirstRecord(old(docs), user)
    {
      docs := RemoveFirstRecord(docs, user);
      reply := Success(OK, ALL_DELETED);
    }
  }

  /** After a single removal the record no longer lists the dish, and lists every other dish as often as before. */
  lemma RemoveOneRemovesEvery(f: Favorite, dishId: Id, other: Id)
    requires other != dishId
    ensures dishId !in Pull(f.dishes, dishId)
    ensures multiset(Pull(f.dishes, dishId))[other] == multiset(f.dishes)[other]
  {
    PullSpec(f.dishes, dishId);
  }

  /** A single add never lists a dish twice in a record that listed no dish twice. */
  lemma AddOneKeepsNoDup(f: Favorite, dishId: Id)
    requires NoDup(f.dishes) && dishId !in f.dishes
    ensures NoDup(f.dishes + [dishId])
  {
  }
}
