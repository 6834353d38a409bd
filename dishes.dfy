/**
 * The handlers of src/controllers/DishController.js over an in-memory dish
 * collection (a map from id to dish).  The users collection they consult
 * (`User.findById(req.user.userId)`) is passed in.  Only `commentDish` and
 * `deleteComment` catch errors (answering 500); in the other handlers a
 * thrown error or a rejected `save()` leaves the request without a reply,
 * which the model records as `Unhandled`.
 */
module Dishes {
  import opened Common
  import opened ArrayOps
  import opened DishModel
  import opened Accounts

  const DISH_NOT_FOUND: string := "Dish not found"
  const COMMENT_NOT_FOUND: string := "Comment not found"
  const NOT_OWNER: string := "Forbidden - Insufficient permissions"
  const SERVER_FAILURE: string := "Internal server error"
  const COMMENT_UPDATED: string := "Comment updated"
  const DISH_DELETED: string := "Dish deleted"
  const TYPE_ERROR: string := "TypeError"
  const VALIDATION_ERROR: string := "ValidationError"
  /** The error a unique-index violation (E11000) rejects with. */
  const DUPLICATE_KEY: string := "MongoServerError"

  /** GET /dishes/:dishId. */
  function GetDishById(dishes: map<Id, Dish>, dishId: Id): (r: Reply<Dish>)
    ensures dishId !in dishes ==> r == Failure(NOT_FOUND, DISH_NOT_FOUND)
    ensures dishId in dishes ==> r == Success(OK, dishes[dishId])
  {
    if dishId in dishes then Success(OK, dishes[dishId]) else Failure(NOT_FOUND, DISH_NOT_FOUND)
  }

  /** GET /dishes/:dishId/comments. */
  function GetDishComments(dishes: map<Id, Dish>, dishId: Id): (r: Reply<seq<DishComment>>)
    ensures dishId !in dishes ==> r == Failure(NOT_FOUND, DISH_NOT_FOUND)
    ensures dishId in dishes ==> r == Success(OK, dishes[dishId].comments)
  {
    if dishId in dishes then Success(OK, dishes[dishId].comments) else Failure(NOT_FOUND, DISH_NOT_FOUND)
  }

  /** `dish.comments.id(commentId)`: the first comment with that id. */
  function FindDishComment(comments: seq<DishComment>, commentId: Id): (r: Option<nat>)
    ensures r.Some? ==> r.value < |comments| && comments[r.value].id == commentId
    ensures r.Some? ==> forall k :: 0 <= k < r.value ==> comments[k].id != commentId
    ensures r.None? <==> forall k :: 0 <= k < |comments| ==> comments[k].id != commentId
  {
    FirstWhere(comments, (c: DishComment) => c.id == commentId)
  }

  /** `$pull: { comments: { _id: commentId } }`: every comment with that id goes, the rest keep their order. */
  function PullComment(comments: seq<DishComment>, commentId: Id): (r: seq<DishComment>)
    ensures forall k :: 0 <= k < |r| ==> r[k].id != commentId
  {
    Keep(comments, (c: DishComment) => c.id != commentId)
  }

  /** The pull keeps every comment with another id exactly as often as before. */
  lemma PullCommentKeepsOthers(comments: seq<DishComment>, commentId: Id, c: DishComment)
    requires c.id != commentId
    ensures multiset(PullComment(comments, commentId))[c] == multiset(comments)[c]
  {
    KeepCount(comments, (d: DishComment) => d.id != commentId, c);
  }

  /** No comment with that id: the pull changes nothing. */
  lemma PullAbsentComment(comments: seq<DishComment>, commentId: Id)
    requires FindDishComment(comments, commentId).None?
    ensures PullComment(comments, commentId) == comments
  {
    KeepAll(comments, (d: DishComment) => d.id != commentId);
  }

  /** The dish collection. */
  class DishStore {
    var dishes: map<Id, Dish>

    /** Every stored dish passes its schema, and names are unique. */
    ghost predicate Valid()
      reads this
    {
      (forall id :: id in dishes ==> ValidDish(dishes[id])) && UniqueDishNames(dishes)
    }

    constructor ()
      ensures Valid() && dishes == map[]
    {
      dishes := map[];
    }

    /** The name is free for the dish stored (or to be stored) under `self`. */
    predicate NameFree(self: Id, name: Option<string>)
      reads this
    {
      forall id :: id in dishes && id != self ==> dishes[id].name != name
    }

    /**
     * `createDish`: the defaults are applied, and a dish the schema or the
     * unique name index rejects makes `save()` reject (no reply); otherwise the
     * new dish is stored under the fresh id `newId` and returned.
     */
    method CreateDish(name: Option<string>, image: Option<string>, category: Option<string>, dishLabel: Option<string>,
                      price: Option<int>, featured: Option<bool>, description: Option<string>,
                      comments: seq<DishComment>, newId: Id) returns (reply: Reply<Dish>)
      requires Valid() && newId !in dishes
      modifies this
      ensures Valid()
      ensures var d := NewDish(name, image, category, dishLabel, price, featured, description, comments);
        if !ValidDish(d) then reply == Unhandled(VALIDATION_ERROR) && dishes == old(dishes)
        else if !old(NameFree(newId, name)) then reply == Unhandled(DUPLICATE_KEY) && dishes == old(dishes)
        else reply == Success(OK, d) && dishes == old(dishes)[newId := d]
    {
      var d := NewDish(name, image, category, dishLabel, price, featured, description, comments);
      if !ValidDish(d) {
        return Unhandled(VALIDATION_ERROR);
      }
      if !NameFree(newId, name) {
        return Unhandled(DUPLICATE_KEY);
      }
      dishes := dishes[newId := d];
      reply := Success(OK, d);
    }

    /**
     * `patchDish`: 404 for an unknown dish; otherwise all eight fields are
     * replaced by the body's (an absent one becomes absent: a replacement, not
     * a merge), and a result the schema or the name index rejects makes
     * `save()` reject with the dish unchanged.
     */
    method PatchDish(dishId: Id, body: Dish) returns (reply: Reply<Dish>)
      requires Valid()
      modifies this
      ensures Valid()
      ensures dishId !in old(dishes) ==> reply == Failure(NOT_FOUND, DISH_NOT_FOUND) && dishes == old(dishes)
      ensures dishId in old(dishes) && !ValidDish(body) ==> reply == Unhandled(VALIDATION_ERROR) && dishes == old(dishes)
      ensures dishId in old(dishes) && ValidDish(body) && !old(NameFree(dishId, body.name)) ==>
        reply == Unhandled(DUPLICATE_KEY) && dishes == old(dishes)
      ensures reply.Success? <==> dishId in old(dishes) && ValidDish(body) && old(NameFree(dishId, body.name))
      ensures reply.Success? ==> reply == Success(OK, body) && dishes == old(dishes)[dishId := body]
    {
      if dishId !in dishes {
        return Failure(NOT_FOUND, DISH_NOT_FOUND);
      }
      if !ValidDish(body) {
        return Unhandled(VALIDATION_ERROR);
      }
      if !NameFree(dishId, body.name) {
        return Unhandled(DUPLICATE_KEY);
      }
      dishes := dishes[dishId := body];
      reply := Success(OK, body);
    }

    /** `deleteDish`: the dish is gone afterwards and the reply is "Dish deleted" whether or not it existed. */
    method DeleteDish(dishId: Id) returns (reply: Reply<string>)
      requires Valid()
      modifies this
      ensures Valid()
      ensures reply == Success(OK, DISH_DELETED)
      ensures dishes == old(dishes) - {dishId}
    {
      dishes := dishes - {dishId};
      reply := Success(OK, DISH_DELETED);
    }

    /**
     * `commentDish`: 404 for an unknown dish; a token whose user no longer
     * exists makes `user.username` throw (500).  The author is the caller's
     * username, never a value from the body, the date is the clock's `now`,
     * and the comment is appended at the end; one the schema rejects makes
     * `save()` throw (500).
     */
    method CommentDish(dishId: Id, userId: Option<Id>, users: seq<User>, rating: Option<int>, comment: Option<string>,
                       now: Date, newCommentId: Id) returns (reply: Reply<Dish>)
      requires Valid()
      modifies this
      ensures Valid()
      ensures dishId !in old(dishes) ==> reply == Failure(NOT_FOUND, DISH_NOT_FOUND) && dishes == old(dishes)
      ensures dishId in old(dishes) && FindById(users, userId).None? ==>
        reply == Failure(INTERNAL_ERROR, SERVER_FAILURE) && dishes == old(dishes)
      ensures !reply.Success? ==> dishes == old(dishes)
      ensures dishId in old(dishes) && FindById(users, userId).Some? ==>
        var c := DishComment(newCommentId, rating, comment, users[FindById(users, userId).value].username, now);
        var d := old(dishes)[dishId].(comments := old(dishes)[dishId].comments + [c]);
        if ValidDishComment(c) then reply == Success(CREATED, d) && dishes == old(dishes)[dishId := d]
        else reply == Failure(INTERNAL_ERROR, SERVER_FAILURE)
    {
      if dishId !in dishes {
        return Failure(NOT_FOUND, DISH_NOT_FOUND);
      }
      var u := FindById(users, userId);
      if u.None? {
        return Failure(INTERNAL_ERROR, SERVER_FAILURE);
      }
      var c := DishComment(newCommentId, rating, comment, users[u.value].username, now);
      if !ValidDishComment(c) {
        return Failure(INTERNAL_ERROR, SERVER_FAILURE);
      }
      var d := dishes[dishId].(comments := dishes[dishId].comments + [c]);
      dishes := dishes[dishId := d];
      reply := Success(CREATED, d);
    }

    /**
     * `updateComment`: 404 for an unknown dish.  The ownership test reads
     * `user.username` and `commentToUpdate.author` before the null test, so a
     * missing user or comment throws outside any try/catch and the "Comment not
     * found" reply is never sent.  A caller who is not the author gets 403.
     * The author's rating and comment are overwritten by the body's values,
     * absent ones included, the author field stays, and a result the schema
     * rejects makes `save()` reject with nothing changed.
     */
    method UpdateComment(dishId: Id, commentId: Id, userId: Option<Id>, users: seq<User>,
                         rating: Option<int>, comment: Option<string>) returns (reply: Reply<string>)
      requires Valid()
      modifies this
      ensures Valid()
      ensures reply != Failure(NOT_FOUND, COMMENT_NOT_FOUND)
      ensures !reply.Success? ==> dishes == old(dishes)
      ensures dishId !in old(dishes) ==> reply == Failure(NOT_FOUND, DISH_NOT_FOUND)
      ensures dishId in old(dishes) && (FindById(users, userId).None? || FindDishComment(old(dishes)[dishId].comments, commentId).None?) ==>
        reply == Unhandled(TYPE_ERROR)
      ensures dishId in old(dishes) && FindById(users, userId).Some? && FindDishComment(old(dishes)[dishId].comments, commentId).Some? ==>
        var d := old(dishes)[dishId];
        var i := FindDishComment(d.comments, commentId).value;
        var c := d.comments[i];
        var c' := c.(rating := rating, comment := comment);
        if users[FindById(users, userId).value].username != c.author then reply == Failure(FORBIDDEN, NOT_OWNER)
        else if !ValidDishComment(c') then reply == Unhandled(VALIDATION_ERROR)
        else reply == Success(OK, COMMENT_UPDATED) && dishes == old(dishes)[dishId := d.(comments := d.comments[i := c'])]
    {
      if dishId !in dishes {
        return Failure(NOT_FOUND, DISH_NOT_FOUND);
      }
      var d := dishes[dishId];
      var found := FindDishComment(d.comments, commentId);
      var u := FindById(users, userId);
      if u.None? || found.None? {
        return Unhandled(TYPE_ERROR);
      }
      var c := d.comments[found.value];
      if users[u.value].username != c.author {
        return Failure(FORBIDDEN, NOT_OWNER);
      }
      var c' := c.(rating := rating, comment := comment);
      if !ValidDishComment(c') {
        return Unhandled(VALIDATION_ERROR);
      }
      dishes := dishes[dishId := d.(comments := d.comments[found.value := c'])];
      reply := Success(OK, COMMENT_UPDATED);
    }

    /**
     * `deleteComment`: 404 for an unknown dish; a missing user or comment
     * throws inside the try block (500); a caller who is not the author of the
     * first comment with that id gets 403; otherwise every comment with that id
     * is pulled and the others stay in order.
     */
    method DeleteComment(dishId: Id, commentId: Id, userId: Option<Id>, users: seq<User>) returns (reply: Reply<Dish>)
      requires Valid()
      modifies this
      ensures Valid()
      ensures !reply.Success? ==> dishes == old(dishes)
      ensures dishId !in old(dishes) ==> reply == Failure(NOT_FOUND, DISH_NOT_FOUND)
      ensures dishId in old(dishes) && (FindById(users, userId).None? || FindDishComment(old(dishes)[dishId].comments, commentId).None?) ==>
        reply == Failure(INTERNAL_ERROR, SERVER_FAILURE)
      ensures dishId in old(dishes) && FindById(users, userId).Some? && FindDishComment(old(dishes)[dishId].comments, commentId).Some? ==>
        var d := old(dishes)[dishId];
        var c := d.comments[FindDishComment(d.comments, commentId).value];
        var d' := d.(comments := PullComment(d.comments, commentId));
        if users[FindById(users, userId).value].username != c.author then reply == Failure(FORBIDDEN, NOT_OWNER)
        else reply == Success(OK, d') && dishes == old(dishes)[dishId := d']
    {
      if dishId !in dishes {
        return Failure(NOT_FOUND, DISH_NOT_FOUND);
      }
      var d := dishes[dishId];
      var u := FindById(users, userId);
      var found := FindDishComment(d.comments, commentId);
      if u.None? || found.None? {
        return Failure(INTERNAL_ERROR, SERVER_FAILURE);
      }
      if users[u.value].username != d.comments[found.value].author {
        return Failure(FORBIDDEN, NOT_OWNER);
      }
      var d' := d.(comments := PullComment(d.comments, commentId));
      assert forall k :: 0 <= k < |d'.comments| ==> ValidDishComment(d'.comments[k]) by {
        forall k | 0 <= k < |d'.comments| ensures ValidDishComment(d'.comments[k]) {
          PullCommentMember(d.comments, commentId, k);
        }
      }
      dishes := dishes[dishId := d'];
      reply := Success(OK, d');
    }
  }

  /** Every comment left by a pull was a comment before it. */
  lemma PullCommentMember(comments: seq<DishComment>, commentId: Id, k: nat)
    requires k < |PullComment(comments, commentId)|
    ensures PullComment(comments, commentId)[k] in comments
  {
    var r := PullComment(comments, commentId);
    var c := r[k];
    assert c in multiset(r);
    PullCommentKeepsOthers(comments, commentId, c);
    assert c in multiset(comments);
  }
}
