/** `RecipesHandler` of handlers/handler.go: a cache-aside coordinator over the
    recipes collection and the single Redis key "recipes".

    The cached JSON array is modelled by the list it encodes (marshalling and
    unmarshalling are taken as exact inverses). Each call into Mongo or Redis
    that can fail is given the error text it returns, `None` meaning success. */
module CacheAside {
  import opened Http
  import opened Recipes

  class RecipesHandler {
    /** The Mongo collection, in natural iteration order. */
    var store: seq<Recipe>
    /** The Redis key "recipes": `None` when the key is absent. */
    var cache: Option<seq<Recipe>>
    /** The ObjectID generator: the id the next insert receives. */
    var nextId: ObjectId

    ghost predicate Valid()
      reads this
    {
      0 < nextId && IdsBelow(store, nextId) && UniqueIds(store)
    }

    /** The cache-aside invariant: a present cache entry is the store's content. */
    predicate Coherent()
      reads this
    {
      cache.Some? ==> cache.value == store
    }

    constructor (docs: seq<Recipe>, cached: Option<seq<Recipe>>, next: ObjectId)
      requires 0 < next && IdsBelow(docs, next) && UniqueIds(docs)
      ensures Valid()
      ensures store == docs && cache == cached && nextId == next
    {
      store, cache, nextId := docs, cached, next;
    }

    /** `ListRecipesHandler`. `getErr` is a Redis error other than `redis.Nil`,
        `findErr` a failure of `Find`, `setOk` whether the repopulating `Set`
        succeeded (its result is ignored by the handler). */
    method ListRecipes(getErr: Option<string>, findErr: Option<string>, setOk: bool)
      returns (r: Response<seq<Recipe>>)
      requires Valid()
      modifies this`cache
      ensures Valid()
      // another cache error fails the call and consults nothing else
      ensures getErr.Some? ==> r == Failure(StatusInternalServerError, getErr.value) && cache == old(cache)
      // a hit is served from the cache without touching the store
      ensures getErr.None? && old(cache).Some? ==> r == Reply(StatusOK, old(cache).value) && cache == old(cache)
      // a miss whose query fails leaves the key absent
      ensures getErr.None? && old(cache).None? && findErr.Some? ==>
                r == Failure(StatusInternalServerError, findErr.value) && cache == None
      // a miss returns the whole store and repopulates the key, with no expiry
      ensures getErr.None? && old(cache).None? && findErr.None? ==>
                r == Reply(StatusOK, store) && cache == (if setOk then Some(store) else None)
      ensures old(Coherent()) ==> Coherent()
      ensures old(Coherent()) && r.Reply? ==> r.body == store
    {
      if getErr.Some? {
        return Failure(StatusInternalServerError, getErr.value);
      }
      match cache
      case Some(cached) =>
        r := Reply(StatusOK, cached);
      case None =>
        if findErr.Some? {
          return Failure(StatusInternalServerError, findErr.value);
        }
        var recipes := ReadAll(store);
        if setOk {
          cache := Some(recipes);
        }
        r := Reply(StatusOK, recipes);
    }

    /** `NewRecipeHandler`: `input` is the bound request body, `now` the clock,
        `insertErr` a failure of `InsertOne`, `delOk` whether `Del("recipes")`
        succeeded (its result is ignored by the handler). */
    method NewRecipe(input: Outcome<Fields>, now: int, insertErr: Option<string>, delOk: bool)
      returns (r: Response<Recipe>)
      requires Valid()
      modifies this
      ensures Valid()
      ensures input.Err? ==>
                r == Failure(StatusBadRequest, input.message) &&
                store == old(store) && cache == old(cache) && nextId == old(nextId)
      ensures input.Ok? && insertErr.Some? ==>
                r == Failure(StatusInternalServerError, insertErr.value) &&
                store == old(store) && cache == old(cache)
      ensures input.Ok? && insertErr.None? ==>
                && r == Reply(StatusCreated, Stamp(old(nextId), input.value, now))
                && !HasId(old(store), r.body.id)
                && store == old(store) + [r.body]
                && cache == (if delOk then None else old(cache))
      ensures r.Reply? && delOk ==> Coherent()
      ensures r.Failure? ==> old(Coherent()) ==> Coherent()
      // a cache entry that survives a failed delete is stale
      ensures r.Reply? && !delOk && old(Coherent()) && old(cache).Some? ==> !Coherent()
    {
      if input.Err? {
        return Failure(StatusBadRequest, input.message);
      }
      var recipe := Stamp(nextId, input.value, now);
      nextId := nextId + 1;
      if insertErr.Some? {
        return Failure(StatusInternalServerError, insertErr.value);
      }
      AppendFresh(store, recipe, recipe.id);
      store := store + [recipe];
      if delOk {
        cache := None;
      }
      assert |store| == |old(store)| + 1;
      r := Reply(StatusCreated, recipe);
    }

    /** `UpdateRecipeHandler` for the recipe whose id the path parameter decodes to. */
    method UpdateRecipe(id: ObjectId, input: Outcome<Fields>, updateErr: Option<string>, delOk: bool)
      returns (r: Response<string>)
      requires Valid()
      modifies this`store, this`cache
      ensures Valid()
      ensures input.Err? ==>
                r == Failure(StatusBadRequest, input.message) && store == old(store) && cache == old(cache)
      ensures input.Ok? && updateErr.Some? ==>
                r == Failure(StatusInternalServerError, updateErr.value) && store == old(store) && cache == old(cache)
      ensures input.Ok? && updateErr.None? ==>
                && r == Reply(StatusOK, "Recipe updated")
                && store == UpdateFirst(old(store), id, input.value)
                && cache == (if delOk then None else old(cache))
      ensures r.Reply? && delOk ==> Coherent()
      ensures r.Failure? ==> old(Coherent()) ==> Coherent()
      // an entry that survives a failed delete stays coherent only if the update changed nothing
      ensures r.Reply? && !delOk && old(Coherent()) && old(cache).Some? ==> (Coherent() <==> store == old(store))
    {
      if input.Err? {
        return Failure(StatusBadRequest, input.message);
      }
      if updateErr.Some? {
        return Failure(StatusInternalServerError, updateErr.value);
      }
      store := UpdateFirst(store, id, input.value);
      if delOk {
        cache := None;
      }
      r := Reply(StatusOK, "Recipe updated");
    }

    /** `DeleteRecipeHandler` for the recipe whose id the path parameter decodes to. */
    method DeleteRecipe(id: ObjectId, deleteErr: Option<string>, delOk: bool)
      returns (r: Response<string>)
      requires Valid()
      modifies this`store, this`cache
      ensures Valid()
      ensures deleteErr.Some? ==>
                r == Failure(StatusInternalServerError, deleteErr.value) && store == old(store) && cache == old(cache)
      ensures deleteErr.None? ==>
                && r == Reply(StatusOK, "Recipe has been deleted")
                && store == RemoveFirst(old(store), id)
                && !HasId(store, id)
                && cache == (if delOk then None else old(cache))
      ensures r.Reply? && delOk ==> Coherent()
      ensures r.Failure? ==> old(Coherent()) ==> Coherent()
      // an entry that survives a failed delete is stale exactly when a recipe was removed
      ensures r.Reply? && !delOk && old(Coherent()) && old(cache).Some? ==> (Coherent() <==> !HasId(old(store), id))
    {
      if deleteErr.Some? {
        return Failure(StatusInternalServerError, deleteErr.value);
      }
      RemoveFirstChanges(store, id);
      store := RemoveFirst(store, id);
      if delOk {
        cache := None;
      }
      r := Reply(StatusOK, "Recipe has been deleted");
    }

    /** `GetOneRecipeHandler`: `findErr` is a failure of the query itself. A
        missing recipe is reported as a server error, not as not-found. */
    function GetOneRecipe(id: ObjectId, findErr: Option<string>): (r: Response<Recipe>)
      reads this
      ensures findErr.Some? ==> r == Failure(StatusInternalServerError, findErr.value)
      ensures findErr.None? ==> (r.Reply? <==> HasId(store, id))
      ensures findErr.None? && !HasId(store, id) ==> r == Failure(StatusInternalServerError, ErrNoDocumentsText)
      ensures r.Reply? ==> r.status == StatusOK && r.body in store && r.body.id == id
    {
      if findErr.Some? then Failure(StatusInternalServerError, findErr.value)
      else
        var k := IndexOf(store, id);
        if k < 0 then Failure(StatusInternalServerError, ErrNoDocumentsText)
        else Reply(StatusOK, store[k])
    }
  }

  /** The read-after-write scenario: a list on an empty cache reads the store
      and fills the key, a second list is a hit with the same payload, a create
      clears the key, and the next list reads the store including the new recipe. */
  method ReadAfterWrite(pasta: Fields, now: int)
  {
    var h := new RecipesHandler([], None, 1);
    var first := h.ListRecipes(None, None, true);
    assert first == Reply(StatusOK, []) && h.cache == Some([]);
    var second := h.ListRecipes(None, None, true);
    assert second == first;
    var created := h.NewRecipe(Ok(pasta), now, None, true);
    assert h.cache == None && h.store == [Stamp(1, pasta, now)];
    var third := h.ListRecipes(None, None, true);
    assert third == Reply(StatusOK, [Stamp(1, pasta, now)]);
    assert h.Coherent();
  }
}
