/** The handlers of main.go, which are the ones its router serves. They talk
    to the Mongo "recipes" collection directly, without a cache. Tag search
    instead scans the package-level `recipes` slice, which no live code
    assigns, so in the running program it is always empty. */
module DemoServer {
  import opened Http
  import opened Recipes

  // ----- tag search -----

  /** `strings.EqualFold`, restricted to ASCII case folding. */
  function FoldAscii(c: char): char
  {
    if 'A' <= c <= 'Z' then (c as int + 32) as char else c
  }

  predicate EqualFold(s: string, t: string)
  {
    |s| == |t| && forall i :: 0 <= i < |s| ==> FoldAscii(s[i]) == FoldAscii(t[i])
  }

  lemma EqualFoldIsEquivalence(s: string, t: string, u: string)
    ensures EqualFold(s, s)
    ensures EqualFold(s, t) ==> EqualFold(t, s)
    ensures EqualFold(s, t) && EqualFold(t, u) ==> EqualFold(s, u)
  {
  }

  /** The recipe has at least one tag equal to `tag` up to case. */
  predicate Matches(r: Recipe, tag: string)
  {
    exists k :: 0 <= k < |r.tags| && EqualFold(r.tags[k], tag)
  }

  /** The recipes of `s` that match `tag`, in their order in `s`. */
  function Filter(s: seq<Recipe>, tag: string): seq<Recipe>
    decreases |s|
  {
    if s == [] then []
    else Filter(s[..|s| - 1], tag) + (if Matches(s[|s| - 1], tag) then [s[|s| - 1]] else [])
  }

  /** Each recipe occurs in the result exactly as often as in the source when
      it matches, and not at all otherwise: a recipe with several matching
      tags is not repeated. */
  lemma {:induction false} FilterCount(s: seq<Recipe>, tag: string, r: Recipe)
    ensures multiset(Filter(s, tag))[r] == if Matches(r, tag) then multiset(s)[r] else 0
    decreases |s|
  {
    if s != [] {
      var init, last := s[..|s| - 1], s[|s| - 1];
      assert s == init + [last];
      FilterCount(init, tag, r);
    }
  }

  lemma FilterMembership(s: seq<Recipe>, tag: string, r: Recipe)
    ensures r in Filter(s, tag) <==> r in s && Matches(r, tag)
  {
    FilterCount(s, tag, r);
  }

  /** The search keeps the relative order of the source slice: searching
      a concatenation concatenates the searches of its parts. */
  lemma {:induction false} FilterAppend(a: seq<Recipe>, b: seq<Recipe>, tag: string)
    ensures Filter(a + b, tag) == Filter(a, tag) + Filter(b, tag)
    decreases |b|
  {
    if b == [] {
      assert a + b == a;
    } else {
      var init, last := b[..|b| - 1], b[|b| - 1];
      FilterAppend(a, init, tag);
      assert (a + b)[..|a + b| - 1] == a + init;
      assert (a + b)[|a + b| - 1] == last;
    }
  }

  /** No match gives the empty list (`make([]Recipe, 0)`, encoded as `[]`). */
  lemma {:induction false} FilterEmpty(s: seq<Recipe>, tag: string)
    ensures Filter(s, tag) == [] <==> forall i :: 0 <= i < |s| ==> !Matches(s[i], tag)
    decreases |s|
  {
    if s != [] {
      FilterEmpty(s[..|s| - 1], tag);
      assert forall i :: 0 <= i < |s| - 1 ==> s[..|s| - 1][i] == s[i];
    }
  }

  /** Queries that differ only in case return the same recipes. */
  lemma {:induction false} SearchIgnoresQueryCase(s: seq<Recipe>, tag1: string, tag2: string)
    requires EqualFold(tag1, tag2)
    ensures Filter(s, tag1) == Filter(s, tag2)
    decreases |s|
  {
    if s != [] {
      SearchIgnoresQueryCase(s[..|s| - 1], tag1, tag2);
      var r := s[|s| - 1];
      forall k | 0 <= k < |r.tags|
        ensures EqualFold(r.tags[k], tag1) <==> EqualFold(r.tags[k], tag2)
      {
        EqualFoldIsEquivalence(r.tags[k], tag1, tag2);
        EqualFoldIsEquivalence(r.tags[k], tag2, tag1);
        EqualFoldIsEquivalence(tag1, tag2, tag2);
      }
    }
  }

  // ----- collection handlers -----

  class Server {
    /** The Mongo collection, in natural iteration order. */
    var collection: seq<Recipe>
    /** The ObjectID generator: the id the next insert receives. */
    var nextId: ObjectId
    /** The package-level `recipes` slice that tag search scans. It starts
        empty and no handler assigns it. */
    var recipes: seq<Recipe>

    ghost predicate Valid()
      reads this
    {
      0 < nextId && IdsBelow(collection, nextId) && UniqueIds(collection)
    }

    constructor (docs: seq<Recipe>, next: ObjectId)
      requires 0 < next && IdsBelow(docs, next) && UniqueIds(docs)
      ensures Valid() && collection == docs && nextId == next && recipes == []
    {
      collection, nextId, recipes := docs, next, [];
    }

    /** `SearchRecipesHandler`: for each recipe, a flag records whether any of
        its tags equals the query up to case; flagged recipes are appended once. */
    method SearchRecipes(tag: string) returns (listOfRecipes: seq<Recipe>)
      ensures listOfRecipes == Filter(recipes, tag)
      ensures forall r :: r in listOfRecipes <==> r in recipes && Matches(r, tag)
      ensures recipes == [] ==> listOfRecipes == []
    {
      listOfRecipes := [];
      var i := 0;
      while i < |recipes|
        invariant 0 <= i <= |recipes|
        invariant listOfRecipes == Filter(recipes[..i], tag)
      {
        var found := false;
        var j := 0;
        while j < |recipes[i].tags|
          invariant 0 <= j <= |recipes[i].tags|
          invariant found <==> exists k :: 0 <= k < j && EqualFold(recipes[i].tags[k], tag)
        {
          if EqualFold(recipes[i].tags[j], tag) {
            found := true;
          }
          j := j + 1;
        }
        if found {
          listOfRecipes := listOfRecipes + [recipes[i]];
        }
        assert recipes[..i + 1][..i] == recipes[..i];
        i := i + 1;
      }
      assert recipes[..i] == recipes;
      forall r {
        FilterMembership(recipes, tag, r);
      }
    }

    /** `ListRecipesHandler`: every document, in iteration order, or a 500
        when `Find` fails. */
    method ListRecipes(findErr: Option<string>) returns (r: Response<seq<Recipe>>)
      ensures findErr.Some? ==> r == Failure(StatusInternalServerError, findErr.value)
      ensures findErr.None? ==> r == Reply(StatusOK, collection)
    {
      if findErr.Some? {
        return Failure(StatusInternalServerError, findErr.value);
      }
      var recipes := ReadAll(collection);
      r := Reply(StatusOK, recipes);
    }

    /** `NewRecipeHandler`: stamps a fresh id and the publication time and inserts. */
    method NewRecipe(input: Outcome<Fields>, now: int, insertErr: Option<string>) returns (r: Response<Recipe>)
      requires Valid()
      modifies this`collection, this`nextId
      ensures Valid()
      ensures input.Err? ==> r == Failure(StatusBadRequest, input.message) && collection == old(collection)
      ensures input.Ok? && insertErr.Some? ==>
                r == Failure(StatusInternalServerError, insertErr.value) && collection == old(collection)
      ensures input.Ok? && insertErr.None? ==>
                && r == Reply(StatusCreated, Stamp(old(nextId), input.value, now))
                && !HasId(old(collection), r.body.id)
                && collection == old(collection) + [r.body]
    {
      if input.Err? {
        return Failure(StatusBadRequest, input.message);
      }
      var recipe := Stamp(nextId, input.value, now);
      nextId := nextId + 1;
      if insertErr.Some? {
        return Failure(StatusInternalServerError, insertErr.value);
      }
      AppendFresh(collection, recipe, recipe.id);
      collection := collection + [recipe];
      r := Reply(StatusCreated, recipe);
    }

    /** `UpdateRecipeHandler`: overwrites name, instructions, ingredients and
        tags of the recipe with the decoded id; replies 200 even when no
        recipe has that id. */
    method UpdateRecipe(id: ObjectId, input: Outcome<Fields>, updateErr: Option<string>) returns (r: Response<string>)
      requires Valid()
      modifies this`collection
      ensures Valid()
      ensures input.Err? ==> r == Failure(StatusBadRequest, input.message) && collection == old(collection)
      ensures input.Ok? && updateErr.Some? ==>
                r == Failure(StatusInternalServerError, updateErr.value) && collection == old(collection)
      ensures input.Ok? && updateErr.None? ==>
                r == Reply(StatusOK, "Recipe updated") && collection == UpdateFirst(old(collection), id, input.value)
    {
      if input.Err? {
        return Failure(StatusBadRequest, input.message);
      }
      if updateErr.Some? {
        return Failure(StatusInternalServerError, updateErr.value);
      }
      collection := UpdateFirst(collection, id, input.value);
      r := Reply(StatusOK, "Recipe updated");
    }
  }

  /** `DeleteRecipeHandler`: its removal code is commented out, so it touches
      no state and reports success for any id. */
  function DeleteRecipe(id: string): (r: Response<string>)
    ensures r.Reply? && r.status == StatusOK
  {
    Reply(StatusOK, "Recipe has been deleted")
  }

  /** `GetRecipeHandler`: its lookup code is commented out, so it answers
      not-found for any id. */
  function GetRecipe(id: string): (r: Response<Recipe>)
    ensures r.Failure? && r.status == StatusNotFound
  {
    Failure(StatusNotFound, "Recipe not found")
  }
}
