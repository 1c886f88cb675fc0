/** The recipe record and the operations the handlers perform on the Mongo
    "recipes" collection, which is modelled as the sequence of its documents
    in the collection's natural iteration order. */
module Recipes {

  /** A Mongo ObjectID, abstracted to a number. The generator hands out
      positive ids; 0 stands for the nil ObjectID that `ObjectIDFromHex`
      returns (its error discarded) when the path parameter is not valid hex. */
  type ObjectId = nat

  const NilObjectId: ObjectId := 0

  /** The client-supplied part of a recipe: what a request body binds to,
      and what an update's `$set` overwrites. */
  datatype Fields = Fields(name: string, tags: seq<string>, ingredients: seq<string>, instructions: seq<string>)

  /** `models.Recipe`; `publishedAt` is in integer seconds. */
  datatype Recipe = Recipe(
    id: ObjectId,
    name: string,
    tags: seq<string>,
    ingredients: seq<string>,
    instructions: seq<string>,
    publishedAt: int)

  /** A recipe built from a bound request, with the server-assigned id and
      publication time that overwrite whatever the client sent. */
  function Stamp(id: ObjectId, f: Fields, now: int): Recipe
  {
    Recipe(id, f.name, f.tags, f.ingredients, f.instructions, now)
  }

  /** The four fields an update's `$set` writes. */
  predicate HasFields(r: Recipe, f: Fields)
  {
    r.name == f.name && r.tags == f.tags && r.ingredients == f.ingredients && r.instructions == f.instructions
  }

  predicate UniqueIds(s: seq<Recipe>)
  {
    forall i, j :: 0 <= i < j < |s| ==> s[i].id != s[j].id
  }

  /** Every id in the collection was handed out by a generator whose next id is `next`. */
  predicate IdsBelow(s: seq<Recipe>, next: ObjectId)
  {
    forall i :: 0 <= i < |s| ==> 0 < s[i].id < next
  }

  predicate HasId(s: seq<Recipe>, id: ObjectId)
  {
    exists i :: 0 <= i < |s| && s[i].id == id
  }

  /** The position of the document a filter `{"_id": id}` selects first, or -1. */
  function IndexOf(s: seq<Recipe>, id: ObjectId): (k: int)
    ensures -1 <= k < |s|
    ensures 0 <= k ==> s[k].id == id
    ensures forall j :: 0 <= j < |s| && (k < 0 || j < k) ==> s[j].id != id
    ensures k < 0 <==> !HasId(s, id)
  {
    if s == [] then -1
    else if s[0].id == id then 0
    else
      var k := IndexOf(s[1..], id);
      if k < 0 then -1 else k + 1
  }

  /** `UpdateOne({"_id": id}, {"$set": {name, instructions, ingredients, tags}})`:
      the first matching document gets the four fields; a filter that matches
      nothing is not an error and changes nothing. */
  function UpdateFirst(s: seq<Recipe>, id: ObjectId, f: Fields): (t: seq<Recipe>)
    ensures |t| == |s|
    ensures forall j :: 0 <= j < |s| ==> t[j].id == s[j].id && t[j].publishedAt == s[j].publishedAt
    ensures forall j :: 0 <= j < |s| && s[j].id != id ==> t[j] == s[j]
    ensures UniqueIds(s) ==> forall j :: 0 <= j < |s| && s[j].id == id ==> HasFields(t[j], f)
    ensures UniqueIds(s) ==> UniqueIds(t)
    ensures !HasId(s, id) ==> t == s
  {
    var k := IndexOf(s, id);
    if k < 0 then s
    else s[k := s[k].(name := f.name, tags := f.tags, ingredients := f.ingredients, instructions := f.instructions)]
  }

  /** `DeleteOne({"_id": id})`: the first matching document is removed and the
      others keep their order; a filter that matches nothing changes nothing. */
  function RemoveFirst(s: seq<Recipe>, id: ObjectId): (t: seq<Recipe>)
    ensures |t| == if HasId(s, id) then |s| - 1 else |s|
    ensures !HasId(s, id) ==> t == s
    ensures multiset(t) <= multiset(s)
    ensures HasId(s, id) ==> exists k :: 0 <= k < |s| && s[k].id == id && t == s[..k] + s[k + 1..]
    ensures UniqueIds(s) ==> UniqueIds(t) && forall r :: r in t <==> r in s && r.id != id
  {
    var k := IndexOf(s, id);
    if k < 0 then s
    else
      RemoveAtShrinks(s, k);
      if UniqueIds(s) then
        RemoveAtUnique(s, k);
        s[..k] + s[k + 1..]
      else
        s[..k] + s[k + 1..]
  }

  /** Dropping the document at one position only removes. */
  lemma RemoveAtShrinks(s: seq<Recipe>, k: nat)
    requires k < |s|
    ensures multiset(s[..k] + s[k + 1..]) + multiset{s[k]} == multiset(s)
  {
    assert s == s[..k] + [s[k]] + s[k + 1..];
  }

  /** With unique ids, dropping the document at one position keeps ids unique
      and removes exactly the documents with its id. */
  lemma RemoveAtUnique(s: seq<Recipe>, k: nat)
    requires k < |s| && UniqueIds(s)
    ensures UniqueIds(s[..k] + s[k + 1..])
    ensures forall r :: r in s[..k] + s[k + 1..] ==> r.id != s[k].id
  {
    var t := s[..k] + s[k + 1..];
    forall i, j | 0 <= i < j < |t| ensures t[i].id != t[j].id {
      var i' := if i < k then i else i + 1;
      var j' := if j < k then j else j + 1;
      assert t[i] == s[i'] && t[j] == s[j'];
    }
    forall r | r in t ensures r.id != s[k].id {
      var i :| 0 <= i < |t| && t[i] == r;
      var i' := if i < k then i else i + 1;
      assert t[i] == s[i'];
    }
  }

  /** A delete changes the collection exactly when some document has the id. */
  lemma RemoveFirstChanges(s: seq<Recipe>, id: ObjectId)
    ensures RemoveFirst(s, id) == s <==> !HasId(s, id)
  {
    if RemoveFirst(s, id) == s {
      assert |RemoveFirst(s, id)| == |s|;
    }
  }

  /** Appending a document with a freshly generated id keeps ids unique and
      below the advanced generator. */
  lemma AppendFresh(s: seq<Recipe>, r: Recipe, next: ObjectId)
    requires UniqueIds(s) && IdsBelow(s, next) && r.id == next && 0 < next
    ensures UniqueIds(s + [r]) && IdsBelow(s + [r], next + 1) && !HasId(s, r.id)
  {
  }

  /** The nil id that a malformed path parameter turns into never matches a
      generated id, so an update or delete with it leaves the collection as it is. */
  lemma NilIdMatchesNothing(s: seq<Recipe>, next: ObjectId, f: Fields)
    requires IdsBelow(s, next)
    ensures UpdateFirst(s, NilObjectId, f) == s && RemoveFirst(s, NilObjectId) == s
  {
  }

  /** The `for cur.Next(ctx) { ...; recipes = append(recipes, recipe) }` loop
      over a cursor of `docs`: it yields every document, in iteration order. */
  method ReadAll(docs: seq<Recipe>) returns (recipes: seq<Recipe>)
    ensures recipes == docs
  {
    recipes := [];
    var i := 0;
    while i < |docs|
      invariant 0 <= i <= |docs|
      invariant recipes == docs[..i]
    {
      recipes := recipes + [docs[i]];
      i := i + 1;
    }
  }
}
