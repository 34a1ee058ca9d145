/**
  The food-plate record of the dashboard page and the pure list transformations
  its handlers apply to the list of plates: replace-by-id (the `map` of
  handleUpdateFood) and remove-by-id (the `filter` of handleDeleteFood), with
  the lemmas that say what each does to the list.
 */
module FoodPlates {

  /** The conventional optional value: a response that may be missing. */
  datatype Option<T> = None | Some(value: T)

  /** A menu item. `id` is assigned by the backend; `price` is a display string. */
  datatype FoodPlate = FoodPlate(
    id: int,
    name: string,
    image: string,
    price: string,
    description: string,
    available: bool)

  /** What the add-food form sends: a plate without `id` and `available`. */
  datatype Draft = Draft(name: string, image: string, price: string, description: string)

  /** The server returned a plate whose displayed fields are those of the draft. */
  predicate Echoes(draft: Draft, plate: FoodPlate)
  {
    plate.name == draft.name && plate.image == draft.image &&
    plate.price == draft.price && plate.description == draft.description
  }

  /** No two plates of the list share an id. The page does not enforce this. */
  ghost predicate UniqueIds(foods: seq<FoodPlate>)
  {
    forall i, j :: 0 <= i < j < |foods| ==> foods[i].id != foods[j].id
  }

  /** Some plate of the list carries `id`. */
  ghost predicate HasId(foods: seq<FoodPlate>, id: int)
  {
    exists i :: 0 <= i < |foods| && foods[i].id == id
  }

  /** How many plates of the list carry `id`. */
  function CountId(foods: seq<FoodPlate>, id: int): (n: nat)
    ensures n <= |foods|
    ensures n == 0 <==> !HasId(foods, id)
  {
    if foods == [] then 0
    else (if foods[0].id == id then 1 else 0) + CountId(foods[1..], id)
  }

  /** `a` is obtained from `b` by deleting some elements, the rest in their order. */
  ghost predicate SubsequenceOf<T>(a: seq<T>, b: seq<T>)
    decreases |b|
  {
    if a == [] then true
    else if b == [] then false
    else (a[0] == b[0] && SubsequenceOf(a[1..], b[1..])) || SubsequenceOf(a, b[1..])
  }

  // ---------------------------------------------------------------------------
  // Replace by id: every plate whose id is that of `updated` becomes `updated`.
  // ---------------------------------------------------------------------------

  function ReplaceById(foods: seq<FoodPlate>, updated: FoodPlate): (r: seq<FoodPlate>)
    ensures |r| == |foods|
  {
    if foods == [] then []
    else [if foods[0].id == updated.id then updated else foods[0]] + ReplaceById(foods[1..], updated)
  }

  /** Plates with another id stay, unchanged, at their position. */
  lemma {:induction false} ReplaceKeepsOthers(foods: seq<FoodPlate>, updated: FoodPlate, i: int)
    requires 0 <= i < |foods| && foods[i].id != updated.id
    ensures ReplaceById(foods, updated)[i] == foods[i]
  {
    if i > 0 {
      ReplaceKeepsOthers(foods[1..], updated, i - 1);
    }
  }

  /** A plate with the updated id is replaced by the whole new record, not merged with it. */
  lemma {:induction false} ReplaceWholeRecord(foods: seq<FoodPlate>, updated: FoodPlate, i: int)
    requires 0 <= i < |foods| && foods[i].id == updated.id
    ensures ReplaceById(foods, updated)[i] == updated
  {
    if i > 0 {
      ReplaceWholeRecord(foods[1..], updated, i - 1);
    }
  }

  /** Updating an id that no plate carries leaves the list as it was. */
  lemma {:induction false} ReplaceAbsent(foods: seq<FoodPlate>, updated: FoodPlate)
    requires !HasId(foods, updated.id)
    ensures ReplaceById(foods, updated) == foods
  {
    if foods != [] {
      assert !HasId(foods[1..], updated.id) by {
        forall i | 0 <= i < |foods[1..]| ensures foods[1..][i].id != updated.id {
          assert foods[1..][i] == foods[i + 1];
        }
      }
      ReplaceAbsent(foods[1..], updated);
      assert foods == [foods[0]] + foods[1..];
    }
  }

  /** The whole meaning of the update, position by position: the `map` it models. */
  lemma {:induction false} ReplaceByIdIsMap(foods: seq<FoodPlate>, updated: FoodPlate)
    ensures ReplaceById(foods, updated) ==
      seq(|foods|, i requires 0 <= i < |foods| => if foods[i].id == updated.id then updated else foods[i])
  {
    var r := ReplaceById(foods, updated);
    forall i | 0 <= i < |foods|
      ensures r[i] == (if foods[i].id == updated.id then updated else foods[i])
    {
      if foods[i].id == updated.id {
        ReplaceWholeRecord(foods, updated, i);
      } else {
        ReplaceKeepsOthers(foods, updated, i);
      }
    }
  }

  /** The sequence of ids is unchanged, so in particular unique ids stay unique. */
  lemma ReplaceKeepsIds(foods: seq<FoodPlate>, updated: FoodPlate, i: int)
    requires 0 <= i < |foods|
    ensures ReplaceById(foods, updated)[i].id == foods[i].id
  {
    if foods[i].id == updated.id {
      ReplaceWholeRecord(foods, updated, i);
    } else {
      ReplaceKeepsOthers(foods, updated, i);
    }
  }

  lemma ReplaceKeepsUnique(foods: seq<FoodPlate>, updated: FoodPlate)
    requires UniqueIds(foods)
    ensures UniqueIds(ReplaceById(foods, updated))
  {
    var r := ReplaceById(foods, updated);
    forall i, j | 0 <= i < j < |r| ensures r[i].id != r[j].id {
      ReplaceKeepsIds(foods, updated, i);
      ReplaceKeepsIds(foods, updated, j);
    }
  }

  /** Updating twice with the same record is the same as updating once. */
  lemma {:induction false} ReplaceIdempotent(foods: seq<FoodPlate>, updated: FoodPlate)
    ensures ReplaceById(ReplaceById(foods, updated), updated) == ReplaceById(foods, updated)
  {
    var r := ReplaceById(foods, updated);
    var rr := ReplaceById(r, updated);
    forall i | 0 <= i < |foods| ensures rr[i] == r[i] {
      if foods[i].id == updated.id {
        ReplaceWholeRecord(foods, updated, i);
        ReplaceWholeRecord(r, updated, i);
      } else {
        ReplaceKeepsOthers(foods, updated, i);
        ReplaceKeepsOthers(r, updated, i);
      }
    }
  }

  /** With unique ids, updating a present plate replaces exactly that one position. */
  lemma ReplaceUnique(foods: seq<FoodPlate>, updated: FoodPlate, k: int)
    requires UniqueIds(foods)
    requires 0 <= k < |foods| && foods[k].id == updated.id
    ensures ReplaceById(foods, updated) == foods[k := updated]
  {
    var r := ReplaceById(foods, updated);
    forall i | 0 <= i < |foods| ensures r[i] == foods[k := updated][i] {
      if i == k {
        ReplaceWholeRecord(foods, updated, i);
      } else {
        assert foods[i].id != foods[k].id;
        ReplaceKeepsOthers(foods, updated, i);
      }
    }
  }

  // ---------------------------------------------------------------------------
  // Remove by id: keep exactly the plates whose id differs from `id`.
  // ---------------------------------------------------------------------------

  function RemoveById(foods: seq<FoodPlate>, id: int): (r: seq<FoodPlate>)
    ensures |r| <= |foods|
    ensures forall x :: x in r ==> x in foods && x.id != id
  {
    if foods == [] then []
    else if foods[0].id != id then [foods[0]] + RemoveById(foods[1..], id)
    else RemoveById(foods[1..], id)
  }

  /** The remaining plates keep their original relative order. */
  lemma {:induction false} RemoveKeepsOrder(foods: seq<FoodPlate>, id: int)
    ensures SubsequenceOf(RemoveById(foods, id), foods)
  {
    if foods != [] {
      var rest := RemoveById(foods[1..], id);
      RemoveKeepsOrder(foods[1..], id);
      if foods[0].id != id {
        var r := [foods[0]] + rest;
        assert r[1..] == rest;
      } else {
        assert SubsequenceOf(rest, foods);
      }
    }
  }

  /** Every plate with another id is kept, as often as it occurred before. */
  lemma {:induction false} RemoveKeepsOthers(foods: seq<FoodPlate>, id: int, x: FoodPlate)
    requires x.id != id
    ensures multiset(RemoveById(foods, id))[x] == multiset(foods)[x]
  {
    if foods != [] {
      RemoveKeepsOthers(foods[1..], id, x);
      assert foods == [foods[0]] + foods[1..];
    }
  }

  /** The list shrinks by exactly the number of plates that carried the id. */
  lemma {:induction false} RemoveLength(foods: seq<FoodPlate>, id: int)
    ensures |RemoveById(foods, id)| + CountId(foods, id) == |foods|
  {
    if foods != [] {
      RemoveLength(foods[1..], id);
    }
  }

  /** Deleting an id that no plate carries leaves the list as it was. */
  lemma {:induction false} RemoveAbsent(foods: seq<FoodPlate>, id: int)
    requires !HasId(foods, id)
    ensures RemoveById(foods, id) == foods
  {
    if foods != [] {
      assert !HasId(foods[1..], id) by {
        forall i | 0 <= i < |foods[1..]| ensures foods[1..][i].id != id {
          assert foods[1..][i] == foods[i + 1];
        }
      }
      RemoveAbsent(foods[1..], id);
      assert foods == [foods[0]] + foods[1..];
    }
  }

  /** Deleting the same id twice gives the same list as deleting it once. */
  lemma {:induction false} RemoveIdempotent(foods: seq<FoodPlate>, id: int)
    ensures RemoveById(RemoveById(foods, id), id) == RemoveById(foods, id)
  {
    var r := RemoveById(foods, id);
    assert !HasId(r, id) by {
      forall i | 0 <= i < |r| ensures r[i].id != id {
        assert r[i] in r;
      }
    }
    RemoveAbsent(r, id);
  }

  /** Removing plates cannot make two ids clash. */
  lemma {:induction false} RemoveKeepsUnique(foods: seq<FoodPlate>, id: int)
    requires UniqueIds(foods)
    ensures UniqueIds(RemoveById(foods, id))
  {
    if foods != [] {
      var tail := foods[1..];
      assert UniqueIds(tail) by {
        forall i, j | 0 <= i < j < |tail| ensures tail[i].id != tail[j].id {
          assert tail[i] == foods[i + 1] && tail[j] == foods[j + 1];
        }
      }
      RemoveKeepsUnique(tail, id);
      var rest := RemoveById(tail, id);
      if foods[0].id != id {
        var r := [foods[0]] + rest;
        forall j | 1 <= j < |r| ensures r[0].id != r[j].id {
          assert r[j] == rest[j - 1];
          assert rest[j - 1] in tail;
          var k :| 0 <= k < |tail| && tail[k] == rest[j - 1];
          assert foods[k + 1] == tail[k];
        }
      }
    }
  }

  /** With unique ids, deleting a present plate removes exactly that one position. */
  lemma {:induction false} RemoveUnique(foods: seq<FoodPlate>, k: int)
    requires UniqueIds(foods)
    requires 0 <= k < |foods|
    ensures RemoveById(foods, foods[k].id) == foods[..k] + foods[k + 1..]
  {
    var id := foods[k].id;
    var tail := foods[1..];
    if k == 0 {
      assert !HasId(tail, id) by {
        forall i | 0 <= i < |tail| ensures tail[i].id != id {
          assert tail[i] == foods[i + 1];
        }
      }
      RemoveAbsent(tail, id);
    } else {
      assert UniqueIds(tail) by {
        forall i, j | 0 <= i < j < |tail| ensures tail[i].id != tail[j].id {
          assert tail[i] == foods[i + 1] && tail[j] == foods[j + 1];
        }
      }
      assert tail[k - 1] == foods[k];
      RemoveUnique(tail, k - 1);
      assert foods[0].id != id;
      assert foods[..k] == [foods[0]] + tail[..k - 1];
      assert foods[k + 1..] == tail[k..];
    }
  }

  // ---------------------------------------------------------------------------
  // Append, and how it interacts with the other two.
  // ---------------------------------------------------------------------------

  /** Appending keeps ids unique exactly when the appended id is new. */
  lemma AppendKeepsUnique(foods: seq<FoodPlate>, created: FoodPlate)
    ensures UniqueIds(foods + [created]) <==> UniqueIds(foods) && !HasId(foods, created.id)
  {
    var r := foods + [created];
    if UniqueIds(r) {
      forall i | 0 <= i < |foods| ensures foods[i].id != created.id {
        assert r[i] == foods[i] && r[|foods|] == created;
      }
      forall i, j | 0 <= i < j < |foods| ensures foods[i].id != foods[j].id {
        assert r[i] == foods[i] && r[j] == foods[j];
      }
    }
  }

  /** Deleting a plate just appended under a new id undoes the append. */
  lemma RemoveUndoesAppend(foods: seq<FoodPlate>, created: FoodPlate)
    requires !HasId(foods, created.id)
    ensures RemoveById(foods + [created], created.id) == foods
  {
    RemoveSplit(foods, [created], created.id);
    RemoveAbsent(foods, created.id);
  }

  /** Removing from a concatenation removes from each part. */
  lemma {:induction false} RemoveSplit(a: seq<FoodPlate>, b: seq<FoodPlate>, id: int)
    ensures RemoveById(a + b, id) == RemoveById(a, id) + RemoveById(b, id)
  {
    if a != [] {
      assert (a + b)[1..] == a[1..] + b;
      RemoveSplit(a[1..], b, id);
    } else {
      assert a + b == b;
    }
  }
}
