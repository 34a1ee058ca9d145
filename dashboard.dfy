/**
  The state of the Dashboard page: the list of plates, the plate chosen for
  editing, and the open/closed flags of the add and edit modals. Each handler
  of the page is one method that changes this state atomically. The results of
  the HTTP calls the handlers make are parameters.
 */
module DashboardPage {
  import opened FoodPlates

  class Dashboard {
    var foods: seq<FoodPlate>
    /** None until a plate is chosen for editing (the page starts with an empty object). */
    var editingFood: Option<FoodPlate>
    var modalOpen: bool
    var editModalOpen: bool

    /** The page starts with no plates and both modals closed. */
    constructor ()
      ensures foods == [] && editingFood == None
      ensures !modalOpen && !editModalOpen
    {
      foods := [];
      editingFood := None;
      modalOpen := false;
      editModalOpen := false;
    }

    /**
      The load on mount: a fetched list replaces the plates wholesale; a failed
      request (None) leaves the state as it was.
     */
    method LoadFoods(response: Option<seq<FoodPlate>>)
      modifies this
      ensures foods == (if response.Some? then response.value else old(foods))
      ensures editingFood == old(editingFood)
      ensures modalOpen == old(modalOpen) && editModalOpen == old(editModalOpen)
    {
      if response.Some? {
        foods := response.value;
      }
    }

    /**
      Adding a plate: on success (Some) the plate the server created is
      appended; on failure the list is unchanged. The draft sent to the server
      does not enter the list itself: what is appended is the server's record.
     */
    method AddFood(draft: Draft, response: Option<FoodPlate>)
      modifies this
      ensures response.Some? ==>
        |foods| == |old(foods)| + 1 && foods[..|old(foods)|] == old(foods) &&
        foods[|old(foods)|] == response.value
      ensures response.None? ==> foods == old(foods)
      // corollary of the clause above: a server that echoes the draft puts it last
      ensures response.Some? && Echoes(draft, response.value) ==> Echoes(draft, foods[|foods| - 1])
      ensures response.Some? ==>
        (UniqueIds(foods) <==> UniqueIds(old(foods)) && !HasId(old(foods), response.value.id))
      ensures editingFood == old(editingFood)
      ensures modalOpen == old(modalOpen) && editModalOpen == old(editModalOpen)
    {
      if response.Some? {
        AppendKeepsUnique(foods, response.value);
        foods := foods + [response.value];
      }
    }

    /** Updating a plate replaces, by id, every plate with that id. */
    method UpdateFood(updatedFood: FoodPlate)
      modifies this
      ensures foods == ReplaceById(old(foods), updatedFood)
      ensures UniqueIds(old(foods)) ==> UniqueIds(foods)
      ensures editingFood == old(editingFood)
      ensures modalOpen == old(modalOpen) && editModalOpen == old(editModalOpen)
    {
      if UniqueIds(foods) {
        ReplaceKeepsUnique(foods, updatedFood);
      }
      foods := ReplaceById(foods, updatedFood);
    }

    /** Deleting a plate removes, by id, every plate with that id. */
    method DeleteFood(id: int)
      modifies this
      ensures foods == RemoveById(old(foods), id)
      ensures |foods| == |old(foods)| - CountId(old(foods), id)
      ensures UniqueIds(old(foods)) ==> UniqueIds(foods)
      ensures editingFood == old(editingFood)
      ensures modalOpen == old(modalOpen) && editModalOpen == old(editModalOpen)
    {
      RemoveLength(foods, id);
      if UniqueIds(foods) {
        RemoveKeepsUnique(foods, id);
      }
      foods := RemoveById(foods, id);
    }

    /** Opening or closing the add modal. */
    method ToggleModal()
      modifies this
      ensures modalOpen == !old(modalOpen)
      ensures foods == old(foods) && editingFood == old(editingFood)
      ensures editModalOpen == old(editModalOpen)
    {
      modalOpen := !modalOpen;
    }

    /** Opening or closing the edit modal. */
    method ToggleEditModal()
      modifies this
      ensures editModalOpen == !old(editModalOpen)
      ensures foods == old(foods) && editingFood == old(editingFood)
      ensures modalOpen == old(modalOpen)
    {
      editModalOpen := !editModalOpen;
    }

    /**
      Choosing a plate for editing: toggles the edit modal (it does not force
      it open) and remembers the plate.
     */
    method EditFood(food: FoodPlate)
      modifies this
      ensures editModalOpen == !old(editModalOpen)
      ensures editingFood == Some(food)
      ensures foods == old(foods) && modalOpen == old(modalOpen)
    {
      ToggleEditModal();
      editingFood := Some(food);
    }
  }

  /** Each toggle undoes itself: toggling twice restores the whole state. */
  method TogglesAreInvolutions(d: Dashboard)
    modifies d
    ensures d.modalOpen == old(d.modalOpen) && d.editModalOpen == old(d.editModalOpen)
    ensures d.foods == old(d.foods) && d.editingFood == old(d.editingFood)
  {
    d.ToggleModal();
    d.ToggleModal();
    d.ToggleEditModal();
    d.ToggleEditModal();
  }

  /**
    A session on the page: load one plate, add a second one, delete the first,
    edit the second and save it unavailable.
   */
  method Session()
  {
    var ravioli := FoodPlate(1, "Ravioli", "ravioli.png", "19.90", "Ravioli with sauce", true);
    var pizza := FoodPlate(2, "Pizza", "x", "25.00", "y", true);
    var d := new Dashboard();
    d.LoadFoods(Some([ravioli]));
    assert d.foods == [ravioli];
    d.AddFood(Draft("Pizza", "x", "25.00", "y"), Some(pizza));
    assert d.foods == [ravioli, pizza];
    d.DeleteFood(1);
    assert d.foods == [pizza];
    d.EditFood(pizza);
    assert d.editModalOpen && d.editingFood == Some(pizza);
    var soldOut := pizza.(available := false);
    d.UpdateFood(soldOut);
    assert d.foods == [soldOut];
    d.AddFood(Draft("Soup", "s", "9.00", "hot"), None);
    assert d.foods == [soldOut] && !d.modalOpen;
  }
}
