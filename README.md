# gorestaurant Dashboard — a Dafny model

The Dashboard page of gorestaurant lists food plates (name, image, price,
description, availability) and lets the user add, edit and delete them
against a REST backend. Its logic is the state it keeps — the ordered list of
plates `foods`, the plate chosen for editing `editingFood`, and the two flags
`modalOpen` and `editModalOpen` — and the handlers that change that state.

The model has two modules:

- `FoodPlates` (`food_plates.dfy`): the `FoodPlate` record, the draft the add
  form sends, and the two list transformations the handlers apply, written as
  pure functions over `seq<FoodPlate>`: `ReplaceById` (the `map` that
  replaces by id on update) and `RemoveById` (the `filter` that drops by id on
  delete). Lemmas state what they do to the list: positions kept, whole-record
  replacement, order-preserving removal, behaviour on an absent id,
  idempotence, the effect on the length, and corollaries for lists whose ids
  are unique (which the page itself does not enforce).
- `DashboardPage` (`dashboard.dfy`): the class `Dashboard` with the four state
  fields; one method per handler, each an atomic transition whose
  postcondition gives the whole new state in terms of the old one. HTTP
  responses are parameters: the fetched list and the created plate are
  `Option` values, `None` standing for a rejected request. A client method
  shows that each toggle undoes itself, and `Session` walks through loading,
  adding, deleting, selecting and updating plates with the expected lists
  asserted at each step.

Three behaviours of the page that are easy to misread:

- Ids are not kept unique by the page. An update replaces every plate with the
  matching id and a delete removes every such plate. Deleting shrinks the
  list by exactly the number of plates that carry the id (`RemoveLength`);
  when ids are unique, deleting the id of a plate in the list removes exactly
  that plate (`RemoveUnique`).
- Choosing a plate for editing toggles the edit modal rather than opening it.
- A failed load leaves the list as it was (it is empty only because the load
  runs on mount).

## Model

| member | source | states |
|---|---|---|
| `FoodPlates.ReplaceById` | src/pages/Dashboard/index.tsx:53-61 | an update keeps the list's length |
| `FoodPlates.ReplaceByIdIsMap` | src/pages/Dashboard/index.tsx:54-60 | the update's result is, position by position, the record given when the plate's id matches and the old plate otherwise (the whole `map` in one statement) |
| `FoodPlates.ReplaceKeepsOthers` | src/pages/Dashboard/index.tsx:54-59 | a plate whose id differs from the updated one stays unchanged at its position |
| `FoodPlates.ReplaceWholeRecord` | src/pages/Dashboard/index.tsx:55-57 | a plate whose id equals the updated one becomes exactly the updated record (whole replacement, no field merge) |
| `FoodPlates.ReplaceAbsent` | src/pages/Dashboard/index.tsx:53-61 | updating an id that no plate carries leaves the list unchanged |
| `FoodPlates.ReplaceKeepsIds` | src/pages/Dashboard/index.tsx:54-60 | the id at every position is the same after an update |
| `FoodPlates.ReplaceKeepsUnique` | src/pages/Dashboard/index.tsx:53-61 | an update keeps unique ids unique |
| `FoodPlates.ReplaceIdempotent` | src/pages/Dashboard/index.tsx:53-61 | updating twice with the same record equals updating once |
| `FoodPlates.ReplaceUnique` | src/pages/Dashboard/index.tsx:53-61 | with unique ids, updating a present plate at position k is the list with only position k replaced |
| `FoodPlates.RemoveById` | src/pages/Dashboard/index.tsx:67 | after a delete no plate carries the id, and every remaining plate came from the old list |
| `FoodPlates.RemoveKeepsOrder` | src/pages/Dashboard/index.tsx:67 | the remaining plates are a subsequence of the old list (relative order kept) |
| `FoodPlates.RemoveKeepsOthers` | src/pages/Dashboard/index.tsx:67 | every plate with another id is kept as many times as it occurred |
| `FoodPlates.RemoveLength` | src/pages/Dashboard/index.tsx:67 | the list shrinks by exactly the number of plates that carried the id |
| `FoodPlates.RemoveAbsent` | src/pages/Dashboard/index.tsx:67 | deleting an id that no plate carries leaves the list unchanged |
| `FoodPlates.RemoveIdempotent` | src/pages/Dashboard/index.tsx:67 | deleting the same id twice equals deleting it once |
| `FoodPlates.RemoveKeepsUnique` | src/pages/Dashboard/index.tsx:67 | a delete keeps unique ids unique |
| `FoodPlates.RemoveUnique` | src/pages/Dashboard/index.tsx:67 | with unique ids, deleting the id of position k removes exactly position k |
| `FoodPlates.RemoveSplit` | src/pages/Dashboard/index.tsx:67 | deleting from a concatenation deletes from each part |
| `FoodPlates.AppendKeepsUnique` | src/pages/Dashboard/index.tsx:42 | appending keeps ids unique if and only if the appended id is new |
| `FoodPlates.RemoveUndoesAppend` | src/pages/Dashboard/index.tsx:64-67 | deleting the id of a plate just appended under a new id gives back the list before the append |
| `FoodPlates.CountId` | src/pages/Dashboard/index.tsx:67 | helper measure for the delete (used by `RemoveLength` and `DeleteFood`), counting the plates the filter drops: the count is at most the list's length, and zero exactly when no plate carries the id |
| `DashboardPage.Dashboard.constructor` | src/pages/Dashboard/index.tsx:22-25 | the page starts with no plates, no plate selected, both modals closed |
| `DashboardPage.Dashboard.LoadFoods` | src/pages/Dashboard/index.tsx:27-35 | a fetched list replaces the plates wholesale; a failed request changes nothing; nothing else changes |
| `DashboardPage.Dashboard.AddFood` | src/pages/Dashboard/index.tsx:37-48 | on success the old list followed by exactly the server's plate (length + 1, prefix unchanged); on failure the list is unchanged; as a corollary, a server echo of the draft is the last plate; ids stay unique iff the new id is fresh; flags and selection unchanged |
| `DashboardPage.Dashboard.UpdateFood` | src/pages/Dashboard/index.tsx:50-62 | the list becomes its replace-by-id image, unique ids stay unique, nothing else changes |
| `DashboardPage.Dashboard.DeleteFood` | src/pages/Dashboard/index.tsx:64-68 | the list becomes its remove-by-id image, shorter by the count of that id, unique ids stay unique, nothing else changes |
| `DashboardPage.Dashboard.ToggleModal` | src/pages/Dashboard/index.tsx:70-72 | flips the add-modal flag; list, selection and edit flag unchanged |
| `DashboardPage.Dashboard.ToggleEditModal` | src/pages/Dashboard/index.tsx:74-76 | flips the edit-modal flag; list, selection and add flag unchanged |
| `DashboardPage.Dashboard.EditFood` | src/pages/Dashboard/index.tsx:78-84 | flips (does not force open) the edit-modal flag and records the chosen plate; list and add flag unchanged |
| `DashboardPage.TogglesAreInvolutions` | src/pages/Dashboard/index.tsx:70-76 | toggling either modal twice restores the whole state |

## Left out

- The HTTP calls (`api.get`, `api.post`, `api.put`, `api.delete`): the network client's code is not part of this model; their results are method parameters, and the requests sent by update and delete have no effect on the modelled state.
- Timing: update and delete do not wait for their request, and a load or add may complete at any later moment; each handler is modelled as one atomic transition.
- React machinery: `useState` batching, `useEffect`, `useCallback` dependency lists, and the read of `editModalOpen` from the render's closure in `toggleEditModal`; the model flips the current value.
- Rendering: the JSX, the `foods &&` guard before rendering the list, the `Header`, `ModalAddFood`, `ModalEditFood` and `Food` components and the styles.
- The error log of a failed add and the unhandled rejection of a failed load: beyond leaving the state unchanged they have no effect on it.
- Ids are JavaScript numbers; the model uses mathematical integers, so fractional ids and NaN are not modelled. Prices are strings and no arithmetic is done on them.
- The initial `editingFood` is an empty object cast to a plate; the model represents it as `None`.
