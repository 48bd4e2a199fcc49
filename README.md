# Workshop order tracker — a Dafny model

This project models the core of a motorcycle-workshop order tracker. The
tracker has two front ends over one order collection:

- a React front end: `App.tsx` plus the `Dashboard`, `ReceptionForm`,
  `OrderManagement` and `Reports` components;
- a vanilla single-page variant, `index.tsx`.

Both keep the whole collection under one `localStorage` key, `motocare_orders`.
Every change overwrites that key.

An order (`Types.Order`) has:

- a six-digit identifier;
- an entry date, and a completion date once completed;
- one of three statuses: Pendiente, En Proceso, Completado;
- one of three operation types: Revisión, Reparación, Garantía;
- owner and motorcycle records;
- an intake checklist mapping labels to checked/unchecked;
- free-text report, observations and technician notes;
- work hours and an estimated cost;
- two intake photos;
- a log of progress photos with notes.

Each file is one module:

| file | models |
|---|---|
| `storage.dfy` | the store and the id generator (`utils/storage.ts`). `LocalStorage` is a class whose `items` map the save/load methods rewrite and read. |
| `order_number.dfy` | the order-number formatter of `script.js`. |
| `catalog.dfy` | the literal tables of `constants.tsx`: the 40-item checklist taxonomy, the status colour/icon tables, the navigation entries. |
| `reception.dfy` | the intake form of `ReceptionForm.tsx`. Each handler is a function from form state to form state. |
| `repository.dfy` | `App.tsx`: the pure collection operations (replace by id, remove by id) and the `OrderRepository` class holding the active tab, `orders` and the store. Its handlers update the state and overwrite the store. |
| `dashboard.dfy` | the dashboard figures: status counts, the per-type tally, the five most recent orders. |
| `reports.dfy` | the month report and its close-rate percentage. |
| `management.dfy` | the management screen: the searched, filtered, newest-first list; the editor's changes to the edited copy; the `ManagementScreen` class with the search, the status selector and the selected order. |
| `vanilla.dfy` | `index.tsx`: its global `state` as the `VanillaApp` class, whose `orders` are appended to and advanced in place; its own list filter; the revenue sum. |
| `text.dfy`, `seqs.dfy`, `wrappers.dfy` | JavaScript string operations on ASCII, generic sequence functions (filter, reverse, last-n) with their lemmas, and `Option`. |

Inputs the program takes from the browser are parameters:

- `Math.random()` is a draw in `[0, 900000)` (`Storage.Draw`);
- `new Date()` is an integer `now`;
- `window.confirm` is a boolean `confirmed`;
- a `FileReader` result is the data-URL string;
- the month window of the report is a pair of bounds.

Behaviour the model follows as written:

- The React update (`App.tsx:39-46`) stores the argument as it is and never stamps a completion date. Neither does the editor's status selector.
- The vanilla advance (`index.tsx:460`) overwrites the completion date every time the new status is Completado. A completed order is restamped.
- The React update replaces every order that carries the id, not one. The vanilla advance changes only the first.
- Removing a progress entry is a filter by position, so an index outside the log removes nothing and raises no error.
- The vanilla intake keeps the plate as typed; only the React form upper-cases it.

## Model

| member | source | states |
|---|---|---|
| Storage.SaveOrders | utils/storage.ts:6-8 | the store after a save is the old store with the one key set to the whole collection |
| Storage.GetOrders | utils/storage.ts:10-13 | a load returns what is stored under the key, or the empty collection |
| Storage.LoadNothingStored | utils/storage.ts:10-13 | with nothing stored, loading gives the empty collection |
| Storage.LoadAfterSave | utils/storage.ts:6-13 | loading right after saving a collection gives that collection back |
| Storage.LastSaveWins | utils/storage.ts:6-8 | a later save completely replaces an earlier one; nothing is merged |
| Storage.SaveKeepsOtherKeys | utils/storage.ts:4-8 | saving touches only the one storage key |
| Storage.GenerateOrderId | utils/storage.ts:15-17 | the id is six decimal digits, the first non-zero, and parses to 100000 plus the draw |
| Storage.GenerateOrderIdInjective | utils/storage.ts:15-17 | different draws give different ids, and equal ids come from equal draws |
| OrderNumber.RandomOrderNumberShape | script.js:2-5 | the order number is six digits with a non-zero first digit, so padding adds nothing; it parses back to the drawn number and equals the storage id for the same draw |
| Catalog.FlatItemsAt | constants.tsx:61 | item j of category c sits at the category's offset plus j in the flattened list |
| Catalog.FlatLength | constants.tsx:61 | the flattened list is as long as all categories together |
| Catalog.ChecklistSizes | constants.tsx:15-58 | five categories with 21, 7, 4, 6 and 2 items, 40 labels in all |
| Catalog.CategoryDistinct | constants.tsx:15-58 | no label repeats inside a category |
| Catalog.CategoriesDisjoint | constants.tsx:15-58 | no label is shared by two categories |
| Catalog.ChecklistDistinct | constants.tsx:61 | the 40 flattened labels are pairwise distinct |
| Catalog.StatusTablesTotal | constants.tsx:70-80 | the colour and icon tables have exactly one entry per status, and the icons differ |
| Catalog.NavItemsDistinct | constants.tsx:63-68 | four navigation entries with distinct ids |
| Reception.CheckAllSpec | components/ReceptionForm.tsx:24 | the reduce adds every listed label as checked and keeps other keys as they were |
| Reception.InitialChecklistSpec | components/ReceptionForm.tsx:24 | the initial checklist has exactly the 40 labels as keys, all checked |
| Reception.InitialFormSpec | components/ReceptionForm.tsx:13-29 | a fresh form is pending, with an empty log and no hours, entered now, no completion date, a six-digit id from the draw and all 40 items checked |
| Reception.ToggleChecklistSpec | components/ReceptionForm.tsx:62-70 | a toggle negates the item, turns a missing item checked, and changes no other key and no other field |
| Reception.ToggleTwice | components/ReceptionForm.tsx:62-70 | toggling a present item twice restores the form |
| Reception.ToggleTwiceMissing | components/ReceptionForm.tsx:62-70 | toggling a missing item twice leaves it present and unchecked, so the form differs from the original |
| Reception.OwnerSet | components/ReceptionForm.tsx:52-58 | an owner change sets the one field and keeps the sibling fields |
| Reception.MotorcycleSet | components/ReceptionForm.tsx:52-58 | a motorcycle change sets the one field and keeps the sibling fields |
| Reception.ApplyInputSpec | components/ReceptionForm.tsx:48-60 | a root change sets only that top-level field; a section change sets only that field of that section and leaves the rest of the form |
| Reception.PlateInputSpec | components/ReceptionForm.tsx:159-160 | the stored plate is the typed text upper-cased, and entering the shown plate again changes nothing |
| Reception.ImageChangeSpec | components/ReceptionForm.tsx:34-46 | an image sets only the named photo field |
| Repository.ReplacedSpec | App.tsx:39-46 | update keeps the length and the ids; every position with the argument's id holds exactly the argument; every other position is unchanged |
| Repository.ReplacedUnknownId | App.tsx:40-42 | updating an id that is not in the collection changes nothing |
| Repository.ReplacedOverrides | App.tsx:40-42 | a later update of the same id overrides an earlier one |
| Repository.RemovedSpec | App.tsx:50 | delete keeps exactly the orders with another id, as often as before, in their relative order, and removes as many as carried the id |
| Repository.RemovedUnknownId | App.tsx:50 | deleting an unknown id changes nothing |
| Repository.RemovedIdempotent | App.tsx:50 | deleting twice equals deleting once |
| Repository.RemovedHasNoId | App.tsx:50 | after a delete no order carries the id |
| Repository.ViewForNavItems | App.tsx:57-76 | each navigation id opens its own screen, and any other tab id shows the dashboard |
| Repository.OrderRepository.constructor | App.tsx:14-15 | the app starts on the dashboard tab with no orders |
| Repository.OrderRepository.SetActiveTab | App.tsx:79 | the navigation changes the tab and not the orders |
| Repository.OrderRepository.Mount | App.tsx:18-20 | after mounting, the orders are what the store holds |
| Repository.OrderRepository.HandleSaveOrder | App.tsx:27-37 | create appends exactly the new order and keeps every earlier one in place; the store then holds the new collection; the tab becomes management |
| Repository.OrderRepository.SubmitReception | components/ReceptionForm.tsx:72-75 | submit stores the form as it stands, with no validation, as the last order, and shows the management screen |
| Repository.OrderRepository.HandleUpdateOrder | App.tsx:39-46 | the orders become the replace-by-id of the argument, the store holds them, and the tab is unchanged |
| Repository.OrderRepository.HandleDeleteOrder | App.tsx:48-55 | a confirmed delete removes the id and the store holds the result; a declined one changes neither the orders nor the store |
| Dashboard.ComputeStats | components/Dashboard.tsx:17-24 | the total is the number of orders, each counter counts its status, and the three counters add up to the total |
| Dashboard.StatusPartition | components/Dashboard.tsx:20-22 | the three status counts add up to the number of orders |
| Dashboard.TallyOfSpec | components/Dashboard.tsx:27-30 | the reduce's table counts every type's orders, lists each present type once, and its counts add up to the number of orders |
| Dashboard.OperationDataSpec | components/Dashboard.tsx:26-36 | the chart lists a type exactly when it occurs, at most once, with its count of at least one, and the values add up to the number of orders |
| Dashboard.RecentSpec | components/Dashboard.tsx:78 | the recent list is the last min(5, n) orders, newest inserted first |
| Dashboard.EmptyDashboard | components/Dashboard.tsx:98 | with no orders every count is zero and both lists are empty |
| Reports.MonthOrdersSpec | components/Reports.tsx:25-28 | the month subset is exactly the orders entered inside the window, both ends included, as often as stored, in original order |
| Reports.ComputeMonthlyStats | components/Reports.tsx:20-41 | the count is the subset's size, the completed ones are counted among it and are no more than the count, and the per-type counts add up to the count |
| Reports.CloseRate | components/Reports.tsx:78 | the rate is the percentage of completed orders, rounded to the nearest integer with halves up, over the count or over 1 when the count is 0 |
| Reports.CloseRateRange | components/Reports.tsx:78 | the rate lies in 0..100 when no more are completed than counted; it is 0 with none completed and 100 when all are completed |
| Reports.MonthlyCloseRateRange | components/Reports.tsx:75-80 | the report's close rate is always between 0 and 100 |
| Text.IncludesAt | components/OrderManagement.tsx:27-29 | `includes` holds exactly when the term occurs as a contiguous slice starting at some position of the text |
| Management.Insert | components/OrderManagement.tsx:32 | inserting adds exactly the one order |
| Management.InsertNewestFirst | components/OrderManagement.tsx:32 | inserting into a newest-first list keeps it newest first |
| Management.SortNewestFirst | components/OrderManagement.tsx:32 | the sort is a permutation of its input with entry dates never increasing |
| Management.FilteredOrdersSpec | components/OrderManagement.tsx:24-33 | the list is newest first, holds every order that matches the id, plate or owner search and the status filter as often as stored, and nothing else |
| Management.FilteredOrdersUnfiltered | components/OrderManagement.tsx:25-32 | an empty search with 'All' lists every order |
| Management.AddProgressUpdateSpec | components/OrderManagement.tsx:202-219 | a photo appends one entry at the end with the fixed note, the photo and the time; earlier entries and all other fields stay |
| Management.EditNoteSpec | components/OrderManagement.tsx:334-338 | a note edit changes only that entry's note; the length, its time and photo, and the other entries stay |
| Management.EditNoteRoundTrip | components/OrderManagement.tsx:334-338 | writing back the current note changes nothing, and the last typed note wins |
| Management.RemoveAt | components/OrderManagement.tsx:342 | removal never lengthens the log |
| Management.RemoveAtSpec | components/OrderManagement.tsx:341-344 | removing index i drops exactly entry i and keeps the rest in order; an index outside the log removes nothing |
| Management.RemoveUndoesAdd | components/OrderManagement.tsx:341-344 | removing the entry a photo just added gives back the order |
| Management.TwoPhotosRemoveFirst | components/OrderManagement.tsx:341-344 | two photos on an empty log, then removing the first, leave only the second |
| Management.SetStatus | components/OrderManagement.tsx:277 | the status selector sets the status only and leaves the completion date |
| Management.SetWorkHours | components/OrderManagement.tsx:290 | the hours become the parsed number, or 0 when the input does not parse; nothing else changes |
| Management.SetTechnicianNotes | components/OrderManagement.tsx:303 | the notes become the typed text; nothing else changes |
| Management.EditorKeepsId | components/OrderManagement.tsx:193-200 | no editor change alters the id, so saving replaces the order the editor was opened on |
| Management.ManagementScreen.constructor | components/OrderManagement.tsx:20-22 | the screen starts with an empty search, 'All' and nothing selected |
| Management.ManagementScreen.SetSearchTerm | components/OrderManagement.tsx:56 | the search box sets the term only |
| Management.ManagementScreen.SetStatusFilter | components/OrderManagement.tsx:62 | the selector sets the status filter only |
| Management.ManagementScreen.Select | components/OrderManagement.tsx:131 | clicking a listed row selects that order, which is in the collection |
| Management.ManagementScreen.Close | components/OrderManagement.tsx:185 | closing clears the selection |
| Management.ManagementScreen.HandleUpdate | components/OrderManagement.tsx:35-38 | the edited copy replaces its id in the collection, the store holds the result, the app's tab is unchanged, and the copy becomes the selected order |
| Management.ManagementScreen.HandleSave | components/OrderManagement.tsx:197-200 | save hands the whole edited copy to the update, the store holds the result, the app's tab is unchanged, and the editor ends closed |
| Vanilla.NewOrderFromFormSpec | index.tsx:302-329 | a vanilla intake order is pending, with an empty checklist, no log, no hours, empty notes, the plate as typed and an empty displacement |
| Vanilla.NextStatus | index.tsx:456 | an advance never leads back to Pendiente |
| Vanilla.AdvancedSpec | index.tsx:456-460 | Pendiente goes to En Proceso keeping the completion date; anything else goes to Completado with the completion date set to now; no other field changes |
| Vanilla.AdvanceTwice | index.tsx:456-460 | two advances always end Completado, stamped with the second time |
| Vanilla.FirstIndexOf | index.tsx:455 | the index is the first order with the id, or -1 exactly when no order has it |
| Vanilla.ListedOrdersSpec | index.tsx:366-371 | the list holds exactly the orders whose plate contains the search case-insensitively or whose id contains it as typed, and which pass the status filter, as often as stored, in reverse insertion order |
| Vanilla.SearchExample | index.tsx:368 | searching "abc" over plates "ABC-123" and "XYZ-987" lists only the first |
| Vanilla.RevenueAppend | index.tsx:427 | the revenue of two batches is the sum of their revenues |
| Vanilla.RevenueMonotone | index.tsx:427 | adding an order with no negative cost never lowers the revenue |
| Vanilla.DashboardFigures | index.tsx:89-95 | the vanilla counters are the status counts and add up to the total; the recent table is the last five orders, newest first |
| Vanilla.VanillaApp.constructor | index.tsx:10-17 | the state starts on the dashboard, with no orders, no search and 'All' |
| Vanilla.VanillaApp.Init | index.tsx:20-25 | start-up loads the store; the store is seeded and reloaded exactly when the first load is empty |
| Vanilla.VanillaApp.SubmitReception | index.tsx:296-339 | the intake pushes exactly one new order at the end, saves the whole collection and switches to the management tab |
| Vanilla.VanillaApp.UpdateStatus | index.tsx:454-465 | a confirmed advance changes only the first order with the id and saves; the length and every other order stay; a declined one changes nothing |
| Vanilla.VanillaApp.SetSearch | index.tsx:406-410 | the search box sets the term only |
| Vanilla.VanillaApp.SetStatusFilter | index.tsx:411-415 | the selector sets the status filter only |
| Vanilla.VanillaApp.SwitchTab | index.tsx:40-50 | any tab id is accepted and nothing else changes |

## Left out

- `utils/pdf.ts` (documents), `components/Layout.tsx`, all markup and styling, and the charts. Only the data they are given is modelled.
- JSON serialisation. A stored collection is taken to load back unchanged. Corrupt text makes `JSON.parse` throw in `getOrders`, and nothing catches it; that path is not modelled.
- `formatCurrency`, `toLocaleString` and the date-fns formatting. Dates are integer timestamps.
- The 'Tasa de Cierre' percentage is computed on integers. The source divides and multiplies in floating point before rounding.
- Work hours and costs are integers. `parseFloat` is a parsed integer or `None` for input that does not parse.
- Case conversion covers ASCII letters only.
- The timers of the notifications and the asynchronous file reads are left out. The models start from each read's result.
- `seedDemoData` is not part of this model. `VanillaApp.Init` takes the demo collection as a parameter, and seeding saves it.
- The mocked average time and trend strings of the reports screen.
- `types.ts` is not part of this model. Statuses and operation types are closed datatypes, so every order has one of the three statuses.
- Management.EditNote: the source writes the note into the entry object shared with the order held by the app. The shallow copies at `components/OrderManagement.tsx:195` and `:335` share it. A note edit followed by cancel therefore still changes the in-memory order. The next save of any order (`App.tsx:30`, `:44` or `:52`) serialises the whole collection, so the edited note also reaches the store. The model edits a value copy and does not capture this aliasing.
- Management.SortNewestFirst: the model keeps orders with equal entry dates in their input order, as the stable built-in sort does. That stability is not stated as a lemma.
- `App.tsx` hands `onDeleteOrder` to `OrderManagement`, but the component never reads it, so no screen offers delete. `HandleDeleteOrder` is modelled as the handler itself.
- The vanilla revenue card is labelled as based on finished jobs, but it sums the cost of every order. The model follows the sum.
- The vanilla `viewTechReport` and `initCharts` globals produce a document and charts and are left out.
- The vanilla markup calls `window.viewOrder` (`index.tsx:129`), `window.exportCSV` and `window.exportFullPDF` (`index.tsx:436-437`), but `index.tsx` never defines them, so clicking those buttons throws. There is nothing to model.
