# abc_pos point-of-sale core in Dafny

A Dafny model of the core logic of the abc_pos point-of-sale app. The app is a
set of HTTP endpoints on top of the Frappe framework. The model covers five
pieces:

- **Catalog tree builder** (`catalog_tree.dfy`, module `CatalogTree`).
  `build_group_tree` turns flat (group, parent group, item) rows into a
  nested forest. The root level is the most frequent parent group, with ties
  going to the first one seen. At each level, groups are deduplicated by name
  and kept in first-seen order, and each group collects the items of its
  rows. The builder works in two loops (`BuildGroupTree`, `CollectLevel`,
  `AbsorbRow`, `CountParents`, `MostFrequent`). It is proved equal to a
  recursive specification (`Level`/`Node`). The properties of the builder are
  lemmas about that specification.
- **Item-group hierarchy walker** (`hierarchy.dfy`, module `Hierarchy`). The
  depth-first walker of `item.py` runs over an immutable snapshot of the Item
  Group and Item tables. Each child gets its own copy of the set of group ids
  on the current path. This cuts cycles but expands a shared subtree under
  every path that reaches it. The walker methods are proved equal to the
  recursive functions `Walk`/`WalkAll`.
- **Session repository** (`session_repo.dfy`, module `SessionRepo`). The one
  filtered query of `PosSessionRepository.session_find_active`: newest
  first, limit 1, five projected fields. A failing query is an error value
  that is handed back unchanged.
- **Session endpoints** (`pos_session.dfy`, module `PosSession`). The session
  tables form a class, `SessionTable`. Its methods `SessionOpen` and
  `SessionClose` change the tables. The class keeps the invariant "distinct
  session names, at most one Open session per (user, POS profile), a closing
  entry exactly on the Closed sessions".
- **Invoice endpoints** (`pos_invoice.dfy`, module `PosInvoice`). Covered:
  - the bulk item upsert's input check, its column transpose (with its round
    trip) and the totals of its reply;
  - the invoice upsert's customer rule, payment replacement and placeholder
    patch of invoice items, on a document class `InvoiceDoc` and an invoice
    table `InvoiceStore`.

`results.dfy` holds the shared `Option` and `Result` types.

Some inputs come from the outside world and are parameters of the model:

- the session user, the default company and today's date;
- the names the framework gives new documents;
- the stored procedure's reply;
- the outcome of a document save.

A request that raises an exception leaves every table unchanged, because the
framework rolls its transaction back.

## Model

| member | source | states |
|---|---|---|
| CatalogTree.Rate | abc_pos/abc_pos/api/pos_item.py:64 | a truthy standard_rate is copied; a missing or zero one becomes 0.0 |
| CatalogTree.FirstSeenMembers | abc_pos/abc_pos/api/pos_item.py:25-28 | every truthy parent_group of a row is a key of the parent counts |
| CatalogTree.FirstSeenDistinct | abc_pos/abc_pos/api/pos_item.py:25-28 | the counted parent keys are distinct |
| CatalogTree.FirstSeenOrder | abc_pos/abc_pos/api/pos_item.py:25-28 | keys keep insertion order: when key i precedes key j, every row carrying key j comes after some row carrying key i |
| CatalogTree.CountParents | abc_pos/abc_pos/api/pos_item.py:25-28 | the counting loop yields exactly the truthy parents, in first-seen order, each mapped to the number of rows naming it |
| CatalogTree.MostFrequent | abc_pos/abc_pos/api/pos_item.py:32 | the max-by-count loop returns the first key with the largest count |
| CatalogTree.MaxFirstIsMaximum | abc_pos/abc_pos/api/pos_item.py:32 | no key has a larger count than the chosen one |
| CatalogTree.MaxFirstIsFirst | abc_pos/abc_pos/api/pos_item.py:32 | ties go to the earliest key: the chosen key occurs no later than any key with at least its count |
| CatalogTree.SelectRoot | abc_pos/abc_pos/api/pos_item.py:18-33 | root selection equals the specified root: None without a truthy parent, else the most frequent parent |
| CatalogTree.RootNoneIffNoTruthyParent | abc_pos/abc_pos/api/pos_item.py:31-33 | the root stays None exactly when no row has a truthy parent_group |
| CatalogTree.RootIsMostFrequentParent | abc_pos/abc_pos/api/pos_item.py:25-33 | the root is a non-empty parent_group of some row; no parent occurs in more rows; a parent with equal count first occurs no earlier than the root |
| CatalogTree.FirstId | abc_pos/abc_pos/api/pos_item.py:47-49 | a level records an id for a group name exactly when that name occurs at the level |
| CatalogTree.NoItemsOutsideLevel | abc_pos/abc_pos/api/pos_item.py:45-67 | a name that does not occur at a level collects no items there |
| CatalogTree.AbsorbRow | abc_pos/abc_pos/api/pos_item.py:40-67 | one pass of the first loop keeps the collected names, ids and item lists equal to their specification on the rows seen so far |
| CatalogTree.CollectLevel | abc_pos/abc_pos/api/pos_item.py:36-67 | the first loop collects, per level name in first-seen order, the first row's id and the level's items of that name |
| CatalogTree.BuildGroupTree | abc_pos/abc_pos/api/pos_item.py:4-79 | the builder's forest equals the recursive specification of the tree rooted at the selected level |
| CatalogTree.FirstIdIsFirstRow | abc_pos/abc_pos/api/pos_item.py:46-54 | the recorded id is that of the first row of the level carrying the name |
| CatalogTree.NoRowBeforeFirstId | abc_pos/abc_pos/api/pos_item.py:45-55 | when no id is recorded for a name, no row of the level carries it |
| CatalogTree.ItemsOfMembers | abc_pos/abc_pos/api/pos_item.py:57-67 | a group's items are exactly the items of the level's rows with that name and a non-null item_code |
| CatalogTree.ItemsOfAppend | abc_pos/abc_pos/api/pos_item.py:57-67 | items are collected in row order: the items of a concatenation are the concatenation of the items |
| CatalogTree.LevelOneNodePerName | abc_pos/abc_pos/api/pos_item.py:46-55 | a level has a node for a name exactly when some row of that level has the name; names are distinct; every node's parent_group is the level |
| CatalogTree.LevelFirstOccurrenceOrder | abc_pos/abc_pos/api/pos_item.py:70-77 | nodes appear in first-occurrence order of their names |
| CatalogTree.LevelNodeFirstRow | abc_pos/abc_pos/api/pos_item.py:47-54 | a node's id comes from the first row of the level carrying its name |
| CatalogTree.NodeShape | abc_pos/abc_pos/api/pos_item.py:69-77 | every node in the forest has the items and sub-groups computed for its own name with its parent as level, and sits under the chosen root |
| CatalogTree.RowHasNode | abc_pos/abc_pos/api/pos_item.py:40-55 | a row whose parent chain reaches the root yields a node for its group |
| CatalogTree.NodeHasRow | abc_pos/abc_pos/api/pos_item.py:40-55 | every node comes from a row with the same name, parent and id whose parent chain reaches the root |
| CatalogTree.RowItemInForest | abc_pos/abc_pos/api/pos_item.py:57-67 | the item of a row under the root is in its group's node |
| CatalogTree.ForestItemFromRow | abc_pos/abc_pos/api/pos_item.py:57-67 | every item in the forest comes from a row under the root, so unreachable rows appear nowhere |
| CatalogTree.NoSelfParentUnderForest | abc_pos/abc_pos/api/pos_item.py:75 | below the root no row names its own group as parent (the cycle on which the builder would not terminate) |
| Hierarchy.Lookup | abc_pos/abc_pos/api/item.py:62-70 | the group lookup returns a row with that id, or None when the table has none |
| Hierarchy.Format | abc_pos/abc_pos/api/item.py:120-127 | renames name to item_code and stock_uom to uom, copies the other fields, and rate is 0.0 when standard_rate is falsy |
| Hierarchy.FormatAll | abc_pos/abc_pos/api/item.py:117-129 | one formatted entry per item, in order |
| Hierarchy.Walk | abc_pos/abc_pos/api/item.py:49-99 | None exactly when the id is on the path or absent from the table; otherwise the tree has the id and the group's enabled items, and a non-group has no children |
| Hierarchy.BuildGroupWithChildren | abc_pos/abc_pos/api/item.py:49-99 | the recursive walker with its child loop equals Walk |
| Hierarchy.BuildCompleteHierarchy | abc_pos/abc_pos/api/item.py:36-47 | the loop over the root ids equals the walks of the roots with a fresh visited set, resolving ones kept in order |
| Hierarchy.GetItemsForGroup | abc_pos/abc_pos/api/item.py:101-129 | the format loop returns the formatted enabled items of the group, in query order |
| Hierarchy.GroupIds | abc_pos/abc_pos/api/item.py:25 | the root ids are the item_group of each POS item group row, in order |
| Hierarchy.ItemList | abc_pos/abc_pos/api/item.py:6-34 | no item groups for the active profile gives the "No item groups" outcome; otherwise the profile and the hierarchy of its groups |
| Hierarchy.WalkAllMembers | abc_pos/abc_pos/api/item.py:89-93 | the children are exactly the child walks that do not yield None |
| Hierarchy.WalkAllAppend | abc_pos/abc_pos/api/item.py:42-45 | walking a concatenation of ids concatenates the results, so input order is kept |
| Hierarchy.RepeatedRootTwice | abc_pos/abc_pos/api/item.py:42-45 | a root id listed twice yields its tree twice |
| Hierarchy.WalkPathsFresh | abc_pos/abc_pos/api/item.py:57-59 | no tree contains a group that is already on the path to it, so cycles are cut |
| Hierarchy.WalkAllPathsFresh | abc_pos/abc_pos/api/item.py:90-93 | the same for each child tree, under the child's copy of the path |
| Hierarchy.WalkHeight | abc_pos/abc_pos/api/item.py:91 | a tree's height is at most the number of groups not yet on the path |
| Hierarchy.WalkAllHeight | abc_pos/abc_pos/api/item.py:90-93 | the same bound for every child tree |
| Hierarchy.ChildIdsMembers | abc_pos/abc_pos/api/item.py:83-87 | the child query returns exactly the groups whose parent_item_group is the id |
| Hierarchy.ItemQueryMembers | abc_pos/abc_pos/api/item.py:105-115 | the item query returns exactly the items of the group with disabled = 0 |
| Hierarchy.ItemQueryAppend | abc_pos/abc_pos/api/item.py:105-115 | the item query keeps table order |
| SessionRepo.View | abc_pos/abc_pos/repo/pos_session_repo.py:11 | only name, pos_profile, session_status, opening_entry and closing_entry are projected |
| SessionRepo.Newest | abc_pos/abc_pos/repo/pos_session_repo.py:8-17 | None exactly when no row matches; otherwise a matching row with the greatest creation |
| SessionRepo.FindActive | abc_pos/abc_pos/repo/pos_session_repo.py:6-20 | a query failure is returned unchanged; otherwise None exactly when nothing matches, or the projection of a newest matching session |
| PosSession.CompanyOr | abc_pos/abc_pos/api/pos_session.py:57 | a truthy company is kept; otherwise the user's default company |
| PosSession.InvoicesOf | abc_pos/abc_pos/api/pos_session.py:146-161 | the listed invoices are exactly those of the session |
| PosSession.NewestAppended | abc_pos/abc_pos/repo/pos_session_repo.py:12-13 | a matching row created after every other row is the one returned |
| PosSession.ActiveIn | abc_pos/abc_pos/api/pos_session.py:40-51 | None exactly when the user has no Open session, whatever the profile; otherwise the newest Open session of the user |
| PosSession.OpenKeepsValid | abc_pos/abc_pos/api/pos_session.py:59-98 | adding an Open session for a (user, profile) with none Open keeps at most one Open session per (user, profile) and the other table invariants |
| PosSession.CloseKeepsValid | abc_pos/abc_pos/api/pos_session.py:126-128 | closing an Open session and setting its closing entry keeps the table invariant |
| PosSession.OpenedIsActive | abc_pos/abc_pos/api/pos_session.py:92-98 | after a session is opened, find-active for its user returns it |
| PosSession.SessionTable.SessionFindActive | abc_pos/abc_pos/api/pos_session.py:40-51 | find-active on the table: None when the user has no Open session, else the newest one |
| PosSession.SessionTable.SessionOpen | abc_pos/abc_pos/api/pos_session.py:54-104 | fails exactly when an Open session exists for (user, profile) or a name is taken, changing nothing; otherwise appends one Open session and one submitted opening entry with a single Cash row of opening_cash |
| PosSession.SessionTable.SessionClose | abc_pos/abc_pos/api/pos_session.py:107-134 | the close succeeds exactly when a session of that name exists and is Open; it fails with NotFound exactly for an unknown name and with NotOpen exactly for a session that is not Open, changing nothing; on success only the target becomes Closed with its closing entry set, and a submitted closing entry is appended |
| PosSession.SessionTable.InvoiceList | abc_pos/abc_pos/api/pos_session.py:137-163 | an empty id or an unknown session is rejected; count equals the number of orders, which are exactly that session's invoices |
| PosInvoice.GetOr | abc_pos/abc_pos/api/pos_invoice.py:190-198 | a missing key gives the default, null stays null, a given value is returned |
| PosInvoice.ValidateItems | abc_pos/abc_pos/api/pos_invoice.py:178-186 | an empty list is rejected; otherwise it fails at the first item (1-based) lacking a truthy item_code or a present, non-null qty (zero accepted), and passes when every item is valid |
| PosInvoice.ToColumns | abc_pos/abc_pos/api/pos_invoice.py:189-199 | every column has one cell per item; a null qty, rate or amount fails the float conversion |
| PosInvoice.ColumnCells | abc_pos/abc_pos/api/pos_invoice.py:189-199 | cell i of each column is item i's value for that key, or the key's default |
| PosInvoice.ItemsRoundTrip | abc_pos/abc_pos/api/pos_invoice.py:189-199 | zipping the columns back gives every item with its defaults filled in, and an item that gives every key unchanged |
| PosInvoice.ColumnsRoundTrip | abc_pos/abc_pos/api/pos_invoice.py:189-199 | transposing rows built from columns returns the same columns |
| PosInvoice.Total | abc_pos/abc_pos/api/pos_invoice.py:211-212 | a total is undefined exactly when some row holds null for its key |
| PosInvoice.TotalAppend | abc_pos/abc_pos/api/pos_invoice.py:211-212 | totals add up over a split of the reply |
| PosInvoice.Summarize | abc_pos/abc_pos/api/pos_invoice.py:211-223 | count is the number of reply rows, the totals are the sums of base_amount and qty, and a null value fails with the float error |
| PosInvoice.TwoItemExample | abc_pos/tests/test_pos_invoice_item_bulk_upsert.py:124-131 | the two-item reply gives count 2, total qty 3.0 and total amount 220.0 |
| PosInvoice.BulkUpsert | abc_pos/abc_pos/api/pos_invoice.py:148-236 | an invalid list fails with exactly the validation error it deserves (NoItems, or the first failing item's ItemCodeRequired or QtyRequired); a valid list is transposed, sent to the procedure, and its reply summarised or its error wrapped |
| PosInvoice.RejectsUnique | abc_pos/abc_pos/api/pos_invoice.py:178-186 | the validation error a list deserves is unique: the first failing item, with item_code checked before qty |
| PosInvoice.ToPayment | abc_pos/abc_pos/api/pos_invoice.py:56-61 | a payment row copies mode_of_payment and a non-zero amount |
| PosInvoice.ToPayments | abc_pos/abc_pos/api/pos_invoice.py:53-61 | one payment row per input |
| PosInvoice.Placeholder | abc_pos/abc_pos/api/pos_invoice.py:71-77 | empty item_name and description become "asd", an empty uom becomes "Unit", non-empty fields and the rest are unchanged |
| PosInvoice.PlaceholderIdempotent | abc_pos/abc_pos/api/pos_invoice.py:71-77 | patching twice is patching once |
| PosInvoice.CustomerRule | abc_pos/abc_pos/api/pos_invoice.py:38-46 | creating fails for want of a customer exactly when the customer is falsy; updating never does |
| PosInvoice.PaymentRule | abc_pos/abc_pos/api/pos_invoice.py:51-61 | a non-empty list replaces the payments wholesale, one row per input in order; an empty, null or missing one keeps the old payments |
| PosInvoice.ZeroAmountRejected | abc_pos/abc_pos/api/pos_invoice.py:54-55 | a payment with amount 0 fails the request |
| PosInvoice.PatchedResponse | abc_pos/abc_pos/api/pos_invoice.py:68-77 | after a MandatoryError naming an item field, the response holds every item with non-blank name, description and uom, and nothing else changed |
| PosInvoice.PatchedButNotStored | abc_pos/abc_pos/api/pos_invoice.py:66-83 | as written, the patch path answers ok for an invoice that is not stored |
| PosInvoice.RetryingOkIsStored | abc_pos/abc_pos/api/pos_invoice.py:64-83 | the retrying response and the table written by the successful saves (the first save, or the retry after the patch) agree: an ok answer is what the table holds for the invoice, and a failed request writes nothing |
| PosInvoice.RetryingMatchesAsWritten | abc_pos/abc_pos/api/pos_invoice.py:66-83 | the retry changes nothing off the patch path, and a retry that saves gives the as-written response |
| PosInvoice.InvoiceDoc.Update | abc_pos/abc_pos/api/pos_invoice.py:40 | the payload's keys overwrite the document's, and a given items table replaces the items |
| PosInvoice.InvoiceDoc.ReplacePayments | abc_pos/abc_pos/api/pos_invoice.py:51-61 | the reset-and-append loop: all valid gives one row per input; otherwise it stops at the first invalid payment |
| PosInvoice.InvoiceDoc.PatchMissingItemFields | abc_pos/abc_pos/api/pos_invoice.py:71-77 | the in-place loop replaces each item by its placeholder patch |
| PosInvoice.LoadAndApply | abc_pos/abc_pos/api/pos_invoice.py:30-61 | load-or-create, update and payments give the specified prepared invoice or error |
| PosInvoice.InvoiceStore.Upsert | abc_pos/abc_pos/api/pos_invoice.py:28-90 | the response is the prepared invoice after the save outcome; the table changes only when the first save succeeds |
| PosInvoice.InvoiceStore.UpsertRetrying | abc_pos/abc_pos/api/pos_invoice.py:64-90 | with the retry save, every ok response is stored in the table |

## Findings

| source | as written | input that shows it | evidently intended | confidence | as-written member | corrected member |
|---|---|---|---|---|---|---|
| abc_pos/abc_pos/api/pos_invoice.py:68-83 | after a MandatoryError naming item_name, description or uom, the items are patched but nothing saves the document again; the request commits and answers ok | a new invoice INV-1 for customer C-1 whose one item has no item_name, the first save raising MandatoryError("item_name") | save again after the patch, as the "retry save" comment says, and answer ok only when that save succeeds | medium, not executed | PosInvoice.PatchedButNotStored | PosInvoice.InvoiceStore.UpsertRetrying |

`PosInvoice.InvoiceStore.Upsert` keeps the behaviour as written.
`RetryingOkIsStored` and `RetryingMatchesAsWritten` state the corrected
behaviour and how it relates to the written one.

## Left out

- Frappe framework I/O is not modelled: HTTP whitelisting, permissions, `frappe.throw` messages as text, `frappe.log_error`, commits and rollbacks. Errors are datatype values, and a failing request leaves the tables unchanged.
- Floating point: `float()` conversions and float sums are `real` arithmetic; rounding is not modelled.
- Non-numeric strings in qty, rate or amount are not modelled (`float("x")` raising ValueError). Quantities and amounts are `real` values, missing or null.
- The order of the framework's default queries is not modelled. The child-group query, the Item query and the POS Item Group query return rows in table order.
- PosSession.SessionTable.InvoiceList: does not model `order_by="creation desc"`; the orders come in table order.
- SessionRepo.Newest: rows with equal creation keep table order. The database leaves that order unspecified.
- CatalogTree.BuildGroupTree: requires a ghost rank on the group names reachable from the chosen level, with each group ranked below its parent. The source has no cycle guard: on a cycle it recurses until CPython raises RecursionError; the rank only constrains the reachable part.
- Hierarchy.ItemList: with no active session the source dereferences None and raises. The model returns the NoActiveSession outcome instead.
- The check-then-insert race in `session_open` is not modelled; calls are sequential.
- Session status is Open or Closed; other values of session_status are not modelled.
- PosSession.SessionTable.SessionClose: the closing entry's framework-assigned name is a parameter. A name already in use fails with DuplicateName; the framework would generate a fresh one, so the model's success condition also requires that name to be free.
- PosSession.SessionTable.SessionOpen: the framework-assigned names are parameters. A name already in use fails with DuplicateName; the framework would generate a fresh one.
- `pos_invoice_upsert`'s response fields `docstatus` and `as_dict()` are not modelled. The response is the invoice value.
- A non-dict `invoice` argument is not modelled; NotADict covers the empty dict only.
- `pos_invoice_item_void` is not modelled: an insert, a delete and a commit whose atomicity belongs to the database.
- The stored procedure `pos_invoice_item_bulk_upsert` is a parameter returning rows or an error message.
- `item_list_optimized` is not modelled: raw SQL calling an undefined `build_group_tree_optimized`.
- `currency_list` and `currency_list2` are not modelled: SQL pass-through.
- `test_pos_catalog_structure` and `print_tree` in pos_item.py are not modelled: console output.
- auth.py, device_auth.py, the printing modules, hooks.py and the installer are not part of this model.
