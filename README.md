# Real-estate marketplace client: a Dafny model of its cache and form

The marketplace front end keeps a client-side cache of a listing contract's
data in the `App` component and collects new listings through the
`PropertyForm` component. This project models both in Dafny and proves how
they behave.

The cache has three parts:

- `properties`: every listing.
- `userProperties`: the listings owned by the selected account.
- `transactionsInProgress`: a table of pending-transaction markers.

Each contract event and each user action is a transition on these three
parts. Everything the chain, the wallet or a library returns is a parameter
of the model: the `getProperty` tuple, the `isOwner` reply, the property
count, each per-index fetch, a sale's new owner, `Date.now()`, and whether
each transaction or conversion threw.

Modules:

- `Wrappers` (wrappers.dfy): `Option`, and `Reply` for an awaited call. A
  reply is either the returned value or the thrown `error.message`.
- `Text` (text.dfy): `indexOf`, `includes` and ASCII `toLowerCase`.
- `RevertReason` (revert_reason.dfy): `message.split(sep)[1] || message`.
- `PropertyCache` (property_cache.dfy): the cached record and the pure
  updaters (find-by-id, upsert, replace, remove, filter), with the two tab views.
- `Markers` (markers.dfy): the marker table as a set of
  `List(n) | Buy(id) | Toggle(id) | Price(id)`. The four key prefixes are
  distinct, so "the key starts with `list-`" is exactly the `List` kind.
- `Client` (app.dfy): the listing guard, the reload loop, and class `App`,
  the component's state fields. Each handler is a method, and its
  postcondition gives the new state through the functions above.
- `PropertyForm` (property_form.dfy): the form record and the guarded
  transitions on it, as pure functions.

The following behaviours are modelled as the code has them:

- `handleListProperty` appends the new listing to both lists without
  looking for its id (App.js:514-515). If the PropertyListed listener
  already upserted it, it appears twice (`ListedThenAppendedDuplicates`).
- The listing marker is keyed by `Date.now()`, not by the property id
  (App.js:466-467). The listener's clearing step therefore leaves it
  alone.
- The "My Properties" tab filters `properties`, not `userProperties`
  (App.js:888-890). After a full reload the two agree
  (`Client.App.LoadProperties`).
- An account switch empties both lists but keeps every pending marker.
- Bedrooms and bathrooms cannot be cleared by typing
  (`WholeNumberFieldsCannotBeCleared`).
- App's `onSubmit`, `handleListProperty`, catches every error itself. So
  once the form's required-field check passes, the form resets,
  whether or not the listing went through.

Re-delivering a PropertyListed event is harmless because the listener
upserts by id (`UpsertIdempotent`). The immediate update in
`handleListProperty` does not upsert, as the first bullet above shows.

## Model

| member | source | states |
|---|---|---|
| `Text.IndexOf` | client/src/App.js:618 | the result is the first occurrence at or after the start index; None means no occurrence |
| `Text.ContainsIff` | client/src/App.js:618 | `includes` holds exactly when the pattern occurs at some index |
| `Text.ToLower` | client/src/App.js:238 | lower-casing keeps the length and lower-cases each character |
| `Text.ToLowerIdempotent` | client/src/App.js:238 | lower-casing twice is lower-casing once |
| `Text.EqualIgnoringCase` | client/src/App.js:238 | the new-owner comparison holds exactly when both addresses have the same length and agree character by character up to ASCII case |
| `RevertReason.SecondPiece` | client/src/App.js:619 | `split(sep)[1]` is undefined exactly when sep is absent; otherwise it is the text between the first and second occurrence, or the end |
| `RevertReason.SecondPieceUnique` | client/src/App.js:619 | element 1 of a split is determined by the message and the separator |
| `RevertReason.ExtractReason` | client/src/App.js:460 | the result is the non-empty second piece, or else the whole message (sep absent or piece empty) |
| `RevertReason.ExtractReasonIsPiece` | client/src/App.js:619 | a non-empty second piece is exactly what is shown |
| `RevertReason.HandlerReason` | client/src/App.js:617-619 | the message shown by the buy, toggle and price handlers (also App.js:681-683 and 740-742) is `split("revert")[1] || message`: the `includes` guard changes nothing, and a message without the keyword is shown whole |
| `RevertReason.SeparatorsDiffer` | client/src/App.js:460 | for any message in which "revert" occurs once, followed by a space and a non-empty reason, the listing dry run (split on "revert ") shows the reason and the other handlers show it with the space in front |
| `RevertReason.TrailingSeparatorShowsWholeMessage` | client/src/App.js:460 | for any separator whose only occurrence ends the message, `split(sep)[1]` is empty and the whole message is shown |
| `RevertReason.TrailingKeywordShowsWholeMessage` | client/src/App.js:681-683 | in the handlers, a message whose only "revert" is at its very end is shown whole |
| `PropertyCache.Format` | client/src/App.js:167-180 | the cached entry carries the given id, the chain's owner and sale flag, and the isOwner reply |
| `PropertyCache.FindIndex` | client/src/App.js:185 | -1 exactly when no entry has the id; otherwise the first index with the id |
| `PropertyCache.Upsert` | client/src/App.js:183-194 | an absent id is appended at the end; otherwise the first entry with the id is overwritten in place |
| `PropertyCache.UpsertIdempotent` | client/src/App.js:183-207 | delivering the same PropertyListed event twice gives the same list as once |
| `PropertyCache.UpsertShape` | client/src/App.js:185-193 | the length grows by one exactly when the id was absent; the property is always present |
| `PropertyCache.UpsertKeepsUniqueIds` | client/src/App.js:198-207 | an upsert never creates duplicate ids |
| `PropertyCache.UpsertIsReplaceWhenUnique` | client/src/App.js:275-279 | on a duplicate-free list, upserting a present id is replacing every entry with that id |
| `PropertyCache.ReplaceById` | client/src/App.js:265-269 | the length is kept, every entry with the id becomes the property, and all others keep position and value |
| `PropertyCache.ReplaceAbsentIsIdentity` | client/src/App.js:266-268 | a PropertySold or refresh for an id not in the list adds nothing and changes nothing |
| `PropertyCache.ReplaceKeepsIds` | client/src/App.js:333-345 | replace-by-id keeps every entry's id and keeps ids unique |
| `PropertyCache.ReplaceIdempotent` | client/src/App.js:333-345 | repeating a replace-by-id (a re-delivered event) changes nothing |
| `PropertyCache.RemoveById` | client/src/App.js:285 | no entry with the id remains; the result holds exactly the entries with other ids, as a subsequence |
| `PropertyCache.RemoveAbsent` | client/src/App.js:285 | filtering out an id that no entry has leaves the list unchanged |
| `PropertyCache.RemoveIdempotent` | client/src/App.js:285 | removing the same id twice gives the list one removal gives, so a re-delivered sale to another account changes nothing more |
| `PropertyCache.RemoveIsFilter` | client/src/App.js:285 | removal is the filter of the list by `q.id !== id`: every other entry stays, in order, duplicates included |
| `PropertyCache.RemoveKeepsOtherCopies` | client/src/App.js:285 | every copy of an entry with another id survives the removal |
| `PropertyCache.RemoveAfterUpsert` | client/src/App.js:272-287 | the two branches of the userProperties update agree on every other id |
| `PropertyCache.RemoveKeepsUniqueIds` | client/src/App.js:285 | removal keeps ids unique |
| `PropertyCache.ListedThenAppendedDuplicates` | client/src/App.js:514-515 | appending any record after the listener's upsert of a record with the same id leaves a duplicate id, even when the two records differ (separate `isOwner` reads) |
| `PropertyCache.AppendedThenListedIsUnique` | client/src/App.js:183-194 | in the opposite order, with both ids as integers, the listener's upsert finds the appended entry and there is no duplicate; see the receipt-id line under "Left out" |
| `PropertyCache.Filter` | client/src/App.js:853-855 | the filter keeps exactly the entries that pass, in order |
| `PropertyCache.FilterKeepsCopies` | client/src/App.js:285 | `filter` keeps every copy of a passing entry and no copy of any other |
| `PropertyCache.MarketplaceView` | client/src/App.js:853-855 | the Marketplace tab shows exactly the entries for sale and not owned by the selected account, in order |
| `PropertyCache.MyPropertiesView` | client/src/App.js:888-890 | the My Properties tab shows exactly the entries of `properties` owned by the selected account, in order |
| `PropertyCache.MyPropertiesViewAppend` | client/src/App.js:403-407 | pushing an entry extends the owned view by it exactly when the account owns it |
| `PropertyCache.ViewsDisjoint` | client/src/App.js:853-890 | no entry appears on both tabs |
| `Markers.Mark` | client/src/App.js:467 | setting a marker adds that key and no other |
| `Markers.Unmark` | client/src/App.js:518-522 | deleting a marker removes that key and no other |
| `Markers.ClearListed` | client/src/App.js:211-215 | the PropertyListed listener deletes only `list-<id>` |
| `Markers.ClearSold` | client/src/App.js:290-294 | the PropertySold listener deletes only `buy-<id>` |
| `Markers.ClearRefreshed` | client/src/App.js:349-354 | the refresh deletes only `toggle-<id>` and `price-<id>` |
| `Markers.SweepListMarkers` | client/src/App.js:533-541 | the sweep deletes exactly the `list-` markers |
| `Markers.ListingMarkerOutlivesListedEvent` | client/src/App.js:466-467 | a timestamp-keyed listing marker survives the listener's clearing for any other number |
| `Markers.MarkThenUnmark` | client/src/App.js:465-522 | setting an absent marker and deleting it restores the table |
| `Markers.RefreshClearsBothKinds` | client/src/App.js:349-354 | after a toggle or a price change, the refresh clears both kinds of marker for that property |
| `Client.ListingCheck` | client/src/App.js:428-444 | the listing goes ahead exactly when size, bedrooms and bathrooms parse and name, location and description are non-empty; a failed parse gives the number error, and otherwise an empty text field gives the missing-fields error |
| `Client.SubmittedFormPassesTextCheck` | client/src/App.js:440-444 | data handed over by the form never fails the listing's required-text check |
| `Client.Loaded` | client/src/App.js:372-411 | a reload of count n yields at most n entries |
| `Client.LoadedAscending` | client/src/App.js:376-411 | ids ascend strictly, lie in 0..n-1 and are unique |
| `Client.LoadedHasId` | client/src/App.js:376-411 | an index below n has an entry exactly when its fetch succeeded |
| `Client.FetchAll` | client/src/App.js:372-411 | the loop yields the specified list (two empty lists for a count of 0 or less), and the owned list is the My Properties view of it |
| `Client.App.constructor` | client/src/App.js:13-22 | the initial state has empty lists, no markers, a closed dialog, account 0 and loading on |
| `Client.App.CurrentAccount` | client/src/App.js:238 | the selected address exists exactly when the index is in range |
| `Client.App.OnPropertyListed` | client/src/App.js:146-222 | the event upserts into properties, and into userProperties only when isOwner; it clears `list-<id>`; a failed fetch changes nothing |
| `Client.App.OnPropertySold` | client/src/App.js:224-305 | the event replaces by id in properties; it upserts into userProperties if the account equals newOwner ignoring case, else removes the id; it clears `buy-<id>`; with no account or a failed fetch nothing changes |
| `Client.App.UpdatePropertyInUI` | client/src/App.js:309-359 | the refresh replaces by id, in userProperties only when isOwner; it keeps both lengths and clears both refresh markers |
| `Client.App.LoadProperties` | client/src/App.js:361-420 | properties becomes the specified reload; userProperties is its owned subsequence; a failed count changes nothing |
| `Client.App.HandleListProperty` | client/src/App.js:422-543 | a guard abort sets no marker; a dry-run revert shows the "revert " reason; a send failure sweeps all list markers; success appends to both lists unchecked and clears `list-<now>` |
| `Client.App.HandleAccountChange` | client/src/App.js:545-552 | switching account empties both lists and both views, sets loading, and keeps the markers |
| `Client.App.ReloadAfterAccountChange` | client/src/App.js:555-563 | with a contract loaded, the switch's reload gives the lists `LoadProperties` gives and then clears loading on every path |
| `Client.App.HandleBuyProperty` | client/src/App.js:566-578 | the confirm dialog opens for the property at its price |
| `Client.App.CancelPurchase` | client/src/App.js:786 | Cancel closes the dialog |
| `Client.App.ConfirmPurchase` | client/src/App.js:580-635 | an owner aborts with no marker; a failure clears `buy-<id>`; success keeps it for the sold event and, when the count returns, reloads `properties` to `Loaded(count)` (or empty for a count of zero or less) with unique ids and `userProperties` as its owned view; a failed count leaves both lists alone; the dialog closes on every path |
| `Client.App.TogglePropertyForSale` | client/src/App.js:637-696 | a non-owner aborts with no marker; a failure clears `toggle-<id>`; on success a returned refresh replaces the entry by id in `properties`, and in `userProperties` when `isOwner`, and clears both markers; a failed refresh leaves both lists alone and keeps the marker |
| `Client.App.UpdatePropertyPrice` | client/src/App.js:698-754 | a non-owner aborts with no marker; a failure clears `price-<id>`; on success a returned refresh replaces the entry by id in `properties`, and in `userProperties` when `isOwner`, and clears both markers; a failed refresh leaves both lists alone and keeps the marker |
| `PropertyForm.Set` | client/src/components/PropertyForm.js:33-36 | the named field takes the value; every other field and the image are unchanged |
| `PropertyForm.HandleChange` | client/src/components/PropertyForm.js:17-37 | text fields are always accepted; a numeric field ignores a non-empty NaN or negative value; bedrooms and bathrooms also ignore non-integers; otherwise the field is set |
| `PropertyForm.ChangeTouchesOnlyItsField` | client/src/components/PropertyForm.js:33-36 | a change either leaves the form as it was or sets only the named field |
| `PropertyForm.WholeNumberFieldsCannotBeCleared` | client/src/components/PropertyForm.js:28-30 | typing "" into bedrooms or bathrooms is ignored |
| `PropertyForm.OtherNumericFieldsCanBeCleared` | client/src/components/PropertyForm.js:21-26 | price and size accept "" |
| `PropertyForm.AcceptedWholeNumberValue` | client/src/components/PropertyForm.js:21-30 | a value accepted into bedrooms or bathrooms parses to a whole non-negative number |
| `PropertyForm.HandleImageChange` | client/src/components/PropertyForm.js:39-56 | no file, a file over 5 MiB, or a type other than JPEG or PNG leaves the form unchanged; an accepted file sets only image and preview |
| `PropertyForm.HandleDrop` | client/src/components/PropertyForm.js:63-82 | a dropped file is stored exactly when it passes the size and type checks; otherwise nothing changes |
| `PropertyForm.DropAgreesWithPicker` | client/src/components/PropertyForm.js:42-80 | the drop zone and the file picker apply the same rule |
| `PropertyForm.ImageSizeBoundary` | client/src/components/PropertyForm.js:42 | exactly 5 MiB is accepted and one byte more is rejected |
| `PropertyForm.RemoveImage` | client/src/components/PropertyForm.js:148 | remove-image clears image and preview and nothing else |
| `PropertyForm.RemoveImageUndoesAttach` | client/src/components/PropertyForm.js:148 | removing the image restores a form that had none |
| `PropertyForm.AllRequiredFilledIff` | client/src/components/PropertyForm.js:88-89 | the submit check passes exactly when all seven fields are non-empty |
| `PropertyForm.HandleSubmit` | client/src/components/PropertyForm.js:84-125 | nothing is submitted when a required field is empty; the data carries the seven fields verbatim, and the preview or "" as imageUrl; the form resets only when onSubmit returns |
| `PropertyForm.SubmitAfterRemoveImage` | client/src/components/PropertyForm.js:99 | with the image removed, the submitted imageUrl is "" |
| `PropertyForm.NoResubmitAfterReset` | client/src/components/PropertyForm.js:107-120 | a reset form hands nothing to onSubmit on the next submit |

## Left out

- Wallet and provider connection (App.js:24-77), contract discovery (App.js:79-122) and event subscription (App.js:137-148, 224-226): network and I/O. The accounts the wallet reports are the constructor's argument.
- The contract calls themselves (`.call()`, `.send()`, receipts): the contract's source is not part of this model. Their results are parameters. An error delivered with an event is folded into the listener's failed fetch, because both leave the state alone.
- `toWei`/`fromWei` (App.js:173, 427, 596, 718): the model carries the chain's price string unconverted, and a conversion enters only as success or failure.
- Async interleaving and React state batching. Each handler runs to completion against the current fields. The listener closures see the `accounts` of the render that set them up, which is not modelled. At App.js:107 that is the empty list from before `setAccounts` takes effect.
- Toasts, `alert`, `console` and rendering. A handler's outcome carries the reason text its toast shows, but not the toast. The toggle toast reads the stale `properties` (App.js:672-676), which is not modelled. `activeTab` and the spinner that hides "My Properties" while loading (App.js:880-894) are not modelled. The views are functions of the list.
- `PropertyCache.AppendedThenListedIsUnique`: holds only because ids are modelled as integers. With the receipt id described on the next line, the listener's `===` would not find the appended entry, and a duplicate would arise in this order too.
- Property ids are integers. The id read from the listing receipt (App.js:490) is whatever web3 decodes: a decimal string for uint256 in web3 1.x. JavaScript's `===` would then never match it with the numeric ids of App.js:156 and 234, and that is not modelled.
- `toLowerCase` is modelled on ASCII letters only. Addresses are ASCII hex.
- `parseFloat` and `parseInt` are given functions, with `None` for `NaN`. Infinity is not representable, so the JavaScript guard's acceptance of "Infinity" for price and size is not modelled.
- `Client.App.ConfirmPurchase` requires the dialog to be open: its Confirm button is rendered only while the dialog is shown (App.js:776-799).
- The account switch's reload is the separate step `ReloadAfterAccountChange`. The effect that re-initialises the contract when the account changes (App.js:79-122, including its `setLoading(false)` at App.js:112) is contract setup and is not modelled. `handleDragOver` (PropertyForm.js:58-61) only stops the browser's default. `URL.createObjectURL` is a parameter.
- test/real_estate_marketplace_test.js tests the contract, whose source is not part of this model. The presentation components PropertyCard, UpdatePriceDialog, ConfirmDialog, PropertyList, UserProperties, LoadingSpinner and Notification are not modelled. Neither is the build configuration.
